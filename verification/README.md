# ADT.ai command line: a verified model

ADT.ai is a command line for Oracle and APEX projects: it exports and compares schemas and APEX
applications, validates compiled objects, searches code and reports a team's commits. This project
models the parts of its CLI layer that carry real invariants and proves them in Dafny. Databases,
git, stored files and the text of regular expressions are arbitrary functions and sequences in the
model, so every result holds whatever they answer.

One module per component:

| file | what it models |
|---|---|
| `RowTicker.dfy` | the validate screen's rows: a main thread against any number of live and stale once-a-second tickers, one step per read or write of a shared field |
| `ColumnFitter.dfy`, `DiffTables.dfy` | the greedy column allocator and its two instances, the object listing and the data block |
| `PrintedTables.dfy` | what the renderer draws of a fitted table, whose headers the fitters leave alone |
| `PrintedBlocks.dfy`, `DataScreen.dfy` | the line a data block prints, from its columns and from a table's rows |
| `ListingScreens.dfy`, `GrantScreen.dfy`, `NameListings.dfy` | the line every listing prints under its own tiers: objects and grants, counts, applications, files, relations and links |
| `NameSplit.dfy` | the optimal split of a line between two names, and the window on a long line |
| `TitleFitter.dfy` | the header of a pair of applications, cut to the screen |
| `Dates.dfy`, `CalendarGrid.dfy` | the Gregorian calendar (section 5.2.2 of ISO 8601-1:2019), the weekend fold, the week-stepping month grid |
| `CalendarCache.dfy`, `CalendarReport.dfy`, `CalendarPages.dfy` | the attribution of commits to branches, the per-author tallies, and the report end to end |
| `AppSearch.dfy`, `AppLocate.dfy` | the early-stopping search for requested applications, over any stream of sightings and over the configured connections |
| `ExportWorklist.dfy` | the schema list that grows while it is walked, and the routing of missing applications |
| `ApexReport.dfy` | the summary and the listings of an application comparison, and the short property names |
| `DataBlock.dfy` | the row block of a data comparison |
| `Selection.dfy` | ids and id ranges on the command line |
| `Gateways.dfy` | gateway lifetime, caching and wrapping |
| `Baseline.dfy` | the newest commit carrying a measured content |
| `Prelude.dfy`, `Grouping.dfy` | lists, stable sorting, text order, dictionaries of lists |

How a claim is made. An operation the source runs as a loop is a method, proved equal to a function
of its inputs or old state; what that operation is for is then proved about the function. Where the
claim is about what a reader sees, the reader is defined separately and knows nothing of the writer:
`RowTicker.Read`, `CalendarGrid.Read`, `DataBlock.ReadFrom`, `Selection.ParseAll`. Where the source
optimises, the plain form is defined separately: the water level of `ColumnFitter.Allocate`, the full
scan of `AppSearch.FullScan`, "no feasible split cuts fewer" of `NameSplit.IsBest`.

## What the proofs found

- The fitters measure and trim cells, but the renderer draws a column at least as wide as its header and
  only a data block's key headers are trimmed along. So a fitted line of 78 can print wider. The exact
  condition is one line to measure: the widths at which the first column would drop below its header
  (`PrintedTables.PrintsWithin`).
- `diff -data` promises that every line fits the 80-column screen, whatever the table's names are
  (`src/adt_ai/cli/diff_data_reporter.py:20-21`, `:203-205`). It does not hold: a block with values keeps to
  the line exactly when it would with the status as it is, `column_name` at 11 and every other column at
  10 or less (`PrintedBlocks.BlockPrints`). One or two key columns always fit (`DataScreen.SmallKeysPrint`);
  three do not once keys and values need ten characters each, and four then pass 80 columns
  (`DataScreen.LongKeysOverflow`, with a table in `DataScreen.FourKeysOverflow`).
- The object listing's documentation calls its cap absolute, and the privilege a short, fixed vocabulary
  (`src/adt_ai/cli/diff_reporters.py:77-84`, `:329-336`). For objects and counts the cap holds
  (`GrantScreen.ObjectScreenFits`, `ListingScreens.TypeCountsPrint`, `ListingScreens.TableCountsPrint`). A
  privilege, however, is what a grant script has between its verb and its `ON`
  (`src/adt_ai/diff/inventory.py:67`, `:320-331`), column list included, and is never trimmed: a grant of
  `UPDATE ("EMERGENCY_CONTACT_PHONE")` passes 80 columns whatever its names (`GrantScreen.CapCanFail`).
  `ListingScreens.IncomingPrints` and `OutgoingPrints` give the exact condition; privilege labels of at most
  24 characters always fit.
- The month grid raises an OverflowError for December 9999 and for no other month
  (`CalendarGrid.Render`, `CalendarGrid.GregorianIsSound`).
- A ticker may paint a clock it computed for the row before (`RowTicker.StaleClockIsPossible`); the
  label it paints is always the open row's.
- The two-name split assumes the other columns leave room for both headers. Where they do not, Python's
  `min` raises a ValueError; `NameSplit.FitNames` says exactly when.
- `_window` exceeds its width exactly when fewer than six characters are left and the match is neither
  in the head nor in the tail, or fewer than three are left (`NameSplit.WindowFits`); a property label of
  more than 68 characters leaves fewer than six. From six on it shows the term whole, as documented, exactly when that
  fits between two ellipses or stands in the head or the tail (`NameSplit.PaneHoldsMatch`), and a part of
  it otherwise (`NameSplit.TermCanBeCut`).
- `block_title` needs three characters of room per name to be sure to end; its own header always leaves
  52 or 56 (`TitleFitter.FitTitle`, `TitleFitter.WithoutRoomItHangs`).
- `debug_wrapped` keeps the guard ahead of every logger exactly when there was no guard or one outermost
  guard (`Gateways.WrapKeepsTheGuardFirst`).

## Model

| member | source | states |
|---|---|---|
| `RowTicker.RunKeeps` | src/adt_ai/cli/commands_validate.py:126-201 | every interleaving of the main thread and any number of live or stale tickers keeps the invariant from which the five results below follow |
| `RowTicker.OpenRowHasItsLabel` | src/adt_ai/cli/commands_validate.py:131-155 | in every reachable state an open row has the newest row's label beside it |
| `RowTicker.PaintIsOfTheOpenRow` | src/adt_ai/cli/commands_validate.py:178-196 | whoever paints, in any run, paints the label of the row open at that moment, and with that row's own clock unless its stop event was already set |
| `RowTicker.StoppedTickerPaintsOnce` | src/adt_ai/cli/commands_validate.py:160-170 | a ticker paints at most once after its own stop event was set |
| `RowTicker.ReadFindsRows` | src/adt_ai/cli/commands_validate.py:126-155 | a transcript the row reader accepts is one block per closed row, label, repaints, one closing line, and then the open row |
| `RowTicker.TranscriptIsRows` | src/adt_ai/cli/commands_validate.py:126-196 | the transcript of every run is such a transcript, so nothing is painted over a closed row |
| `RowTicker.NeverDeadlocked` | src/adt_ai/cli/commands_validate.py:148-196 | in every reachable state some thread can go on: the main thread itself, or the ticker whose lock it waits for |
| `RowTicker.TicksForEver` | src/adt_ai/cli/commands_validate.py:160-196 | from any reachable state with the row open and the lock free, the turns of its waiting ticker, as many as it gets, each add one repaint of the row's own label and clock and change nothing else |
| `RowTicker.LeavesOnlyStopped` | src/adt_ai/cli/commands_validate.py:160-170 | a ticker that has left was told to stop, so the ticker of a row being compiled never has |
| `RowTicker.LeavesAtOnce` | src/adt_ai/cli/commands_validate.py:167-169 | a ticker that is told to stop while it waits, or wakes to a closed row, leaves with its next step |
| `RowTicker.CloseRow` | src/adt_ai/cli/commands_validate.py:138-155 | all of `finish`: the ticker stopped, one closing line, no row open and no label |
| `RowTicker.StoppedTickerRunsDown` | src/adt_ai/cli/commands_validate.py:160-201 | a stopped ticker leaves: each of its own steps brings it closer to its end, and no other thread's step moves it |
| `RowTicker.StaleClockIsPossible` | src/adt_ai/cli/commands_validate.py:166-170 | a run in which a clock measured for one row is painted on the next, which the code does not exclude |
| `ColumnFitter.Shrink` | src/adt_ai/cli/diff_reporters.py:343-378 | the loop that takes one character at a time from the first widest column of the first phase not at its floor ends with the water-level allocation |
| `ColumnFitter.AllocateBounds` | src/adt_ai/cli/diff_reporters.py:343-378 | no column ends wider than it was or narrower than its phases' floors allow, and a line still too wide has every column at that least |
| `ColumnFitter.AllocateExact` | src/adt_ai/cli/diff_reporters.py:344-348 | trimming stops at the first line that fits: a line at or over the budget never ends below it |
| `ColumnFitter.AllocateDisciplined` | src/adt_ai/cli/diff_reporters.py:355-378 | a column that no phase up to some phase names is narrowed only once that phase has every column at its floor |
| `ColumnFitter.AllocateFair` | src/adt_ai/cli/diff_reporters.py:355-378 | once a column was narrowed, no column that gives way wherever it does stands more than one character above it |
| `DiffTables.FitRowsIs` | src/adt_ai/cli/diff_reporters.py:349-352 | a fitted cell is the row's own text, or its start and an ellipsis if it is longer than the column |
| `DiffTables.FitObjects` | src/adt_ai/cli/diff_reporters.py:318-352 | the listing's rows are its cells trimmed to the allocation over the tiers |
| `DiffTables.ObjectsFit` | src/adt_ai/cli/diff_reporters.py:318-378 | over the widths the loop measures, the listing fits exactly when it would with every tier column at four characters; trimmed and fitting it is exactly 78 wide; columns of no tier keep their width |
| `DiffTables.TiersGiveInOrder` | src/adt_ai/cli/diff_reporters.py:355-378 | a column of a later tier is narrowed only once every column of all earlier tiers is at 16 or below |
| `DiffTables.TierSharesTheLoss` | src/adt_ai/cli/diff_reporters.py:355-378 | no column of a tier exceeds a trimmed column of the same tier by more than one |
| `DiffTables.OutcomeIsMaxMin` | src/adt_ai/cli/diff_reporters.py:344-378 | a narrowed column can be wider in another allocation of no longer a line only if one that gives way with it, at most one above it, is narrower |
| `DiffTables.FitData` | src/adt_ai/cli/diff_data_reporter.py:196-225 | the data block's cells and labels are trimmed to the allocation over values, names, and both |
| `DiffTables.DataFits` | src/adt_ai/cli/diff_data_reporter.py:207-235 | over the widths the loop measures, the block fits exactly when it would with every column but the status at four; trimmed and fitting it is exactly 78 wide; `status` is never narrowed |
| `DiffTables.ValuesGiveFirst` | src/adt_ai/cli/diff_data_reporter.py:215-235 | a key or column name is trimmed only once both values are at 12 or below |
| `DiffTables.DataSharesTheLoss` | src/adt_ai/cli/diff_data_reporter.py:215-235 | `source` and `target` never differ by more than one once the shorter was trimmed, and so for the keys and `column_name` |
| `DiffTables.DataIsMaxMin` | src/adt_ai/cli/diff_data_reporter.py:215-235 | a trimmed value, or name, can be wider in another allocation of no longer a line only if a value, or name, at most one above it is narrower |
| `PrintedTables.PrintedWidth` | src/adt_ai/shared/tables.py:103-129 | a fitted column prints at its width, or at its header's length if that is more and the header is not trimmed with it |
| `PrintedTables.LineDrawn` | src/adt_ai/shared/tables.py:35-46 | and so for the whole printed line, labels and all |
| `PrintedTables.PrintsWithin` | src/adt_ai/cli/diff_reporters.py:341-378 | a fitted table prints within 78 if and only if it would with the columns that can give way at the longest of their headers, those listed before it at one less; trimmed and within, it prints at exactly 78 |
| `PrintedBlocks.BlockPrints` | src/adt_ai/cli/diff_data_reporter.py:196-235 | a block with values prints within 78 if and only if it would with `status` at its natural width, `column_name` at 11 and every other column at 10 or less; trimmed and within, it prints at exactly 78 |
| `PrintedBlocks.KeysPrint` | src/adt_ai/cli/diff_data_reporter.py:196-235 | a block without values prints as it is fitted, within 78 if and only if it would with every key at four |
| `PrintedBlocks.TwoKeysPrint` | src/adt_ai/cli/diff_data_reporter.py:196-235 | a block with values and one or two key columns prints within 78 whatever its names and cells |
| `PrintedBlocks.ThreeKeysTooMany` | src/adt_ai/cli/diff_data_reporter.py:196-235 | with three or more, no block does whose keys and values all need ten characters |
| `PrintedBlocks.FourKeysTooMany` | src/adt_ai/cli/diff_data_reporter.py:196-235 | and with four or more such a block prints wider than 80 |
| `DataScreen.SmallKeysPrint` | src/adt_ai/cli/diff_data_reporter.py:87-93 | the block of a table with one key column or two, or with none, prints within 78 |
| `DataScreen.KeysAlonePrint` | src/adt_ai/cli/diff_data_reporter.py:87-93 | so does that of up to nine key columns when no row has values to show |
| `DataScreen.LongKeysOverflow` | src/adt_ai/cli/diff_data_reporter.py:87-93 | a changed row of three keys and two values of ten characters does not print within 78, nor one of four within 80 |
| `DataScreen.FourKeysOverflow` | src/adt_ai/cli/diff_data_reporter.py:203-205 | a table of four key columns whose block prints wider than the screen it is promised to fit |
| `ListingScreens.ListingPrints` | src/adt_ai/cli/diff_reporters.py:318-378 | the printed cap for any columns and tiers with a header of more than four letters among the flexible columns |
| `ListingScreens.PlainListingPrints` | src/adt_ai/cli/diff_reporters.py:318-378 | for all other tiers: the listing prints as it is fitted, within 78 if and only if it would with the flexible columns at four |
| `ListingScreens.ObjectsPrint` | src/adt_ai/cli/diff_reporters.py:188-198 | the object listing prints within 78 if and only if its status column takes at most 48 |
| `ListingScreens.TypeCountsPrint` | src/adt_ai/cli/diff_reporters.py:171-177 | the counts by type do if and only if the count column takes at most 62 |
| `ListingScreens.TableCountsPrint` | src/adt_ai/cli/diff_data_reporter.py:129-135 | the counts by table do if and only if the three counts take at most 57 together |
| `ListingScreens.IncomingPrints` | src/adt_ai/cli/diff_reporters.py:249-257 | the incoming grants do if and only if privilege, status and at most 11 of the owner take at most 42 |
| `ListingScreens.OutgoingPrints` | src/adt_ai/cli/diff_reporters.py:260-268 | the outgoing grants do if and only if privilege, status and at most 11 of the grantee take at most 42 |
| `GrantScreen.ObjectScreenFits` | src/adt_ai/cli/diff_reporters.py:188-198 | whatever its types and names, every list of changed objects prints within 78 |
| `GrantScreen.PrivilegeLabelIs` | src/adt_ai/diff/inventory.py:102-113 | the label is the first privilege, and how many more there are |
| `GrantScreen.IncomingScreenFits` | src/adt_ai/cli/diff_reporters.py:249-257 | every list of incoming grants whose privilege labels have at most 24 characters prints within 78 |
| `GrantScreen.OutgoingScreenFits` | src/adt_ai/cli/diff_reporters.py:260-268 | and every such list of outgoing grants |
| `GrantScreen.LongPrivilegeOverflows` | src/adt_ai/diff/inventory.py:102-113 | a missing incoming grant whose privilege label has 33 characters prints wider than 80, whatever its names |
| `GrantScreen.CapCanFail` | src/adt_ai/cli/diff_reporters.py:329-336 | a grant of a column privilege for which the documented absolute cap does not hold |
| `NameListings.PagePrints` | src/adt_ai/cli/diff_apex_reporter.py:96-97 | a page's listing prints within 78 if and only if the status, at most 8 of the type and at most 7 of the name take at most 59 |
| `NameListings.SummaryPrints` | src/adt_ai/cli/diff_apex_reporter.py:89 | an application's summary does if and only if its three counts take at most 56 together |
| `NameListings.FilesPrint` | src/adt_ai/cli/diff_apex_reporter.py:98-107 | a workspace's files do if and only if size and status take at most 66 together |
| `NameListings.RestoredPrints` | src/adt_ai/cli/diff_pull.py:95-99 | the restored files do if and only if the status takes at most 69 |
| `NameListings.RelationsPrint` | src/adt_ai/cli/commands_search_term.py:335-344 | the relations do if and only if relation, type and at most 5 of the name take at most 61 |
| `NameListings.LinksPrint` | src/adt_ai/cli/commands_search_term.py:347-358 | the page links do if and only if all but the component take at most 55 |
| `NameSplit.BestSplit` | src/adt_ai/cli/commands_search_term.py:288-293 | the least of a non-empty range under `cuts`, the narrowest second column on a tie |
| `NameSplit.SplitTwo` | src/adt_ai/cli/commands_search_term.py:282-301 | the split spends the line exactly, no feasible split of any kind cuts fewer values, a tie gives the first name the wider column; without room for both headers it fails |
| `NameSplit.FitNames` | src/adt_ai/cli/commands_search_term.py:263-301 | which of the four outcomes occurs, each exactly: rows whole, one name cut to what is left or its header, two names split best, or the ValueError |
| `NameSplit.SplitCells` | src/adt_ai/cli/commands_search_term.py:294-309 | every name cell fits its column, is unchanged if it did before, and no other cell changes |
| `NameSplit.CountedIsCut` | src/adt_ai/cli/commands_search_term.py:288-291 | from four characters on `cuts` counts exactly the values a cut changes |
| `NameSplit.CutCell` | src/adt_ai/cli/commands_search_term.py:304-309 | a value that fits is untouched; a cut path keeps its end, anything else its start |
| `NameSplit.MatchIs` | src/adt_ai/cli/commands_search_term.py:324 | the match is the first place where the term stands letter by letter but for the case |
| `NameSplit.WindowIs` | src/adt_ai/cli/commands_search_term.py:312-332 | from six characters on: a line that fits is shown whole; the head if there is no match or it ends there; the tail if it begins there; else the match in the middle of what two ellipses leave |
| `NameSplit.WindowFits` | src/adt_ai/cli/commands_search_term.py:312-332 | the exact condition for the window to stay within its width, and that it fills any width from six on |
| `NameSplit.PaneHoldsMatch` | src/adt_ai/cli/commands_search_term.py:324-332 | for a window of six characters and more, the slice shown holds the whole match if and only if the term fits in the width less six or the match is in the head or the tail |
| `NameSplit.WindowShowsTheMatch` | src/adt_ai/cli/commands_search_term.py:312-332 | the window contains the whole first match, in the line's own case, when the term fits in the width less six or the match is in the head or the tail |
| `NameSplit.WindowCutsTheMatch` | src/adt_ai/cli/commands_search_term.py:330-332 | in every other case it shows exactly the first characters of the match that fit between two ellipses |
| `NameSplit.TermCanBeCut` | src/adt_ai/cli/commands_search_term.py:312-332 | a line, a term of five and a width of ten for which the term is not shown whole |
| `NameSplit.WindowCanOverflow` | src/adt_ai/cli/commands_search_term.py:312-332 | the same line at a width of five, for which six characters are shown |
| `TitleFitter.FitTitle` | src/adt_ai/cli/diff_apex_reporter.py:176-183 | the loop ends; what overflowed fills the room exactly; each name is the original or a proper part of its start and an ellipsis; no name exceeds a cut one by more than one |
| `TitleFitter.BlockTitle` | src/adt_ai/cli/diff_apex_reporter.py:170-183 | the header line never passes 78 characters, and is exactly 78 if a name was cut |
| `TitleFitter.Turn` | src/adt_ai/cli/diff_apex_reporter.py:179-182 | one cut shortens the names without their ellipsis, though it can lengthen the line, and never undershoots the room |
| `TitleFitter.WithoutRoomItHangs` | src/adt_ai/cli/diff_apex_reporter.py:179-182 | two names and a room of five at which the loop body changes nothing |
| `Dates.DateOfDayNumber` | src/adt_ai/calendar/render.py:22-26 | stepping day by day to a date's day number gives that date |
| `Dates.DayNumberOfDate` | src/adt_ai/calendar/render.py:22-26 | and the date so reached has that day number, so the two are inverse |
| `Dates.LeapIs` | src/adt_ai/calendar/render.py:22-26 | the leap years are those of the Gregorian calendar |
| `Dates.DaysInIs` | src/adt_ai/calendar/render.py:22-26 | the months have the lengths of the Gregorian table |
| `Dates.WeekdayClosed` | src/adt_ai/calendar/render.py:23 | the weekday of a day number is its remainder in weeks from a Monday |
| `Dates.FoldStaysInMonth` | src/adt_ai/calendar/runner.py:336-347 | the fold gives a Monday to Friday of the same month and year: the date itself, the Friday before, or at the month's opening weekend the Monday after |
| `Dates.OffsetSteps` | src/adt_ai/calendar/runner.py:350-357 | offset 0 is the month itself and one more is exactly one calendar month earlier, across year ends |
| `CalendarGrid.PrintWeek` | src/adt_ai/calendar/render.py:31-41 | one printed week: dates, as many rows as the fullest day needs, a blank line |
| `CalendarGrid.Render` | src/adt_ai/calendar/render.py:17-41 | the loop ends with exactly the weeks that touch the month, or overflows when the day after the month has no date |
| `CalendarGrid.GridIsComplete` | src/adt_ai/calendar/render.py:17-41 | read off the screen, every weekday of the month heads exactly one column holding exactly its entries in order, and a weekend heads none |
| `CalendarGrid.GridHeads` | src/adt_ai/calendar/render.py:22-33 | every header has five columns, Monday to Friday, dated exactly by days of the month on that weekday |
| `CalendarGrid.GregorianIsSound` | src/adt_ai/calendar/render.py:22-30 | what the loop relies on holds of every Gregorian month; the overflow is December 9999 alone |
| `CalendarCache.ReadBranch` | src/adt_ai/calendar/runner.py:223-238 | one branch's records add that branch to exactly the commits not skipped as inherited |
| `CalendarCache.CommitsFromCache` | src/adt_ai/calendar/runner.py:198-239 | each attributed commit appears once, with exactly its branches and the fields of a stored record |
| `CalendarCache.Attribution` | src/adt_ai/calendar/runner.py:206-238 | a commit of the default branch belongs to that branch alone, or to none if it is not selected; any other to exactly the selected branches holding it |
| `CalendarCache.AnyOrder` | src/adt_ai/calendar/runner.py:222-238 | the order of the branches does not change the attribution |
| `CalendarReport.Aggregate` | src/adt_ai/calendar/runner.py:100-145 | the authors are exactly those with a counted commit, once each in order, with their sorted tallies |
| `CalendarReport.TallyDays` | src/adt_ai/calendar/runner.py:123-127 | for any kind of label a day's counts add up to the author's commits of that day with such a label |
| `CalendarReport.TallySets` | src/adt_ai/calendar/runner.py:128-131 | the tickets and pull requests counted are exactly those of the author's commits |
| `CalendarReport.CellIs` | src/adt_ai/calendar/runner.py:123-142 | a reported day has one line per label its commits carry, with their number, in the order of the labels |
| `CalendarReport.OneDayEach` | src/adt_ai/calendar/runner.py:112-127 | the commits reported per day of the month add up to the author's commits |
| `CalendarReport.NothingVanishes` | src/adt_ai/calendar/runner.py:107-146 | the rendered screen of a tally shows, under each weekday, for each label the number of commits folded there, and all counts on it add up to the commit count |
| `CalendarPages.CountedAs` | src/adt_ai/calendar/runner.py:106-127 | a commit is counted for an author, a day and a label exactly when it is the author's, has a ticket, a pull request or a branch of the prefix if there is a prefix, was made on that day, or on the weekend folded into it, and carries that label |
| `CalendarPages.FoldIs` | src/adt_ai/calendar/runner.py:336-347 | the day of a weekday commit is its own, of a weekend commit the Friday before, or the Monday after where that Friday is in the month before |
| `CalendarPages.LabelIs` | src/adt_ai/calendar/runner.py:277-293 | the pull request leads with the ticket behind it, else the ticket, else the branch, else seven characters of the id |
| `CalendarPages.PageTells` | src/adt_ai/calendar/runner.py:103-146 | a page shows under each weekday, for each label, the number of the author's commits that belong there, in the order of the labels, and the author's commits, tickets and pull requests in its header |
| `CalendarPages.Calendar` | src/adt_ai/cli/commands_history.py:333-373 | end to end from the stores: unless the month is December 9999, every author with a counted commit has exactly one page, in the order of the names, and it tells all of the author's commits by the days they were made and their labels |
| `AppLocate.ApexRun.Locate` | src/adt_ai/cli/export_apex_locate.py:55-107 | with ranges or no gateway it does nothing; otherwise, told from the connections alone: an id is not found exactly when it is requested, on no list, and neither the own nor any configured connection sees it; it is not configured exactly when the application it is first found as has a foreign owner, and then exactly the connections that see it are named; every other wanted id is filed once, under its owner's list |
| `AppLocate.ApexRun.ReadAnswer` | src/adt_ai/cli/export_apex_locate.py:89-100 | reading one connection's answer is the scan of its rows, on the run's own lists |
| `AppLocate.ApexRun.Place` | src/adt_ai/cli/export_apex_locate.py:110-123 | the application is appended to its configured owner's list or its own owner's, a new owner being named once |
| `AppSearch.LookupIs` | src/adt_ai/cli/export_apex_locate.py:76-117 | an owner is configured exactly when a name equals it in upper case, and is then the last such name |
| `AppSearch.AskingIsEnough` | src/adt_ai/cli/export_apex_locate.py:88-92 | asking a connection only for the missing ids changes nothing against reading all it sees |
| `AppSearch.ScanClassifies` | src/adt_ai/cli/export_apex_locate.py:89-106 | for every id the first sighting decides: unseen, placed under a configured owner, or reached with exactly the schemas that see it |
| `AppSearch.ScanFiles` | src/adt_ai/cli/export_apex_locate.py:94-122 | each owner's list grows by exactly the first sightings that belong to it, in order, and the owners named are exactly the new ones |
| `AppSearch.ScanMisses` | src/adt_ai/cli/export_apex_locate.py:91-96 | what stays missing is the wanted ids in order without those placed |
| `AppSearch.FirstsAreFirst` | src/adt_ai/cli/export_apex_locate.py:91-97 | every wanted id that is seen at all is filed exactly once |
| `AppLocate.ApexRun.AskAll` | src/adt_ai/cli/export_apex_locate.py:83-103 | the loop that drops ids and stops early leaves exactly what reading all that every connection sees would |
| `AppLocate.SearchOrderIs` | src/adt_ai/cli/export_apex_locate.py:77-80 | the connections asked are the own one, first, and the configured ones, none twice |
| `AppLocate.OwnGoesFirst` | src/adt_ai/cli/export_apex_locate.py:77-80 | the others follow in the order they are configured |
| `AppLocate.FirstIsFound` | src/adt_ai/cli/export_apex_locate.py:83-98 | the first sighting is the own connection's first application of that id, or else that of the first configured connection to see it, and there is none exactly when no connection does |
| `AppLocate.ScanFinds` | src/adt_ai/cli/export_apex_locate.py:64-106 | the report of the search, id by id, and the owner and the sorted schemas of every id not configured |
| `AppLocate.ScanFilesIds` | src/adt_ai/cli/export_apex_locate.py:94-122 | each list gains exactly the wanted applications whose owner is, or is configured as, that list's, each id once; the owners reported are the new lists |
| `AppLocate.ReportInOrder` | src/adt_ai/cli/export_apex_locate.py:103-106 | what is not found stands in the order requested, what is not configured in the order found |
| `ExportWorklist.ResolveOwners` | src/adt_ai/cli/export_apex_owners.py:186-205 | the ids split by owner into the owners' lists in order of appearance, the foreign and the unseen, duplicates included |
| `ExportWorklist.ExportRun.AddReached` | src/adt_ai/cli/commands_export_apex.py:331-347 | exactly the named applications the connection sees and the list lacks are appended, once each |
| `ExportWorklist.ExportRun.AppendOwners` | src/adt_ai/cli/commands_export_apex.py:298-313 | the schema list grows by the owners not on it, each once and with its scope |
| `ExportWorklist.ExportRun.Route` | src/adt_ai/cli/commands_export_apex.py:264-328 | routing changes nothing if nothing is missing; otherwise each occurrence of a missing id has one fate and the lists, scopes, additions and report carry it out |
| `ExportWorklist.ExportRun.RunOne` | src/adt_ai/cli/commands_export_apex.py:193-254 | one segment: own applications, the routing in the last original one only, the export of the list as it then stands |
| `ExportWorklist.ExportRun.Run` | src/adt_ai/cli/schema_sections.py:34-50 | the walk over the growing list ends with one segment per schema in order and at most one routing; the exit code is 0 exactly when no segment ended in another, and otherwise the first other one, all before it being 0; only an exception stops the walk, in the last segment |
| `ExportWorklist.NoSchemaTwice` | src/adt_ai/cli/commands_export_apex.py:264-313 | the final list is the original one and new owners, without a repetition |
| `ExportWorklist.FateMeans` | src/adt_ai/cli/commands_export_apex.py:278-328 | the fate of a missing id from what the connection answers: not reached when it has no owner there, or a foreign one and the connection does not see it; exported when it does see it; else routed to, or owned by, the configured schema of that name, as that is listed or not |
| `ExportWorklist.OwnIs` | src/adt_ai/cli/commands_export_apex.py:200-208 | a schema's own applications are those its discovery gives and the selection keeps |
| `ExportWorklist.EveryIdSettled` | src/adt_ai/cli/commands_export_apex.py:278-328 | after a finished run each requested id is listed by an original schema, and then never counted as missing, or it is in the scope of a new segment, owned by a listed schema, exported by the last original segment, or reported |
| `ExportWorklist.SoleOwnerOwnsAll` | src/adt_ai/cli/export_apex_owners.py:138-148 | the one-connection shortcut is taken exactly when there is a request and all of it has that one owner |
| `ApexReport.ShortNamesDiffer` | src/adt_ai/cli/diff_apex_reporter.py:248-258 | different property paths never read alike, shortened or whole |
| `ApexReport.ComponentLinesAre` | src/adt_ai/cli/diff_apex_reporter.py:198-208 | the first line is the component's kind, name and status with its own properties if it changed; one line follows for each sub-component with a property, in order of appearance |
| `ApexReport.NamesAre` | src/adt_ai/cli/diff_apex_reporter.py:242-258 | a line names every one of its properties in order, by what follows the last dot, or whole where another ends alike |
| `ApexReport.ListComponent` | src/adt_ai/cli/diff_apex_reporter.py:198-208 | a component's lines are its own and one per sub-component in order of appearance |
| `ApexReport.EveryPropertyListed` | src/adt_ai/cli/diff_apex_reporter.py:200-207 | every changed property stands behind exactly one of those lines |
| `ApexReport.SubLineIs` | src/adt_ai/cli/diff_apex_reporter.py:205-222 | a sub-component reads `MISSING` or `EXTRA` exactly when one side has none of its properties, and names its properties only otherwise, and has the kind and the indented name of its owner path |
| `ApexReport.PageListsItself` | src/adt_ai/cli/diff_apex_reporter.py:186-195 | a page's own line is listed unless it changed only below it, its sub-components always |
| `ApexReport.OneSidedApplication` | src/adt_ai/cli/diff_apex_reporter.py:111-125 | an application only one side has is counted once and has no listings |
| `ApexReport.Summarize` | src/adt_ai/cli/diff_apex_reporter.py:122-138 | the summary is a row per page and a row per type outside a page |
| `ApexReport.TypeRowCounts` | src/adt_ai/cli/diff_apex_reporter.py:127-146 | a type's row counts, for each status, the lines of that type and status shown outside the pages, and `APP FILE` the files |
| `ApexReport.SummaryConserves` | src/adt_ai/cli/diff_apex_reporter.py:122-146 | for each status the summary's cells total the lines of all components and the files |
| `ApexReport.ExpandedRows` | src/adt_ai/cli/diff_apex_reporter.py:225-239 | a line is listed once per property it names, or once, each row repeating its type, name and status |
| `ApexReport.PagesAgree` | src/adt_ai/cli/diff_apex_reporter.py:111-119 | each page's summary row counts exactly the lines its listing expands, which has a row per changed property or one where there is none |
| `ApexReport.OneRowPerType` | src/adt_ai/cli/diff_apex_reporter.py:127-137 | every type there is a line of outside a page, or a file, has exactly one row of the summary after the pages' rows, counting that type's lines |
| `ApexReport.EveryRowHasALine` | src/adt_ai/cli/diff_apex_reporter.py:127-137 | and every row after the pages' rows is of a type there is such a line or file of |
| `DataBlock.TableRows` | src/adt_ai/cli/diff_data_reporter.py:138-156 | the block is the rows' own lines one after the other |
| `DataBlock.ShownIs` | src/adt_ai/cli/diff_data_reporter.py:166-172 | a changed row shows all its values, a one-sided row none on screen and in a keyed table's log exactly those its side holds |
| `DataBlock.BlockIsLossless` | src/adt_ai/cli/diff_data_reporter.py:138-188 | a reader who starts a row at each status gets one entry per row in order |
| `DataBlock.ReaderFinds` | src/adt_ai/cli/diff_data_reporter.py:138-188 | and the entry has the row's own key cells under their `key:` names, its status word, and its shown values in order, each with its column, the source's text under `source` and the target's under `target`, a missing one being `NULL` in a changed row and blank in a one-sided one |
| `DataBlock.ContinuationsAreBlank` | src/adt_ai/cli/diff_data_reporter.py:153-156 | on every further line of a row the key cells are blank |
| `DataBlock.ValueColumnsShown` | src/adt_ai/cli/diff_data_reporter.py:144-156 | the block has value columns exactly when some row shows a value |
| `DataBlock.BlockHeight` | src/adt_ai/cli/diff_data_reporter.py:145-155 | the block has a line per shown value and at least one per row, or one per row when no values are shown |
| `Selection.ParsePrinted` | src/adt_ai/cli/context_apex.py:58-75 | parsing a printed plain id, `MIN-MAX` or `MIN+` gives it back |
| `Selection.ParseIs` | src/adt_ai/cli/context_apex.py:58-75 | what every token is: digits and a plus an open range; digits, a dash and digits a closed one, or the error that its bounds are upside down; any other token with a sign the other error; the rest plain ids |
| `Selection.ParseSelection` | src/adt_ai/cli/context_apex.py:42-56 | ids and ranges are collected in order, the first bad token being the error |
| `Selection.StripIs` | src/adt_ai/cli/context_apex.py:137-143 | stripping takes the white space of both ends and nothing else |
| `Selection.GroupingIsFree` | src/adt_ai/cli/context_apex.py:134-143 | how items are grouped does not change the tokens |
| `Selection.CommasAreFree` | src/adt_ai/cli/context_apex.py:137-143 | nor does joining items by commas |
| `Selection.RoundTrip` | src/adt_ai/cli/context_apex.py:42-75 | printed tokens, joined and grouped in any way, parse back to the same ids and ranges in order |
| `Selection.SelectKeeps` | src/adt_ai/cli/context_apex.py:42-56 | a selection holds the plain ids and the ranges of its tokens, each in order |
| `Selection.SelectedByTokens` | src/adt_ai/cli/context_apex.py:167-177 | an id is selected exactly when a token is that id or a range it lies in |
| `Selection.SpanIsTight` | src/adt_ai/cli/context_apex.py:27-40 | the span covers every range, its low is attained, its high is attained or open exactly when a range is open |
| `Selection.AdmittedInSpan` | src/adt_ai/cli/context_apex.py:167-177 | an id selected by a range lies in the span |
| `Selection.SpanEndsSelected` | src/adt_ai/cli/context_apex.py:27-40 | both ends of the span are selected ids |
| `Gateways.GatewayScope.Track` | src/adt_ai/cli/gateways.py:56-61 | a gateway is kept once by identity however often it is tracked |
| `Gateways.GatewayScope.Close` | src/adt_ai/cli/gateways.py:71-80 | closing calls every tracked gateway exactly once, in reverse order of first tracking, whatever it raises, and empties the scope |
| `Gateways.ClosedOnceEach` | src/adt_ai/cli/gateways.py:56-80 | that order closes no object twice and none untracked |
| `Gateways.SchemaFactory.Get` | src/adt_ai/cli/gateways.py:177-197 | a schema's gateway is built, tracked and wrapped once and every later call returns that object |
| `Gateways.WrapKeepsTheGuardFirst` | src/adt_ai/cli/gateways.py:154-174 | wrapping adds one logger, keeps the guard outermost, and keeps the guard ahead of every logger exactly when it could be |
| `Gateways.BuiltStaysGuarded` | src/adt_ai/cli/gateways.py:146-174 | a built gateway wrapped any number of times keeps its one guard first |
| `Baseline.CommitsAtHashes` | src/adt_ai/cli/export_db_baseline.py:185-211 | a measured file has an entry exactly when a scanned commit recorded its hash, and it is the greatest such commit number; a failed scan gives none |
| `Baseline.NewestMatchIsUnique` | src/adt_ai/cli/export_db_baseline.py:207-211 | those two facts determine the answer |

## Left out

- The row ticker is a transition system on values, not a class: its steps interleave, so `begin`, `finish` and `_tick` have no state of their own between them. Only live rendering is modelled, `begin` and `finish` alternate and `finish` is given the row's own label, as `RowTicker` states; the number in a clock is reduced to the row it was measured for.
- CalendarPages.Calendar: assumes that a month read of a store returns commits dated in that month, and takes the month as its first day; the reading of author dates, `canonical_author`, ticket, pull request and prefix scans are parameters.
- CalendarGrid.Render: what is printed before December 9999 overflows is not specified.
- AppLocate.ApexRun.Locate: a connection answers an id query with the rows of its own view that carry those ids; resolving the connection itself, which can raise, is not modelled.
- ExportWorklist.ExportRun.Run: connection blocks, the compile check and the export itself are reduced to how a segment ends, an exit code or an exception.
- DiffTables.TiersGiveInOrder: the tiers are disjoint, as all of the source's are.
- NameSplit.FitNames: requires the name columns the hit tables have, alone or as `file` and `scope` or `object` and `type`; all of them have at least four letters, which is why the four characters of a missing value's `str` never matter.
- NameSplit.WindowShowsTheMatch: `lower` is a map of characters that keeps the length.
- Selection.RoundTrip: digits are ASCII and white space is blank, tab, newline and return; plain ids hold no sign, comma or white space, as the grammar has it.
- DataBlock.BlockIsLossless: column names are not blank; a NULL and the text `NULL` print alike by design.
- DiffTables.FitObjects: the rendering of a path cell by the shared table module is not part of this model; a cell prints its text.
- GrantScreen.CapCanFail: the text of a grant script and the pattern that reads its privileges are not part of this model; a grant has a list of privileges of any text.
- DataScreen.SmallKeysPrint: a table has a row, and its key columns have different names.
- CalendarCache.CommitsFromCache: when stores disagree about one commit's fields, which of them is kept is not stated.
- Gateways.GatewayScope.Close: the scope's lock is not modelled; one thread tracks and closes.
- Argument declarations, help texts, flag refusals and the JSON recorders: finite case analysis and field copies.
- The command bodies of patch, recompile, ut, doctor and connection: their logic lives in modules outside the CLI layer.
- `-page` and `-component` filters: the same range parser over another list.
