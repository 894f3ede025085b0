/**
 The once-a-second row ticker of `ConsoleValidateReporter`: a main thread that opens
 and closes rows with `begin`/`finish`, one daemon ticker per row, and one paint lock.

 Every read and every write of a shared field is its own step, so a run of this
 machine is one interleaving of the threads.  A row is known by its position in
 `names`; two rows may carry the same label text.
 */
module RowTicker {
  import opened Prelude

  /** What reaches the terminal.  `since` is the row whose start time the clock was
      measured from, `late` whether the stop event of the thread painting was already set; `painter` is
      the ticker that painted, or None for the paint `begin` makes itself. */
  datatype Event =
    | Announce(text: string)
    | Paint(drawn: Option<string>, painter: Option<nat>, since: nat, late: bool)
    | Close(text: string)

  /** Where a thread stands inside `_repaint`. */
  datatype Brush = Wanting | Holding | SawOpen | SawLabel | Leaving

  datatype MainPc =
    | Idle                  // between `finish` and the next `begin`
    | Timed                 // `_started` written
    | Announced             // the label is on screen
    | Labelled              // `_label` written
    | Opening(brush: Brush) // `_row_open` written; inside begin's own `_repaint`
    | Painted               // `_repaint` returned; the ticker is not started yet
    | InRow                 // `begin` returned, the compile runs
    | Stopping              // the row's stop event is set
    | Closing               // holds the lock, `_row_open` still true
    | Closed                // `_row_open` false, the closing line not printed yet
    | Printed               // the closing line is printed, the lock still held
    | Released              // the lock is free, `_label` not cleared yet

  datatype TickerPc =
    | Waiting                          // inside `stop.wait`
    | Woken                            // the wait timed out
    | SawRow                           // read `_row_open` true, outside the lock
    | Painting(brush: Brush, since: nat)
    | Done

  datatype Ticker = Ticker(pc: TickerPc, stopped: bool)

  datatype Lock = Free | Main | By(ticker: nat)

  datatype State = State(
    main: MainPc,
    names: seq<string>,      // the label of every row begun so far
    rowOpen: bool,
    rowLabel: Option<string>,
    started: nat,            // the row `_started` was written for
    lock: Lock,
    tickers: seq<Ticker>,    // ticker i was started by row i
    log: seq<Event>)

  const INIT := State(Idle, [], false, None, 0, Free, [], [])

  /** One atomic step of one thread.  `text` is the label the next `begin` is given. */
  datatype Action = MainStep(text: string) | TickerStep(ticker: nat)

  predicate Enabled(s: State, a: Action) {
    match a
    case MainStep(_) =>
      if s.main == Opening(Wanting) || s.main.Stopping? then s.lock.Free?
      else s.names != [] || s.main.Idle?
    case TickerStep(i) =>
      && i < |s.tickers|
      && !s.tickers[i].pc.Done?
      && (s.tickers[i].pc.Painting? && s.tickers[i].pc.brush.Wanting? ==> s.lock.Free?)
  }

  function Do(s: State, a: Action): State
    requires Enabled(s, a)
  {
    match a
    case MainStep(text) => DoMain(s, text)
    case TickerStep(i) => DoTicker(s, i)
  }

  /** `begin` from line 127 to 136, then `finish` from line 144 to 155. */
  function DoMain(s: State, text: string): State
    requires Enabled(s, MainStep(text))
  {
    match s.main
    case Idle => s.(main := Timed, names := s.names + [text], started := |s.names|)
    case Timed => s.(main := Announced, log := s.log + [Announce(Last(s.names))])
    case Announced => s.(main := Labelled, rowLabel := Some(Last(s.names)))
    case Labelled => s.(main := Opening(Wanting), rowOpen := true)
    case Opening(brush) => (
      match brush
      case Wanting => s.(main := Opening(Holding), lock := Main)
      case Holding => s.(main := Opening(if s.rowOpen then SawOpen else Leaving))
      case SawOpen => s.(main := Opening(if s.rowLabel.Some? then SawLabel else Leaving))
      case SawLabel =>
        s.(main := Opening(Leaving), log := s.log + [Paint(s.rowLabel, None, |s.names| - 1, false)])
      case Leaving => s.(main := Painted, lock := Free))
    case Painted => s.(main := InRow, tickers := s.tickers + [Ticker(Waiting, false)])
    case InRow =>
      s.(main := Stopping,
         tickers := if s.tickers == [] then [] else
           s.tickers[|s.tickers| - 1 := Last(s.tickers).(stopped := true)])
    case Stopping => s.(main := Closing, lock := Main)
    case Closing => s.(main := Closed, rowOpen := false)
    case Closed => s.(main := Printed, log := s.log + [Close(Last(s.names))])
    case Printed => s.(main := Released, lock := Free)
    case Released => s.(main := Idle, rowLabel := None)
  }

  /** One turn of `_tick`, with `_repaint` inlined: where the ticker stands next. */
  function NextPc(s: State, t: Ticker): TickerPc {
    match t.pc
    case Waiting => if t.stopped then Done else Woken
    case Woken => if s.rowOpen then SawRow else Done
    case SawRow => Painting(Wanting, s.started)
    case Painting(brush, since) => (
      match brush
      case Wanting => Painting(Holding, since)
      case Holding => Painting(if s.rowOpen then SawOpen else Leaving, since)
      case SawOpen => Painting(if s.rowLabel.Some? then SawLabel else Leaving, since)
      case SawLabel => Painting(Leaving, since)
      case Leaving => Waiting)
    case Done => Done
  }

  predicate Paints(t: Ticker) {
    t.pc.Painting? && t.pc.brush.SawLabel?
  }

  function DoTicker(s: State, i: nat): State
    requires Enabled(s, TickerStep(i))
  {
    var t := s.tickers[i];
    s.(tickers := s.tickers[i := t.(pc := NextPc(s, t))],
       lock := if !t.pc.Painting? then s.lock
               else if t.pc.brush.Wanting? then By(i)
               else if t.pc.brush.Leaving? then Free
               else s.lock,
       log := if Paints(t) then s.log + [Paint(s.rowLabel, Some(i), t.pc.since, t.stopped)] else s.log)
  }

  /** The state a schedule of actions leads to, or None when one of them was not enabled. */
  function Run(actions: seq<Action>): Option<State> {
    if actions == [] then Some(INIT) else
      match Run(actions[..|actions| - 1])
      case None => None
      case Some(s) => if Enabled(s, Last(actions)) then Some(Do(s, Last(actions))) else None
  }

  // ----- reading the transcript, independently of the threads that wrote it

  /** A terminal reader: between rows, inside one, or faced with a line that belongs to no row.
      `rows` are the rows already closed. */
  datatype Screen =
    | Between(rows: seq<string>)
    | Inside(rows: seq<string>, current: string, paints: nat)
    | Broken

  /** A row is its label, then at least one repaint of that very label, then one closing
      line.  A repaint by a painter that was not told to stop must also carry the clock
      of this row. */
  function Read(log: seq<Event>): Screen {
    if log == [] then Between([]) else
      match (Read(log[..|log| - 1]), Last(log))
      case (Between(rows), Announce(text)) => Inside(rows, text, 0)
      case (Inside(rows, current, paints), Paint(text, _, since, late)) =>
        if text == Some(current) && since <= |rows| && (late || since == |rows|)
        then Inside(rows, current, paints + 1) else Broken
      case (Inside(rows, current, paints), Close(text)) =>
        if text == current && paints > 0 then Between(rows + [current]) else Broken
      case _ => Broken
  }

  /** How often ticker `i` painted after its stop event was set. */
  function LatePaints(log: seq<Event>, i: nat): nat {
    if log == [] then 0 else
      LatePaints(log[..|log| - 1], i) +
      (if Last(log).Paint? && Last(log).painter == Some(i) && Last(log).late then 1 else 0)
  }

  // ----- the invariant

  predicate MainHolds(pc: MainPc) {
    pc.Closing? || pc.Closed? || pc.Printed? || (pc.Opening? && !pc.brush.Wanting?)
  }

  /** `_row_open` is true from `Labelled`'s write to `Closing`'s. */
  predicate RowIsOpen(pc: MainPc) {
    pc.Opening? || pc.Painted? || pc.InRow? || pc.Stopping? || pc.Closing?
  }

  predicate LabelIsSet(pc: MainPc) {
    RowIsOpen(pc) || pc.Labelled? || pc.Closed? || pc.Printed? || pc.Released?
  }

  predicate Holds(t: Ticker) {
    t.pc.Painting? && !t.pc.brush.Wanting?
  }

  /** The number of tickers the main thread has started when it stands at `pc`. */
  function Spawned(s: State): int {
    if s.main.Timed? || s.main.Announced? || s.main.Labelled? || s.main.Opening? || s.main.Painted?
    then |s.names| - 1 else |s.names|
  }

  ghost predicate MainInv(s: State) {
    && (s.names == [] ==> s.main.Idle?)
    && s.rowOpen == RowIsOpen(s.main)
    && s.rowLabel == (if LabelIsSet(s.main) then Some(Last(s.names)) else None)
    && (s.names != [] ==> s.started == |s.names| - 1)
    && |s.tickers| == Spawned(s)
    && (MainHolds(s.main) <==> s.lock.Main?)
    && (s.lock.By? ==> s.lock.ticker < |s.tickers|)
  }

  /** Only the ticker of the row being compiled is not stopped. */
  ghost predicate TickerInv(s: State, i: nat)
    requires i < |s.tickers|
  {
    var t := s.tickers[i];
    && (Holds(t) <==> s.lock == By(i))
    && (t.stopped <==> !(i == |s.names| - 1 && s.main.InRow?))
    && (t.pc.Painting? ==> i <= t.pc.since <= s.started)
    // The rely/guarantee fact: under the lock an open row stays open.
    && (t.pc.Painting? && (t.pc.brush.SawOpen? || t.pc.brush.SawLabel?) ==> s.rowOpen)
    && (t.pc.Done? ==> t.stopped)
    && LateInv(t, LatePaints(s.log, i))
  }

  /** A stopped ticker has one paint left at most, and only if it has made none since. */
  predicate LateInv(t: Ticker, late: nat) {
    && (!t.stopped ==> late == 0)
    && late + (if MayPaint(t) then 1 else 0) <= 1
  }

  /** Whether the ticker can still reach the print without waiting again. */
  predicate MayPaint(t: Ticker) {
    t.pc.Woken? || t.pc.SawRow? || (t.pc.Painting? && !t.pc.brush.Leaving?)
  }

  /** What the terminal shows, told from where the main thread stands. */
  ghost predicate ScreenInv(s: State) {
    var screen := Read(s.log);
    if s.main.Idle? || s.main.Printed? || s.main.Released? then screen == Between(s.names)
    else if s.names == [] then false
    else if s.main.Timed? then screen == Between(s.names[..|s.names| - 1])
    else
      && screen.Inside?
      && screen.rows == s.names[..|s.names| - 1]
      && screen.current == Last(s.names)
      && (s.main.Announced? || s.main.Labelled? || (s.main.Opening? && !s.main.brush.Leaving?)
          || screen.paints > 0)
  }

  ghost predicate Inv(s: State) {
    && MainInv(s)
    && ScreenInv(s)
    && (forall i :: 0 <= i < |s.tickers| ==> TickerInv(s, i))
    && (forall i :: i >= |s.tickers| ==> LatePaints(s.log, i) == 0)
  }

  lemma {:induction false} ReadSnoc(log: seq<Event>, e: Event)
    ensures Read(log + [e]) == (
      match (Read(log), e)
      case (Between(rows), Announce(text)) => Inside(rows, text, 0)
      case (Inside(rows, current, paints), Paint(text, _, since, late)) =>
        if text == Some(current) && since <= |rows| && (late || since == |rows|)
        then Inside(rows, current, paints + 1) else Broken
      case (Inside(rows, current, paints), Close(text)) =>
        if text == current && paints > 0 then Between(rows + [current]) else Broken
      case _ => Broken)
  {
    assert (log + [e])[..|log|] == log;
  }

  lemma {:induction false} LateSnoc(log: seq<Event>, e: Event, i: nat)
    ensures LatePaints(log + [e], i) ==
            LatePaints(log, i) + (if e.Paint? && e.painter == Some(i) && e.late then 1 else 0)
  {
    assert (log + [e])[..|log|] == log;
  }

  lemma {:induction false} PrintKeepsScreen(s: State, e: Event)
    requires MainInv(s) && ScreenInv(s)
    requires
      || (s.main.Timed? && e == Announce(Last(s.names)))
      || (s.main == Opening(SawLabel) && e == Paint(s.rowLabel, None, |s.names| - 1, false))
      || (s.main.Closed? && e == Close(Last(s.names)))
    ensures
      var screen := Read(s.log + [e]);
      if s.main.Closed? then screen == Between(s.names)
      else
        screen == Inside(s.names[..|s.names| - 1], Last(s.names), if s.main.Timed? then 0 else Read(s.log).paints + 1)
  {
    ReadSnoc(s.log, e);
    assert s.names == s.names[..|s.names| - 1] + [Last(s.names)];
  }

  lemma {:induction false} MainKeepsScreen(s: State, text: string)
    requires MainInv(s) && ScreenInv(s) && Enabled(s, MainStep(text))
    ensures ScreenInv(DoMain(s, text))
  {
    if s.main.Idle? {
      assert DoMain(s, text).names[..|s.names|] == s.names;
    } else if s.main.Timed? {
      PrintKeepsScreen(s, Announce(Last(s.names)));
    } else if s.main == Opening(SawLabel) {
      PrintKeepsScreen(s, Paint(s.rowLabel, None, |s.names| - 1, false));
    } else if s.main.Closed? {
      PrintKeepsScreen(s, Close(Last(s.names)));
    }
  }

  lemma {:induction false} MainKeepsMain(s: State, text: string)
    requires MainInv(s) && ScreenInv(s) && Enabled(s, MainStep(text))
    requires s.main == Opening(SawOpen) ==> s.rowOpen
    ensures MainInv(DoMain(s, text))
  {
  }

  /** The main thread's own paint is never a late one. */
  lemma {:induction false} MainPaintsNothingLate(s: State, text: string, i: nat)
    requires Enabled(s, MainStep(text)) && (s.names == [] ==> s.main.Idle?)
    ensures LatePaints(DoMain(s, text).log, i) == LatePaints(s.log, i)
  {
    if s.main.Timed? {
      LateSnoc(s.log, Announce(Last(s.names)), i);
    } else if s.main == Opening(SawLabel) {
      LateSnoc(s.log, Paint(s.rowLabel, None, |s.names| - 1, false), i);
    } else if s.main.Closed? {
      LateSnoc(s.log, Close(Last(s.names)), i);
    }
  }

  lemma {:induction false} MainKeepsTicker(s: State, text: string, i: nat)
    requires MainInv(s) && Enabled(s, MainStep(text))
    requires LatePaints(DoMain(s, text).log, i) == LatePaints(s.log, i)
    requires i < |s.tickers| ==> TickerInv(s, i)
    requires i >= |s.tickers| ==> LatePaints(s.log, i) == 0
    ensures i < |DoMain(s, text).tickers| ==> TickerInv(DoMain(s, text), i)
    ensures i >= |DoMain(s, text).tickers| ==> LatePaints(DoMain(s, text).log, i) == 0
  {
  }

  lemma {:induction false} TickerKeepsMain(s: State, k: nat)
    requires MainInv(s) && Enabled(s, TickerStep(k)) && TickerInv(s, k)
    ensures MainInv(DoTicker(s, k))
  {
  }

  lemma {:induction false} TickerKeepsScreen(s: State, k: nat)
    requires MainInv(s) && ScreenInv(s) && Enabled(s, TickerStep(k)) && TickerInv(s, k)
    ensures ScreenInv(DoTicker(s, k))
  {
    var t := s.tickers[k];
    if Paints(t) {
      ReadSnoc(s.log, Paint(s.rowLabel, Some(k), t.pc.since, t.stopped));
    }
  }

  /** What a ticker's step adds to the late paints of ticker `i`. */
  lemma {:induction false} TickerAddsLate(s: State, k: nat, i: nat)
    requires Enabled(s, TickerStep(k))
    ensures LatePaints(DoTicker(s, k).log, i) ==
            LatePaints(s.log, i) + (if i == k && Paints(s.tickers[k]) && s.tickers[k].stopped then 1 else 0)
  {
    var t := s.tickers[k];
    if Paints(t) {
      LateSnoc(s.log, Paint(s.rowLabel, Some(k), t.pc.since, t.stopped), i);
    }
  }

  /** A ticker that just painted late has to wait again, and a stopped one never wakes. */
  lemma {:induction false} TickerPaintsOnce(s: State, t: Ticker, late: nat)
    requires LateInv(t, late)
    ensures LateInv(t.(pc := NextPc(s, t)), late + (if Paints(t) && t.stopped then 1 else 0))
  {
  }

  lemma {:induction false} TickerKeepsItself(s: State, k: nat)
    requires MainInv(s) && Enabled(s, TickerStep(k)) && TickerInv(s, k)
    requires LateInv(DoTicker(s, k).tickers[k], LatePaints(DoTicker(s, k).log, k))
    ensures TickerInv(DoTicker(s, k), k)
  {
  }

  lemma {:induction false} TickerKeepsOther(s: State, k: nat, i: nat)
    requires MainInv(s) && Enabled(s, TickerStep(k)) && TickerInv(s, k) && i != k
    requires LatePaints(DoTicker(s, k).log, i) == LatePaints(s.log, i)
    requires i < |s.tickers| ==> TickerInv(s, i)
    requires i >= |s.tickers| ==> LatePaints(s.log, i) == 0
    ensures i < |s.tickers| ==> TickerInv(DoTicker(s, k), i)
    ensures i >= |s.tickers| ==> LatePaints(DoTicker(s, k).log, i) == 0
  {
  }

  lemma {:induction false} MainKeeps(s: State, text: string)
    requires Inv(s) && Enabled(s, MainStep(text))
    ensures Inv(DoMain(s, text))
  {
    var s' := DoMain(s, text);
    MainKeepsMain(s, text);
    MainKeepsScreen(s, text);
    forall i: nat
      ensures i < |s'.tickers| ==> TickerInv(s', i)
      ensures i >= |s'.tickers| ==> LatePaints(s'.log, i) == 0
    {
      MainPaintsNothingLate(s, text, i);
      MainKeepsTicker(s, text, i);
    }
  }

  lemma {:induction false} TickerKeeps(s: State, k: nat)
    requires Inv(s) && Enabled(s, TickerStep(k))
    ensures Inv(DoTicker(s, k))
  {
    var s' := DoTicker(s, k);
    TickerKeepsMain(s, k);
    TickerKeepsScreen(s, k);
    forall i: nat
      ensures i < |s'.tickers| ==> TickerInv(s', i)
      ensures i >= |s'.tickers| ==> LatePaints(s'.log, i) == 0
    {
      TickerAddsLate(s, k, i);
      if i == k {
        TickerPaintsOnce(s, s.tickers[k], LatePaints(s.log, k));
        TickerKeepsItself(s, k);
      } else {
        TickerKeepsOther(s, k, i);
      }
    }
  }

  /** Every interleaving keeps the invariant. */
  lemma {:induction false} RunKeeps(actions: seq<Action>)
    requires Run(actions).Some?
    ensures Inv(Run(actions).value)
  {
    if actions != [] {
      var before := actions[..|actions| - 1];
      RunKeeps(before);
      match Last(actions) {
        case MainStep(text) => MainKeeps(Run(before).value, text);
        case TickerStep(k) => TickerKeeps(Run(before).value, k);
      }
    }
  }

  // ----- what every run of the two threads guarantees

  /** `_row_open` is only ever true with the label of the newest row beside it. */
  lemma {:induction false} OpenRowHasItsLabel(actions: seq<Action>)
    requires Run(actions).Some? && Run(actions).value.rowOpen
    ensures Run(actions).value.names != []
    ensures Run(actions).value.rowLabel == Some(Last(Run(actions).value.names))
  {
    RunKeeps(actions);
  }

  /** Whoever paints, the row is open at that moment and the text is its label; a painter
      that was not told to stop also shows this row's own clock. */
  lemma {:induction false} PaintIsOfTheOpenRow(actions: seq<Action>, a: Action, e: Event)
    requires Run(actions).Some? && Enabled(Run(actions).value, a)
    requires e.Paint? && Do(Run(actions).value, a).log == Run(actions).value.log + [e]
    ensures
      var s := Run(actions).value;
      s.rowOpen && s.names != [] && e.drawn == Some(Last(s.names)) && (!e.late ==> e.since == |s.names| - 1)
  {
    RunKeeps(actions);
    var s := Run(actions).value;
    assert e == Last(Do(s, a).log);
    if a.TickerStep? {
      assert TickerInv(s, a.ticker);
    }
  }

  /** A ticker paints at most once after its own stop event was set. */
  lemma {:induction false} StoppedTickerPaintsOnce(actions: seq<Action>, i: nat)
    requires Run(actions).Some?
    ensures LatePaints(Run(actions).value.log, i) <= 1
  {
    RunKeeps(actions);
    var s := Run(actions).value;
    assert i < |s.tickers| ==> TickerInv(s, i);
  }

  ghost predicate IsRow(block: seq<Event>, text: string) {
    && |block| >= 3
    && block[0] == Announce(text)
    && Last(block) == Close(text)
    && forall k :: 1 <= k < |block| - 1 ==> block[k].Paint? && block[k].drawn == Some(text)
  }

  /** The paints of a row that is not closed yet. */
  ghost predicate IsOpenRow(block: seq<Event>, text: string) {
    && block != []
    && block[0] == Announce(text)
    && forall k :: 1 <= k < |block| ==> block[k].Paint? && block[k].drawn == Some(text)
  }

  function Flatten(blocks: seq<seq<Event>>): seq<Event> {
    if blocks == [] then [] else Flatten(blocks[..|blocks| - 1]) + Last(blocks)
  }

  /** What the reader accepts is one whole block per closed row, then the open row. */
  lemma {:induction false} ReadFindsRows(log: seq<Event>)
    returns (blocks: seq<seq<Event>>, open: seq<Event>)
    requires !Read(log).Broken?
    ensures log == Flatten(blocks) + open
    ensures |blocks| == |Read(log).rows|
    ensures forall r :: 0 <= r < |blocks| ==> IsRow(blocks[r], Read(log).rows[r])
    ensures Read(log).Between? ==> open == []
    ensures Read(log).Inside? ==> IsOpenRow(open, Read(log).current) && |open| == 1 + Read(log).paints
  {
    if log == [] {
      return [], [];
    }
    var before, e := log[..|log| - 1], Last(log);
    assert log == before + [e];
    ReadSnoc(before, e);
    var rest;
    blocks, rest := ReadFindsRows(before);
    open := rest + [e];
    if e.Close? {
      CloseBlock(blocks, rest, Read(before).current);
      blocks, open := blocks + [open], [];
    }
  }

  lemma {:induction false} CloseBlock(blocks: seq<seq<Event>>, open: seq<Event>, current: string)
    requires IsOpenRow(open, current) && |open| > 1
    ensures IsRow(open + [Close(current)], current)
    ensures Flatten(blocks + [open + [Close(current)]]) == Flatten(blocks) + open + [Close(current)]
  {
    var whole := blocks + [open + [Close(current)]];
    assert whole[..|whole| - 1] == blocks;
  }

  /** The transcript of any run: for every closed row its label, at least one repaint of
      that label, one closing line; nothing repaints a row after its closing line, for
      the next event is the next row's label. */
  lemma {:induction false} TranscriptIsRows(actions: seq<Action>) returns (blocks: seq<seq<Event>>, open: seq<Event>)
    requires Run(actions).Some?
    ensures
      var s := Run(actions).value;
      && s.log == Flatten(blocks) + open
      && |blocks| <= |s.names| <= |blocks| + 1
      && (forall r :: 0 <= r < |blocks| ==> IsRow(blocks[r], s.names[r]))
      && (open != [] ==> |s.names| == |blocks| + 1 && IsOpenRow(open, s.names[|blocks|]))
      && (s.main.Idle? ==> |blocks| == |s.names|)
  {
    RunKeeps(actions);
    blocks, open := ReadFindsRows(Run(actions).value.log);
  }

  /** A compile can always go on: the main thread is never blocked unless a ticker holds
      the lock, and that ticker can step. */
  lemma {:induction false} NeverDeadlocked(actions: seq<Action>, text: string)
    requires Run(actions).Some?
    ensures
      var s := Run(actions).value;
      Enabled(s, MainStep(text)) || (s.lock.By? && Enabled(s, TickerStep(s.lock.ticker)))
  {
    RunKeeps(actions);
    var s := Run(actions).value;
    if s.lock.By? {
      assert TickerInv(s, s.lock.ticker);
    }
  }

  /** How many of its own steps a ticker needs at most to leave once it is stopped. */
  function StepsLeft(t: Ticker): nat {
    match t.pc
    case Woken => 9
    case SawRow => 8
    case Painting(brush, _) => (
      match brush
      case Wanting => 7 case Holding => 6 case SawOpen => 5 case SawLabel => 4 case Leaving => 3)
    case Waiting => 2
    case Done => 1
  }

  /** A stopped ticker leaves: nobody else's step delays it, each of its own brings it closer. */
  lemma {:induction false} StoppedTickerRunsDown(s: State, a: Action, i: nat)
    requires Enabled(s, a) && i < |s.tickers| && s.tickers[i].stopped
    ensures i < |Do(s, a).tickers| && Do(s, a).tickers[i].stopped
    ensures a == TickerStep(i) ==> StepsLeft(Do(s, a).tickers[i]) < StepsLeft(s.tickers[i])
    ensures a != TickerStep(i) ==> Do(s, a).tickers[i] == s.tickers[i]
  {
    if a.MainStep? {
      assert Do(s, a).tickers[i].stopped;
    }
  }

  lemma {:induction false} Extend(actions: seq<Action>, s: State, a: Action) returns (more: seq<Action>, s': State)
    requires Run(actions) == Some(s) && Enabled(s, a)
    ensures s' == Do(s, a) && Run(more) == Some(s')
  {
    more, s' := actions + [a], Do(s, a);
    assert more[..|more| - 1] == actions;
  }

  /** The state after one thread alone took `n` steps. */
  function Alone(s: State, a: Action, n: nat): Option<State> {
    if n == 0 then Some(s) else
      match Alone(s, a, n - 1)
      case None => None
      case Some(p) => if Enabled(p, a) then Some(Do(p, a)) else None
  }

  lemma {:induction false} Follow(actions: seq<Action>, s: State, a: Action, n: nat, s': State)
    returns (more: seq<Action>)
    requires Run(actions) == Some(s) && Alone(s, a, n) == Some(s')
    ensures Run(more) == Some(s')
  {
    more := actions;
    if n > 0 {
      more := Follow(actions, s, a, n - 1, Alone(s, a, n - 1).value);
      var next;
      more, next := Extend(more, Alone(s, a, n - 1).value, a);
    }
  }

  /** `begin` up to the open row. */
  lemma {:induction false} OpenRow(s: State, text: string) returns (s': State)
    requires s.main.Idle?
    ensures Alone(s, MainStep(text), 4) == Some(s')
    ensures s' == s.(main := Opening(Wanting), names := s.names + [text], started := |s.names|,
                     log := s.log + [Announce(text)], rowLabel := Some(text), rowOpen := true)
  {
    var timed := s.(main := Timed, names := s.names + [text], started := |s.names|);
    s' := timed.(main := Opening(Wanting), log := s.log + [Announce(text)], rowLabel := Some(text), rowOpen := true);
    assert Alone(s, MainStep(text), 1) == Some(timed);
    assert Alone(s, MainStep(text), 2) == Some(timed.(main := Announced, log := s.log + [Announce(text)]));
    assert Alone(s, MainStep(text), 3) == Some(s'.(main := Labelled, rowOpen := s.rowOpen));
  }

  /** The rest of `begin`: its own repaint, then the ticker. */
  lemma {:induction false} PaintAndStart(s: State) returns (s': State)
    requires s.main == Opening(Wanting) && s.lock.Free? && s.names != [] && s.rowOpen && s.rowLabel.Some?
    ensures Alone(s, MainStep(""), 6) == Some(s')
    ensures s' == s.(main := InRow, log := s.log + [Paint(s.rowLabel, None, |s.names| - 1, false)],
                     tickers := s.tickers + [Ticker(Waiting, false)])
  {
    var drawn := s.log + [Paint(s.rowLabel, None, |s.names| - 1, false)];
    s' := s.(main := InRow, log := drawn, tickers := s.tickers + [Ticker(Waiting, false)]);
    assert Alone(s, MainStep(""), 1) == Some(s.(main := Opening(Holding), lock := Main));
    assert Alone(s, MainStep(""), 2) == Some(s.(main := Opening(SawOpen), lock := Main));
    assert Alone(s, MainStep(""), 3) == Some(s.(main := Opening(SawLabel), lock := Main));
    assert Alone(s, MainStep(""), 4) == Some(s.(main := Opening(Leaving), lock := Main, log := drawn));
    assert Alone(s, MainStep(""), 5) == Some(s.(main := Painted, log := drawn));
  }

  /** `finish`. */
  lemma {:induction false} CloseRow(s: State) returns (s': State)
    requires s.main == InRow && s.lock.Free? && s.names != [] && s.tickers != []
    ensures Alone(s, MainStep(""), 6) == Some(s')
    ensures s' == s.(main := Idle, log := s.log + [Close(Last(s.names))], rowOpen := false, rowLabel := None,
                     tickers := s.tickers[|s.tickers| - 1 := Last(s.tickers).(stopped := true)])
  {
    var told := s.(tickers := s.tickers[|s.tickers| - 1 := Last(s.tickers).(stopped := true)]);
    var drawn := s.log + [Close(Last(s.names))];
    s' := told.(main := Idle, log := drawn, rowOpen := false, rowLabel := None);
    assert Alone(s, MainStep(""), 1) == Some(told.(main := Stopping));
    assert Alone(s, MainStep(""), 2) == Some(told.(main := Closing, lock := Main));
    assert Alone(s, MainStep(""), 3) == Some(told.(main := Closed, lock := Main, rowOpen := false));
    assert Alone(s, MainStep(""), 4) == Some(told.(main := Printed, lock := Main, rowOpen := false, log := drawn));
    assert Alone(s, MainStep(""), 5) == Some(told.(main := Released, rowOpen := false, log := drawn));
  }

  /** A tick that finds its row open, up to the clock it will paint. */
  lemma {:induction false} TickComputes(s: State, i: nat) returns (s': State)
    requires i < |s.tickers| && s.tickers[i] == Ticker(Waiting, false) && s.rowOpen
    ensures Alone(s, TickerStep(i), 3) == Some(s')
    ensures s' == s.(tickers := s.tickers[i := Ticker(Painting(Wanting, s.started), false)])
  {
    var woken := s.(tickers := s.tickers[i := Ticker(Woken, false)]);
    assert Alone(s, TickerStep(i), 1) == Some(woken);
    var saw := s.(tickers := s.tickers[i := Ticker(SawRow, false)]);
    assert woken.tickers[i := Ticker(SawRow, false)] == saw.tickers;
    assert Alone(s, TickerStep(i), 2) == Some(saw);
    s' := s.(tickers := s.tickers[i := Ticker(Painting(Wanting, s.started), false)]);
    assert saw.tickers[i := s'.tickers[i]] == s'.tickers;
  }

  lemma {:induction false} TickPaints(s: State, i: nat, since: nat) returns (s': State)
    requires i < |s.tickers| && s.tickers[i] == Ticker(Painting(Wanting, since), true)
    requires s.lock.Free? && s.rowOpen && s.rowLabel.Some?
    ensures Alone(s, TickerStep(i), 4) == Some(s')
    ensures s'.names == s.names && s'.log == s.log + [Paint(s.rowLabel, Some(i), since, true)]
  {
    var held := s.(lock := By(i), tickers := s.tickers[i := Ticker(Painting(Holding, since), true)]);
    var open := s.(lock := By(i), tickers := s.tickers[i := Ticker(Painting(SawOpen, since), true)]);
    var ready := s.(lock := By(i), tickers := s.tickers[i := Ticker(Painting(SawLabel, since), true)]);
    assert Alone(s, TickerStep(i), 1) == Some(held);
    assert held.tickers[i := open.tickers[i]] == open.tickers;
    assert Alone(s, TickerStep(i), 2) == Some(open);
    assert open.tickers[i := ready.tickers[i]] == ready.tickers;
    assert Alone(s, TickerStep(i), 3) == Some(ready);
    s' := Do(ready, TickerStep(i));
  }

  // ----- a row keeps ticking

  /** How many of its own steps a ticker's turn takes, from one wait to the next. */
  const ONE_TICK := 8

  lemma {:induction false} TickRepaints(s: State, i: nat, painted: Event)
    requires i < |s.tickers| && s.tickers[i] == Ticker(Waiting, false)
    requires s.rowOpen && s.lock.Free? && s.rowLabel.Some? && painted == Paint(s.rowLabel, Some(i), s.started, false)
    ensures Alone(s, TickerStep(i), ONE_TICK) == Some(s.(log := s.log + [painted]))
  {
    var computed := TickComputes(s, i);
    var held := s.(lock := By(i), tickers := s.tickers[i := Ticker(Painting(Holding, s.started), false)]);
    var open := s.(lock := By(i), tickers := s.tickers[i := Ticker(Painting(SawOpen, s.started), false)]);
    var ready := s.(lock := By(i), tickers := s.tickers[i := Ticker(Painting(SawLabel, s.started), false)]);
    var drawn := s.(lock := By(i), tickers := s.tickers[i := Ticker(Painting(Leaving, s.started), false)],
                    log := s.log + [painted]);
    assert computed.tickers[i := held.tickers[i]] == held.tickers;
    assert Alone(s, TickerStep(i), 4) == Some(held);
    assert held.tickers[i := open.tickers[i]] == open.tickers;
    assert Alone(s, TickerStep(i), 5) == Some(open);
    assert open.tickers[i := ready.tickers[i]] == ready.tickers;
    assert Alone(s, TickerStep(i), 6) == Some(ready);
    assert ready.tickers[i := drawn.tickers[i]] == drawn.tickers;
    assert Alone(s, TickerStep(i), 7) == Some(drawn);
    assert drawn.tickers[i := Ticker(Waiting, false)] == s.tickers;
  }

  lemma {:induction false} AloneOn(s: State, a: Action, n: nat, s': State, k: nat)
    requires Alone(s, a, n) == Some(s')
    ensures Alone(s, a, n + k) == Alone(s', a, k)
  {
    if k > 0 {
      AloneOn(s, a, n, s', k - 1);
      assert n + k - 1 == n + (k - 1);
    }
  }

  function Repeated(e: Event, n: nat): (r: seq<Event>)
    ensures |r| == n && forall k :: 0 <= k < n ==> r[k] == e
  {
    seq(n, k requires 0 <= k => e)
  }

  /** While a row is open and nobody else moves, its waiting ticker repaints it with the row's
      own label and clock once for every turn, as many turns as it gets, and changes nothing
      else. */
  lemma {:induction false} TicksForEver(actions: seq<Action>, i: nat, n: nat)
    requires Run(actions).Some? && i < |Run(actions).value.tickers|
    requires var s := Run(actions).value;
      s.rowOpen && s.lock.Free? && s.tickers[i].pc.Waiting? && !s.tickers[i].stopped
    ensures
      var s := Run(actions).value;
      s.names != [] && Alone(s, TickerStep(i), n * ONE_TICK) ==
        Some(s.(log := s.log + Repeated(Paint(Some(Last(s.names)), Some(i), |s.names| - 1, false), n)))
  {
    RunKeeps(actions);
    var s := Run(actions).value;
    var e := Paint(Some(Last(s.names)), Some(i), |s.names| - 1, false);
    assert s.rowLabel == Some(Last(s.names)) && s.started == |s.names| - 1;
    TurnsAdd(s, i, e, n);
  }

  lemma {:induction false} TurnsAdd(s: State, i: nat, e: Event, n: nat)
    requires i < |s.tickers| && s.tickers[i] == Ticker(Waiting, false)
    requires s.rowOpen && s.lock.Free? && s.rowLabel.Some? && e == Paint(s.rowLabel, Some(i), s.started, false)
    ensures Alone(s, TickerStep(i), n * ONE_TICK) == Some(s.(log := s.log + Repeated(e, n)))
  {
    if n == 0 {
      assert s.log + Repeated(e, 0) == s.log;
    } else {
      TurnsAdd(s, i, e, n - 1);
      var before := s.(log := s.log + Repeated(e, n - 1));
      AloneOn(s, TickerStep(i), (n - 1) * ONE_TICK, before, ONE_TICK);
      TickRepaints(before, i, e);
      assert (n - 1) * ONE_TICK + ONE_TICK == n * ONE_TICK;
      assert s.log + Repeated(e, n - 1) + [e] == s.log + Repeated(e, n);
    }
  }

  /** A ticker that has left was told to stop; so the newest row ticks until it is finished. */
  lemma {:induction false} LeavesOnlyStopped(actions: seq<Action>, i: nat)
    requires Run(actions).Some? && i < |Run(actions).value.tickers|
    ensures
      var s := Run(actions).value;
      && (s.tickers[i].pc.Done? ==> s.tickers[i].stopped)
      && (i == |s.names| - 1 && s.main.InRow? ==> !s.tickers[i].pc.Done?)
  {
    RunKeeps(actions);
    assert TickerInv(Run(actions).value, i);
  }

  /** A ticker that wakes in time but finds no row open leaves at once, and one that waits and is
      told to stop never wakes. */
  lemma {:induction false} LeavesAtOnce(s: State, i: nat)
    requires i < |s.tickers|
    requires (s.tickers[i].pc.Woken? && !s.rowOpen) || (s.tickers[i].pc.Waiting? && s.tickers[i].stopped)
    ensures Alone(s, TickerStep(i), 1) == Some(s.(tickers := s.tickers[i := s.tickers[i].(pc := Done)]))
    ensures Alone(s, TickerStep(i), 2).None?
  {
    var left := s.(tickers := s.tickers[i := s.tickers[i].(pc := Done)]);
    assert Alone(s, TickerStep(i), 0) == Some(s);
    assert Alone(s, TickerStep(i), 1) == Some(left);
    assert !Enabled(left, TickerStep(i));
  }

  /** The clock is NOT always the painted row's: a ticker that computed its clock before
      `finish` can paint it on the next row. */
  lemma {:induction false} StaleClockIsPossible()
    ensures exists actions, e ::
      Run(actions).Some? && e in Run(actions).value.log && e.Paint? && e.late
      && e.since == 0 && |Run(actions).value.names| == 2 && e.drawn == Some(Last(Run(actions).value.names))
  {
    var first := OpenRow(INIT, "a");
    var inRow := PaintAndStart(first);
    var ticked := TickComputes(inRow, 0);
    var closed := CloseRow(ticked);
    var again := OpenRow(closed, "b");
    var painted := TickPaints(again, 0, 0);
    var acts := Follow([], INIT, MainStep("a"), 4, first);
    acts := Follow(acts, first, MainStep(""), 6, inRow);
    acts := Follow(acts, inRow, TickerStep(0), 3, ticked);
    acts := Follow(acts, ticked, MainStep(""), 6, closed);
    acts := Follow(acts, closed, MainStep("b"), 4, again);
    acts := Follow(acts, again, TickerStep(0), 4, painted);
    assert painted.names == ["a", "b"];
    var e := Last(painted.log);
    assert e == Paint(Some("b"), Some(0), 0, true) && e in Run(acts).value.log;
  }
}
