/**
 The `-app` selection: flattening the argument groups, parsing ids and ranges, the span of the
 ranges, and which application ids a selection admits.
 */
module Selection {
  import opened Prelude
  import opened Grouping

  datatype Result<+T> = Ok(value: T) | Err(error: Error)

  datatype Error = MinAboveMax(low: nat, high: nat) | NotARange(token: string)

  datatype Range = Range(low: nat, high: Option<nat>)

  datatype Token = Plain(text: string) | Within(range: Range)

  datatype Selected = Selected(explicit: seq<string>, ranges: seq<Range>)

  // ----- numerals

  predicate IsDigit(c: char) { '0' <= c <= '9' }

  predicate AllDigits(s: string) {
    s != "" && forall i :: 0 <= i < |s| ==> IsDigit(s[i])
  }

  /** `int` of a run of digits. */
  function Value(s: string): nat
    requires forall i :: 0 <= i < |s| ==> IsDigit(s[i])
  {
    if s == "" then 0 else
      assert IsDigit(s[|s| - 1]);
      10 * Value(s[..|s| - 1]) + (Last(s) as int - '0' as int)
  }

  function Numeral(n: nat): (s: string)
    ensures AllDigits(s)
  {
    (if n < 10 then "" else Numeral(n / 10)) + [('0' as int + n % 10) as char]
  }

  lemma {:induction false} NumeralValue(n: nat)
    ensures Value(Numeral(n)) == n
  {
    var s := Numeral(n);
    if n >= 10 {
      NumeralValue(n / 10);
      assert s[..|s| - 1] == Numeral(n / 10);
    } else {
      assert s[..|s| - 1] == "";
    }
  }

  // ----- one token

  function IndexOf(s: string, c: char): (i: nat)
    ensures i <= |s| && (i < |s| ==> s[i] == c) && forall j :: 0 <= j < i ==> s[j] != c
  {
    if s == "" || s[0] == c then 0 else 1 + IndexOf(s[1..], c)
  }

  /** The token is digits, a dash and digits. */
  predicate IsClosed(token: string) {
    var i := IndexOf(token, '-');
    i < |token| && AllDigits(token[..i]) && AllDigits(token[i + 1..])
  }

  predicate IsOpen(token: string) {
    |token| > 1 && Last(token) == '+' && AllDigits(token[..|token| - 1])
  }

  /** `_parse_range_token`, a plain token included. */
  function ParseToken(token: string): Result<Token> {
    if IsOpen(token) then Ok(Within(Range(Value(token[..|token| - 1]), None)))
    else if IsClosed(token) then
      var i := IndexOf(token, '-');
      var low, high := Value(token[..i]), Value(token[i + 1..]);
      if low > high then Err(MinAboveMax(low, high)) else Ok(Within(Range(low, Some(high))))
    else if '-' in token || '+' in token then Err(NotARange(token))
    else Ok(Plain(token))
  }

  function Print(t: Token): string {
    match t
    case Plain(text) => text
    case Within(range) =>
      match range.high
      case None => Numeral(range.low) + "+"
      case Some(high) => Numeral(range.low) + "-" + Numeral(high)
  }

  predicate IsSpace(c: char) { c == ' ' || c == '\t' || c == '\n' || c == '\r' }

  /** A token as the grammar has it: a plain id holds no separator and a range is not empty. */
  ghost predicate Proper(t: Token) {
    match t
    case Plain(text) => text != "" && forall c :: c in text ==> c != '-' && c != '+' && c != ',' && !IsSpace(c)
    case Within(range) => range.high.Some? ==> range.low <= range.high.value
  }

  lemma IndexAfter(a: string, c: char, b: string)
    requires c !in a
    ensures IndexOf(a + [c] + b, c) == |a|
  {
    var s := a + [c] + b;
    assert s[|a|] == c;
    assert forall j :: 0 <= j < |a| ==> s[j] == a[j];
  }

  lemma PrintOpen(low: nat)
    ensures ParseToken(Numeral(low) + "+") == Ok(Within(Range(low, None)))
  {
    var s := Numeral(low) + "+";
    assert s[..|s| - 1] == Numeral(low);
    NumeralValue(low);
  }

  lemma Splits(a: string, b: string)
    requires AllDigits(a) && AllDigits(b)
    ensures var s := a + "-" + b;
      IndexOf(s, '-') == |a| && s[..|a|] == a && s[|a| + 1..] == b && |s| > 1 && Last(s) == Last(b)
  {
    assert a + "-" + b == a + ['-'] + b;
    IndexAfter(a, '-', b);
  }

  lemma PrintClosed(low: nat, high: nat)
    requires low <= high
    ensures ParseToken(Numeral(low) + "-" + Numeral(high)) == Ok(Within(Range(low, Some(high))))
  {
    Splits(Numeral(low), Numeral(high));
    assert IsDigit(Last(Numeral(high)));
    NumeralValue(low);
    NumeralValue(high);
  }

  /** Parsing what was printed gives the token back. */
  lemma ParsePrinted(t: Token)
    requires Proper(t)
    ensures ParseToken(Print(t)) == Ok(t)
  {
    match t {
      case Plain(text) =>
        assert forall i :: 0 <= i < |text| ==> text[i] in text;
      case Within(range) =>
        match range.high {
          case None => PrintOpen(range.low);
          case Some(high) => PrintClosed(range.low, high);
        }
    }
  }

  lemma ClosedEndsInDigit(token: string)
    requires IsClosed(token)
    ensures token != "" && IsDigit(Last(token)) && '-' in token
  {
    var i := IndexOf(token, '-');
    var high := token[i + 1..];
    assert high[|high| - 1] == Last(token);
    assert token[i] in token;
  }

  /** Digits and a plus. */
  ghost predicate OpenRange(token: string, low: string) {
    AllDigits(low) && token == low + "+"
  }

  /** Digits, a dash and digits. */
  ghost predicate ClosedRange(token: string, low: string, high: string) {
    AllDigits(low) && AllDigits(high) && token == low + "-" + high
  }

  lemma OpenIs(token: string)
    ensures IsOpen(token) <==> exists low :: OpenRange(token, low)
    ensures forall low :: OpenRange(token, low) ==> low == token[..|token| - 1]
  {
    if IsOpen(token) {
      assert OpenRange(token, token[..|token| - 1]);
    }
    forall low | OpenRange(token, low) ensures IsOpen(token) && low == token[..|token| - 1] {
      assert token[..|token| - 1] == low && Last(token) == '+';
    }
  }

  lemma ClosedShape(token: string, low: string, high: string)
    requires ClosedRange(token, low, high)
    ensures IsClosed(token)
    ensures var i := IndexOf(token, '-');
      i < |token| && low == token[..i] && high == token[i + 1..]
  {
    Splits(low, high);
  }

  lemma ClosedIs(token: string)
    ensures IsClosed(token) ==> exists low, high :: ClosedRange(token, low, high)
  {
    if IsClosed(token) {
      var i := IndexOf(token, '-');
      assert token == token[..i] + "-" + token[i + 1..];
      assert ClosedRange(token, token[..i], token[i + 1..]);
    }
  }

  /** What a token is, exactly: an open range, a closed one, which must not be upside down, an error
      if it holds a sign and is neither, and a plain id otherwise. */
  lemma ParseIs(token: string)
    ensures forall low :: OpenRange(token, low) ==> ParseToken(token) == Ok(Within(Range(Value(low), None)))
    ensures forall low, high :: ClosedRange(token, low, high) ==>
      ParseToken(token) == if Value(low) > Value(high) then Err(MinAboveMax(Value(low), Value(high)))
                           else Ok(Within(Range(Value(low), Some(Value(high)))))
    ensures (forall low :: !OpenRange(token, low)) && (forall low, high :: !ClosedRange(token, low, high)) ==>
      ParseToken(token) == if '-' in token || '+' in token then Err(NotARange(token)) else Ok(Plain(token))
  {
    OpenIs(token);
    ClosedIs(token);
    if IsClosed(token) {
      ClosedEndsInDigit(token);
    }
    forall low, high | ClosedRange(token, low, high)
      ensures ParseToken(token) == if Value(low) > Value(high) then Err(MinAboveMax(Value(low), Value(high)))
                                   else Ok(Within(Range(Value(low), Some(Value(high)))))
    {
      ClosedShape(token, low, high);
      ClosedEndsInDigit(token);
    }
  }

  // ----- the argument groups

  function StripLeft(s: string): string {
    if s != "" && IsSpace(s[0]) then StripLeft(s[1..]) else s
  }

  function StripRight(s: string): string {
    if s != "" && IsSpace(Last(s)) then StripRight(s[..|s| - 1]) else s
  }

  function Strip(): string -> string {
    s => StripRight(StripLeft(s))
  }

  ghost predicate Spaces(s: string) {
    forall c :: c in s ==> IsSpace(c)
  }

  lemma {:induction false} StripLeftIs(s: string) returns (lead: string)
    ensures s == lead + StripLeft(s) && Spaces(lead) && (StripLeft(s) != "" ==> !IsSpace(StripLeft(s)[0]))
  {
    lead := "";
    if s != "" && IsSpace(s[0]) {
      lead := StripLeftIs(s[1..]);
      assert s == [s[0]] + s[1..];
      lead := [s[0]] + lead;
    }
  }

  lemma {:induction false} StripRightIs(s: string) returns (trail: string)
    ensures s == StripRight(s) + trail && Spaces(trail) && (StripRight(s) != "" ==> !IsSpace(Last(StripRight(s))))
  {
    trail := "";
    if s != "" && IsSpace(Last(s)) {
      trail := StripRightIs(s[..|s| - 1]);
      assert s == s[..|s| - 1] + [Last(s)];
      trail := trail + [Last(s)];
    }
  }

  /** Stripping takes the white space of both ends and no more. */
  lemma StripIs(s: string) returns (lead: string, trail: string)
    ensures s == lead + Strip()(s) + trail && Spaces(lead) && Spaces(trail)
    ensures Strip()(s) != "" ==> !IsSpace(Strip()(s)[0]) && !IsSpace(Last(Strip()(s)))
  {
    lead := StripLeftIs(s);
    trail := StripRightIs(StripLeft(s));
    var inner := Strip()(s);
    assert StripLeft(s) == inner + trail;
    if inner != "" {
      assert StripLeft(s)[0] == inner[0];
    }
  }

  function MoreParts(parts: seq<string>, c: char): (more: seq<string>)
    requires parts != []
    ensures more != []
  {
    if c == ',' then parts + [""] else parts[..|parts| - 1] + [Last(parts) + [c]]
  }

  /** `item.split(",")`. */
  function Split(s: string): (parts: seq<string>)
    ensures parts != []
  {
    if s == "" then [""] else MoreParts(Split(s[..|s| - 1]), Last(s))
  }

  lemma MorePartsAfter(before: seq<string>, parts: seq<string>, c: char)
    requires parts != []
    ensures MoreParts(before + parts, c) == before + MoreParts(parts, c)
  {
    var whole := before + parts;
    assert Last(whole) == Last(parts);
    assert whole[..|whole| - 1] == before + parts[..|parts| - 1];
  }

  function NonEmpty(): string -> bool {
    s => s != ""
  }

  function Parts(): string -> seq<string> {
    item => Filter(Mapped(Split(item), Strip()), NonEmpty())
  }

  function GroupParts(): seq<string> -> seq<string> {
    group => Flat(group, Parts())
  }

  /** `_flatten_arg_groups`. */
  function Flatten(groups: seq<seq<string>>): Option<seq<string>> {
    if groups == [] then None else Some(Flat(groups, GroupParts()))
  }

  function Same<T>(): seq<T> -> seq<T> {
    s => s
  }

  /** How the items are grouped does not matter. */
  lemma GroupingIsFree(groups: seq<seq<string>>)
    ensures Flat(groups, GroupParts()) == Flat(Flat(groups, Same()), Parts())
  {
    FlatTwice(groups, Same(), Parts(), GroupParts());
  }

  lemma {:induction false} SplitAfter(head: string, before: seq<string>, b: string)
    requires Split(head) == before + [""]
    ensures Split(head + b) == before + Split(b)
  {
    var s := head + b;
    if b == "" {
      assert s == head;
    } else {
      var front := b[..|b| - 1];
      assert s[..|s| - 1] == head + front;
      SplitAfter(head, before, front);
      MorePartsAfter(before, Split(front), Last(b));
    }
  }

  lemma SplitJoined(a: string, b: string)
    ensures Split(a + "," + b) == Split(a) + Split(b)
  {
    var head := a + ",";
    assert head[..|head| - 1] == a && Last(head) == ',';
    SplitAfter(head, Split(a), b);
  }

  function JoinComma(items: seq<string>): string {
    if items == [] then "" else if |items| == 1 then items[0] else JoinComma(items[..|items| - 1]) + "," + Last(items)
  }

  lemma PartsJoined(a: string, b: string)
    ensures Parts()(a + "," + b) == Parts()(a) + Parts()(b)
  {
    SplitJoined(a, b);
    KeptOn(Split(a), Split(b));
  }

  lemma KeptOn(a: seq<string>, b: seq<string>)
    ensures Filter(Mapped(a + b, Strip()), NonEmpty())
         == Filter(Mapped(a, Strip()), NonEmpty()) + Filter(Mapped(b, Strip()), NonEmpty())
  {
    MappedOn(a, b, Strip());
    FilterOn(Mapped(a, Strip()), Mapped(b, Strip()), NonEmpty());
  }

  lemma NoParts()
    ensures Parts()("") == []
  {
    assert Split("") == [""] && Strip()("") == "";
    assert Mapped(Split(""), Strip()) == [""] && [""][..0] == [];
    assert Filter([""], NonEmpty()) == Filter([""][..0], NonEmpty()) + [];
  }

  /** Nor does it matter whether items are separate or joined by commas. */
  lemma {:induction false} CommasAreFree(items: seq<string>)
    ensures Parts()(JoinComma(items)) == Flat(items, Parts())
  {
    if items == [] {
      NoParts();
    } else if |items| == 1 {
      assert items[..0] == [] && items == [items[0]];
    } else {
      CommasAreFree(items[..|items| - 1]);
      PartsJoined(JoinComma(items[..|items| - 1]), Last(items));
    }
  }

  // ----- the selection

  function Add(s: Selected, t: Token): Selected {
    match t
    case Plain(text) => s.(explicit := s.explicit + [text])
    case Within(range) => s.(ranges := s.ranges + [range])
  }

  /** `_parse_apex_app_selection` on its tokens: the first bad one is the error. */
  function ParseAll(tokens: seq<string>): Result<Selected> {
    if tokens == [] then Ok(Selected([], [])) else
      match ParseAll(tokens[..|tokens| - 1])
      case Err(e) => Err(e)
      case Ok(s) =>
        var token := Strip()(Last(tokens));
        if token == "" then Ok(s) else
          match ParseToken(token)
          case Err(e) => Err(e)
          case Ok(t) => Ok(Add(s, t))
  }

  lemma {:induction false} ErrorStays(tokens: seq<string>, i: nat)
    requires i <= |tokens| && ParseAll(tokens[..i]).Err?
    ensures ParseAll(tokens) == ParseAll(tokens[..i])
  {
    if i < |tokens| {
      assert tokens[..|tokens| - 1][..i] == tokens[..i];
      ErrorStays(tokens[..|tokens| - 1], i);
    } else {
      assert tokens[..i] == tokens;
    }
  }

  method ParseSelection(tokens: Option<seq<string>>) returns (r: Result<Option<Selected>>)
    ensures
      if tokens.None? || tokens.value == [] then r == Ok(None)
      else match ParseAll(tokens.value) case Ok(s) => r == Ok(Some(s)) case Err(e) => r == Err(e)
  {
    if tokens.None? || tokens.value == [] {
      return Ok(None);
    }
    var s, all := Selected([], []), tokens.value;
    for i := 0 to |all|
      invariant ParseAll(all[..i]) == Ok(s)
    {
      assert all[..i + 1][..i] == all[..i] && Last(all[..i + 1]) == all[i];
      var token := Strip()(all[i]);
      if token == "" {
        continue;
      }
      match ParseToken(token) {
        case Err(e) =>
          ErrorStays(all, i + 1);
          return Err(e);
        case Ok(t) => s := Add(s, t);
      }
    }
    assert all[..|all|] == all;
    r := Ok(Some(s));
  }

  function Select(tokens: seq<Token>): Selected {
    if tokens == [] then Selected([], []) else Add(Select(tokens[..|tokens| - 1]), Last(tokens))
  }

  function Texts(): Token -> seq<string> {
    (t: Token) => if t.Plain? then [t.text] else []
  }

  function Ranges(): Token -> seq<Range> {
    (t: Token) => if t.Within? then [t.range] else []
  }

  /** The plain ids and the ranges, each in order. */
  lemma {:induction false} SelectKeeps(tokens: seq<Token>)
    ensures Select(tokens).explicit == Flat(tokens, Texts()) && Select(tokens).ranges == Flat(tokens, Ranges())
  {
    if tokens != [] {
      SelectKeeps(tokens[..|tokens| - 1]);
    }
  }

  // ----- the round trip

  function Printer(): Token -> string {
    t => Print(t)
  }

  function ItemText(): seq<Token> -> string {
    item => JoinComma(Mapped(item, Printer()))
  }

  function GroupText(): seq<seq<Token>> -> seq<string> {
    group => Mapped(group, ItemText())
  }

  lemma {:induction false} Unstripped(s: string)
    requires forall c :: c in s ==> !IsSpace(c)
    ensures Strip()(s) == s
  {
    if s != "" {
      assert s[0] in s && Last(s) in s;
    }
  }

  lemma {:induction false} Unsplit(s: string)
    requires ',' !in s
    ensures Split(s) == [s]
  {
    if s != "" {
      var front := s[..|s| - 1];
      assert s == front + [Last(s)];
      Unsplit(front);
    }
  }

  lemma PrintIsPlain(t: Token)
    requires Proper(t)
    ensures Print(t) != "" && ',' !in Print(t) && forall c :: c in Print(t) ==> !IsSpace(c)
  {
    match t {
      case Plain(text) =>
      case Within(range) =>
        assert forall c :: c in Numeral(range.low) ==> IsDigit(c);
        assert range.high.Some? ==> forall c :: c in Numeral(range.high.value) ==> IsDigit(c);
    }
  }

  lemma PartsOfPrint(t: Token)
    requires Proper(t)
    ensures Parts()(Print(t)) == [Print(t)]
  {
    var s := Print(t);
    PrintIsPlain(t);
    Unsplit(s);
    Unstripped(s);
    assert Mapped([s], Strip()) == [s];
    assert [s][..0] == [];
    assert Filter([s], NonEmpty()) == Filter([s][..0], NonEmpty()) + [s];
  }

  lemma {:induction false} PartsOfPrints(tokens: seq<Token>)
    requires forall t :: t in tokens ==> Proper(t)
    ensures Flat(Mapped(tokens, Printer()), Parts()) == Mapped(tokens, Printer())
  {
    if tokens != [] {
      var front, last := tokens[..|tokens| - 1], Last(tokens);
      assert tokens == front + [last];
      PartsOfPrints(front);
      PartsOfPrint(last);
      MappedSnoc(front, last, Printer());
      FlatSnoc(Mapped(front, Printer()), Print(last), Parts());
    }
  }

  lemma {:induction false} ParsePrints(tokens: seq<Token>)
    requires forall t :: t in tokens ==> Proper(t)
    ensures ParseAll(Mapped(tokens, Printer())) == Ok(Select(tokens))
  {
    if tokens != [] {
      var front, last := tokens[..|tokens| - 1], Last(tokens);
      assert tokens == front + [last];
      ParsePrints(front);
      PrintIsPlain(last);
      Unstripped(Print(last));
      ParsePrinted(last);
      var texts := Mapped(tokens, Printer());
      assert texts[..|texts| - 1] == Mapped(front, Printer()) && Last(texts) == Print(last);
    }
  }

  function AllTokens(groups: seq<seq<seq<Token>>>): seq<Token> {
    Flat(Flat(groups, Same()), Same())
  }

  function TokenTexts(): seq<Token> -> seq<string> {
    item => Mapped(item, Printer())
  }

  lemma PartsOfItem(item: seq<Token>)
    requires forall t :: t in item ==> Proper(t)
    ensures Parts()(ItemText()(item)) == TokenTexts()(item)
  {
    CommasAreFree(Mapped(item, Printer()));
    PartsOfPrints(item);
  }

  lemma {:induction false} TextsJoined(items: seq<seq<Token>>)
    ensures Flat(items, TokenTexts()) == Mapped(Flat(items, Same()), Printer())
  {
    if items != [] {
      var front, last := items[..|items| - 1], Last(items);
      TextsJoined(front);
      assert Mapped(Flat(front, Same()) + last, Printer())
        == Mapped(Flat(front, Same()), Printer()) + Mapped(last, Printer());
    }
  }

  lemma {:induction false} InFlat<T>(s: seq<seq<T>>, x: T)
    ensures x in Flat(s, Same()) <==> exists part :: part in s && x in part
  {
    if s != [] {
      InFlat(s[..|s| - 1], x);
      assert s == s[..|s| - 1] + [Last(s)];
    }
  }

  lemma ItemsSpelt(items: seq<seq<Token>>)
    requires forall t :: t in Flat(items, Same()) ==> Proper(t)
    ensures Flat(Mapped(items, ItemText()), Parts()) == Mapped(Flat(items, Same()), Printer())
  {
    forall item | item in items ensures Parts()(ItemText()(item)) == TokenTexts()(item) {
      forall t | t in item ensures Proper(t) { InFlat(items, t); }
      PartsOfItem(item);
    }
    FlatMapped(items, ItemText(), Parts(), TokenTexts());
    TextsJoined(items);
  }

  /** Printing tokens, joining some by commas into items and the items into argument groups in
      any way, and parsing that gives the ids and the ranges back in order. */
  lemma RoundTrip(groups: seq<seq<seq<Token>>>)
    requires groups != [] && forall t :: t in AllTokens(groups) ==> Proper(t)
    ensures
      var flat := Flatten(Mapped(groups, GroupText()));
      flat.Some? && ParseAll(flat.value) == Ok(Select(AllTokens(groups)))
  {
    var texts, items := Mapped(groups, GroupText()), Flat(groups, Same());
    GroupingIsFree(texts);
    FlatMapped(groups, GroupText(), Same(), GroupText());
    ItemsJoined(groups);
    ItemsSpelt(items);
    ParsePrints(AllTokens(groups));
  }

  lemma {:induction false} ItemsJoined(groups: seq<seq<seq<Token>>>)
    ensures Flat(groups, GroupText()) == Mapped(Flat(groups, Same()), ItemText())
  {
    if groups != [] {
      var front, last := groups[..|groups| - 1], Last(groups);
      ItemsJoined(front);
      assert Mapped(Flat(front, Same()) + last, ItemText())
        == Mapped(Flat(front, Same()), ItemText()) + Mapped(last, ItemText());
    }
  }

  // ----- the span

  datatype Span = Span(low: nat, high: Option<nat>)

  /** `span`: `min` and `max` over the bounds, open as soon as one range is. */
  function SpanOf(ranges: seq<Range>): Option<Span> {
    if ranges == [] then None else
      var last := Last(ranges);
      match SpanOf(ranges[..|ranges| - 1])
      case None => Some(Span(last.low, last.high))
      case Some(s) =>
        Some(Span(if last.low < s.low then last.low else s.low,
                  if s.high.None? || last.high.None? then None
                  else Some(if last.high.value > s.high.value then last.high.value else s.high.value)))
  }

  predicate Admits(range: Range, id: nat) {
    range.low <= id && (range.high.None? || id <= range.high.value)
  }

  predicate InSpan(s: Span, id: nat) {
    s.low <= id && (s.high.None? || id <= s.high.value)
  }

  /** `_app_in_selection`, for an id that is a number. */
  predicate Selects(s: Selected, id: nat) {
    Numeral(id) in s.explicit || exists range :: range in s.ranges && Admits(range, id)
  }

  /** The span is the least that covers every range: its low is a range's low, its high is open
      just when a range is, and a range's high otherwise. */
  lemma {:induction false} SpanIsTight(ranges: seq<Range>)
    ensures SpanOf(ranges).None? <==> ranges == []
    ensures ranges != [] ==>
      var s := SpanOf(ranges).value;
      && (forall range :: range in ranges ==> s.low <= range.low)
      && (exists range :: range in ranges && range.low == s.low)
      && (s.high.None? <==> exists range :: range in ranges && range.high.None?)
      && (s.high.Some? ==> forall range :: range in ranges ==> range.high.Some? && range.high.value <= s.high.value)
      && (s.high.Some? ==> exists range :: range in ranges && range.high == s.high)
  {
    if ranges != [] {
      var front, last := ranges[..|ranges| - 1], Last(ranges);
      SpanIsTight(front);
      assert ranges == front + [last];
      assert last in ranges && forall range :: range in front ==> range in ranges;
    }
  }

  /** A token that selects a number: the number itself, or a range it lies in. */
  ghost predicate Picks(t: Token, id: nat) {
    match t
    case Plain(text) => text == Numeral(id)
    case Within(range) => range.low <= id && (range.high.Some? ==> id <= range.high.value)
  }

  /** An id is selected just when one of the tokens picks it. */
  lemma {:induction false} SelectedByTokens(tokens: seq<Token>, id: nat)
    ensures Selects(Select(tokens), id) <==> exists t :: t in tokens && Picks(t, id)
  {
    if tokens != [] {
      var front, last := tokens[..|tokens| - 1], Last(tokens);
      assert tokens == front + [last];
      SelectedByTokens(front, id);
      AddSelects(Select(front), last, id);
      assert last in tokens && forall t :: t in front ==> t in tokens;
    }
  }

  lemma AddSelects(s: Selected, t: Token, id: nat)
    ensures Selects(Add(s, t), id) <==> Selects(s, id) || Picks(t, id)
  {
    if t.Within? {
      assert forall range :: range in s.ranges + [t.range] <==> range in s.ranges || range == t.range;
      if Picks(t, id) { assert t.range in Add(s, t).ranges && Admits(t.range, id); }
    }
  }

  /** Both ends of the span are selected, if no range is upside down. */
  lemma SpanEndsSelected(s: Selected)
    requires s.ranges != [] && forall r :: r in s.ranges ==> r.high.Some? ==> r.low <= r.high.value
    ensures
      var span := SpanOf(s.ranges).value;
      Selects(s, span.low) && (span.high.Some? ==> Selects(s, span.high.value))
  {
    SpanIsTight(s.ranges);
  }

  /** An id admitted by a range lies in the span; one selected outside it is a plain id. */
  lemma AdmittedInSpan(s: Selected, id: nat)
    requires Selects(s, id) && Numeral(id) !in s.explicit
    ensures SpanOf(s.ranges).Some? && InSpan(SpanOf(s.ranges).value, id)
  {
    SpanIsTight(s.ranges);
  }
}
