/**
 `block_title`: the header of an application, or of a pair of applications, cut to the screen.
 The longer name gives a character at a time, ending on an ellipsis; its first cut makes it
 longer by two, so the loop ends because the names without their ellipsis get shorter.
 */
module TitleFitter {
  import opened Prelude

  const MAX_LINE := 78
  const HEADER := 22   // "CHANGED COMPONENTS - " and ":"
  const JOINER := 4    // " -> "

  type Names = s: seq<string> | 1 <= |s| <= 2 witness [""]

  function Room(names: Names): nat {
    MAX_LINE - HEADER - (if |names| == 2 then JOINER else 0)
  }

  function Total(names: Names): nat {
    if |names| == 1 then |names[0]| else |names[0]| + |names[1]|
  }

  /** Python's `removesuffix("...")`. */
  function Body(name: string): (b: string)
    ensures b <= name
  {
    if |name| >= 3 && name[|name| - 3..] == "..." then name[..|name| - 3] else name
  }

  function Shorten(name: string): string {
    var body := Body(name);
    (if body == "" then "" else body[..|body| - 1]) + "..."
  }

  /** The first of the longest names. */
  function Longer(names: Names): (i: nat)
    ensures i < |names| && forall j :: 0 <= j < |names| ==> |names[j]| <= |names[i]|
    ensures forall j :: 0 <= j < i ==> |names[j]| < |names[i]|
  {
    if |names| == 2 && |names[1]| > |names[0]| then 1 else 0
  }

  lemma ShortenBody(name: string)
    requires Body(name) != ""
    ensures Body(Shorten(name)) == Body(name)[..|Body(name)| - 1]
    ensures |Shorten(name)| == if |Body(name)| < |name| then |name| - 1 else |name| + 2
  {
    var kept := Body(name)[..|Body(name)| - 1];
    assert (kept + "...")[|kept|..] == "...";
    assert (kept + "...")[..|kept|] == kept;
  }

  /** Only a name of at most three characters can have nothing left to give. */
  lemma LongHasBody(name: string)
    requires |name| > 3
    ensures Body(name) != ""
  {
  }

  /** `name` is the original, or a proper part of its start and an ellipsis. */
  ghost predicate CutOf(name: string, original: string) {
    name == original || (Body(name) < Body(original) && name == Body(name) + "...")
  }

  ghost predicate WasCut(names: Names, originals: Names, i: nat)
    requires i < |names| == |originals|
  {
    names[i] != originals[i]
  }

  /** No name is longer by two than one that was cut, unless the line would still be over
      with only one character more in it. */
  ghost predicate Even(names: Names, originals: Names, room: nat)
    requires |names| == |originals|
  {
    forall i, j :: 0 <= i < |names| && 0 <= j < |names| && WasCut(names, originals, i) ==>
      |names[j]| <= |names[i]| + 1 || Total(names) - |names[j]| + |names[i]| + 1 > room
  }

  ghost predicate Cuts(names: Names, originals: Names) {
    |names| == |originals| && forall i :: 0 <= i < |names| ==> CutOf(names[i], originals[i])
  }

  function BodyTotal(names: Names): nat {
    if |names| == 1 then |Body(names[0])| else |Body(names[0])| + |Body(names[1])|
  }

  lemma CutAgain(name: string, original: string)
    requires CutOf(name, original) && Body(name) != ""
    ensures CutOf(Shorten(name), original) && Shorten(name) != original
  {
    ShortenBody(name);
  }

  function Step(names: Names): Names {
    names[Longer(names) := Shorten(names[Longer(names)])]
  }

  lemma LongestIsLong(names: Names, room: nat)
    requires Total(names) > room >= 3 * |names|
    ensures |names[Longer(names)]| > 3
  {
  }

  lemma EvenNext(names: Names, originals: Names, room: nat, next: Names, i: nat)
    requires |names| == |originals| && Even(names, originals, room) && Total(names) > room && i == Longer(names)
    requires |next| == |names| && forall j :: 0 <= j < |names| && j != i ==> next[j] == names[j]
    requires |next[i]| == |names[i]| - 1 || |next[i]| == |names[i]| + 2
    ensures Even(next, originals, room)
  {
    forall k, j | 0 <= k < |next| && 0 <= j < |next| && WasCut(next, originals, k)
      ensures |next[j]| <= |next[k]| + 1 || Total(next) - |next[j]| + |next[k]| + 1 > room
    {
      if k != i && j == i {
        assert WasCut(names, originals, k);
      }
    }
  }

  /** One turn of the loop. */
  lemma Turn(names: Names, originals: Names, room: nat)
    requires Cuts(names, originals) && Even(names, originals, room) && Total(names) > room >= 3 * |names|
    ensures
      var next := Step(names);
      && Cuts(next, originals) && Even(next, originals, room)
      && BodyTotal(next) < BodyTotal(names) && Total(next) >= room
  {
    var i := Longer(names);
    LongestIsLong(names, room);
    LongHasBody(names[i]);
    ShortenBody(names[i]);
    CutAgain(names[i], originals[i]);
    EvenNext(names, originals, room, Step(names), i);
  }

  lemma EvenAtLast(names: Names, originals: Names, room: nat)
    requires |names| == |originals| && Even(names, originals, room) && Total(names) <= room
    ensures forall i, j :: 0 <= i < |names| && 0 <= j < |names| && names[i] != originals[i] ==>
      |names[j]| <= |names[i]| + 1
  {
    forall i, j | 0 <= i < |names| && 0 <= j < |names| && names[i] != originals[i]
      ensures |names[j]| <= |names[i]| + 1
    {
      assert WasCut(names, originals, i);
    }
  }

  /** The loop: it ends, fills the room exactly if there was too much, and cuts fairly. */
  method FitTitle(originals: Names, room: nat) returns (names: Names)
    requires room >= 3 * |originals|
    ensures if Total(originals) <= room then names == originals else Total(names) == room
    ensures Cuts(names, originals)
    ensures forall i, j :: 0 <= i < |names| && 0 <= j < |names| && names[i] != originals[i] ==>
      |names[j]| <= |names[i]| + 1
  {
    names := originals;
    while Total(names) > room
      invariant Cuts(names, originals) && Even(names, originals, room)
      invariant if Total(originals) <= room then names == originals else Total(names) >= room
      decreases BodyTotal(names)
    {
      Turn(names, originals, room);
      var longer := Longer(names);
      names := names[longer := Shorten(names[longer])];
    }
    EvenAtLast(names, originals, room);
  }

  /** `block_title`: the header line, names, joiner and all. */
  method BlockTitle(application: string, target: string) returns (names: Names, width: nat)
    ensures |names| == if target == "" then 1 else 2
    ensures width == HEADER + Total(names) + (if target == "" then 0 else JOINER) <= MAX_LINE
    ensures CutOf(names[0], application) && (target != "" ==> CutOf(names[1], target))
    ensures names != (if target == "" then [application] else [application, target]) ==> width == MAX_LINE
  {
    var originals: Names := if target == "" then [application] else [application, target];
    names := FitTitle(originals, Room(originals));
    width := HEADER + Total(names) + (if target == "" then 0 else JOINER);
  }

  /** With less than an ellipsis of room per name the loop can stand still for ever. */
  lemma WithoutRoomItHangs()
    ensures var names: Names := ["...", "..."]; Total(names) > 5 && Step(names) == names
  {
    assert "..."[0..] == "..." && Body("...") == "" && "" + "..." == "...";
    assert Shorten("...") == "...";
  }
}
