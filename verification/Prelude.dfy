/** Small value types and sequence helpers the other modules share. */
module Prelude {

  datatype Option<+T> = None | Some(value: T)

  function Last<T>(s: seq<T>): T
    requires s != []
  {
    s[|s| - 1]
  }

  function Front<T>(s: seq<T>): seq<T>
    requires s != []
  {
    s[..|s| - 1]
  }

  /** The elements of `s` that satisfy `keep`, in order. */
  function Filter<T>(s: seq<T>, keep: T -> bool): seq<T> {
    if s == [] then [] else
      Filter(s[..|s| - 1], keep) + (if keep(Last(s)) then [Last(s)] else [])
  }

  lemma {:induction false} FilterMember<T>(s: seq<T>, keep: T -> bool, x: T)
    ensures x in Filter(s, keep) <==> x in s && keep(x)
  {
    if s != [] {
      assert s == s[..|s| - 1] + [Last(s)];
      FilterMember(s[..|s| - 1], keep, x);
    }
  }

  lemma FilterSnoc<T>(s: seq<T>, x: T, keep: T -> bool)
    ensures Filter(s + [x], keep) == Filter(s, keep) + (if keep(x) then [x] else [])
  {
    assert (s + [x])[..|s|] == s;
  }

  lemma {:induction false} FilterOn<T>(a: seq<T>, b: seq<T>, p: T -> bool)
    ensures Filter(a + b, p) == Filter(a, p) + Filter(b, p)
  {
    if b == [] {
      assert a + b == a;
    } else {
      var front := b[..|b| - 1];
      FilterOn(a, front, p);
      assert (a + b)[..|a + b| - 1] == a + front;
      assert Filter(a, p) + (Filter(front, p) + (if p(Last(b)) then [Last(b)] else []))
          == (Filter(a, p) + Filter(front, p)) + (if p(Last(b)) then [Last(b)] else []);
    }
  }

  lemma {:induction false} FilterSame<T>(s: seq<T>, keep: T -> bool, keep': T -> bool)
    requires forall x :: x in s ==> keep(x) == keep'(x)
    ensures Filter(s, keep) == Filter(s, keep')
  {
    if s != [] {
      assert s == s[..|s| - 1] + [Last(s)];
      FilterSame(s[..|s| - 1], keep, keep');
    }
  }

  lemma {:induction false} FilterAll<T>(s: seq<T>, keep: T -> bool)
    requires forall x :: x in s ==> keep(x)
    ensures Filter(s, keep) == s
  {
    if s != [] {
      assert s == s[..|s| - 1] + [Last(s)];
      FilterAll(s[..|s| - 1], keep);
    }
  }

  lemma {:induction false} FilterTwice<T>(s: seq<T>, a: T -> bool, b: T -> bool, both: T -> bool)
    requires forall x :: x in s ==> (both(x) <==> a(x) && b(x))
    ensures Filter(Filter(s, a), b) == Filter(s, both)
  {
    if s != [] {
      assert s == s[..|s| - 1] + [Last(s)];
      FilterTwice(s[..|s| - 1], a, b, both);
      if a(Last(s)) {
        FilterSnoc(Filter(s[..|s| - 1], a), Last(s), b);
      } else {
        assert Filter(s, a) == Filter(s[..|s| - 1], a);
      }
    }
  }

  lemma {:induction false} FilterNone<T>(s: seq<T>, keep: T -> bool)
    requires forall x :: x in s ==> !keep(x)
    ensures Filter(s, keep) == []
  {
    if s != [] {
      assert s == s[..|s| - 1] + [Last(s)];
      FilterNone(s[..|s| - 1], keep);
    }
  }

  lemma {:induction false} FilterCount<T>(s: seq<T>, keep: T -> bool, x: T)
    ensures multiset(Filter(s, keep))[x] == if keep(x) then multiset(s)[x] else 0
  {
    if s != [] {
      assert s == s[..|s| - 1] + [Last(s)];
      FilterCount(s[..|s| - 1], keep, x);
    }
  }

  /** What is kept for one of two exclusive reasons. */
  lemma FilterSplits<T>(s: seq<T>, a: T -> bool, b: T -> bool, either: T -> bool)
    requires forall x :: x in s ==> (either(x) <==> a(x) || b(x)) && !(a(x) && b(x))
    ensures multiset(Filter(s, either)) == multiset(Filter(s, a)) + multiset(Filter(s, b))
  {
    var whole, one, other := multiset(Filter(s, either)), multiset(Filter(s, a)), multiset(Filter(s, b));
    forall x ensures whole[x] == one[x] + other[x] {
      FilterCount(s, either, x);
      FilterCount(s, a, x);
      FilterCount(s, b, x);
      assert x in s <==> x in multiset(s);
    }
  }

  /** The first `k` pieces of `piece`, joined. */
  function Joined<T>(piece: nat -> seq<T>, k: nat): seq<T> {
    if k == 0 then [] else Joined(piece, k - 1) + piece(k - 1)
  }

  lemma {:induction false} JoinedEmpty<T>(piece: nat -> seq<T>, k: nat, j: nat)
    requires k <= j && forall i: nat :: k <= i < j ==> piece(i) == []
    ensures Joined(piece, j) == Joined(piece, k)
  {
    if j > k {
      JoinedEmpty(piece, k, j - 1);
      assert Joined(piece, j - 1) + [] == Joined(piece, j - 1);
    }
  }

  lemma {:induction false} JoinedMember<T>(piece: nat -> seq<T>, k: nat, x: T) returns (i: nat)
    requires x in Joined(piece, k)
    ensures i < k && x in piece(i)
  {
    if x in piece(k - 1) { i := k - 1; } else { i := JoinedMember(piece, k - 1, x); }
  }

  function Mapped<T, U>(s: seq<T>, f: T -> U): seq<U> {
    seq(|s|, i requires 0 <= i < |s| => f(s[i]))
  }

  lemma MappedSnoc<T, U>(s: seq<T>, x: T, f: T -> U)
    ensures Mapped(s + [x], f) == Mapped(s, f) + [f(x)]
  {
  }

  lemma MappedOn<T, U>(a: seq<T>, b: seq<T>, f: T -> U)
    ensures Mapped(a + b, f) == Mapped(a, f) + Mapped(b, f)
  {
  }

  /** The pieces `f` makes of the elements of `s`, joined. */
  function Flat<T, U>(s: seq<T>, f: T -> seq<U>): seq<U> {
    if s == [] then [] else Flat(s[..|s| - 1], f) + f(Last(s))
  }

  lemma {:induction false} FlatSame<T, U>(s: seq<T>, f: T -> seq<U>, g: T -> seq<U>)
    requires forall x :: x in s ==> f(x) == g(x)
    ensures Flat(s, f) == Flat(s, g)
  {
    if s != [] {
      assert s == s[..|s| - 1] + [Last(s)];
      FlatSame(s[..|s| - 1], f, g);
    }
  }

  lemma {:induction false} FlatMember<T, U>(s: seq<T>, f: T -> seq<U>, x: U)
    requires x in Flat(s, f)
    ensures exists y :: y in s && x in f(y)
  {
    assert s == s[..|s| - 1] + [Last(s)];
    if x !in f(Last(s)) {
      FlatMember(s[..|s| - 1], f, x);
    }
  }

  lemma {:induction false} FlatMapped<T, U, V>(s: seq<T>, g: T -> U, f: U -> seq<V>, fg: T -> seq<V>)
    requires forall x :: x in s ==> fg(x) == f(g(x))
    ensures Flat(Mapped(s, g), f) == Flat(s, fg)
  {
    if s != [] {
      var front := s[..|s| - 1];
      assert s == front + [Last(s)];
      FlatMapped(front, g, f, fg);
      assert Mapped(s, g)[..|s| - 1] == Mapped(front, g);
    }
  }

  /** Joining lists and then what `f` makes of their elements, or each list's share at once. */
  lemma {:induction false} FlatTwice<T, U, V>(s: seq<T>, g: T -> seq<U>, f: U -> seq<V>, fg: T -> seq<V>)
    requires forall x :: x in s ==> fg(x) == Flat(g(x), f)
    ensures Flat(Flat(s, g), f) == Flat(s, fg)
  {
    if s != [] {
      var front := s[..|s| - 1];
      assert s == front + [Last(s)];
      FlatTwice(front, g, f, fg);
      FlatOn(Flat(front, g), g(Last(s)), f);
    }
  }

  lemma FlatSnoc<T, U>(s: seq<T>, x: T, f: T -> seq<U>)
    ensures Flat(s + [x], f) == Flat(s, f) + f(x)
  {
    assert (s + [x])[..|s|] == s;
  }

  lemma {:induction false} FlatOn<T, U>(a: seq<T>, b: seq<T>, f: T -> seq<U>)
    ensures Flat(a + b, f) == Flat(a, f) + Flat(b, f)
  {
    if b == [] {
      assert a + b == a;
    } else {
      var front := b[..|b| - 1];
      FlatOn(a, front, f);
      assert (a + b)[..|a + b| - 1] == a + front && Last(a + b) == Last(b);
      assert (Flat(a, f) + Flat(front, f)) + f(Last(b)) == Flat(a, f) + (Flat(front, f) + f(Last(b)));
    }
  }

  lemma OnlyOne<T>(s: seq<T>, x: T)
    requires Distinct(s) && s != [] && forall y :: y in s ==> y == x
    ensures s == [x]
  {
    assert s[0] in s && s[|s| - 1] in s;
  }

  lemma UpdateMerged<K, V>(m: map<K, V>, n: map<K, V>, k: K, v: V)
    ensures (m + n)[k := v] == m + n[k := v]
  {
  }

  ghost predicate Distinct<T>(s: seq<T>) {
    forall i, j :: 0 <= i < j < |s| ==> s[i] != s[j]
  }

  lemma DistinctOn<T>(a: seq<T>, b: seq<T>)
    requires Distinct(a) && Distinct(b) && forall x :: x in a ==> x !in b
    ensures Distinct(a + b) && forall x :: x in a + b <==> x in a || x in b
  {
    forall i, j | 0 <= i < j < |a + b| ensures (a + b)[i] != (a + b)[j] {
      if i < |a| <= j { assert a[i] in a && b[j - |a|] in b; }
    }
  }

  lemma {:induction false} FilterDistinct<T>(s: seq<T>, keep: T -> bool)
    requires Distinct(s)
    ensures Distinct(Filter(s, keep))
  {
    if s != [] {
      var front := s[..|s| - 1];
      FilterDistinct(front, keep);
      FilterMember(front, keep, Last(s));
      assert Last(s) !in front;
    }
  }

  /** `dict.fromkeys`, as a list of its keys. */
  function Unique<T(==)>(ids: seq<T>): seq<T> {
    if ids == [] then [] else
      var front := Unique(ids[..|ids| - 1]);
      if Last(ids) in front then front else front + [Last(ids)]
  }

  lemma {:induction false} UniqueIs<T>(ids: seq<T>)
    ensures Distinct(Unique(ids)) && forall id :: id in Unique(ids) <==> id in ids
  {
    if ids != [] {
      UniqueIs(ids[..|ids| - 1]);
      assert ids == ids[..|ids| - 1] + [Last(ids)];
    }
  }


  lemma UniqueMember<T>(ids: seq<T>, x: T)
    requires x in Unique(ids)
    ensures exists p :: 0 <= p < |ids| && ids[p] == x
  {
    UniqueIs(ids);
    assert x in ids;
  }

  /** The keys stand in the order in which they are first met. */
  lemma {:induction false} UniqueInOrder<T>(ids: seq<T>, i: nat, j: nat)
    requires i < j < |Unique(ids)|
    ensures exists p :: 0 <= p < |ids| && ids[p] == Unique(ids)[i] && Unique(ids)[j] !in ids[..p]
  {
    var front := ids[..|ids| - 1];
    if j < |Unique(front)| {
      UniqueInOrder(front, i, j);
      var p :| 0 <= p < |front| && front[p] == Unique(front)[i] && Unique(front)[j] !in front[..p];
      assert ids[..p] == front[..p] && ids[p] == front[p];
    } else {
      UniqueMember(front, Unique(front)[i]);
      var p :| 0 <= p < |front| && front[p] == Unique(front)[i];
      assert ids[p] == front[p];
      forall x | x in ids[..p] ensures x != Last(ids) {
        UniqueIs(front);
        assert x in front;
      }
    }
  }

  // ----- Python's `sorted`, a stable sort

  ghost predicate TotalOrder<T(!new)>(le: (T, T) -> bool) {
    && (forall x, y :: le(x, y) || le(y, x))
    && (forall x, y, z :: le(x, y) && le(y, z) ==> le(x, z))
  }

  ghost predicate Sorted<T>(s: seq<T>, le: (T, T) -> bool) {
    forall i, j :: 0 <= i < j < |s| ==> le(s[i], s[j])
  }

  function Insert<T>(s: seq<T>, x: T, le: (T, T) -> bool): seq<T> {
    if s == [] || le(Last(s), x) then s + [x] else Insert(s[..|s| - 1], x, le) + [Last(s)]
  }

  function Sort<T>(s: seq<T>, le: (T, T) -> bool): seq<T> {
    if s == [] then [] else Insert(Sort(s[..|s| - 1], le), Last(s), le)
  }

  lemma {:induction false} InsertPermutes<T>(s: seq<T>, x: T, le: (T, T) -> bool)
    ensures multiset(Insert(s, x, le)) == multiset(s) + multiset{x}
  {
    if s != [] {
      InsertPermutes(s[..|s| - 1], x, le);
      assert s == s[..|s| - 1] + [Last(s)];
    }
  }

  lemma {:induction false} InsertOrders<T(!new)>(s: seq<T>, x: T, le: (T, T) -> bool)
    requires TotalOrder(le) && Sorted(s, le)
    ensures Sorted(Insert(s, x, le), le)
  {
    if s == [] {
    } else if le(Last(s), x) {
      forall i | 0 <= i < |s| ensures le(s[i], x) {
        assert i < |s| - 1 ==> le(s[i], s[|s| - 1]);
      }
    } else {
      var front, last := s[..|s| - 1], Last(s);
      InsertOrders(front, x, le);
      InsertPermutes(front, x, le);
      var merged := Insert(front, x, le);
      forall i | 0 <= i < |merged| ensures le(merged[i], last) {
        assert merged[i] in multiset(merged);
        if merged[i] != x {
          var j :| 0 <= j < |front| && front[j] == merged[i];
          assert s[j] == front[j];
        }
      }
    }
  }

  /** Sorting permutes into order. */
  lemma {:induction false} SortPermutes<T>(s: seq<T>, le: (T, T) -> bool)
    ensures multiset(Sort(s, le)) == multiset(s)
    ensures |Sort(s, le)| == |s|
    ensures forall y :: y in Sort(s, le) <==> y in s
  {
    if s != [] {
      SortPermutes(s[..|s| - 1], le);
      InsertPermutes(Sort(s[..|s| - 1], le), Last(s), le);
      assert s == s[..|s| - 1] + [Last(s)];
    }
    assert |Sort(s, le)| == |multiset(Sort(s, le))|;
    assert forall y :: y in Sort(s, le) <==> y in multiset(Sort(s, le));
  }

  lemma {:induction false} SortOrders<T(!new)>(s: seq<T>, le: (T, T) -> bool)
    requires TotalOrder(le)
    ensures Sorted(Sort(s, le), le)
  {
    if s != [] {
      SortOrders(s[..|s| - 1], le);
      InsertOrders(Sort(s[..|s| - 1], le), Last(s), le);
    }
  }

  lemma {:induction false} SortDistinct<T>(s: seq<T>, le: (T, T) -> bool)
    requires Distinct(s)
    ensures Distinct(Sort(s, le))
  {
    if s != [] {
      SortDistinct(s[..|s| - 1], le);
      SortPermutes(s[..|s| - 1], le);
      InsertDistinct(Sort(s[..|s| - 1], le), Last(s), le);
    }
  }

  lemma {:induction false} InsertDistinct<T>(s: seq<T>, x: T, le: (T, T) -> bool)
    requires Distinct(s) && x !in s
    ensures Distinct(Insert(s, x, le))
    ensures forall y :: y in Insert(s, x, le) <==> y in s || y == x
  {
    if s != [] && !le(Last(s), x) {
      var front, last := s[..|s| - 1], Last(s);
      assert s == front + [last];
      InsertDistinct(front, x, le);
      forall i | 0 <= i < |Insert(front, x, le)| ensures Insert(front, x, le)[i] != last {
        assert Insert(front, x, le)[i] in Insert(front, x, le);
        assert forall k :: 0 <= k < |front| ==> front[k] == s[k];
      }
    }
  }

  /** Python's order on text, by code point. */
  predicate TextLe(a: string, b: string) {
    a == "" || (b != "" && (a[0] < b[0] || (a[0] == b[0] && TextLe(a[1..], b[1..]))))
  }

  /** The texts agree up to position `k`, where `a` has the lesser character. */
  ghost predicate LessAt(a: string, b: string, k: nat) {
    k < |a| && k < |b| && a[k] < b[k] && forall i :: 0 <= i < k ==> a[i] == b[i]
  }

  /** A text is before another when it is a start of it, or less where they first differ. */
  lemma {:induction false} TextLeIs(a: string, b: string)
    ensures TextLe(a, b) <==> a <= b || exists k: nat :: LessAt(a, b, k)
  {
    if a != "" && b != "" && a[0] == b[0] {
      var c, d := a[1..], b[1..];
      TextLeIs(c, d);
      assert a == [a[0]] + c && b == [b[0]] + d;
      if k: nat :| LessAt(c, d, k) { assert LessAt(a, b, k + 1); }
      if k: nat :| LessAt(a, b, k) { assert k > 0 && LessAt(c, d, k - 1); }
    } else if a != "" && b != "" && a[0] < b[0] {
      assert LessAt(a, b, 0);
    }
  }

  lemma {:induction false} TextLeTotal(a: string, b: string)
    ensures TextLe(a, b) || TextLe(b, a)
    ensures TextLe(a, b) && TextLe(b, a) ==> a == b
  {
    if a != "" && b != "" {
      TextLeTotal(a[1..], b[1..]);
      assert a == [a[0]] + a[1..] && b == [b[0]] + b[1..];
    }
  }

  lemma {:induction false} TextLeTransitive(a: string, b: string, c: string)
    requires TextLe(a, b) && TextLe(b, c)
    ensures TextLe(a, c)
  {
    if a != "" {
      if a[0] == b[0] == c[0] { TextLeTransitive(a[1..], b[1..], c[1..]); }
    }
  }

  lemma TextOrder()
    ensures TotalOrder(TextLe)
  {
    forall a, b ensures TextLe(a, b) || TextLe(b, a) { TextLeTotal(a, b); }
    forall a, b, c | TextLe(a, b) && TextLe(b, c) ensures TextLe(a, c) { TextLeTransitive(a, b, c); }
  }
}
