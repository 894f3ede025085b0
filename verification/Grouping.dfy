/** A dictionary of lists filled by `setdefault(key, []).append(item)`, in insertion order. */
module Grouping {
  import opened Prelude

  /** The keys in the order they first appear. */
  function KeysOf<T, K(==)>(items: seq<T>, key: T -> K): seq<K> {
    if items == [] then [] else
      var front := KeysOf(items[..|items| - 1], key);
      if key(Last(items)) in front then front else front + [key(Last(items))]
  }

  function Keyed<T, K(==)>(key: T -> K, k: K): T -> bool {
    x => key(x) == k
  }

  function Group<T, K(==)>(items: seq<T>, key: T -> K, k: K): seq<T> {
    Filter(items, Keyed(key, k))
  }

  /** A dictionary of lists, with its key order. */
  datatype Dict<K, T> = Dict(order: seq<K>, groups: map<K, seq<T>>)

  function At<K, T>(d: Dict<K, T>, k: K): seq<T> {
    if k in d.groups then d.groups[k] else []
  }

  /** `d.setdefault(k, []).append(x)`. */
  function Append<K, T>(d: Dict<K, T>, k: K, x: T): Dict<K, T> {
    Dict(if k in d.groups then d.order else d.order + [k], d.groups[k := At(d, k) + [x]])
  }

  /** A dictionary holds the groups of `items`. */
  ghost predicate Groups<T, K(!new)>(d: Dict<K, T>, items: seq<T>, key: T -> K) {
    && d.order == KeysOf(items, key)
    && (forall k :: k in d.groups <==> k in d.order)
    && (forall k :: At(d, k) == Group(items, key, k))
  }

  lemma GroupNext<T, K>(items: seq<T>, key: T -> K, k: K)
    requires items != []
    ensures Group(items, key, k) == Group(items[..|items| - 1], key, k)
      + (if key(Last(items)) == k then [Last(items)] else [])
  {
  }

  lemma GroupsNext<T, K(!new)>(d: Dict<K, T>, items: seq<T>, i: nat, key: T -> K)
    requires i < |items| && Groups(d, items[..i], key)
    ensures Groups(Append(d, key(items[i]), items[i]), items[..i + 1], key)
  {
    var more, x := items[..i + 1], items[i];
    assert more[..i] == items[..i] && Last(more) == x;
    forall k ensures At(Append(d, key(x), x), k) == Group(more, key, k) {
      GroupNext(more, key, k);
      assert At(d, k) == Group(items[..i], key, k);
    }
  }

  method GroupBy<T, K(==, !new)>(items: seq<T>, key: T -> K) returns (d: Dict<K, T>)
    ensures Groups(d, items, key)
  {
    d := Dict([], map[]);
    for i := 0 to |items|
      invariant Groups(d, items[..i], key)
    {
      GroupsNext(d, items, i, key);
      d := Append(d, key(items[i]), items[i]);
    }
    assert items[..|items|] == items;
  }

  function MadeFrom<T, K(==), U>(items: seq<T>, key: T -> K, make: (K, seq<T>) -> U): K -> U {
    k => make(k, Group(items, key, k))
  }

  /** One result per key, made from the key and its group. */
  method EachGroup<T, K(==, !new), U>(
    d: Dict<K, T>, keys: seq<K>, make: (K, seq<T>) -> U, ghost items: seq<T>, ghost key: T -> K)
    returns (out: seq<U>)
    requires Groups(d, items, key) && forall k :: k in keys ==> k in d.order
    ensures out == Mapped(keys, MadeFrom(items, key, make))
  {
    out := [];
    for i := 0 to |keys|
      invariant out == Mapped(keys[..i], MadeFrom(items, key, make))
    {
      assert At(d, keys[i]) == Group(items, key, keys[i]);
      assert keys[..i + 1] == keys[..i] + [keys[i]];
      out := out + [make(keys[i], d.groups[keys[i]])];
    }
    assert keys[..|keys|] == keys;
  }

  lemma {:induction false} KeysOfIs<T, K(!new)>(items: seq<T>, key: T -> K)
    ensures Distinct(KeysOf(items, key))
    ensures forall x :: x in items ==> key(x) in KeysOf(items, key)
    ensures forall k :: k in KeysOf(items, key) ==> Group(items, key, k) != []
  {
    if items != [] {
      var front, last := items[..|items| - 1], Last(items);
      assert items == front + [last];
      KeysOfIs(front, key);
      forall k | k in KeysOf(items, key) ensures Group(items, key, k) != [] {
        assert Group(items, key, k) == Group(front, key, k) + (if key(last) == k then [last] else []);
      }
    }
  }

  // ----- totals

  function SumOver<K>(keys: seq<K>, f: K -> nat): nat {
    if keys == [] then 0 else SumOver(keys[..|keys| - 1], f) + f(Last(keys))
  }

  lemma {:induction false} SumOverSame<K>(keys: seq<K>, f: K -> nat, g: K -> nat)
    requires forall k :: k in keys ==> f(k) == g(k)
    ensures SumOver(keys, f) == SumOver(keys, g)
  {
    if keys != [] {
      assert keys == keys[..|keys| - 1] + [Last(keys)];
      SumOverSame(keys[..|keys| - 1], f, g);
    }
  }

  lemma {:induction false} SumOverBump<K>(keys: seq<K>, f: K -> nat, g: K -> nat, k: K)
    requires Distinct(keys) && (forall j :: j in keys && j != k ==> g(j) == f(j)) && (k in keys ==> g(k) == f(k) + 1)
    ensures SumOver(keys, g) == SumOver(keys, f) + (if k in keys then 1 else 0)
  {
    if keys != [] {
      var front, last := keys[..|keys| - 1], Last(keys);
      assert keys == front + [last];
      if last == k { SumOverSame(front, g, f); } else { SumOverBump(front, f, g, k); }
    }
  }

  function SizeIn<T, K(==)>(items: seq<T>, key: T -> K, p: T -> bool): K -> nat {
    k => |Filter(Group(items, key, k), p)|
  }

  lemma {:induction false} SumOverZero<K>(keys: seq<K>, f: K -> nat)
    requires forall k :: k in keys ==> f(k) == 0
    ensures SumOver(keys, f) == 0
  {
    if keys != [] {
      assert keys == keys[..|keys| - 1] + [Last(keys)];
      SumOverZero(keys[..|keys| - 1], f);
    }
  }

  lemma SizeNext<T, K>(items: seq<T>, key: T -> K, p: T -> bool, k: K)
    requires items != []
    ensures SizeIn(items, key, p)(k)
      == SizeIn(items[..|items| - 1], key, p)(k) + (if key(Last(items)) == k && p(Last(items)) then 1 else 0)
  {
    var before := Group(items[..|items| - 1], key, k);
    GroupNext(items, key, k);
    FilterSnoc(before, Last(items), p);
    assert before + [] == before;
    assert SizeIn(items, key, p)(k) == |Filter(Group(items, key, k), p)|;
    assert SizeIn(items[..|items| - 1], key, p)(k) == |Filter(before, p)|;
  }

  /** Over any keys that include all the items', the groups' sizes add up. */
  lemma {:induction false} GroupsAddUp<T, K>(items: seq<T>, key: T -> K, p: T -> bool, keys: seq<K>)
    requires Distinct(keys) && forall x :: x in items ==> key(x) in keys
    ensures SumOver(keys, SizeIn(items, key, p)) == |Filter(items, p)|
  {
    if items == [] {
      SumOverZero(keys, SizeIn(items, key, p));
    } else {
      var front, last := items[..|items| - 1], Last(items);
      assert items == front + [last];
      GroupsAddUp(front, key, p, keys);
      forall k
        ensures SizeIn(items, key, p)(k) == SizeIn(front, key, p)(k) + (if key(last) == k && p(last) then 1 else 0)
      {
        SizeNext(items, key, p, k);
      }
      if p(last) {
        SumOverBump(keys, SizeIn(front, key, p), SizeIn(items, key, p), key(last));
      } else {
        SumOverSame(keys, SizeIn(items, key, p), SizeIn(front, key, p));
      }
    }
  }

  lemma {:induction false} SumOverOn<K>(a: seq<K>, b: seq<K>, f: K -> nat)
    ensures SumOver(a + b, f) == SumOver(a, f) + SumOver(b, f)
  {
    if b == [] {
      assert a + b == a;
    } else {
      SumOverOn(a, b[..|b| - 1], f);
      assert (a + b)[..|a + b| - 1] == a + b[..|b| - 1];
    }
  }

  lemma {:induction false} SumOverMapped<K, L>(s: seq<K>, g: K -> L, f: L -> nat, fg: K -> nat)
    requires forall x :: x in s ==> fg(x) == f(g(x))
    ensures SumOver(Mapped(s, g), f) == SumOver(s, fg)
  {
    if s != [] {
      var front := s[..|s| - 1];
      assert s == front + [Last(s)];
      SumOverMapped(front, g, f, fg);
      assert Mapped(s, g)[..|s| - 1] == Mapped(front, g);
    }
  }

  lemma {:induction false} SumOverSplit<K>(s: seq<K>, a: K -> bool, b: K -> bool, f: K -> nat)
    requires forall x :: x in s ==> a(x) != b(x)
    ensures SumOver(s, f) == SumOver(Filter(s, a), f) + SumOver(Filter(s, b), f)
  {
    if s != [] {
      var front, last := s[..|s| - 1], Last(s);
      assert s == front + [last];
      SumOverSplit(front, a, b, f);
      SumOverOn(Filter(front, a), if a(last) then [last] else [], f);
      SumOverOn(Filter(front, b), if b(last) then [last] else [], f);
      SumOverOne(last, f);
    }
  }

  lemma SumOverOne<K>(x: K, f: K -> nat)
    ensures SumOver([x], f) == f(x) && SumOver([], f) == 0
  {
    assert [x][..0] == [];
  }

  /** How many of the elements `f` makes of each item satisfy `p`. */
  function Sizes<T, U>(f: T -> seq<U>, p: U -> bool): T -> nat {
    x => |Filter(f(x), p)|
  }

  lemma {:induction false} FilterFlat<T, U>(s: seq<T>, f: T -> seq<U>, p: U -> bool)
    ensures |Filter(Flat(s, f), p)| == SumOver(s, Sizes(f, p))
  {
    if s != [] {
      FilterFlat(s[..|s| - 1], f, p);
      FilterOn(Flat(s[..|s| - 1], f), f(Last(s)), p);
    }
  }
}
