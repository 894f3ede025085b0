/**
 The life of database gateways: the scope that closes each of them once, the factory that
 builds one per schema, and the order of the wrappers around one.
 */
module Gateways {
  import opened Prelude

  // ----- the wrappers

  /** A gateway and what wraps it: the `-debug` logger, the console guard. */
  datatype Chain = Bare | Logger(inner: Chain) | Guard(inner: Chain)

  function Loggers(c: Chain): nat {
    match c case Bare => 0 case Logger(i) => Loggers(i) + 1 case Guard(i) => Loggers(i)
  }

  function Guards(c: Chain): nat {
    match c case Bare => 0 case Logger(i) => Guards(i) case Guard(i) => Guards(i) + 1
  }

  /** No logger prints a statement before a guard has seen it. */
  predicate GuardsFirst(c: Chain) {
    match c
    case Bare => true
    case Logger(i) => Guards(i) == 0 && GuardsFirst(i)
    case Guard(i) => GuardsFirst(i)
  }

  /** `debug_wrapped`. */
  function DebugWrapped(c: Chain, debug: bool): Chain {
    if !debug then c
    else match c case Guard(i) => Guard(Logger(i)) case _ => Logger(c)
  }

  /** The wrapping in `build_gateway`. */
  function Built(debug: bool, strict: bool): Chain {
    var wired := if debug then Logger(Bare) else Bare;
    if strict then Guard(wired) else wired
  }

  lemma {:induction false} Unguarded(c: Chain)
    requires Guards(c) == 0
    ensures GuardsFirst(c) && !c.Guard?
  {
    if c.Logger? { Unguarded(c.inner); }
  }

  /** One more logger and no guard more or less, the guard staying outermost; and the guard
      sees every statement first exactly when there was none, or one and it was outermost. */
  lemma WrapKeepsTheGuardFirst(c: Chain)
    ensures
      var r := DebugWrapped(c, true);
      && Loggers(r) == Loggers(c) + 1 && Guards(r) == Guards(c) && (r.Guard? <==> c.Guard?)
      && (GuardsFirst(r) <==> Guards(c) == 0 || (c.Guard? && Guards(c) == 1))
    ensures DebugWrapped(c, false) == c
  {
    if c.Guard? {
      if Guards(c.inner) == 0 { Unguarded(c.inner); }
    } else if Guards(c) == 0 {
      Unguarded(c);
    }
  }

  /** However a built gateway is wrapped again, its guard stays first, and it has one logger for
      every time one was asked for. */
  lemma {:induction false} BuiltStaysGuarded(debug: bool, strict: bool, wraps: seq<bool>)
    ensures var r := Wraps(Built(debug, strict), wraps);
      && GuardsFirst(r) && (r.Guard? <==> strict) && Guards(r) == (if strict then 1 else 0)
      && Loggers(r) == (if debug then 1 else 0) + |Filter(wraps, (on: bool) => on)|
  {
    if wraps != [] {
      var front := Wraps(Built(debug, strict), wraps[..|wraps| - 1]);
      BuiltStaysGuarded(debug, strict, wraps[..|wraps| - 1]);
      WrapKeepsTheGuardFirst(front);
    }
  }

  function Wraps(c: Chain, wraps: seq<bool>): Chain {
    if wraps == [] then c else DebugWrapped(Wraps(c, wraps[..|wraps| - 1]), Last(wraps))
  }

  // ----- the scope

  class Gateway {
    const schema: string
    const raises: bool     // closing it raises
    const chain: Chain

    constructor (schema: string, raises: bool, chain: Chain)
      ensures this.schema == schema && this.raises == raises && this.chain == chain
    {
      this.schema, this.raises, this.chain := schema, raises, chain;
    }

    /** `journal` records every close there is, in order. */
    method Close(journal: Journal) returns (raised: bool)
      modifies journal
      ensures journal.closed == old(journal.closed) + [this] && raised == raises
    {
      journal.closed := journal.closed + [this];
      raised := raises;
    }
  }

  class Journal {
    var closed: seq<Gateway>

    constructor ()
      ensures closed == []
    {
      closed := [];
    }
  }

  function Reversed<T>(s: seq<T>): seq<T> {
    if s == [] then [] else [Last(s)] + Reversed(s[..|s| - 1])
  }

  lemma {:induction false} ReversedIs<T>(s: seq<T>)
    ensures |Reversed(s)| == |s| && forall i :: 0 <= i < |s| ==> Reversed(s)[i] == s[|s| - 1 - i]
  {
    if s != [] {
      ReversedIs(s[..|s| - 1]);
    }
  }

  /** Each tracked gateway once, the last tracked first. */
  lemma ClosedOnceEach<T>(tracked: seq<T>, x: T)
    ensures Distinct(Reversed(Unique(tracked)))
    ensures x in Reversed(Unique(tracked)) <==> x in tracked
  {
    var s := Unique(tracked);
    UniqueIs(tracked);
    ReversedIs(s);
    if x in s {
      var i :| 0 <= i < |s| && s[i] == x;
      assert Reversed(s)[|s| - 1 - i] == x;
    }
  }

  class GatewayScope {
    var gateways: seq<Gateway>        // the values of `_gateways`, in insertion order
    ghost var tracked: seq<Gateway>   // every `track` since the last `close`

    ghost predicate Valid()
      reads this
    {
      gateways == Unique(tracked)
    }

    constructor ()
      ensures Valid() && tracked == []
    {
      gateways, tracked := [], [];
    }

    /** `track`: kept once, by identity. */
    method Track(gateway: Gateway) returns (r: Gateway)
      requires Valid()
      modifies this
      ensures Valid() && r == gateway && tracked == old(tracked) + [gateway]
    {
      tracked := tracked + [gateway];
      assert tracked[..|tracked| - 1] == old(tracked);
      if gateway !in gateways {
        gateways := gateways + [gateway];
      }
      r := gateway;
    }

    /** `close`: every tracked gateway exactly once, in reverse order of its first tracking,
        whatever closing any of them raises. */
    method Close(journal: Journal)
      requires Valid()
      modifies this, journal
      ensures Valid() && tracked == []
      ensures journal.closed == old(journal.closed) + Reversed(Unique(old(tracked)))
    {
      var all := gateways;
      gateways, tracked := [], [];
      var i := |all|;
      assert all[..|all|] == all;
      while i > 0
        invariant 0 <= i <= |all| && gateways == [] == tracked
        invariant journal.closed + Reversed(all[..i]) == old(journal.closed) + Reversed(all)
      {
        i := i - 1;
        ghost var before := journal.closed;
        assert all[..i + 1][..i] == all[..i];
        var raised := all[i].Close(journal);   // suppressed
        assert before + ([all[i]] + Reversed(all[..i])) == (before + [all[i]]) + Reversed(all[..i]);
      }
      assert Reversed(all[..0]) == [] && journal.closed + [] == journal.closed;
    }
  }

  // ----- the cached factory

  class SchemaFactory {
    const debug: bool
    const strict: bool
    const raises: string -> bool
    var cache: map<string, Gateway>
    var built: seq<string>            // the schemas the base factory was called for

    ghost predicate Valid()
      reads this
    {
      && Distinct(built) && (forall s :: s in built <==> s in cache)
      && (forall s, t :: s in cache && t in cache && s != t ==> cache[s] != cache[t])
      && (forall s :: s in cache ==>
            cache[s].schema == s && cache[s].chain == DebugWrapped(Built(false, strict), debug))
    }

    constructor (debug: bool, strict: bool, raises: string -> bool)
      ensures Valid() && cache == map[] && this.debug == debug && this.strict == strict
    {
      this.debug, this.strict, this.raises := debug, strict, raises;
      cache, built := map[], [];
    }

    /** `factory`: the schema's gateway is built, tracked and wrapped on the first call, and
        every later call returns that same object. */
    method Get(schema: string, scope: GatewayScope) returns (r: Gateway)
      requires Valid() && scope.Valid()
      modifies this, scope
      ensures Valid() && scope.Valid()
      ensures schema in cache && r == cache[schema]
      ensures forall s :: s in old(cache) ==> s in cache && cache[s] == old(cache)[s]
      ensures forall s :: s in cache ==> s in old(cache) || s == schema
      ensures schema in old(cache) ==> built == old(built) && scope.tracked == old(scope.tracked)
      ensures schema !in old(cache) ==>
        && fresh(r) && built == old(built) + [schema]
        && |scope.tracked| == |old(scope.tracked)| + 1 && scope.tracked[..|old(scope.tracked)|] == old(scope.tracked)
        && fresh(Last(scope.tracked)) && Last(scope.tracked).chain == Built(false, strict)
        && Last(scope.tracked).schema == schema && Last(scope.tracked).raises == raises(schema)
        && (!debug ==> r == Last(scope.tracked))
    {
      if schema !in cache {
        var session := new Gateway(schema, raises(schema), Built(false, strict));
        session := scope.Track(session);
        var wrapped := session;
        if debug {
          wrapped := new Gateway(schema, raises(schema), DebugWrapped(session.chain, true));
        }
        cache := cache[schema := wrapped];
        built := built + [schema];
      }
      r := cache[schema];
    }
  }
}
