// What generation can make of pools in any state, also of pools in which one key has several ports.
module Outcomes {
  import opened Text
  import opened PortPool
  import opened RuleGen

  // ----- the ports that new keys get -----

  /** The pool after `k` new keys: only which ports are taken matters. */
  ghost function TakenPool(pool: Pool, k: nat): Pool {
    if k == 0 then pool
    else
      match FirstFree(TakenPool(pool, k - 1), MIN_PORT)
      case None => TakenPool(pool, k - 1)
      case Some(n) => TakenPool(pool, k - 1)[Itoa(n) := ""]
  }

  /** The port that the next new key gets after `k` others */
  ghost function NthFree(pool: Pool, k: nat): Option<int> {
    FirstFree(TakenPool(pool, k), MIN_PORT)
  }

  /** The first place where the i-th demand's key is asked of its pool */
  ghost function FirstAsk(ds: seq<Demand>, i: nat): (j: nat)
    requires i < |ds|
    ensures j <= i && ds[j] == ds[i] && forall k :: 0 <= k < j ==> ds[k] != ds[i]
    decreases i
  {
    if j :| 0 <= j < i && ds[j] == ds[i] then FirstAsk(ds, j) else i
  }

  lemma FirstAskUnique(ds: seq<Demand>, i: nat, j: nat)
    requires i < |ds| && j < |ds| && ds[i] == ds[j]
    ensures FirstAsk(ds, i) == FirstAsk(ds, j)
  {
  }

  lemma FirstAskPrefix(ds: seq<Demand>, k: nat, i: nat)
    requires i < k <= |ds|
    ensures FirstAsk(ds[..k], i) == FirstAsk(ds, i) && ds[..k][..FirstAsk(ds, i)] == ds[..FirstAsk(ds, i)]
  {
    var a, b := FirstAsk(ds[..k], i), FirstAsk(ds, i);
    assert ds[..k][a] == ds[a] && ds[..k][b] == ds[b] && ds[..k][i] == ds[i];
  }

  /** The port that a new key gets: the free port whose number is that of the new keys asked before it */
  ghost function NewPort(ds: seq<Demand>, pools: Pools, i: nat): Option<int>
    requires i < |ds|
  {
    NthFree(PoolOf(pools, ds[i].pool), |NewKeys(ds[..FirstAsk(ds, i)], pools, ds[i].pool)|)
  }

  /** What the i-th demand may be answered: any port that holds its key, or else the free port that is its turn */
  ghost predicate MayGet(ds: seq<Demand>, pools: Pools, i: nat, port: string)
    requires i < |ds|
  {
    var pool := PoolOf(pools, ds[i].pool);
    if Held(pool, ds[i].key) then port in pool && pool[port] == ds[i].key
    else NewPort(ds, pools, i).Some? && port == Itoa(NewPort(ds, pools, i).value)
  }

  // ----- what serving leaves -----

  /** A port that was not there before holds a new key, at its turn. */
  ghost predicate NewAtTurn(ds: seq<Demand>, before: Pools, g: string, port: string, key: string) {
    exists i: nat :: i < |ds| && ds[i] == Demand(g, key) && !Held(PoolOf(before, g), key) && MayGet(ds, before, i, port)
  }

  ghost predicate ServedAt(ds: seq<Demand>, before: Pools, after: Pools, g: string) {
    ServedIn(ds, before, PoolOf(after, g), g)
  }

  /** Pool g after the demands: nothing is lost, the first free ports are taken, one by each new key. */
  ghost predicate ServedIn(ds: seq<Demand>, before: Pools, now: Pool, g: string) {
    var was := PoolOf(before, g);
    && (forall p :: p in was ==> p in now && now[p] == was[p])
    && now.Keys == TakenPool(was, |NewKeys(ds, before, g)|).Keys
    && (forall p :: p in now && p !in was ==> NewAtTurn(ds, before, g, p, now[p]))
    && (forall key :: Held(now, key) <==> Held(was, key) || key in NewKeys(ds, before, g))
  }

  lemma NewAtTurnLater(ds: seq<Demand>, d: Demand, before: Pools, g: string, port: string, key: string)
    requires NewAtTurn(ds, before, g, port, key)
    ensures NewAtTurn(ds + [d], before, g, port, key)
  {
    hide Held, NewKeys, NthFree, FirstAsk;
    var all := ds + [d];
    var i: nat :| i < |ds| && ds[i] == Demand(g, key) && !Held(PoolOf(before, g), key) && MayGet(ds, before, i, port);
    assert all[..|ds|] == ds;
    FirstAskPrefix(all, |ds|, i);
    assert all[i] == ds[i];
  }

  lemma NewKeysOfMore(ds: seq<Demand>, d: Demand, pools: Pools, g: string)
    ensures NewKeys(ds + [d], pools, g) == NewKeys(ds, pools, g) + if d.pool == g && !Held(PoolOf(pools, g), d.key) then {d.key} else {}
  {
    NewKeysSnoc(ds + [d], pools, g);
    assert (ds + [d])[..|ds + [d]| - 1] == ds;
  }

  /** One more lookup on another pool */
  lemma ServedElsewhere(ds: seq<Demand>, d: Demand, before: Pools, mid: Pools, after: Pools, g: string)
    requires ServedAt(ds, before, mid, g) && d.pool != g && PoolOf(after, g) == PoolOf(mid, g)
    ensures ServedAt(ds + [d], before, after, g)
  {
    hide Held, NewKeys, TakenPool, NewAtTurn;
    NewKeysOfMore(ds, d, before, g);
    forall p | p in PoolOf(after, g) && p !in PoolOf(before, g) ensures NewAtTurn(ds + [d], before, g, p, PoolOf(after, g)[p]) {
      NewAtTurnLater(ds, d, before, g, p, PoolOf(mid, g)[p]);
    }
  }

  /** One more lookup that finds its key */
  lemma ServedHeld(ds: seq<Demand>, d: Demand, before: Pools, mid: Pools)
    requires ServedAt(ds, before, mid, d.pool) && Held(PoolOf(mid, d.pool), d.key)
    ensures ServedAt(ds + [d], before, mid, d.pool)
  {
    hide Held, NewKeys, TakenPool, NewAtTurn;
    var g := d.pool;
    NewKeysOfMore(ds, d, before, g);
    assert NewKeys(ds + [d], before, g) == NewKeys(ds, before, g);
    forall p | p in PoolOf(mid, g) && p !in PoolOf(before, g) ensures NewAtTurn(ds + [d], before, g, p, PoolOf(mid, g)[p]) {
      NewAtTurnLater(ds, d, before, g, p, PoolOf(mid, g)[p]);
    }
  }

  lemma NotAskedBefore(ds: seq<Demand>, d: Demand, before: Pools)
    requires d.key !in NewKeys(ds, before, d.pool) && !Held(PoolOf(before, d.pool), d.key)
    ensures FirstAsk(ds + [d], |ds|) == |ds| && (ds + [d])[..|ds|] == ds
  {
    var all := ds + [d];
    assert d !in ds;
    assert forall k :: 0 <= k < |ds| ==> all[k] == ds[k] && ds[k] in ds;
  }

  lemma TakenNext(pool: Pool, k: nat, n: int)
    requires FirstFree(TakenPool(pool, k), MIN_PORT) == Some(n)
    ensures TakenPool(pool, k + 1) == TakenPool(pool, k)[Itoa(n) := ""]
  {
    hide FirstFree;
  }

  /** The turn of a new key is the next free port. */
  lemma NewTurn(ds: seq<Demand>, d: Demand, before: Pools, now: Pool, n: int)
    requires ServedIn(ds, before, now, d.pool) && !Held(now, d.key) && FirstFree(now, MIN_PORT) == Some(n)
    ensures !Held(PoolOf(before, d.pool), d.key) && d.key !in NewKeys(ds, before, d.pool)
    ensures MayGet(ds + [d], before, |ds|, Itoa(n)) && NewAtTurn(ds + [d], before, d.pool, Itoa(n), d.key)
    ensures TakenPool(PoolOf(before, d.pool), |NewKeys(ds, before, d.pool)| + 1).Keys == now.Keys + {Itoa(n)}
  {
    hide NewKeys, TakenPool, FirstFree, NewAtTurn, Held, FirstAsk, Itoa, PoolOf;
    var g := d.pool;
    var was, all := PoolOf(before, g), ds + [d];
    var k := |NewKeys(ds, before, g)|;
    NotAskedBefore(ds, d, before);
    SameKeysSameFree(TakenPool(was, k), now, MIN_PORT);
    TakenNext(was, k, n);
    assert all[|ds|] == d;
    assert MayGet(all, before, |ds|, Itoa(n));
    NewIsAtTurn(all, |ds|, before, Itoa(n));
  }

  lemma OneMoreNewKey(ds: seq<Demand>, d: Demand, pools: Pools)
    requires d.key !in NewKeys(ds, pools, d.pool) && !Held(PoolOf(pools, d.pool), d.key)
    ensures NewKeys(ds + [d], pools, d.pool) == NewKeys(ds, pools, d.pool) + {d.key}
    ensures |NewKeys(ds + [d], pools, d.pool)| == |NewKeys(ds, pools, d.pool)| + 1
  {
    hide NewKeys, Held;
    NewKeysOfMore(ds, d, pools, d.pool);
  }

  /** One more lookup that takes the first free port */
  lemma ServedNew(ds: seq<Demand>, d: Demand, before: Pools, now: Pool, n: int)
    requires ServedIn(ds, before, now, d.pool) && !Held(now, d.key) && FirstFree(now, MIN_PORT) == Some(n)
    ensures ServedIn(ds + [d], before, now[Itoa(n) := d.key], d.pool)
    ensures MayGet(ds + [d], before, |ds|, Itoa(n))
  {
    var g := d.pool;
    hide NewKeys, TakenPool, FirstFree, NewAtTurn, MayGet, Held, Itoa, PoolOf;
    var was, all, after := PoolOf(before, g), ds + [d], now[Itoa(n) := d.key];
    assert Itoa(n) !in now;
    NewTurn(ds, d, before, now, n);
    OneMoreNewKey(ds, d, before);
    HeldOneMore(now, Itoa(n), d.key);
    assert after.Keys == now.Keys + {Itoa(n)};
    forall p | p in after && p !in was ensures NewAtTurn(all, before, g, p, after[p]) {
      if p != Itoa(n) {
        NewAtTurnLater(ds, d, before, g, p, now[p]);
      }
    }
  }

  lemma NewIsAtTurn(ds: seq<Demand>, i: nat, before: Pools, port: string)
    requires i < |ds| && !Held(PoolOf(before, ds[i].pool), ds[i].key) && MayGet(ds, before, i, port)
    ensures NewAtTurn(ds, before, ds[i].pool, port, ds[i].key)
  {
    hide MayGet, Held;
    assert ds[i] == Demand(ds[i].pool, ds[i].key);
  }

  /** What a found port means for a demand: the key was held there before, or got it at its turn. */
  lemma FoundIsMayGet(ds: seq<Demand>, d: Demand, before: Pools, mid: Pools, port: string)
    requires ServedAt(ds, before, mid, d.pool) && port in PoolOf(mid, d.pool) && PoolOf(mid, d.pool)[port] == d.key
    ensures MayGet(ds + [d], before, |ds|, port)
  {
    var g, all := d.pool, ds + [d];
    assert all[|ds|] == d;
    if port !in PoolOf(before, g) {
      assert NewAtTurn(ds, before, g, port, d.key);
      NewAtTurnLater(ds, d, before, g, port, d.key);
      var i: nat :| i < |all| && all[i] == Demand(g, d.key) && !Held(PoolOf(before, g), d.key) && MayGet(all, before, i, port);
      FirstAskUnique(all, i, |ds|);
    }
  }

  lemma ServedNothing(pools: Pools, g: string)
    ensures ServedAt([], pools, pools, g)
  {
    assert NewKeys([], pools, g) == {};
  }

  lemma ServedAllNext(ds: seq<Demand>, d: Demand, before: Pools, mid: Pools, port: string, after: Pools, g: string)
    requires ServedAt(ds, before, mid, g) && ServedAt(ds, before, mid, d.pool) && Answers(d, Some(port), mid, after)
    ensures ServedAt(ds + [d], before, after, g)
    ensures MayGet(ds + [d], before, |ds|, port)
  {
    hide ServedIn, MayGet, FirstFree;
    if Held(PoolOf(mid, d.pool), d.key) {
      FoundIsMayGet(ds, d, before, mid, port);
      ServedHeld(ds, d, before, mid);
    } else {
      ServedNew(ds, d, before, PoolOf(mid, d.pool), FirstFree(PoolOf(mid, d.pool), MIN_PORT).value);
    }
    if g != d.pool {
      ServedElsewhere(ds, d, before, mid, after, g);
    }
  }

  /** In any state, whatever the maps' iteration order: every demand is answered with a port it may get. */
  lemma {:induction false} OutcomeIsMayGet(ds: seq<Demand>, before: Pools, ports: seq<string>, after: Pools, g: string, i: nat)
    requires MayServe(ds, before, ports, after)
    ensures ServedAt(ds, before, after, g) && |ports| == |ds|
    ensures i < |ds| ==> MayGet(ds, before, i, ports[i])
    decreases |ds|
  {
    hide *;
    if ds == [] {
      MayServeNone(before, ports, after);
      ServedNothing(before, g);
    } else {
      var last := |ds| - 1;
      var mid := MayServeLast(ds, before, ports, after);
      OutcomeIsMayGet(ds[..last], before, ports[..last], mid, g, i);
      OutcomeIsMayGet(ds[..last], before, ports[..last], mid, ds[last].pool, i);
      ServedAllNext(ds[..last], ds[last], before, mid, ports[last], after, g);
      assert ds[..last] + [ds[last]] == ds;
      if i < last {
        MayGetLater(ds, last, before, i, ports[i]);
      }
    }
  }

  lemma MayGetLater(ds: seq<Demand>, k: nat, before: Pools, i: nat, port: string)
    requires i < k <= |ds| && MayGet(ds[..k], before, i, port)
    ensures MayGet(ds, before, i, port)
  {
    hide Held, NewKeys, NthFree, FirstAsk;
    FirstAskPrefix(ds, k, i);
    assert ds[..k][i] == ds[i];
  }

  // ----- when there is an outcome at all -----

  /** One more lookup takes one more port of the range, unless it finds its key. */
  lemma AnswerCount(d: Demand, mid: Pools, port: string, after: Pools, g: string)
    requires Answers(d, Some(port), mid, after)
    ensures |InRange(PoolOf(after, g))| ==
            |InRange(PoolOf(mid, g))| + if g == d.pool && !Held(PoolOf(mid, g), d.key) then 1 else 0
  {
    hide Held, Itoa;
    var pool := PoolOf(mid, d.pool);
    if g == d.pool && !Held(pool, d.key) {
      var n := FirstFree(pool, MIN_PORT).value;
      assert Itoa(n) !in pool && PoolOf(after, g) == pool[Itoa(n) := d.key];
      forall m | m in InRange(PoolOf(after, g)) ensures m in InRange(pool) + {n} {
        ItoaInjective(m, n);
      }
      assert InRange(PoolOf(after, g)) == InRange(pool) + {n};
    }
  }

  /** The last demand's key is new exactly if it is not held when its turn comes. */
  lemma NewAtItsTurn(ds: seq<Demand>, before: Pools, mid: Pools, g: string)
    requires ds != [] && ServedAt(ds[..|ds| - 1], before, mid, ds[|ds| - 1].pool)
    ensures var d, init := ds[|ds| - 1], ds[..|ds| - 1];
            |NewKeys(ds, before, g)| ==
            |NewKeys(init, before, g)| + if g == d.pool && !Held(PoolOf(mid, g), d.key) then 1 else 0
  {
    hide Held, NewKeys, TakenPool, NewAtTurn, PoolOf;
    var d, init := ds[|ds| - 1], ds[..|ds| - 1];
    NewKeysSnoc(ds, before, g);
    NewKeysAreNew(init, before, g);
    if g == d.pool && !Held(PoolOf(mid, g), d.key) {
      assert NewKeys(ds, before, g) == NewKeys(init, before, g) + {d.key};
    } else {
      assert NewKeys(ds, before, g) == NewKeys(init, before, g);
    }
  }

  lemma {:induction false} OutcomeCount(ds: seq<Demand>, before: Pools, ports: seq<string>, after: Pools, g: string)
    requires MayServe(ds, before, ports, after)
    ensures |InRange(PoolOf(after, g))| == |InRange(PoolOf(before, g))| + |NewKeys(ds, before, g)|
    decreases |ds|
  {
    hide *;
    if ds == [] {
      MayServeNone(before, ports, after);
      NoNewKeys(before, g);
    } else {
      var last := |ds| - 1;
      var mid := MayServeLast(ds, before, ports, after);
      OutcomeCount(ds[..last], before, ports[..last], mid, g);
      OutcomeIsMayGet(ds[..last], before, ports[..last], mid, ds[last].pool, last);
      NewAtItsTurn(ds, before, mid, g);
      AnswerCount(ds[last], mid, ports[last], after, g);
    }
  }

  lemma NoNewKeys(pools: Pools, g: string)
    ensures NewKeys([], pools, g) == {}
  {
  }

  /** A lookup can be answered if its key is held or a port is free. */
  lemma CanAnswer(d: Demand, mid: Pools) returns (port: string, after: Pools)
    requires Held(PoolOf(mid, d.pool), d.key) || |InRange(PoolOf(mid, d.pool))| < 63488
    ensures Answers(d, Some(port), mid, after)
  {
    var pool := PoolOf(mid, d.pool);
    if Held(pool, d.key) {
      port :| port in pool && pool[port] == d.key;
      after := mid[d.pool := pool];
    } else {
      FreePortExists(pool);
      port := Itoa(FirstFree(pool, MIN_PORT).value);
      after := mid[d.pool := pool[port := d.key]];
    }
  }

  lemma {:induction false} FittingHasOutcome(ds: seq<Demand>, before: Pools) returns (ports: seq<string>, after: Pools)
    requires Fits(ds, before)
    ensures MayServe(ds, before, ports, after)
    decreases |ds|
  {
    hide *;
    if ds == [] {
      ports, after := [], before;
      MayServeNone(before, ports, after);
    } else {
      var last := |ds| - 1;
      var d := ds[last];
      FitsStep(ds, before);
      var p, mid := FittingHasOutcome(ds[..last], before);
      OutcomeCount(ds[..last], before, p, mid, d.pool);
      OutcomeIsMayGet(ds[..last], before, p, mid, d.pool, last);
      NewAtItsTurn(ds, before, mid, d.pool);
      var port, end := CanAnswer(d, mid);
      ports, after := p + [port], end;
      MayServeNext(ds[..last], before, p, mid, d, port, after);
      assert ds[..last] + [d] == ds;
    }
  }

  lemma OutcomeFits(ds: seq<Demand>, before: Pools, ports: seq<string>, after: Pools)
    requires MayServe(ds, before, ports, after)
    ensures Fits(ds, before)
  {
    hide MayServe, NewKeys, InRange;
    forall g ensures |NewKeys(ds, before, g)| + |InRange(PoolOf(before, g))| <= 63488 {
      OutcomeCount(ds, before, ports, after, g);
      FreePortExists(PoolOf(after, g));
    }
  }

  /** In any state, also one in which keys have several ports: some map order lets all demands be served if and only if in
      every pool the distinct new keys fit into what is free of the range. */
  lemma OutcomeExistsIff(ds: seq<Demand>, before: Pools)
    ensures (exists ports, after :: MayServe(ds, before, ports, after)) <==> Fits(ds, before)
  {
    hide *;
    if ports, after :| MayServe(ds, before, ports, after) {
      OutcomeFits(ds, before, ports, after);
    }
    if Fits(ds, before) {
      var ports, after := FittingHasOutcome(ds, before);
    }
  }

  // ----- every such port can come out -----

  /** The same answers, except that this held key is found at this port */
  function FoundAt(ds: seq<Demand>, ports: seq<string>, d: Demand, port: string): seq<string>
    requires |ports| == |ds|
  {
    seq(|ds|, j requires 0 <= j < |ds| => if ds[j] == d then port else ports[j])
  }

  lemma {:induction false} OtherOrder(ds: seq<Demand>, before: Pools, ports: seq<string>, after: Pools, d: Demand, port: string)
    requires MayServe(ds, before, ports, after) && |ports| == |ds|
    requires port in PoolOf(before, d.pool) && PoolOf(before, d.pool)[port] == d.key
    ensures MayServe(ds, before, FoundAt(ds, ports, d, port), after)
    decreases |ds|
  {
    hide *;
    if ds == [] {
      MayServeNone(before, ports, after);
      FoundNothing(ds, ports, d, port);
    } else {
      var last := |ds| - 1;
      var mid := MayServeLast(ds, before, ports, after);
      OtherOrder(ds[..last], before, ports[..last], mid, d, port);
      OutcomeIsMayGet(ds[..last], before, ports[..last], mid, d.pool, |ds|);
      var other := if ds[last] == d then port else ports[last];
      if ds[last] == d {
        StillFound(ds[..last], before, mid, d, port, ports[last], after);
      }
      MayServeNext(ds[..last], before, FoundAt(ds[..last], ports[..last], d, port), mid, ds[last], other, after);
      assert ds[..last] + [ds[last]] == ds;
      FoundAtNext(ds, ports, d, port);
    }
  }

  lemma FoundNothing(ds: seq<Demand>, ports: seq<string>, d: Demand, port: string)
    requires |ports| == |ds| == 0
    ensures FoundAt(ds, ports, d, port) == []
  {
  }

  lemma FoundAtNext(ds: seq<Demand>, ports: seq<string>, d: Demand, port: string)
    requires |ports| == |ds| > 0
    ensures var last := |ds| - 1;
            FoundAt(ds, ports, d, port) == FoundAt(ds[..last], ports[..last], d, port) + [if ds[last] == d then port else ports[last]]
  {
  }

  lemma StillFound(ds: seq<Demand>, before: Pools, mid: Pools, d: Demand, port: string, was: string, after: Pools)
    requires ServedAt(ds, before, mid, d.pool) && Answers(d, Some(was), mid, after)
    requires port in PoolOf(before, d.pool) && PoolOf(before, d.pool)[port] == d.key
    ensures Answers(d, Some(port), mid, after)
  {
  }

  /** If generation can succeed at all, every port that a demand may get comes out of some iteration order. */
  lemma MayGetIsOutcome(ds: seq<Demand>, before: Pools, ports: seq<string>, after: Pools, i: nat, port: string)
    returns (other: seq<string>)
    requires MayServe(ds, before, ports, after) && i < |ds| && MayGet(ds, before, i, port)
    ensures MayServe(ds, before, other, after) && |other| == |ds| && other[i] == port
  {
    hide MayServe, ServedAt, NewPort;
    OutcomeIsMayGet(ds, before, ports, after, "", i);
    if Held(PoolOf(before, ds[i].pool), ds[i].key) {
      OtherOrder(ds, before, ports, after, ds[i], port);
      other := FoundAt(ds, ports, ds[i], port);
    } else {
      other := ports;
    }
  }
}
