// The first-free relay-port allocator of pkg/controller/externalservice/reconciler.go.
// A pool maps a printed relay port to the "source:port" key it serves; the operator keeps
// one pool per gateway for ingress and one per forwarder for egress.
module PortPool {
  import opened Text

  const MIN_PORT := 2049
  const MAX_PORT := 65536

  type Pool = map<string, string>
  type Pools = map<string, Pool>

  datatype Demand = Demand(pool: string, key: string)

  function PoolOf(pools: Pools, name: string): Pool {
    if name in pools then pools[name] else map[]
  }

  ghost predicate Held(pool: Pool, key: string) {
    exists p :: p in pool && pool[p] == key
  }

  /** No key is held by two ports. Values without ':' are no keys: they stem from egress rules of earlier reconciles. */
  ghost predicate Functional(pool: Pool) {
    forall p, q :: p in pool && q in pool && pool[p] == pool[q] && ':' in pool[p] ==> p == q
  }

  ghost predicate AllFunctional(pools: Pools) {
    forall g :: Functional(PoolOf(pools, g))
  }

  /** The least port from `from` on that the pool does not hold */
  function FirstFree(pool: Pool, from: int): (r: Option<int>)
    requires from <= MAX_PORT + 1
    ensures r.Some? ==>
              && from <= r.value <= MAX_PORT
              && Itoa(r.value) !in pool
              && forall n :: from <= n < r.value ==> Itoa(n) in pool
    ensures r.None? ==> forall n :: from <= n <= MAX_PORT ==> Itoa(n) in pool
    decreases MAX_PORT + 1 - from
  {
    if from > MAX_PORT then None
    else if Itoa(from) !in pool then Some(from)
    else FirstFree(pool, from + 1)
  }

  datatype Allocation = Allocation(port: string, pool: Pool)

  ghost function Allocate(pool: Pool, key: string): Option<Allocation> {
    if Held(pool, key) then
      var p :| p in pool && pool[p] == key;
      Some(Allocation(p, pool))
    else
      match FirstFree(pool, MIN_PORT)
      case None => None
      case Some(n) => Some(Allocation(Itoa(n), pool[Itoa(n) := key]))
  }

  lemma {:induction false} SameKeysSameFree(a: Pool, b: Pool, from: int)
    requires a.Keys == b.Keys && from <= MAX_PORT + 1
    ensures FirstFree(a, from) == FirstFree(b, from)
    decreases MAX_PORT + 1 - from
  {
    if from <= MAX_PORT {
      assert Itoa(from) in a <==> Itoa(from) in b;
      SameKeysSameFree(a, b, from + 1);
    }
  }

  lemma HeldOneMore(pool: Pool, p: string, k: string)
    requires p !in pool
    ensures forall key :: Held(pool[p := k], key) <==> Held(pool, key) || key == k
  {
    forall key ensures Held(pool[p := k], key) <==> Held(pool, key) || key == k {
      assert pool[p := k][p] == k;
      if Held(pool, key) {
        var q :| q in pool && pool[q] == key;
        assert pool[p := k][q] == key;
      }
    }
  }

  datatype Assignment = Assignment(ports: seq<string>, pools: Pools)

  /** Serving demands one after the other; None as soon as one finds its pool exhausted */
  ghost function Assign(ds: seq<Demand>, pools: Pools): (r: Option<Assignment>)
    ensures r.Some? ==> |r.value.ports| == |ds|
  {
    if ds == [] then Some(Assignment([], pools))
    else
      var last := |ds| - 1;
      match Assign(ds[..last], pools)
      case None => None
      case Some(a) =>
        match Allocate(PoolOf(a.pools, ds[last].pool), ds[last].key)
        case None => None
        case Some(r) => Some(Assignment(a.ports + [r.port], a.pools[ds[last].pool := r.pool]))
  }

  lemma AssignSnoc(ds: seq<Demand>, d: Demand, pools: Pools)
    requires Assign(ds, pools).Some?
    ensures Assign(ds + [d], pools) ==
            var a := Assign(ds, pools).value;
            match Allocate(PoolOf(a.pools, d.pool), d.key)
            case None => None
            case Some(r) => Some(Assignment(a.ports + [r.port], a.pools[d.pool := r.pool]))
  {
    var all := ds + [d];
    assert all[..|all| - 1] == ds && all[|all| - 1] == d;
  }

  ghost predicate IsKey(key: string) { ':' in key }

  ghost predicate AreKeys(ds: seq<Demand>) {
    forall d :: d in ds ==> IsKey(d.key)
  }

  /** One allocation answers with a port that holds the key and keeps the pool a function. */
  lemma AllocateMeaning(pool: Pool, key: string)
    requires Functional(pool) && IsKey(key) && Allocate(pool, key).Some?
    ensures var r := Allocate(pool, key).value;
            && Functional(r.pool)
            && r.port in r.pool && r.pool[r.port] == key
            && r.pool == pool[r.port := key]
            && (r.port in pool <==> Held(pool, key))
            && (r.port in pool ==> pool[r.port] == key)
            && (Held(pool, key) ==> r.pool == pool)
            && (!Held(pool, key) ==>
                  exists n :: 2049 <= n <= 65536 && r.port == Itoa(n)
                    && forall m :: 2049 <= m < n ==> Itoa(m) in pool)
  {
    if !Held(pool, key) {
      var n := FirstFree(pool, MIN_PORT).value;
      assert Itoa(n) !in pool && Allocate(pool, key).value.port == Itoa(n);
    } else {
      assert Allocate(pool, key).value.pool[Allocate(pool, key).value.port := key] == pool;
    }
  }

  /** A key that an empty pool is asked for gets port 2049. */
  lemma FirstPortEver(key: string)
    ensures Allocate(map[], key).Some? && Allocate(map[], key).value.port == "2049"
  {
    var none: Pool := map[];
    assert FirstFree(none, MIN_PORT) == Some(2049);
    FourDigits();
  }

  lemma FourDigits()
    ensures Itoa(2049) == "2049"
  {
    assert ItoaNat(2) == "2";
    assert ItoaNat(20) == ItoaNat(2) + "0";
    assert ItoaNat(204) == ItoaNat(20) + "4";
    assert ItoaNat(2049) == ItoaNat(204) + "9";
  }

  /** The pool reaches one past the largest number a 16-bit port field holds (RFC 9293, section 3.1): a key that
      nobody holds gets such a port exactly when every usable port from 2049 up is taken. */
  lemma UnusablePortIff(pool: Pool, key: string)
    requires !Held(pool, key) && Allocate(pool, key).Some?
    ensures Value(Allocate(pool, key).value.port) > 65535 <==> forall n :: 2049 <= n <= 65535 ==> Itoa(n) in pool
  {
    var n := FirstFree(pool, MIN_PORT).value;
    ValueOfItoa(n);
  }

  /** Nothing that was held is lost or changed. */
  ghost predicate Kept(before: Pools, after: Pools) {
    forall g, p :: p in PoolOf(before, g) ==> p in PoolOf(after, g) && PoolOf(after, g)[p] == PoolOf(before, g)[p]
  }

  /** Every demand is answered with a port that holds its key. */
  ghost predicate Answered(ds: seq<Demand>, a: Assignment) {
    && |a.ports| == |ds|
    && forall i :: 0 <= i < |ds| ==> a.ports[i] in PoolOf(a.pools, ds[i].pool)
                                     && PoolOf(a.pools, ds[i].pool)[a.ports[i]] == ds[i].key
  }

  ghost predicate IsPort(p: string) {
    exists n :: 2049 <= n <= 65536 && p == Itoa(n)
  }

  /** Everything new is a demanded key that nobody held, on a port of the range that nobody held. */
  ghost predicate OnlyDemanded(ds: seq<Demand>, before: Pools, after: Pools) {
    forall g, p {:trigger p in PoolOf(after, g)} :: p in PoolOf(after, g) && p !in PoolOf(before, g) ==>
      IsPort(p) && Demand(g, PoolOf(after, g)[p]) in ds && !Held(PoolOf(before, g), PoolOf(after, g)[p])
  }

  /** What any successful sequence of allocations guarantees */
  ghost predicate Serves(ds: seq<Demand>, pools: Pools, a: Assignment) {
    AllFunctional(a.pools) && Answered(ds, a) && Kept(pools, a.pools) && OnlyDemanded(ds, pools, a.pools)
  }

  /** One more demand served: `port` holds the key afterwards, is new only if nobody held the key,
      and nothing else changes. */
  ghost predicate ServesNext(d: Demand, before: Pools, after: Pools, port: string) {
    && (forall g :: PoolOf(after, g) == if g == d.pool then PoolOf(before, g)[port := d.key] else PoolOf(before, g))
    && (port in PoolOf(before, d.pool) ==> PoolOf(before, d.pool)[port] == d.key)
    && (port !in PoolOf(before, d.pool) ==> IsPort(port) && !Held(PoolOf(before, d.pool), d.key))
  }

  lemma PortOf(n: int)
    requires 2049 <= n <= 65536
    ensures IsPort(Itoa(n))
  {
  }

  lemma AllocateServesNext(d: Demand, before: Pools)
    requires AllFunctional(before) && IsKey(d.key) && Allocate(PoolOf(before, d.pool), d.key).Some?
    ensures var r := Allocate(PoolOf(before, d.pool), d.key).value;
            ServesNext(d, before, before[d.pool := r.pool], r.port) && AllFunctional(before[d.pool := r.pool])
  {
    hide Allocate, FirstFree, IsPort, Itoa;
    var pool := PoolOf(before, d.pool);
    var r := Allocate(pool, d.key).value;
    AllocateMeaning(pool, d.key);
    if !Held(pool, d.key) {
      var n :| 2049 <= n <= 65536 && r.port == Itoa(n);
      PortOf(n);
    }
    hide Held;
    var after := before[d.pool := r.pool];
    forall g ensures PoolOf(after, g) == if g == d.pool then pool[r.port := d.key] else PoolOf(before, g) {}
    forall g ensures Functional(PoolOf(after, g)) {
      assert Functional(PoolOf(before, g));
    }
  }

  lemma AssignStep(ds: seq<Demand>, pools: Pools)
    requires ds != [] && AreKeys(ds) && Assign(ds, pools).Some?
    requires AllFunctional(Assign(ds[..|ds| - 1], pools).value.pools)
    ensures var d := ds[|ds| - 1];
            var a, b := Assign(ds[..|ds| - 1], pools).value, Assign(ds, pools).value;
            && AllFunctional(b.pools)
            && b.ports[..|ds| - 1] == a.ports
            && ServesNext(d, a.pools, b.pools, b.ports[|ds| - 1])
  {
    assert ds[|ds| - 1] in ds;
    AllocateServesNext(ds[|ds| - 1], Assign(ds[..|ds| - 1], pools).value.pools);
  }

  lemma AnsweredStep(ds: seq<Demand>, a: Assignment, b: Assignment)
    requires ds != [] && Answered(ds[..|ds| - 1], a)
    requires |b.ports| == |ds| && b.ports[..|ds| - 1] == a.ports
    requires ServesNext(ds[|ds| - 1], a.pools, b.pools, b.ports[|ds| - 1])
    ensures Answered(ds, b)
  {
    forall i | 0 <= i < |ds|
      ensures b.ports[i] in PoolOf(b.pools, ds[i].pool) && PoolOf(b.pools, ds[i].pool)[b.ports[i]] == ds[i].key
    {
      if i < |ds| - 1 {
        assert ds[..|ds| - 1][i] == ds[i] && a.ports[i] == b.ports[i];
        assert a.ports[i] in PoolOf(a.pools, ds[i].pool);
      }
    }
  }

  lemma KeptStep(d: Demand, pools: Pools, a: Pools, b: Pools, port: string)
    requires Kept(pools, a) && ServesNext(d, a, b, port)
    ensures Kept(pools, b)
  {
    forall g, p | p in PoolOf(pools, g)
      ensures p in PoolOf(b, g) && PoolOf(b, g)[p] == PoolOf(pools, g)[p]
    {
      assert p in PoolOf(a, g);
    }
  }

  lemma OnlyDemandedStep(ds: seq<Demand>, pools: Pools, a: Pools, b: Pools, port: string)
    requires ds != [] && OnlyDemanded(ds[..|ds| - 1], pools, a) && Kept(pools, a)
    requires ServesNext(ds[|ds| - 1], a, b, port)
    ensures OnlyDemanded(ds, pools, b)
  {
    var d := ds[|ds| - 1];
    forall g, p | p in PoolOf(b, g) && p !in PoolOf(pools, g)
      ensures IsPort(p) && Demand(g, PoolOf(b, g)[p]) in ds && !Held(PoolOf(pools, g), PoolOf(b, g)[p])
    {
      if p in PoolOf(a, g) {
        assert Demand(g, PoolOf(a, g)[p]) in ds[..|ds| - 1];
      } else {
        assert d == Demand(g, PoolOf(b, g)[p]);
        assert forall q :: q in PoolOf(pools, g) ==> q in PoolOf(a, g) && PoolOf(pools, g)[q] != d.key;
      }
    }
  }

  lemma {:induction false} AssignServes(ds: seq<Demand>, pools: Pools)
    requires AllFunctional(pools) && AreKeys(ds) && Assign(ds, pools).Some?
    ensures Serves(ds, pools, Assign(ds, pools).value)
  {
    if ds != [] {
      AssignServes(ds[..|ds| - 1], pools);
      AssignStep(ds, pools);
      var a, b := Assign(ds[..|ds| - 1], pools).value, Assign(ds, pools).value;
      var port := b.ports[|ds| - 1];
      AnsweredStep(ds, a, b);
      KeptStep(ds[|ds| - 1], pools, a.pools, b.pools, port);
      OnlyDemandedStep(ds, pools, a.pools, b.pools, port);
    }
  }

  /** Two demands on one pool get one port exactly when they are for one key. */
  lemma SamePortIffSameKey(ds: seq<Demand>, pools: Pools, i: nat, j: nat)
    requires AllFunctional(pools) && AreKeys(ds) && Assign(ds, pools).Some?
    requires i < |ds| && j < |ds| && ds[i].pool == ds[j].pool
    ensures var ports := Assign(ds, pools).value.ports; ports[i] == ports[j] <==> ds[i].key == ds[j].key
  {
    AssignServes(ds, pools);
    var a := Assign(ds, pools).value;
    assert ds[i] in ds && ds[j] in ds;
    assert PoolOf(a.pools, ds[i].pool) == a.pools[ds[i].pool];
  }

  /** A demand for a held key is answered with the port that holds it, and other demands do not disturb it. */
  lemma HeldKeyKeepsPort(ds: seq<Demand>, pools: Pools, i: nat, port: string)
    requires AllFunctional(pools) && AreKeys(ds) && Assign(ds, pools).Some?
    requires i < |ds| && port in PoolOf(pools, ds[i].pool) && PoolOf(pools, ds[i].pool)[port] == ds[i].key
    ensures Assign(ds, pools).value.ports[i] == port
  {
    AssignServes(ds, pools);
    var a := Assign(ds, pools).value;
    assert ds[i] in ds;
    assert PoolOf(a.pools, ds[i].pool) == a.pools[ds[i].pool];
  }

  /** When every key is held already, serving the demands changes no pool. */
  lemma {:induction false} HeldKeysAllocateNothing(ds: seq<Demand>, pools: Pools)
    requires forall d :: d in ds ==> Held(PoolOf(pools, d.pool), d.key)
    ensures Assign(ds, pools).Some?
    ensures forall g :: PoolOf(Assign(ds, pools).value.pools, g) == PoolOf(pools, g)
  {
    if ds != [] {
      HeldKeysAllocateNothing(ds[..|ds| - 1], pools);
      assert ds[|ds| - 1] in ds;
    }
  }

  /** What earlier demands get does not depend on later ones. */
  lemma {:induction false} AssignPrefix(ds: seq<Demand>, pools: Pools, k: nat)
    requires k <= |ds| && Assign(ds, pools).Some?
    ensures Assign(ds[..k], pools).Some? && Assign(ds, pools).value.ports[..k] == Assign(ds[..k], pools).value.ports
  {
    if k == |ds| {
      assert ds[..k] == ds;
    } else {
      hide Allocate;
      AssignPrefix(ds[..|ds| - 1], pools, k);
      assert ds[..|ds| - 1][..k] == ds[..k];
    }
  }

  /** Demands for held keys leave their pool as it is, whatever is asked of other pools. */
  lemma {:induction false} HeldKeysLeavePool(ds: seq<Demand>, pools: Pools, g: string)
    requires Assign(ds, pools).Some? && forall d :: d in ds && d.pool == g ==> Held(PoolOf(pools, g), d.key)
    ensures PoolOf(Assign(ds, pools).value.pools, g) == PoolOf(pools, g)
  {
    if ds != [] {
      HeldKeysLeavePool(ds[..|ds| - 1], pools, g);
      assert ds[|ds| - 1] in ds;
    }
  }

  /** The first demand for a key that its pool does not hold gets the pool's first free port. */
  lemma FirstNewKey(ds: seq<Demand>, pools: Pools, i: nat)
    requires i < |ds| && Assign(ds, pools).Some? && !Held(PoolOf(pools, ds[i].pool), ds[i].key)
    requires forall j :: 0 <= j < i && ds[j].pool == ds[i].pool ==> Held(PoolOf(pools, ds[j].pool), ds[j].key)
    ensures FirstFree(PoolOf(pools, ds[i].pool), MIN_PORT).Some?
    ensures Assign(ds, pools).value.ports[i] == Itoa(FirstFree(PoolOf(pools, ds[i].pool), MIN_PORT).value)
  {
    var init, upTo := ds[..i], ds[..i + 1];
    AssignPrefix(ds, pools, i + 1);
    AssignPrefix(ds, pools, i);
    assert upTo[..i] == init && upTo[i] == ds[i];
    HeldKeysLeavePool(init, pools, ds[i].pool);
    assert Assign(ds, pools).value.ports[..i + 1][i] == Assign(upTo, pools).value.ports[i];
  }

  /** Among demands on a pool there is a first for a key that it does not hold. */
  lemma {:induction false} FirstUnheld(ds: seq<Demand>, pools: Pools, g: string, k: nat) returns (i: nat)
    requires k < |ds| && ds[k].pool == g && !Held(PoolOf(pools, g), ds[k].key)
    ensures i <= k && ds[i].pool == g && !Held(PoolOf(pools, g), ds[i].key)
    ensures forall j :: 0 <= j < i && ds[j].pool == g ==> Held(PoolOf(pools, g), ds[j].key)
    decreases k
  {
    i := k;
    if j :| 0 <= j < k && ds[j].pool == g && !Held(PoolOf(pools, g), ds[j].key) {
      i := FirstUnheld(ds, pools, g, j);
    }
  }

  // ----- capacity -----

  ghost function InRange(pool: Pool): set<int> {
    set n | 2049 <= n <= 65536 && Itoa(n) in pool
  }

  ghost function Range(from: int): (r: set<int>)
    ensures forall n :: n in r <==> from <= n <= 65536
    decreases 65536 + 1 - from
  {
    if from > 65536 then {} else {from} + Range(from + 1)
  }

  lemma {:induction false} RangeSize(from: int)
    requires from <= 65536 + 1
    ensures |Range(from)| == 65536 + 1 - from
    decreases 65536 + 1 - from
  {
    if from <= 65536 {
      RangeSize(from + 1);
    }
  }

  lemma SubsetSize<T>(a: set<T>, b: set<T>)
    requires a <= b
    ensures |a| <= |b|
    ensures |a| == |b| ==> a == b
  {
    assert b == a + (b - a);
    assert |b| == |a| + |b - a|;
  }

  /** A port is free exactly when fewer than 63488 ports of the range are taken. */
  lemma FreePortExists(pool: Pool)
    ensures |InRange(pool)| <= 63488
    ensures FirstFree(pool, MIN_PORT).Some? <==> |InRange(pool)| < 63488
  {
    hide FirstFree, Range, Itoa;
    RangeSize(2049);
    assert InRange(pool) <= Range(2049);
    SubsetSize(InRange(pool), Range(2049));
    if FirstFree(pool, MIN_PORT).None? {
      assert InRange(pool) == Range(2049);
    } else {
      var n := FirstFree(pool, MIN_PORT).value;
      assert n in Range(2049) && n !in InRange(pool);
    }
  }

  /** The distinct keys demanded of a pool that it does not hold yet */
  ghost function NewKeys(ds: seq<Demand>, pools: Pools, g: string): set<string> {
    set d | d in ds && d.pool == g && !Held(PoolOf(pools, g), d.key) :: d.key
  }

  ghost predicate Fits(ds: seq<Demand>, pools: Pools) {
    forall g :: |NewKeys(ds, pools, g)| + |InRange(PoolOf(pools, g))| <= 63488
  }

  lemma NewKeysSnoc(ds: seq<Demand>, pools: Pools, g: string)
    requires ds != []
    ensures var d := ds[|ds| - 1];
            NewKeys(ds, pools, g) == NewKeys(ds[..|ds| - 1], pools, g)
              + if d.pool == g && !Held(PoolOf(pools, g), d.key) then {d.key} else {}
  {
    var last := |ds| - 1;
    assert ds == ds[..last] + [ds[last]];
  }

  /** One served demand takes one more port of the range, unless its key was held. */
  lemma CountStep(d: Demand, a: Pools, b: Pools, port: string, g: string)
    requires ServesNext(d, a, b, port)
    ensures |InRange(PoolOf(b, g))| ==
            |InRange(PoolOf(a, g))| + if g == d.pool && !Held(PoolOf(a, g), d.key) then 1 else 0
  {
    var before, after := InRange(PoolOf(a, g)), InRange(PoolOf(b, g));
    if g == d.pool && port !in PoolOf(a, g) {
      var n :| 2049 <= n <= 65536 && port == Itoa(n);
      forall m | m in after ensures m in before + {n} {
        ItoaInjective(m, n);
      }
      assert after == before + {n};
    } else {
      assert after == before;
    }
  }

  lemma {:induction false} AssignCount(ds: seq<Demand>, pools: Pools, g: string)
    requires AllFunctional(pools) && AreKeys(ds) && Assign(ds, pools).Some?
    ensures |InRange(PoolOf(Assign(ds, pools).value.pools, g))| == |InRange(PoolOf(pools, g))| + |NewKeys(ds, pools, g)|
  {
    if ds == [] {
      assert NewKeys(ds, pools, g) == {};
    } else {
      AssignCount(ds[..|ds| - 1], pools, g);
      AssignCountStep(ds, pools, g);
    }
  }

  lemma AssignCountStep(ds: seq<Demand>, pools: Pools, g: string)
    requires ds != [] && AllFunctional(pools) && AreKeys(ds) && Assign(ds, pools).Some?
    ensures var init := ds[..|ds| - 1];
            |InRange(PoolOf(Assign(ds, pools).value.pools, g))| - |NewKeys(ds, pools, g)| ==
            |InRange(PoolOf(Assign(init, pools).value.pools, g))| - |NewKeys(init, pools, g)|
  {
    var init, d := ds[..|ds| - 1], ds[|ds| - 1];
    var a, b := Assign(init, pools).value, Assign(ds, pools).value;
    assert ServesNext(d, a.pools, b.pools, b.ports[|ds| - 1]) by {
      AssignServes(init, pools);
      AssignStep(ds, pools);
    }
    CountStep(d, a.pools, b.pools, b.ports[|ds| - 1], g);
    NewKeysGrow(ds, pools, g);
  }

  /** The last demand adds a new key to its pool exactly when the key is not held by then. */
  lemma NewKeysGrow(ds: seq<Demand>, pools: Pools, g: string)
    requires ds != [] && AllFunctional(pools) && AreKeys(ds) && Assign(ds[..|ds| - 1], pools).Some?
    ensures var d, init := ds[|ds| - 1], ds[..|ds| - 1];
            |NewKeys(ds, pools, g)| == |NewKeys(init, pools, g)|
              + if g == d.pool && !Held(PoolOf(Assign(init, pools).value.pools, g), d.key) then 1 else 0
  {
    hide *;
    var init, d := ds[..|ds| - 1], ds[|ds| - 1];
    NewlyHeld(ds, pools);
    NewKeysSnoc(ds, pools, g);
    if g == d.pool && d.key !in NewKeys(init, pools, g) && !Held(PoolOf(pools, g), d.key) {
      assert NewKeys(ds, pools, g) == NewKeys(init, pools, g) + {d.key};
    } else {
      NewKeysAreNew(init, pools, g);
      assert NewKeys(ds, pools, g) == NewKeys(init, pools, g);
    }
  }

  lemma NewKeysAreNew(ds: seq<Demand>, pools: Pools, g: string)
    ensures forall key :: key in NewKeys(ds, pools, g) ==> !Held(PoolOf(pools, g), key)
  {
  }

  /** After the demands before the last, a key is held if it was held at the start or was demanded among them. */
  lemma NewlyHeld(ds: seq<Demand>, pools: Pools)
    requires ds != [] && AllFunctional(pools) && AreKeys(ds) && Assign(ds[..|ds| - 1], pools).Some?
    ensures var d := ds[|ds| - 1]; var a := Assign(ds[..|ds| - 1], pools).value;
            Held(PoolOf(a.pools, d.pool), d.key) <==>
            Held(PoolOf(pools, d.pool), d.key) || d.key in NewKeys(ds[..|ds| - 1], pools, d.pool)
  {
    hide Assign, AllFunctional, IsPort;
    var init, d := ds[..|ds| - 1], ds[|ds| - 1];
    AssignServes(init, pools);
    var a := Assign(init, pools).value;
    if d.key in NewKeys(init, pools, d.pool) {
      var i :| 0 <= i < |init| && init[i] == Demand(d.pool, d.key);
      assert PoolOf(a.pools, d.pool)[a.ports[i]] == d.key;
    }
    if Held(PoolOf(pools, d.pool), d.key) {
      var p :| p in PoolOf(pools, d.pool) && PoolOf(pools, d.pool)[p] == d.key;
      assert p in PoolOf(a.pools, d.pool);
    }
  }

  /** Exact capacity: the demands are served if and only if in every pool the distinct new keys
      number at most 63488 less the ports of the range that are taken. */
  lemma {:induction false} Capacity(ds: seq<Demand>, pools: Pools)
    requires AllFunctional(pools) && AreKeys(ds)
    ensures Assign(ds, pools).Some? <==> Fits(ds, pools)
  {
    hide *;
    if ds == [] {
      NothingFits(pools);
    } else {
      var d := ds[|ds| - 1];
      var init := ds[..|ds| - 1];
      KeysOfInit(ds);
      Capacity(init, pools);
      FitsStep(ds, pools);
      LastAssigned(ds, pools);
      if Assign(init, pools).Some? {
        AssignCount(init, pools, d.pool);
        NewKeysGrow(ds, pools, d.pool);
        var pool := PoolOf(Assign(init, pools).value.pools, d.pool);
        FreePortExists(pool);
      }
    }
  }

  lemma NothingFits(pools: Pools)
    ensures Assign([], pools).Some? && Fits([], pools)
  {
    forall g ensures |NewKeys([], pools, g)| + |InRange(PoolOf(pools, g))| <= 63488 {
      assert NewKeys([], pools, g) == {};
      FreePortExists(PoolOf(pools, g));
    }
  }

  lemma KeysOfInit(ds: seq<Demand>)
    requires ds != [] && AreKeys(ds)
    ensures AreKeys(ds[..|ds| - 1])
  {
  }

  /** The last demand is served if its key is held by then, or a port is free. */
  lemma LastAssigned(ds: seq<Demand>, pools: Pools)
    requires ds != []
    ensures var init, d := ds[..|ds| - 1], ds[|ds| - 1];
            Assign(ds, pools).Some? <==>
            && Assign(init, pools).Some?
            && var pool := PoolOf(Assign(init, pools).value.pools, d.pool); (Held(pool, d.key) || FirstFree(pool, MIN_PORT).Some?)
  {
    hide Held, FirstFree;
  }

  /** Only the last demand's pool can stop fitting. */
  lemma FitsStep(ds: seq<Demand>, pools: Pools)
    requires ds != []
    ensures var g := ds[|ds| - 1].pool;
            Fits(ds, pools) <==>
            Fits(ds[..|ds| - 1], pools) && |NewKeys(ds, pools, g)| + |InRange(PoolOf(pools, g))| <= 63488
  {
    var init := ds[..|ds| - 1];
    forall g ensures |NewKeys(init, pools, g)| <= |NewKeys(ds, pools, g)|
                     && (g != ds[|ds| - 1].pool ==> NewKeys(init, pools, g) == NewKeys(ds, pools, g)) {
      NewKeysSnoc(ds, pools, g);
      SubsetSize(NewKeys(init, pools, g), NewKeys(ds, pools, g));
    }
    if Fits(ds, pools) {
      forall g ensures |NewKeys(init, pools, g)| + |InRange(PoolOf(pools, g))| <= 63488 {
        assert |NewKeys(ds, pools, g)| + |InRange(PoolOf(pools, g))| <= 63488;
      }
    }
  }
}
