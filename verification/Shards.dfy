/** Sharded workers: a dispatcher spreads deliveries over bounded queues by placement id and one worker
    per queue handles them, reading when it starts and writing when it finishes. */
module Shards {
  import opened Domain
  import opened Applier
  import Fnv

  const CAPACITY: nat := 16

  function ShardKey(d: Delivery): nat {
    if d.command.None? || d.command.value.placement.id == "" then d.seqNo
    else Fnv.Hash(Fnv.Octets(d.command.value.placement.id))
  }

  function ShardIndex(d: Delivery, n: nat): (r: nat)
    requires n > 0
    ensures r < n
  {
    if n <= 1 then 0 else ShardKey(d) % n
  }

  datatype Worker = Idle | Busy(delivery: Delivery, read: Option<Placement>)

  datatype Pool = Pool(
    store: Store,
    queues: seq<seq<Delivery>>,
    workers: seq<Worker>,
    delivered: seq<Delivery>,
    handled: seq<Delivery>)

  datatype Event = Dispatch(delivery: Delivery) | Start(worker: nat) | Finish(worker: nat)

  /** What the wire format guarantees of a command. */
  predicate WellFormed(d: Delivery) {
    d.command.Some? ==> d.command.value.placement.id != ""
  }

  function Initial(store: Store, n: nat): Pool {
    Pool(store, seq(n, _ => []), seq(n, _ => Idle), [], [])
  }

  predicate Enabled(pool: Pool, e: Event) {
    && |pool.queues| == |pool.workers| > 0
    && match e
       case Dispatch(d) => WellFormed(d) && |pool.queues[ShardIndex(d, |pool.queues|)]| < CAPACITY
       case Start(w) => w < |pool.workers| && pool.workers[w].Idle? && pool.queues[w] != []
       case Finish(w) => w < |pool.workers| && pool.workers[w].Busy?
  }

  function Enqueue(pool: Pool, i: nat, d: Delivery): Pool
    requires i < |pool.queues|
  {
    pool.(queues := pool.queues[i := pool.queues[i] + [d]], delivered := pool.delivered + [d])
  }

  function Step(self: string, pool: Pool, e: Event): Pool
    requires Enabled(pool, e)
  {
    match e
    case Dispatch(d) =>
      Enqueue(pool, ShardIndex(d, |pool.queues|), d)
    case Start(w) =>
      var d := pool.queues[w][0];
      var read := if Addressed(self, d) then Lookup(pool.store, d.command.value.placement.id) else None;
      pool.(queues := pool.queues[w := pool.queues[w][1..]], workers := pool.workers[w := Busy(d, read)])
    case Finish(w) =>
      var d := pool.workers[w].delivery;
      var store :=
        if Addressed(self, d) then
          var p := d.command.value.placement;
          Assign(pool.store, p.id, Outcome(pool.workers[w].read, p, d))
        else pool.store;
      pool.(store := store, workers := pool.workers[w := Idle], handled := pool.handled + [d])
  }

  /** Serial consumption: one delivery after the other, in the order delivered. */
  function Serial(self: string, store: Store, ds: seq<Delivery>): Store {
    if ds == [] then store else Handled(self, Serial(self, store, ds[..|ds| - 1]), ds[|ds| - 1])
  }

  // Seen from one placement.

  predicate IsFor(self: string, d: Delivery, id: string) {
    Addressed(self, d) && d.command.value.placement.id == id
  }

  function Mine(self: string, ds: seq<Delivery>, id: string): seq<Delivery> {
    if ds == [] then []
    else Mine(self, ds[..|ds| - 1], id) + (if IsFor(self, ds[|ds| - 1], id) then [ds[|ds| - 1]] else [])
  }

  lemma {:induction false} MineAppend(self: string, a: seq<Delivery>, b: seq<Delivery>, id: string)
    ensures Mine(self, a + b, id) == Mine(self, a, id) + Mine(self, b, id)
  {
    if b == [] {
      assert a + b == a;
    } else {
      assert (a + b)[..|a + b| - 1] == a + b[..|b| - 1];
      MineAppend(self, a, b[..|b| - 1], id);
    }
  }

  lemma {:induction false} MineNone(self: string, ds: seq<Delivery>, id: string)
    requires forall d | d in ds :: !IsFor(self, d, id)
    ensures Mine(self, ds, id) == []
  {
    if ds != [] { MineNone(self, ds[..|ds| - 1], id); }
  }

  lemma MineOne(self: string, d: Delivery, id: string)
    ensures Mine(self, [d], id) == if IsFor(self, d, id) then [d] else []
  {
    assert [d][..0] == [];
  }

  function OwnAfter(own: Option<Placement>, ds: seq<Delivery>): Option<Placement>
    requires forall d | d in ds :: d.command.Some?
  {
    if ds == [] then own
    else
      var d := ds[|ds| - 1];
      Outcome(OwnAfter(own, ds[..|ds| - 1]), d.command.value.placement, d)
  }

  lemma {:induction false} MineAddressed(self: string, ds: seq<Delivery>, id: string)
    ensures forall d | d in Mine(self, ds, id) :: IsFor(self, d, id)
  {
    if ds != [] { MineAddressed(self, ds[..|ds| - 1], id); }
  }

  /** Serial consumption does to a placement what its own deliveries do. */
  lemma {:induction false} SerialAt(self: string, store: Store, ds: seq<Delivery>, id: string)
    ensures forall d | d in Mine(self, ds, id) :: d.command.Some?
    ensures Lookup(Serial(self, store, ds), id) == OwnAfter(Lookup(store, id), Mine(self, ds, id))
  {
    MineAddressed(self, ds, id);
    if ds != [] {
      var front, d := ds[..|ds| - 1], ds[|ds| - 1];
      SerialAt(self, store, front, id);
      if IsFor(self, d, id) {
        assert Mine(self, ds, id)[..|Mine(self, front, id)|] == Mine(self, front, id);
      } else {
        assert Mine(self, ds, id) == Mine(self, front, id);
      }
    }
  }

  // The invariant, placement by placement.

  function Home(id: string, n: nat): nat
    requires n > 0
  {
    if n <= 1 then 0 else Fnv.Hash(Fnv.Octets(id)) % n
  }

  /** The deliveries a shard holds: the one being handled, then the queued ones. */
  function Held(pool: Pool, w: nat): seq<Delivery>
    requires w < |pool.queues| == |pool.workers|
  {
    (if pool.workers[w].Busy? then [pool.workers[w].delivery] else []) + pool.queues[w]
  }

  /** Only the home shard holds deliveries for the placement. */
  ghost predicate AtHome(self: string, pool: Pool, home: nat, id: string) {
    && home < |pool.queues| == |pool.workers|
    && forall w | 0 <= w < |pool.workers| && w != home :: Mine(self, Held(pool, w), id) == []
  }

  /** What was delivered for the placement is what was handled, then what its home shard holds. */
  ghost predicate Accounted(self: string, pool: Pool, home: nat, id: string) {
    && home < |pool.queues| == |pool.workers|
    && Mine(self, pool.handled, id) + Mine(self, Held(pool, home), id) == Mine(self, pool.delivered, id)
  }

  /** What a worker read of its placement is still what is stored. */
  ghost predicate ReadsCurrent(self: string, pool: Pool, home: nat, id: string) {
    && home < |pool.queues| == |pool.workers|
    && (pool.workers[home].Busy? && IsFor(self, pool.workers[home].delivery, id) ==>
          pool.workers[home].read == Lookup(pool.store, id))
  }

  ghost predicate InvAt(self: string, start: Store, pool: Pool, home: nat, id: string) {
    && AtHome(self, pool, home, id)
    && Accounted(self, pool, home, id)
    && ReadsCurrent(self, pool, home, id)
    && Lookup(pool.store, id) == Lookup(Serial(self, start, pool.handled), id)
  }

  lemma InitialInv(self: string, start: Store, n: nat, home: nat, id: string)
    requires home < n
    ensures InvAt(self, start, Initial(start, n), home, id)
  {
    assert forall w | 0 <= w < n :: Held(Initial(start, n), w) == [];
  }

  lemma HeldForeign(self: string, pool: Pool, home: nat, w: nat, id: string)
    requires AtHome(self, pool, home, id) && w < |pool.workers| && w != home && pool.workers[w].Busy?
    ensures !IsFor(self, pool.workers[w].delivery, id)
  {
    assert Mine(self, Held(pool, w), id) == [];
    MineAppend(self, [pool.workers[w].delivery], pool.queues[w], id);
    MineOne(self, pool.workers[w].delivery, id);
  }

  lemma EnqueueHolds(self: string, pool: Pool, i: nat, d: Delivery, w: nat, id: string)
    requires i < |pool.queues| == |pool.workers| && w < |pool.workers|
    ensures Mine(self, Held(Enqueue(pool, i, d), w), id)
            == Mine(self, Held(pool, w), id) + (if w == i && IsFor(self, d, id) then [d] else [])
  {
    if w == i {
      assert Held(Enqueue(pool, i, d), w) == Held(pool, w) + [d];
      MineAppend(self, Held(pool, w), [d], id);
      MineOne(self, d, id);
    } else {
      assert Held(Enqueue(pool, i, d), w) == Held(pool, w);
    }
  }

  lemma DispatchAtHome(self: string, pool: Pool, i: nat, d: Delivery, home: nat, id: string)
    requires AtHome(self, pool, home, id) && i < |pool.queues| && (IsFor(self, d, id) ==> i == home)
    ensures AtHome(self, Enqueue(pool, i, d), home, id)
  {
    forall w | 0 <= w < |pool.workers| && w != home ensures Mine(self, Held(Enqueue(pool, i, d), w), id) == [] {
      EnqueueHolds(self, pool, i, d, w, id);
    }
  }

  lemma AppendBoth<T>(a: seq<T>, b: seq<T>, c: seq<T>, x: seq<T>)
    requires a + b == c
    ensures a + (b + x) == c + x
  {
  }

  lemma DispatchAccounted(self: string, pool: Pool, i: nat, d: Delivery, home: nat, id: string)
    requires Accounted(self, pool, home, id) && i < |pool.queues| && (IsFor(self, d, id) ==> i == home)
    ensures Accounted(self, Enqueue(pool, i, d), home, id)
  {
    MineOne(self, d, id);
    MineAppend(self, pool.delivered, [d], id);
    EnqueueHolds(self, pool, i, d, home, id);
    AppendBoth(Mine(self, pool.handled, id), Mine(self, Held(pool, home), id), Mine(self, pool.delivered, id),
               Mine(self, [d], id));
  }

  lemma DispatchKeepsInv(self: string, start: Store, pool: Pool, i: nat, d: Delivery, home: nat, id: string)
    requires InvAt(self, start, pool, home, id) && i < |pool.queues|
    requires IsFor(self, d, id) ==> i == home
    ensures InvAt(self, start, Enqueue(pool, i, d), home, id)
  {
    DispatchAtHome(self, pool, i, d, home, id);
    DispatchAccounted(self, pool, i, d, home, id);
  }

  lemma StartKeepsInv(self: string, start: Store, pool: Pool, w: nat, home: nat, id: string)
    requires Enabled(pool, Start(w)) && InvAt(self, start, pool, home, id)
    ensures InvAt(self, start, Step(self, pool, Start(w)), home, id)
  {
    var pool' := Step(self, pool, Start(w));
    assert Held(pool', w) == Held(pool, w);
    assert forall v | 0 <= v < |pool.workers| && v != w :: Held(pool', v) == Held(pool, v);
  }

  lemma ForeignHeld(self: string, pool: Pool, w: nat, v: nat, id: string)
    requires Enabled(pool, Finish(w)) && !IsFor(self, pool.workers[w].delivery, id) && v < |pool.workers|
    ensures Mine(self, Held(Step(self, pool, Finish(w)), v), id) == Mine(self, Held(pool, v), id)
  {
    if v == w {
      FinishShifts(self, pool, w, id);
    } else {
      assert Held(Step(self, pool, Finish(w)), v) == Held(pool, v);
    }
  }

  lemma ForeignAtHome(self: string, pool: Pool, w: nat, home: nat, id: string)
    requires Enabled(pool, Finish(w)) && !IsFor(self, pool.workers[w].delivery, id) && AtHome(self, pool, home, id)
    ensures AtHome(self, Step(self, pool, Finish(w)), home, id)
  {
    var pool' := Step(self, pool, Finish(w));
    forall v | 0 <= v < |pool'.workers| && v != home ensures Mine(self, Held(pool', v), id) == [] {
      ForeignHeld(self, pool, w, v, id);
    }
  }

  lemma ForeignAccounted(self: string, pool: Pool, w: nat, home: nat, id: string)
    requires Enabled(pool, Finish(w)) && !IsFor(self, pool.workers[w].delivery, id) && Accounted(self, pool, home, id)
    ensures Accounted(self, Step(self, pool, Finish(w)), home, id)
  {
    var pool', d := Step(self, pool, Finish(w)), pool.workers[w].delivery;
    assert pool'.handled[..|pool.handled|] == pool.handled;
    assert Mine(self, pool'.handled, id) == Mine(self, pool.handled, id) + [];
    ForeignHeld(self, pool, w, home, id);
  }

  /** Finishing a delivery for another placement is not noticed. */
  lemma FinishForeign(self: string, start: Store, pool: Pool, w: nat, home: nat, id: string)
    requires Enabled(pool, Finish(w)) && InvAt(self, start, pool, home, id)
    requires !IsFor(self, pool.workers[w].delivery, id)
    ensures InvAt(self, start, Step(self, pool, Finish(w)), home, id)
  {
    ForeignAtHome(self, pool, w, home, id);
    ForeignAccounted(self, pool, w, home, id);
    ForeignStores(self, start, pool, w, id);
  }

  lemma ForeignStores(self: string, start: Store, pool: Pool, w: nat, id: string)
    requires Enabled(pool, Finish(w)) && !IsFor(self, pool.workers[w].delivery, id)
    ensures var pool' := Step(self, pool, Finish(w));
            && Lookup(pool'.store, id) == Lookup(pool.store, id)
            && Lookup(Serial(self, start, pool'.handled), id) == Lookup(Serial(self, start, pool.handled), id)
  {
    var pool' := Step(self, pool, Finish(w));
    assert pool'.handled[..|pool.handled|] == pool.handled;
  }

  lemma FinishShifts(self: string, pool: Pool, w: nat, id: string)
    requires Enabled(pool, Finish(w))
    ensures var pool', d := Step(self, pool, Finish(w)), pool.workers[w].delivery;
            && Mine(self, pool'.handled, id) == Mine(self, pool.handled, id) + Mine(self, [d], id)
            && Mine(self, Held(pool, w), id) == Mine(self, [d], id) + Mine(self, Held(pool', w), id)
            && Mine(self, [d], id) == if IsFor(self, d, id) then [d] else []
  {
    var pool', d := Step(self, pool, Finish(w)), pool.workers[w].delivery;
    assert Held(pool, w) == [d] + Held(pool', w);
    MineAppend(self, pool.handled, [d], id);
    MineAppend(self, [d], Held(pool', w), id);
    MineOne(self, d, id);
  }

  /** Finishing a delivery for the placement does to it what serial handling does. */
  lemma FinishMine(self: string, start: Store, pool: Pool, w: nat, id: string)
    requires Enabled(pool, Finish(w)) && InvAt(self, start, pool, w, id)
    requires IsFor(self, pool.workers[w].delivery, id)
    ensures InvAt(self, start, Step(self, pool, Finish(w)), w, id)
  {
    var pool', d := Step(self, pool, Finish(w)), pool.workers[w].delivery;
    FinishShifts(self, pool, w, id);
    assert (pool.handled + [d])[..|pool.handled|] == pool.handled;
    forall v | 0 <= v < |pool.workers| && v != w ensures Mine(self, Held(pool', v), id) == [] {
      assert Held(pool', v) == Held(pool, v);
    }
  }

  lemma FinishKeepsInv(self: string, start: Store, pool: Pool, w: nat, home: nat, id: string)
    requires Enabled(pool, Finish(w)) && InvAt(self, start, pool, home, id)
    ensures InvAt(self, start, Step(self, pool, Finish(w)), home, id)
  {
    if IsFor(self, pool.workers[w].delivery, id) {
      if w != home { HeldForeign(self, pool, home, w, id); }
      FinishMine(self, start, pool, w, id);
    } else {
      FinishForeign(self, start, pool, w, home, id);
    }
  }

  /** All deliveries for a placement go to one shard. */
  lemma DispatchedHome(self: string, d: Delivery, n: nat, id: string)
    requires n > 0 && WellFormed(d) && IsFor(self, d, id)
    ensures ShardIndex(d, n) == Home(id, n)
  {
  }

  lemma StepKeepsInv(self: string, start: Store, pool: Pool, e: Event, home: nat, id: string)
    requires Enabled(pool, e) && InvAt(self, start, pool, home, id)
    requires e.Dispatch? && IsFor(self, e.delivery, id) ==> ShardIndex(e.delivery, |pool.queues|) == home
    ensures InvAt(self, start, Step(self, pool, e), home, id)
  {
    match e
    case Dispatch(d) => DispatchKeepsInv(self, start, pool, ShardIndex(d, |pool.queues|), d, home, id);
    case Start(w) => StartKeepsInv(self, start, pool, w, home, id);
    case Finish(w) => FinishKeepsInv(self, start, pool, w, home, id);
  }

  ghost predicate Run(self: string, start: Store, n: nat, pools: seq<Pool>, events: seq<Event>) {
    && |pools| == |events| + 1 && pools[0] == Initial(start, n)
    && forall i {:trigger events[i]} | 0 <= i < |events| :: Enabled(pools[i], events[i]) && pools[i + 1] == Step(self, pools[i], events[i])
  }

  lemma {:induction false} RunKeepsInv(self: string, start: Store, n: nat, pools: seq<Pool>, events: seq<Event>, i: nat, id: string)
    requires n > 0 && Run(self, start, n, pools, events) && i < |pools|
    ensures |pools[i].queues| == n && InvAt(self, start, pools[i], Home(id, n), id)
  {
    var home := Home(id, n);
    if i == 0 {
      InitialInv(self, start, n, home, id);
    } else {
      RunKeepsInv(self, start, n, pools, events, i - 1, id);
      var e := events[i - 1];
      if e.Dispatch? && IsFor(self, e.delivery, id) { DispatchedHome(self, e.delivery, n, id); }
      StepKeepsInv(self, start, pools[i - 1], e, home, id);
    }
  }

  // What every schedule guarantees.

  /** Two workers never handle the same placement at once. */
  lemma NeverTwoAtOnce(self: string, start: Store, n: nat, pools: seq<Pool>, events: seq<Event>, i: nat, v: nat, w: nat, id: string)
    requires n > 0 && Run(self, start, n, pools, events) && i < |pools|
    requires v < |pools[i].workers| && pools[i].workers[v].Busy? && IsFor(self, pools[i].workers[v].delivery, id)
    requires w < |pools[i].workers| && pools[i].workers[w].Busy? && IsFor(self, pools[i].workers[w].delivery, id)
    ensures v == w
  {
    var home := Home(id, n);
    RunKeepsInv(self, start, n, pools, events, i, id);
    if v != home { HeldForeign(self, pools[i], home, v, id); }
    if w != home { HeldForeign(self, pools[i], home, w, id); }
  }

  /** The deliveries for one placement are handled in the order delivered. */
  lemma HandledInOrder(self: string, start: Store, n: nat, pools: seq<Pool>, events: seq<Event>, i: nat, id: string)
    requires n > 0 && Run(self, start, n, pools, events) && i < |pools|
    ensures Mine(self, pools[i].handled, id) <= Mine(self, pools[i].delivered, id)
  {
    RunKeepsInv(self, start, n, pools, events, i, id);
  }

  predicate Quiet(pool: Pool) {
    && |pool.queues| == |pool.workers|
    && forall w | 0 <= w < |pool.queues| :: pool.queues[w] == [] && pool.workers[w].Idle?
  }

  /** Nothing held for a placement means serial consumption of everything delivered gave its value. */
  lemma QuietAt(self: string, start: Store, pool: Pool, home: nat, id: string)
    requires InvAt(self, start, pool, home, id) && Quiet(pool)
    ensures Lookup(pool.store, id) == Lookup(Serial(self, start, pool.delivered), id)
  {
    assert Held(pool, home) == [];
    assert Mine(self, pool.handled, id) == Mine(self, pool.delivered, id);
    SerialAt(self, start, pool.handled, id);
    SerialAt(self, start, pool.delivered, id);
  }

  /** Sharded handling refines serial consumption: at every moment the store is that of handling the
      finished deliveries one by one, and once everything is handled it is that of serial consumption
      in delivery order. */
  lemma RefinesSerial(self: string, start: Store, n: nat, pools: seq<Pool>, events: seq<Event>, i: nat)
    requires n > 0 && Run(self, start, n, pools, events) && i < |pools|
    ensures pools[i].store == Serial(self, start, pools[i].handled)
    ensures Quiet(pools[i]) ==> pools[i].store == Serial(self, start, pools[i].delivered)
  {
    var pool := pools[i];
    forall id ensures Lookup(pool.store, id) == Lookup(Serial(self, start, pool.handled), id) {
      RunKeepsInv(self, start, n, pools, events, i, id);
    }
    LookupDetermines(pool.store, Serial(self, start, pool.handled));
    if Quiet(pool) {
      forall id ensures Lookup(pool.store, id) == Lookup(Serial(self, start, pool.delivered), id) {
        RunKeepsInv(self, start, n, pools, events, i, id);
        QuietAt(self, start, pool, Home(id, n), id);
      }
      LookupDetermines(pool.store, Serial(self, start, pool.delivered));
    }
  }

  lemma LookupDetermines(s: Store, t: Store)
    requires forall id :: Lookup(s, id) == Lookup(t, id)
    ensures s == t
  {
    forall id ensures (id in s <==> id in t) && (id in s ==> s[id] == t[id]) {
      assert Lookup(s, id) == Lookup(t, id);
    }
  }

  // Spreading.

  /** Commands share a shard exactly when the FNV-1a hashes of their placement ids agree modulo the pool. */
  lemma SharesShardIff(d: Delivery, e: Delivery, n: nat)
    requires n > 1 && d.command.Some? && e.command.Some? && WellFormed(d) && WellFormed(e)
    ensures ShardIndex(d, n) == ShardIndex(e, n) <==>
            Fnv.Hash(Fnv.Octets(d.command.value.placement.id)) % n == Fnv.Hash(Fnv.Octets(e.command.value.placement.id)) % n
  {
  }

  /** Messages that cannot be decoded take turns. */
  lemma UndecodedTakeTurns(d: Delivery, e: Delivery, n: nat)
    requires n > 1 && d.command.None? && e.command.None? && e.seqNo == d.seqNo + 1
    ensures ShardIndex(e, n) == if ShardIndex(d, n) == n - 1 then 0 else ShardIndex(d, n) + 1
  {
    var q, r := d.seqNo / n, d.seqNo % n;
    if r == n - 1 {
      TurnOf(q + 1, 0, n, e.seqNo);
    } else {
      TurnOf(q, r + 1, n, e.seqNo);
    }
  }

  lemma TurnOf(q: nat, r: nat, n: nat, s: nat)
    requires r < n && s == q * n + r
    ensures s % n == r
  {
    var k := s / n;
    assert s == k * n + s % n && (k - q) * n == k * n - q * n && (q - k) * n == q * n - k * n;
    if k > q {
      Larger(k - q, n);
    } else if k < q {
      Larger(q - k, n);
    }
  }

  lemma Larger(a: nat, n: nat)
    requires a >= 1
    ensures a * n >= n
  {
    assert a * n == n + (a - 1) * n && (a - 1) * n >= 0;
  }

  /** No queue ever holds more than sixteen messages. */
  lemma {:induction false} QueuesStayBounded(self: string, start: Store, n: nat, pools: seq<Pool>, events: seq<Event>, i: nat, w: nat)
    requires Run(self, start, n, pools, events) && i < |pools| && w < |pools[i].queues|
    ensures |pools[i].queues[w]| <= 16
  {
    if i > 0 {
      assert Enabled(pools[i - 1], events[i - 1]);
      QueuesStayBounded(self, start, n, pools, events, i - 1, w);
    }
  }
}
