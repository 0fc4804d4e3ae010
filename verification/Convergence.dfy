/** Under at-least-once, out-of-order delivery the store depends only on what was delivered. */
module Convergence {
  import opened Domain
  import opened Applier

  /** Commands reach the store through the applier and, in snapshots, item by item. */
  datatype Event = Cmd(delivery: Delivery) | Item(placement: Placement, getOk: bool, putOk: bool)

  /** A snapshot item is stored unless the store has its version or a later one. */
  function ItemApplied(store: Store, p: Placement, getOk: bool, putOk: bool): Store {
    if !getOk || (p.id in store && store[p.id].opVersion >= p.opVersion) || !putOk then store
    else store[p.id := p.(applied := Applied)]
  }

  function Step(self: string, store: Store, e: Event): Store {
    match e
    case Cmd(d) => Handled(self, store, d)
    case Item(p, getOk, putOk) => ItemApplied(store, p, getOk, putOk)
  }

  function After(self: string, store: Store, events: seq<Event>): Store {
    if events == [] then store
    else Step(self, After(self, store, events[..|events| - 1]), events[|events| - 1])
  }

  /** The executor writes nothing itself and always ends the same way. */
  ghost predicate Ends(d: Delivery, result: ExecResult) {
    forall own :: d.run(own) == ExecRun(own, result)
  }

  ghost predicate StoreFree(e: Event) {
    e.Cmd? ==> exists result :: Ends(e.delivery, result)
  }

  /** The event gets as far as writing the store if its version allows it. */
  ghost predicate Lands(self: string, e: Event) {
    match e
    case Cmd(d) => Addressed(self, d) && d.getOk && d.putOk && !d.run(None).result.Retryable?
    case Item(_, getOk, putOk) => getOk && putOk
  }

  function Carried(e: Event): Option<Placement> {
    match e
    case Cmd(d) => if d.command.Some? then Some(d.command.value.placement) else None
    case Item(p, _, _) => Some(p)
  }

  /** A placement without its application status. */
  function Content(p: Placement): Placement {
    p.(applied := Pending)
  }

  ghost predicate Agree(p: Placement, q: Placement) {
    p.id == q.id && p.opVersion == q.opVersion ==> Content(p) == Content(q)
  }

  ghost predicate LandsAs(self: string, e: Event, p: Placement) {
    Lands(self, e) && Carried(e).Some? && Content(Carried(e).value) == Content(p)
  }

  ghost predicate Landed(self: string, events: seq<Event>, p: Placement) {
    exists e | e in events :: LandsAs(self, e, p)
  }

  /** The contents available for a placement: what was stored and what landed. */
  ghost predicate Available(self: string, store: Store, events: seq<Event>, p: Placement) {
    (p.id in store && Content(store[p.id]) == Content(p)) || Landed(self, events, p)
  }

  /** Placement id and version determine the content, over everything stored and landed. */
  ghost predicate Determined(self: string, store: Store, events: seq<Event>) {
    forall p, q | Available(self, store, events, p) && Available(self, store, events, q) :: Agree(p, q)
  }

  /** One step, seen at one placement: nothing lands there and nothing changes, or the stored version
      becomes the larger of the two and the content is that of one of them. */
  lemma StepAt(self: string, store: Store, e: Event, id: string)
    requires WellKeyed(store) && StoreFree(e)
    ensures WellKeyed(Step(self, store, e))
    ensures !(Lands(self, e) && Carried(e).Some? && Carried(e).value.id == id) ==>
              Lookup(Step(self, store, e), id) == Lookup(store, id)
    ensures Lands(self, e) && Carried(e).Some? && Carried(e).value.id == id ==>
              && var p := Carried(e).value;
              && var after := Step(self, store, e);
              && id in after
              && after[id].opVersion == (if id in store && store[id].opVersion > p.opVersion then store[id].opVersion else p.opVersion)
              && ((id in store && Content(after[id]) == Content(store[id])) || Content(after[id]) == Content(p))
  {
    if e.Cmd? {
      var result :| Ends(e.delivery, result);
      var d := e.delivery;
      assert d.run(None) == ExecRun(None, result);
      if Addressed(self, d) {
        var p := d.command.value.placement;
        assert d.run(Lookup(store, p.id)) == ExecRun(Lookup(store, p.id), result);
      }
    }
  }

  lemma LandedSnoc(self: string, front: seq<Event>, e: Event, p: Placement)
    ensures Landed(self, front + [e], p) <==> Landed(self, front, p) || LandsAs(self, e, p)
  {
    assert forall x :: x in front + [e] <==> x in front || x == e;
  }

  /** What the store holds after any events: for each placement a highest version among what was
      stored and what landed, and nothing when neither exists. */
  lemma {:induction false} HoldsLatest(self: string, store: Store, events: seq<Event>, p: Placement)
    requires WellKeyed(store) && forall e | e in events :: StoreFree(e)
    ensures var after := After(self, store, events);
            && WellKeyed(after)
            && (p.id in after ==> Available(self, store, events, after[p.id]))
            && (Available(self, store, events, p) ==> p.id in after && after[p.id].opVersion >= p.opVersion)
  {
    if events != [] {
      var front, e := events[..|events| - 1], events[|events| - 1];
      assert events == front + [e];
      var mid := After(self, store, front);
      HoldsLatest(self, store, front, p);
      StepAt(self, mid, e, p.id);
      LandedSnoc(self, front, e, p);
      var after := Step(self, mid, e);
      if p.id in after {
        LandedSnoc(self, front, e, after[p.id]);
        if p.id in mid { LandedSnoc(self, front, e, mid[p.id]); }
      }
    }
  }

  /** A stored version never goes down. */
  lemma VersionsNeverDecrease(self: string, store: Store, events: seq<Event>, id: string)
    requires WellKeyed(store) && (forall e | e in events :: StoreFree(e)) && id in store
    ensures id in After(self, store, events) && After(self, store, events)[id].opVersion >= store[id].opVersion
  {
    HoldsLatest(self, store, events, store[id]);
  }

  ghost predicate SameContents(s: Store, t: Store) {
    s.Keys == t.Keys && forall id | id in s :: Content(s[id]) == Content(t[id])
  }

  /** Convergence: any two histories in which the same contents landed, in any order, with any
      repetitions and any failed deliveries in between, leave the same contents. */
  lemma Converges(self: string, store: Store, first: seq<Event>, second: seq<Event>)
    requires WellKeyed(store) && (forall e | e in first :: StoreFree(e)) && (forall e | e in second :: StoreFree(e))
    requires forall p :: Landed(self, first, p) <==> Landed(self, second, p)
    requires Determined(self, store, first)
    ensures SameContents(After(self, store, first), After(self, store, second))
  {
    var s, t := After(self, store, first), After(self, store, second);
    forall id ensures id in s <==> id in t {
      if id in s {
        HoldsLatest(self, store, first, s[id]);
        HoldsLatest(self, store, second, s[id]);
      }
      if id in t {
        HoldsLatest(self, store, second, t[id]);
        HoldsLatest(self, store, first, t[id]);
      }
    }
    forall id | id in s ensures Content(s[id]) == Content(t[id]) {
      HoldsLatest(self, store, first, s[id]);
      HoldsLatest(self, store, second, t[id]);
      HoldsLatest(self, store, first, t[id]);
      HoldsLatest(self, store, second, s[id]);
      assert Agree(s[id], t[id]);
    }
  }

  ghost predicate Succeeds(e: Event) {
    e.Cmd? ==> Ends(e.delivery, Succeeded)
  }

  ghost predicate AllApplied(store: Store) {
    forall id | id in store :: store[id].applied == Applied
  }

  lemma {:induction false} StaysApplied(self: string, store: Store, events: seq<Event>)
    requires AllApplied(store) && forall e | e in events :: Succeeds(e)
    ensures AllApplied(After(self, store, events))
  {
    if events != [] {
      var front, e := events[..|events| - 1], events[|events| - 1];
      StaysApplied(self, store, front);
      assert e in events;
      if e.Cmd? && Addressed(self, e.delivery) {
        var own := Lookup(After(self, store, front), e.delivery.command.value.placement.id);
        assert e.delivery.run(own) == ExecRun(own, Succeeded);
      }
    }
  }

  /** With the no-op executor the stores are equal, application status included. */
  lemma ConvergesExactly(self: string, store: Store, first: seq<Event>, second: seq<Event>)
    requires WellKeyed(store) && AllApplied(store)
    requires (forall e | e in first :: Succeeds(e)) && (forall e | e in second :: Succeeds(e))
    requires forall p :: Landed(self, first, p) <==> Landed(self, second, p)
    requires Determined(self, store, first)
    ensures After(self, store, first) == After(self, store, second)
  {
    Converges(self, store, first, second);
    StaysApplied(self, store, first);
    StaysApplied(self, store, second);
    var s, t := After(self, store, first), After(self, store, second);
    forall id | id in s ensures s[id] == t[id] {
      assert Content(s[id]).(applied := Applied) == s[id] && Content(t[id]).(applied := Applied) == t[id];
    }
  }
}
