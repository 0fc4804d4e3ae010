/** What becomes of a command to the external entry node: it is in force once it is reported as done, and
    on its way to the store until then. */
module EntryProgress {
  import opened Domain
  import opened Order
  import opened Tags
  import opened Config
  import opened Build
  import opened Meaning
  import opened EntrySpec
  import opened Agreement
  import opened EntryRuns

  /** The store has no such placement or an older version of it; version 0 is newer than everything. */
  predicate NewerThan(store: Store, id: string, version: nat) {
    version == 0 || id !in store || store[id].opVersion < version
  }

  /** The selector of the command's client is set to the command's backend and nothing else has changed
      but the store. */
  predicate Moves(node: Node, d: Placement, node': Node) {
    node' == Node(node'.store, node.loaded,
                  node.overrides[SelectorTag(d.clientId) := OutboundTag(d.clientId, d.backendId)], node.lastHash, node.file)
  }

  // One command.

  /** A command that can be executed is stored, queued as it is, or refused by the store. */
  lemma SimpleApplyLands(setup: Setup, node: Node, d: Placement, env: Env, node': Node, r: Outcome)
    requires SimpleApplyStep(setup, node, d, env, node', r)
    requires d.id != "" && (d.desired == Active ==> d.backendId in Ids(setup.registry)) && env.getOk
    requires NewerThan(node.store, d.id, d.opVersion)
    ensures r == Done || r == Queued(d.(applied := Applied)) || (r.Refused? && d.id in env.putFails)
    ensures r == Done ==> node'.store == node.store[d.id := d.(applied := Applied)] && Moves(node, d, node')
    ensures r.Refused? ==> node'.store == node.store && Moves(node, d, node')
    ensures r.Queued? ==> node' == node
    ensures r.Queued? <==> !(d.id in node.store && node.store[d.id].clientId == d.clientId && Flips(setup, node, d, env))
  {
  }

  lemma SwapRouteLands(setup: Setup, node: Node, plan: SwapPlan, env: Env, node': Node, r: Outcome)
    requires SwapRouteStep(setup, node, plan, env, node', r)
    requires plan.desired.id != "" && plan.desired.id == plan.placementId && env.getOk
    requires NewerThan(node.store, plan.placementId, plan.opVersion)
    ensures var d := plan.desired;
            && (r == Done || r == Queued(d.(applied := Applied)) || (r.Refused? && d.id in env.putFails))
            && (r == Done ==> node'.store == node.store[d.id := d.(applied := Applied)] && Moves(node, d, node'))
            && (r.Refused? ==> node'.store == node.store && Moves(node, d, node'))
            && (r.Queued? ==> node' == node)
            && (r.Queued? <==> !Flips(setup, node, d, env))
  {
  }

  /** Any other command changes nothing: it is refused, or it is done already. */
  lemma SimpleApplyRefuses(setup: Setup, node: Node, d: Placement, env: Env, node': Node, r: Outcome)
    requires SimpleApplyStep(setup, node, d, env, node', r)
    requires || d.id == "" || (d.desired == Active && d.backendId !in Ids(setup.registry)) || !env.getOk
             || !NewerThan(node.store, d.id, d.opVersion)
    ensures node' == node
    ensures r == Done <==>
            d.id != "" && (d.desired == Active ==> d.backendId in Ids(setup.registry)) && env.getOk
    ensures r != Done ==> r.Refused?
  {
  }

  lemma SwapRouteRefuses(setup: Setup, node: Node, plan: SwapPlan, env: Env, node': Node, r: Outcome)
    requires SwapRouteStep(setup, node, plan, env, node', r)
    requires || plan.desired.id == "" || plan.desired.id != plan.placementId || !env.getOk
             || !NewerThan(node.store, plan.placementId, plan.opVersion)
    ensures node' == node
    ensures r == Done <==> plan.desired.id != "" && plan.desired.id == plan.placementId && env.getOk
    ensures r != Done ==> r.Refused?
  {
  }

  /** On a node that runs a render of its clients, a moved selector takes the client along. */
  lemma MovedIsRouted(setup: Setup, node: Node, rendered: Store, all: set<string>, d: Placement, node': Node)
    requires RunsRender(setup, node, rendered, all) && TagsDistinct(all, setup.registry) && node.loaded.Some?
    requires d.clientId in ActiveClients(node.store) && d.backendId in Ids(setup.registry) && Moves(node, d, node')
    ensures Routed(setup, node', d)
  {
    ListingFacts(rendered);
    RoutedIff(setup, node', rendered, all, d);
  }

  lemma KnownIsActive(store: Store, d: Placement)
    requires UserKnown(store, d.clientId) && d.clientId != ""
    ensures d.clientId in ActiveClients(store)
  {
    var id :| id in store && store[id].clientId == d.clientId && store[id].desired == Active;
    assert Counts(store[id]);
  }

  /** An active command that an in-sync node reports as done, and had not stored before, is stored and its
      client leaves by its backend. */
  lemma DoneIsInForce(setup: Setup, node: Node, rendered: Store, all: set<string>, d: Placement, env: Env, node': Node)
    requires InSync(setup, node, rendered, all) && TagsDistinct(all, setup.registry)
    requires d.id != "" && env.getOk && NewerThan(node.store, d.id, d.opVersion)
    requires || (SimpleApplyStep(setup, node, d, env, node', Done) && (d.desired == Active ==> d.backendId in Ids(setup.registry)))
             || SwapRouteStep(setup, node, PlanFor(d), env, node', Done)
    ensures d.id in node'.store && node'.store[d.id] == d.(applied := Applied)
    ensures Counts(d) && Routed(setup, node', d)
  {
    if SimpleApplyStep(setup, node, d, env, node', Done) && (d.desired == Active ==> d.backendId in Ids(setup.registry)) {
      SimpleApplyLands(setup, node, d, env, node', Done);
    } else {
      SwapRouteLands(setup, node, PlanFor(d), env, node', Done);
    }
    KnownIsActive(node.store, d);
    MovedIsRouted(setup, node, rendered, all, d, node');
  }

  /** No command brings a placement on an unregistered backend into a batch through a simple application. */
  lemma SimpleQueuesRegistered(setup: Setup, node: Node, d: Placement, env: Env, node': Node, r: Outcome)
    requires SimpleApplyStep(setup, node, d, env, node', r) && r.Queued?
    ensures r.overlay.desired == Active ==> r.overlay.backendId in Ids(setup.registry)
  {
  }

  /** A command lowers a stored version exactly when it is stored without a version of its own. */
  lemma SimpleLowersIff(setup: Setup, node: Node, d: Placement, env: Env, node': Node, r: Outcome, id: string)
    requires SimpleApplyStep(setup, node, d, env, node', r) && id in node.store
    ensures id in node'.store
    ensures node'.store[id].opVersion < node.store[id].opVersion <==>
            id == d.id && d.opVersion == 0 && 0 < node.store[id].opVersion && node'.store != node.store
  {
  }

  /** A flush that succeeds stores every overlay of its batch. */
  lemma FlushStores(setup: Setup, node: Node, overlays: Store, env: Env, node': Node, id: string)
    requires FlushStep(setup, node, overlays, env, node', true) && id in overlays
    ensures id in node'.store && node'.store[id] == overlays[id]
  {
  }

  // Runs.

  /** The command's placement waits for a flush, is being flushed, or has been selected. */
  predicate OnItsWay(sys: Sys, o: Placement) {
    || Some(o) in sys.pending
    || (o.id in sys.moving && sys.moving[o.id] == o)
    || (sys.job.Some? && o.id in sys.job.value.overlays && sys.job.value.overlays[o.id] == o)
  }

  predicate IsStored(sys: Sys, o: Placement) {
    o.id in sys.node.store && sys.node.store[o.id] == o
  }

  /** The event is the failure of the flush that carries the placement. */
  predicate FailsWith(setup: Setup, sys: Sys, e: Event, sys': Sys, o: Placement) {
    || (e.Begin? && sys'.job.None? && e.count <= |sys.pending| && Some(o) in sys.pending[..e.count])
    || (e.End? && sys.job.Some? && !Succeeds(setup, sys, e.env)
        && o.id in sys.job.value.overlays && sys.job.value.overlays[o.id] == o)
  }

  /** A command that can be executed is on its way as soon as it has been taken. */
  lemma TakenIsOnItsWay(setup: Setup, sys: Sys, e: Event, sys': Sys, d: Placement)
    requires Next(setup, sys, e, sys') && d.id != ""
    requires || (e.Simple? && e.desired == d && e.env.getOk && NewerThan(sys.node.store, d.id, d.opVersion)
                 && (d.desired == Active ==> d.backendId in Ids(setup.registry)))
             || (e.Swap? && e.plan.desired == d && e.plan.placementId == d.id && e.env.getOk
                 && NewerThan(sys.node.store, d.id, e.plan.opVersion))
    ensures OnItsWay(sys', d.(applied := Applied))
  {
    var o := d.(applied := Applied);
    assert sys'.pending == sys.pending + [Some(o)] ==> sys'.pending[|sys.pending|] == Some(o);
  }

  lemma BatchCarries(setup: Setup, store: Store, owner: Owners, batch: seq<Option<Placement>>, o: Placement)
    requires AllFresh(setup, store, owner, batch) && Some(o) in batch
    ensures o.id in Overlays(batch) && Overlays(batch)[o.id] == o
  {
    var i :| 0 <= i < |batch| && batch[i] == Some(o);
    assert Waiting(batch, o.id);
    OverlayOf(batch, o.id);
    var j :| 0 <= j < |batch| && batch[j].Some? && batch[j].value == Overlays(batch)[o.id] && batch[j].value.id == o.id;
    assert batch[i].value.id == batch[j].value.id;
    assert i == j;
  }

  lemma BeginCarries(setup: Setup, sys: Sys, owner: Owners, e: Event, sys': Sys, o: Placement)
    requires Queues(setup, sys, owner) && e.Begin? && Next(setup, sys, e, sys') && Some(o) in sys.pending
    ensures OnItsWay(sys', o) || FailsWith(setup, sys, e, sys', o)
  {
    var i :| 0 <= i < |sys.pending| && sys.pending[i] == Some(o);
    if i < e.count {
      assert sys.pending[..e.count][i] == Some(o);
      RestOfQueue(setup, sys.node.store, owner, sys.pending, e.count);
      BatchCarries(setup, sys.node.store, owner, sys.pending[..e.count], o);
    } else {
      assert sys.pending[e.count..][i - e.count] == Some(o);
    }
  }

  lemma EndStores(setup: Setup, sys: Sys, e: Event, sys': Sys, owner: Owners, o: Placement)
    requires e.End? && Fair(sys, e, owner) && Next(setup, sys, e, sys') && OnItsWay(sys, o)
    ensures OnItsWay(sys', o) || IsStored(sys', o) || FailsWith(setup, sys, e, sys', o)
  {
    var ok :| Ends(setup, sys, e.env, sys', ok);
    if o.id in sys.job.value.overlays && sys.job.value.overlays[o.id] == o && Succeeds(setup, sys, e.env) {
      assert sys'.node.store == sys.node.store + sys.job.value.overlays;
    }
  }

  lemma CommandKeepsOthers(setup: Setup, sys: Sys, e: Event, sys': Sys, owner: Owners, o: Placement)
    requires (e.Simple? || e.Swap?) && Fair(sys, e, owner) && Next(setup, sys, e, sys') && OnItsWay(sys, o)
    ensures OnItsWay(sys', o)
  {
    assert sys.pending <= sys'.pending;
    if Some(o) in sys.pending { InLonger(sys.pending, sys'.pending, Some(o)); }
  }

  lemma InLonger<T>(s: seq<T>, t: seq<T>, x: T)
    requires s <= t && x in s
    ensures x in t
  {
    var i :| 0 <= i < |s| && s[i] == x;
    assert t[i] == x;
  }

  lemma PutKeepsOthers(sys: Sys, id: string, o: Placement)
    requires id in sys.moving && OnItsWay(sys, o)
    ensures OnItsWay(Put(sys, id), o) || IsStored(Put(sys, id), o)
  {
  }

  /** Nothing is dropped: whatever happens next, a command on its way stays on its way or is stored, unless
      the flush that carries it fails. */
  lemma NothingIsDropped(setup: Setup, sys: Sys, e: Event, sys': Sys, owner: Owners, o: Placement)
    requires Queues(setup, sys, owner) && Fair(sys, e, owner) && Next(setup, sys, e, sys') && OnItsWay(sys, o)
    ensures OnItsWay(sys', o) || IsStored(sys', o) || FailsWith(setup, sys, e, sys', o)
  {
    if e.End? {
      EndStores(setup, sys, e, sys', owner, o);
    } else if e.Begin? {
      if Some(o) in sys.pending { BeginCarries(setup, sys, owner, e, sys', o); }
    } else if e.Stored? {
      PutKeepsOthers(sys, e.id, o);
    } else if e.Nudge? {
      if Some(o) in sys.pending { InLonger(sys.pending, sys'.pending, Some(o)); }
    } else {
      CommandKeepsOthers(setup, sys, e, sys', owner, o);
    }
  }

  /** Over a run: from any moment on, a command on its way is stored at some later moment, lost in a failed
      flush, or still on its way. */
  lemma {:induction false} CommandArrives(setup: Setup, states: seq<Sys>, events: seq<Event>, owner: Owners, i: nat, j: nat, o: Placement)
    returns (k: nat)
    requires TagsDistinct(owner.Keys, setup.registry) && Separates(setup.hash, RunConfigs(states))
    requires Run(setup, states, events, owner) && Inv(setup, states[0], owner) && i <= j < |states|
    requires OnItsWay(states[i], o)
    ensures i <= k <= j
    ensures || (k == j && OnItsWay(states[j], o))
            || IsStored(states[k], o)
            || (k < j && FailsWith(setup, states[k], events[k], states[k + 1], o))
  {
    if i == j {
      k := j;
    } else {
      k := CommandArrives(setup, states, events, owner, i, j - 1, o);
      if k == j - 1 && OnItsWay(states[k], o) && !IsStored(states[k], o) {
        RunKeepsInv(setup, states, events, owner, j - 1);
        NothingIsDropped(setup, states[j - 1], events[j - 1], states[j], owner, o);
        if !FailsWith(setup, states[k], events[k], states[k + 1], o) { k := j; }
      }
    }
  }

  // Versions.

  predicate IsAhead(store: Store, p: Placement) {
    p.id in store ==> store[p.id].opVersion < p.opVersion
  }

  ghost predicate QueueAhead(store: Store, pending: seq<Option<Placement>>) {
    forall i | 0 <= i < |pending| && pending[i].Some? :: IsAhead(store, pending[i].value)
  }

  ghost predicate BatchAhead(store: Store, batch: Store) {
    forall id | id in batch :: IsAhead(store, batch[id])
  }

  /** Whatever is on its way is ahead of what is stored. */
  ghost predicate Ahead(sys: Sys) {
    && QueueAhead(sys.node.store, sys.pending)
    && BatchAhead(sys.node.store, sys.moving)
    && (sys.job.Some? ==> BatchAhead(sys.node.store, sys.job.value.overlays))
  }

  /** Writing some placements leaves the others ahead. */
  lemma OthersStayAhead(store: Store, written: Store, pending: seq<Option<Placement>>)
    requires QueueAhead(store, pending) && forall id | id in written :: !Waiting(pending, id)
    ensures QueueAhead(store + written, pending)
  {
    forall i | 0 <= i < |pending| && pending[i].Some? ensures IsAhead(store + written, pending[i].value) {
      assert Waiting(pending, pending[i].value.id) && IsAhead(store, pending[i].value);
    }
  }

  lemma OtherBatchStaysAhead(store: Store, written: Store, batch: Store)
    requires BatchAhead(store, batch) && (forall id | id in batch :: batch[id].id == id) && written.Keys !! batch.Keys
    ensures BatchAhead(store + written, batch)
  {
    forall id | id in batch ensures IsAhead(store + written, batch[id]) {
      assert IsAhead(store, batch[id]);
    }
  }

  lemma WriteAdvances(store: Store, written: Store)
    requires BatchAhead(store, written) && forall id | id in written :: written[id].id == id
    ensures Advances(store, store + written)
  {
    forall id | id in store ensures (store + written)[id] == store[id] || (store + written)[id].opVersion > store[id].opVersion {
      if id in written { assert IsAhead(store, written[id]); }
    }
  }

  /** Commands have versions, and plans those of their placement. */
  predicate Versioned(e: Event) {
    && (e.Simple? ==> e.desired.opVersion > 0)
    && (e.Swap? ==> e.plan.opVersion == e.plan.desired.opVersion > 0)
  }

  /** Every placement stays, unchanged or at a later version. */
  ghost predicate Advances(s: Store, t: Store) {
    forall id | id in s :: id in t && (t[id] == s[id] || t[id].opVersion > s[id].opVersion)
  }

  lemma DecisionIsAhead(setup: Setup, node: Node, e: Event)
    requires (e.Simple? || e.Swap?) && Versioned(e)
    ensures var c := if e.Simple? then SimpleDecision(setup, node, e.desired, e.env) else SwapDecision(setup, node, e.plan, e.env);
            (c.Selected? ==> IsAhead(node.store, c.flip)) && (c.Queued? ==> IsAhead(node.store, c.overlay))
  {
  }

  lemma TookStaysAhead(sys: Sys, c: Outcome)
    requires Ahead(sys)
    requires (c.Selected? ==> IsAhead(sys.node.store, c.flip)) && (c.Queued? ==> IsAhead(sys.node.store, c.overlay))
    ensures Ahead(Took(sys, c)) && Took(sys, c).node.store == sys.node.store
  {
  }

  lemma CommandStaysAhead(setup: Setup, sys: Sys, e: Event, sys': Sys)
    requires (e.Simple? || e.Swap?) && Versioned(e) && Next(setup, sys, e, sys') && Ahead(sys)
    ensures Ahead(sys') && sys'.node.store == sys.node.store
  {
    DecisionIsAhead(setup, sys.node, e);
    TookStaysAhead(sys, if e.Simple? then SimpleDecision(setup, sys.node, e.desired, e.env)
                        else SwapDecision(setup, sys.node, e.plan, e.env));
  }

  lemma FlipsKeyed(setup: Setup, store: Store, owner: Owners, moving: Store)
    requires FlipsOk(setup, store, owner, moving)
    ensures forall id | id in moving :: moving[id].id == id
  {
    assert forall id | id in moving :: FlipOf(setup, store, owner, id, moving[id]);
  }

  lemma PutAdvances(setup: Setup, sys: Sys, owner: Owners, id: string)
    requires Queues(setup, sys, owner) && Ahead(sys) && id in sys.moving
    ensures Ahead(Put(sys, id)) && Advances(sys.node.store, Put(sys, id).node.store)
  {
    var store, written := sys.node.store, map[id := sys.moving[id]];
    FlipsKeyed(setup, store, owner, sys.moving);
    assert store[id := sys.moving[id]] == store + written;
    WriteAdvances(store, written);
    OthersStayAhead(store, written, sys.pending);
    OtherBatchStaysAhead(store, written, sys.moving - {id});
    if sys.job.Some? { OtherBatchStaysAhead(store, written, sys.job.value.overlays); }
  }

  lemma BeginStaysAhead(setup: Setup, sys: Sys, e: Event, sys': Sys)
    requires e.Begin? && Next(setup, sys, e, sys') && Ahead(sys)
    ensures Ahead(sys') && sys'.node.store == sys.node.store
  {
    var batch := sys.pending[..e.count];
    forall id | id in Overlays(batch) ensures IsAhead(sys.node.store, Overlays(batch)[id]) {
      OverlayOf(batch, id);
      var i :| 0 <= i < |batch| && batch[i].Some? && batch[i].value == Overlays(batch)[id];
      assert sys.pending[i] == batch[i];
    }
  }

  lemma EndAdvances(setup: Setup, sys: Sys, e: Event, sys': Sys, owner: Owners)
    requires Queues(setup, sys, owner) && e.End? && Fair(sys, e, owner) && Next(setup, sys, e, sys') && Ahead(sys)
    ensures Ahead(sys') && Advances(sys.node.store, sys'.node.store)
  {
    EndWrites(setup, sys, e, sys', owner);
    var store, overlays := sys.node.store, sys.job.value.overlays;
    assert forall id | id in overlays :: overlays[id].id == id;
    FlipsKeyed(setup, store, owner, sys.moving);
    WriteAdvances(store, overlays);
    OthersStayAhead(store, overlays, sys.pending);
    OtherBatchStaysAhead(store, overlays, sys.moving);
  }

  lemma EndWrites(setup: Setup, sys: Sys, e: Event, sys': Sys, owner: Owners)
    requires e.End? && Fair(sys, e, owner) && Next(setup, sys, e, sys')
    ensures sys.job.Some? && sys'.job.None? && sys'.pending == sys.pending && sys'.moving == sys.moving
    ensures sys'.node.store == sys.node.store || sys'.node.store == sys.node.store + sys.job.value.overlays
  {
    var ok :| Ends(setup, sys, e.env, sys', ok);
  }

  lemma StepAdvances(setup: Setup, sys: Sys, e: Event, sys': Sys, owner: Owners)
    requires Queues(setup, sys, owner) && Ahead(sys) && Versioned(e) && Fair(sys, e, owner) && Next(setup, sys, e, sys')
    ensures Ahead(sys') && Advances(sys.node.store, sys'.node.store)
  {
    if e.Simple? || e.Swap? {
      CommandStaysAhead(setup, sys, e, sys');
    } else if e.Begin? {
      BeginStaysAhead(setup, sys, e, sys');
    } else if e.End? {
      EndAdvances(setup, sys, e, sys', owner);
    } else if e.Stored? {
      PutAdvances(setup, sys, owner, e.id);
    }
  }

  lemma {:induction false} RunStaysAhead(setup: Setup, states: seq<Sys>, events: seq<Event>, owner: Owners, i: nat)
    requires TagsDistinct(owner.Keys, setup.registry) && Separates(setup.hash, RunConfigs(states))
    requires Run(setup, states, events, owner) && Inv(setup, states[0], owner) && Ahead(states[0]) && i < |states|
    requires forall e | e in events :: Versioned(e)
    ensures Ahead(states[i])
  {
    if i > 0 {
      RunStaysAhead(setup, states, events, owner, i - 1);
      RunKeepsInv(setup, states, events, owner, i - 1);
      assert events[i - 1] in events;
      StepAdvances(setup, states[i - 1], events[i - 1], states[i], owner);
    }
  }

  lemma RunStepAdvances(setup: Setup, states: seq<Sys>, events: seq<Event>, owner: Owners, j: nat)
    requires TagsDistinct(owner.Keys, setup.registry) && Separates(setup.hash, RunConfigs(states))
    requires Run(setup, states, events, owner) && Inv(setup, states[0], owner) && Ahead(states[0]) && j < |events|
    requires forall e | e in events :: Versioned(e)
    ensures Advances(states[j].node.store, states[j + 1].node.store)
  {
    RunKeepsInv(setup, states, events, owner, j);
    RunStaysAhead(setup, states, events, owner, j);
    assert events[j] in events;
    StepAdvances(setup, states[j], events[j], states[j + 1], owner);
  }

  lemma AdvancesFurther(s: Store, t: Store, u: Store)
    requires Advances(s, t) && Advances(t, u)
    ensures Advances(s, u)
  {
  }

  /** Stores that advance at every step advance over every stretch. */
  lemma {:induction false} StretchAdvances(states: seq<Sys>, i: nat, j: nat)
    requires i <= j < |states|
    requires forall k | 0 <= k < |states| - 1 :: Advances(states[k].node.store, states[k + 1].node.store)
    ensures Advances(states[i].node.store, states[j].node.store)
  {
    if i < j {
      StretchAdvances(states, i, j - 1);
      assert Advances(states[j - 1].node.store, states[j - 1 + 1].node.store);
      AdvancesFurther(states[i].node.store, states[j - 1].node.store, states[j].node.store);
    }
  }

  /** In every run a stored placement stays, and changes only to a later version. */
  lemma EveryRunAdvances(setup: Setup, states: seq<Sys>, events: seq<Event>, owner: Owners, i: nat, j: nat)
    requires TagsDistinct(owner.Keys, setup.registry) && Separates(setup.hash, RunConfigs(states))
    requires Run(setup, states, events, owner) && Inv(setup, states[0], owner) && Ahead(states[0]) && i <= j < |states|
    requires forall e | e in events :: Versioned(e)
    ensures Advances(states[i].node.store, states[j].node.store)
  {
    forall k | 0 <= k < |states| - 1 ensures Advances(states[k].node.store, states[k + 1].node.store) {
      RunStepAdvances(setup, states, events, owner, k);
    }
    StretchAdvances(states, i, j);
  }
}
