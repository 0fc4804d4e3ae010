/** Every schedule of commands, rebuild requests and coalesced flushes: when the running sing-box agrees
    with the store. A flush renders first and loads later, a flip selects first and stores later, and
    anything may happen in between. */
module EntryRuns {
  import opened Domain
  import opened Order
  import opened Tags
  import opened Config
  import opened Build
  import opened Meaning
  import opened EntrySpec
  import opened Agreement

  /** A flush that has rendered the placements it saw and has not loaded the result yet. */
  datatype Job = Job(overlays: Store, seen: Store, cfg: Json)

  /** The node, the requests that wait for a flush (without an overlay they ask for a rebuild only), the
      flush under way, the flips that have been selected but not stored yet, and the placements the loaded
      config was rendered from. */
  datatype Sys = Sys(node: Node, pending: seq<Option<Placement>>, job: Option<Job>, moving: Store, rendered: Store)

  datatype Event =
    | Simple(desired: Placement, env: Env)
    | Swap(plan: SwapPlan, env: Env)
    | Stored(id: string)
    | Nudge
    | Begin(count: nat, env: Env)
    | End(env: Env)

  /** The overlays of a batch; a later request for a placement replaces an earlier one. */
  function Overlays(batch: seq<Option<Placement>>): Store {
    if batch == [] then map[]
    else
      var front, last := Overlays(batch[..|batch| - 1]), batch[|batch| - 1];
      if last.None? then front else front[last.value.id := last.value]
  }

  function Took(sys: Sys, c: Outcome): Sys {
    match c
    case Selected(f) => sys.(node := Select(sys.node, f), moving := sys.moving[f.id := f])
    case Queued(overlay) => sys.(pending := sys.pending + [Some(overlay)])
    case _ => sys
  }

  function Put(sys: Sys, id: string): Sys
    requires id in sys.moving
  {
    sys.(node := sys.node.(store := sys.node.store[id := sys.moving[id]]), moving := sys.moving - {id})
  }

  ghost predicate Next(setup: Setup, sys: Sys, e: Event, sys': Sys) {
    match e
    case Simple(d, env) => sys' == Took(sys, SimpleDecision(setup, sys.node, d, env))
    case Swap(plan, env) => sys' == Took(sys, SwapDecision(setup, sys.node, plan, env))
    case Stored(id) => id in sys.moving && sys' == Put(sys, id)
    case Nudge => sys' == sys.(pending := sys.pending + [None])
    case Begin(count, env) =>
      && sys.job.None? && 0 < count <= |sys.pending|
      && sys' == sys.(pending := sys.pending[count..], job := Rendered(setup, sys.node, Overlays(sys.pending[..count]), env))
    case End(env) =>
      sys.job.Some? && exists ok :: Ends(setup, sys, env, sys', ok)
  }

  /** The loading half of a flush. */
  ghost predicate Ends(setup: Setup, sys: Sys, env: Env, sys': Sys, ok: bool)
    requires sys.job.Some?
  {
    var job := sys.job.value;
    && LoadStep(setup, sys.node, job.cfg, job.overlays, env, sys'.node, ok)
    && sys' == sys.(node := sys'.node, job := None, rendered := if ok then job.seen else sys.rendered)
  }

  /** The rendering half of a flush; nothing is left to do when it fails. */
  ghost function Rendered(setup: Setup, node: Node, overlays: Store, env: Env): Option<Job> {
    var cfg := Rendering(setup, node.file, node.store + overlays);
    if !env.listOk || (node.file.Some? && !env.readOk) || cfg.None? then None
    else Some(Job(overlays, node.store + overlays, cfg.value))
  }

  /** The two halves of a flush with nothing in between are a whole flush. */
  lemma BeginEndIsFlush(setup: Setup, sys: Sys, count: nat, env: Env, node': Node, ok: bool)
    requires sys.job.None? && 0 < count <= |sys.pending|
    requires FlushStep(setup, sys.node, Overlays(sys.pending[..count]), env, node', ok)
    ensures var mid := sys.(pending := sys.pending[count..], job := Rendered(setup, sys.node, Overlays(sys.pending[..count]), env));
            && Next(setup, sys, Begin(count, env), mid)
            && if mid.job.None? then node' == mid.node && !ok
               else Next(setup, mid, End(env), mid.(node := node', job := None,
                                                    rendered := if ok then mid.job.value.seen else mid.rendered))
  {
    var mid := sys.(pending := sys.pending[count..], job := Rendered(setup, sys.node, Overlays(sys.pending[..count]), env));
    if mid.job.Some? {
      assert Ends(setup, mid, env, mid.(node := node', job := None,
                                        rendered := if ok then mid.job.value.seen else mid.rendered), ok);
    }
  }

  /** The two halves of a flip with nothing in between are a whole swap. */
  lemma SelectPutIsSwap(setup: Setup, sys: Sys, plan: SwapPlan, env: Env)
    requires SwapDecision(setup, sys.node, plan, env).Selected? && env.putFails == {} && plan.desired.id !in sys.moving
    ensures var mid := Took(sys, SwapDecision(setup, sys.node, plan, env));
            && plan.desired.id in mid.moving
            && SwapRouteStep(setup, sys.node, plan, env, Put(mid, plan.desired.id).node, Done)
            && Put(mid, plan.desired.id).moving == sys.moving
  {
  }

  // What the surroundings guarantee.

  /** Each client has one placement for the whole run. */
  type Owners = map<string, string>

  predicate OwnedBy(owner: Owners, p: Placement) {
    Counts(p) ==> p.clientId in owner && owner[p.clientId] == p.id
  }

  predicate Waiting(pending: seq<Option<Placement>>, id: string) {
    exists i | 0 <= i < |pending| :: pending[i].Some? && pending[i].value.id == id
  }

  /** A command for the placement has not been answered yet. */
  predicate Busy(sys: Sys, id: string) {
    Waiting(sys.pending, id) || id in sys.moving || (sys.job.Some? && id in sys.job.value.overlays)
  }

  /** A placement's next command comes after its last one was answered; selections on a selector that
      exists are accepted; the store accepts writes. Listing, writing and reloading may fail in a flush. */
  ghost predicate Fair(sys: Sys, e: Event, owner: Owners) {
    match e
    case Simple(d, env) => OwnedBy(owner, d) && !Busy(sys, d.id) && env.listOk && env.selectOk
    case Swap(plan, env) => OwnedBy(owner, plan.desired) && !Busy(sys, plan.desired.id) && env.listOk && env.selectOk
    case End(env) => env.putFails == {}
    case _ => true
  }

  // The invariant.

  /** Where a placement is headed: the flip selected for it, or what is stored. */
  function Aim(store: Store, moving: Store, id: string): Placement
    requires id in store
  {
    if id in moving then moving[id] else store[id]
  }

  /** A waiting overlay that could be rendered brings its client in: the client is not active yet. */
  predicate Fresh(setup: Setup, store: Store, owner: Owners, p: Placement) {
    && OwnedBy(owner, p)
    && (Counts(p) && p.backendId in Ids(setup.registry) ==> p.clientId !in ActiveClients(store))
  }

  ghost predicate AllFresh(setup: Setup, store: Store, owner: Owners, pending: seq<Option<Placement>>) {
    && (forall i | 0 <= i < |pending| && pending[i].Some? :: Fresh(setup, store, owner, pending[i].value))
    && (forall i, j | 0 <= i < j < |pending| && pending[i].Some? && pending[j].Some? ::
          pending[i].value.id != pending[j].value.id)
  }

  ghost predicate BatchFresh(setup: Setup, store: Store, owner: Owners, overlays: Store) {
    forall id | id in overlays :: overlays[id].id == id && Fresh(setup, store, owner, overlays[id])
  }

  ghost predicate StoreOwned(store: Store, owner: Owners) {
    forall id | id in store :: store[id].id == id && OwnedBy(owner, store[id])
  }

  predicate SameClient(p: Placement, q: Placement) {
    Counts(p) == Counts(q) && (Counts(p) ==> p.clientId == q.clientId)
  }

  /** Two stores with the same placements active for the same clients, perhaps on other backends. */
  ghost predicate SameClients(s: Store, t: Store) {
    s.Keys == t.Keys && forall id | id in s :: SameClient(s[id], t[id])
  }

  /** A selected flip is for an active placement and keeps its client. */
  predicate FlipOf(setup: Setup, store: Store, owner: Owners, id: string, f: Placement) {
    && f.id == id && Counts(f) && OwnedBy(owner, f) && f.backendId in Ids(setup.registry)
    && id in store && SameClient(store[id], f)
  }

  ghost predicate FlipsOk(setup: Setup, store: Store, owner: Owners, moving: Store) {
    forall id | id in moving :: FlipOf(setup, store, owner, id, moving[id])
  }

  /** The flush under way rendered what is stored now with its overlays, up to flips since. */
  ghost predicate JobOk(setup: Setup, store: Store, owner: Owners, job: Job) {
    && Renderable(setup, job.seen) && job.cfg == Render(setup, job.seen)
    && BatchFresh(setup, store, owner, job.overlays)
    && SameClients(job.seen, store + job.overlays)
    && forall id | id in job.overlays :: job.seen[id] == job.overlays[id]
  }

  /** No two commands in progress are for the same placement. */
  ghost predicate Apart(sys: Sys) {
    && (forall id | id in sys.moving :: !Waiting(sys.pending, id))
    && (sys.job.Some? ==> forall id | id in sys.job.value.overlays :: id !in sys.moving && !Waiting(sys.pending, id))
  }

  predicate Registered(setup: Setup, store: Store) {
    forall id | id in store && Counts(store[id]) :: store[id].backendId in Ids(setup.registry)
  }

  /** Selections are never stale: one made for an active client is for where its placement is headed. */
  ghost predicate AllAimed(store: Store, moving: Store, overrides: Overrides) {
    forall id | id in store && Counts(store[id]) ::
      var c := store[id].clientId;
      SelectorTag(c) in overrides ==> overrides[SelectorTag(c)] == OutboundTag(c, Aim(store, moving, id).backendId)
  }

  ghost predicate LoadedOk(setup: Setup, sys: Sys, all: set<string>) {
    && RunsRender(setup, sys.node, sys.rendered, all)
    && Registered(setup, sys.node.store)
    && (sys.node.loaded.Some? ==> AllAimed(sys.node.store, sys.moving, sys.node.overrides))
  }

  /** What holds apart from the loaded config. */
  ghost predicate Queues(setup: Setup, sys: Sys, owner: Owners) {
    && StoreOwned(sys.node.store, owner)
    && AllFresh(setup, sys.node.store, owner, sys.pending)
    && FlipsOk(setup, sys.node.store, owner, sys.moving)
    && (sys.job.Some? ==> JobOk(setup, sys.node.store, owner, sys.job.value))
    && Apart(sys)
  }

  ghost predicate Inv(setup: Setup, sys: Sys, owner: Owners) {
    Queues(setup, sys, owner) && LoadedOk(setup, sys, owner.Keys)
  }

  lemma OwnedStore(store: Store, owner: Owners)
    requires StoreOwned(store, owner)
    ensures WellKeyed(store) && OneOwner(store) && ActiveClients(store) <= owner.Keys
  {
  }

  lemma SameClientsActive(s: Store, t: Store)
    requires SameClients(s, t)
    ensures ActiveClients(s) == ActiveClients(t)
    ensures OneOwner(s) <==> OneOwner(t)
  {
    forall c ensures c in ActiveClients(s) <==> c in ActiveClients(t) {
      if c in ActiveClients(s) {
        var k :| k in s && Counts(s[k]) && s[k].clientId == c;
        assert SameClient(s[k], t[k]);
      }
      if c in ActiveClients(t) {
        var k :| k in t && Counts(t[k]) && t[k].clientId == c;
        assert SameClient(s[k], t[k]);
      }
    }
    assert forall k | k in s :: SameClient(s[k], t[k]);
  }

  // Batches.

  lemma {:induction false} OverlayOf(batch: seq<Option<Placement>>, id: string)
    ensures id in Overlays(batch) ==>
              exists i | 0 <= i < |batch| :: batch[i].Some? && batch[i].value == Overlays(batch)[id] && batch[i].value.id == id
    ensures id in Overlays(batch) <==> Waiting(batch, id)
  {
    if batch != [] {
      var front := batch[..|batch| - 1];
      OverlayOf(front, id);
      assert batch == front + [batch[|batch| - 1]];
      if Waiting(front, id) {
        var i :| 0 <= i < |front| && front[i].Some? && front[i].value.id == id;
        assert batch[i] == front[i];
      }
    }
  }

  lemma BatchIsFresh(setup: Setup, store: Store, owner: Owners, batch: seq<Option<Placement>>)
    requires AllFresh(setup, store, owner, batch)
    ensures BatchFresh(setup, store, owner, Overlays(batch))
  {
    forall id | id in Overlays(batch)
      ensures Overlays(batch)[id].id == id && Fresh(setup, store, owner, Overlays(batch)[id])
    {
      OverlayOf(batch, id);
    }
  }

  lemma StillAbsent(store: Store, overlays: Store, client: string)
    requires client !in ActiveClients(store)
    requires forall k | k in overlays && Counts(overlays[k]) :: overlays[k].clientId != client
    ensures client !in ActiveClients(store + overlays)
  {
    var after := store + overlays;
    assert forall k | k in after :: after[k] == if k in overlays then overlays[k] else store[k];
  }

  lemma OverlaidOwned(setup: Setup, store: Store, owner: Owners, overlays: Store)
    requires StoreOwned(store, owner) && BatchFresh(setup, store, owner, overlays)
    ensures StoreOwned(store + overlays, owner)
  {
  }

  /** What waits for a later flush is for other placements, so for other clients, and stays fresh. */
  lemma RestIsFresh(setup: Setup, store: Store, owner: Owners, overlays: Store, pending: seq<Option<Placement>>)
    requires AllFresh(setup, store, owner, pending) && BatchFresh(setup, store, owner, overlays)
    requires forall id | id in overlays :: !Waiting(pending, id)
    ensures AllFresh(setup, store + overlays, owner, pending)
  {
    forall i | 0 <= i < |pending| && pending[i].Some? ensures Fresh(setup, store + overlays, owner, pending[i].value) {
      var p := pending[i].value;
      assert Fresh(setup, store, owner, p);
      if Counts(p) && p.backendId in Ids(setup.registry) {
        forall k | k in overlays && Counts(overlays[k]) ensures overlays[k].clientId != p.clientId {
          assert Fresh(setup, store, owner, overlays[k]) && overlays[k].id == k;
        }
        StillAbsent(store, overlays, p.clientId);
      }
    }
  }

  lemma FreshOnSameClients(setup: Setup, store: Store, store': Store, owner: Owners, pending: seq<Option<Placement>>)
    requires ActiveClients(store) == ActiveClients(store') && AllFresh(setup, store, owner, pending)
    ensures AllFresh(setup, store', owner, pending)
  {
    forall i | 0 <= i < |pending| && pending[i].Some? ensures Fresh(setup, store', owner, pending[i].value) {
      assert Fresh(setup, store, owner, pending[i].value);
    }
  }

  lemma RestOfQueue(setup: Setup, store: Store, owner: Owners, pending: seq<Option<Placement>>, count: nat)
    requires AllFresh(setup, store, owner, pending) && count <= |pending|
    ensures AllFresh(setup, store, owner, pending[count..]) && AllFresh(setup, store, owner, pending[..count])
    ensures forall id | Waiting(pending[count..], id) || Waiting(pending[..count], id) :: Waiting(pending, id)
    ensures forall id | Waiting(pending[..count], id) :: !Waiting(pending[count..], id)
  {
    var front, rest := pending[..count], pending[count..];
    forall id | Waiting(rest, id) ensures Waiting(pending, id) {
      var i :| 0 <= i < |rest| && rest[i].Some? && rest[i].value.id == id;
      assert pending[count + i] == rest[i];
    }
    forall id | Waiting(front, id) ensures Waiting(pending, id) {
      var i :| 0 <= i < |front| && front[i].Some? && front[i].value.id == id;
      assert pending[i] == front[i];
    }
    forall id | Waiting(front, id) ensures !Waiting(rest, id) {
      var i :| 0 <= i < |front| && front[i].Some? && front[i].value.id == id;
      forall j | 0 <= j < |rest| && rest[j].Some? ensures rest[j].value.id != id {
        assert pending[i] == front[i] && pending[count + j] == rest[j];
      }
    }
    forall i | 0 <= i < |rest| && rest[i].Some? ensures Fresh(setup, store, owner, rest[i].value) {
      assert pending[count + i] == rest[i];
    }
    forall i | 0 <= i < |front| && front[i].Some? ensures Fresh(setup, store, owner, front[i].value) {
      assert pending[i] == front[i];
    }
  }

  // One command.

  /** A command that reaches the coalescer brings an unknown client, or cannot be rendered. */
  lemma QueuedIsFresh(setup: Setup, node: Node, rendered: Store, owner: Owners, d: Placement, mayFlip: bool, env: Env)
    requires RunsRender(setup, node, rendered, owner.Keys) && StoreOwned(node.store, owner)
    requires TagsDistinct(owner.Keys, setup.registry) && OwnedBy(owner, d) && env.listOk && env.selectOk
    requires (d.id in node.store && node.store[d.id].clientId == d.clientId) ==> mayFlip
    requires !(mayFlip && Flips(setup, node, d, env))
    ensures Fresh(setup, node.store, owner, d)
  {
    if Counts(d) && d.backendId in Ids(setup.registry) && d.clientId in ActiveClients(node.store) {
      var k :| k in node.store && Counts(node.store[k]) && node.store[k].clientId == d.clientId;
      assert k == owner[d.clientId] == d.id;
      FlipIsServable(setup, node, rendered, owner.Keys, d.clientId, d.backendId);
      assert UserKnown(node.store, d.clientId);
    }
  }

  lemma QueueKeepsFresh(setup: Setup, store: Store, owner: Owners, pending: seq<Option<Placement>>, d: Placement)
    requires AllFresh(setup, store, owner, pending) && Fresh(setup, store, owner, d) && !Waiting(pending, d.id)
    ensures AllFresh(setup, store, owner, pending + [Some(d)])
  {
  }

  lemma WaitingSnoc(pending: seq<Option<Placement>>, last: Option<Placement>, id: string)
    ensures Waiting(pending + [last], id) <==> Waiting(pending, id) || (last.Some? && last.value.id == id)
  {
    var after := pending + [last];
    if Waiting(pending, id) {
      var i :| 0 <= i < |pending| && pending[i].Some? && pending[i].value.id == id;
      assert after[i] == pending[i];
    }
    assert after[|pending|] == last;
    if Waiting(after, id) {
      var i :| 0 <= i < |after| && after[i].Some? && after[i].value.id == id;
      assert i < |pending| ==> pending[i] == after[i];
    }
  }

  lemma QueueKeepsQueues(setup: Setup, sys: Sys, owner: Owners, d: Placement)
    requires Queues(setup, sys, owner) && Fresh(setup, sys.node.store, owner, d) && !Busy(sys, d.id)
    ensures Queues(setup, sys.(pending := sys.pending + [Some(d)]), owner)
  {
    QueueKeepsFresh(setup, sys.node.store, owner, sys.pending, d);
    forall id ensures Waiting(sys.pending + [Some(d)], id) <==> Waiting(sys.pending, id) || d.id == id {
      WaitingSnoc(sys.pending, Some(d), id);
    }
  }

  /** A known client's active placement is the one the command is for. */
  lemma KnownIsOwned(store: Store, owner: Owners, d: Placement)
    requires StoreOwned(store, owner) && OwnedBy(owner, d) && Counts(d) && UserKnown(store, d.clientId)
    ensures d.id in store && SameClient(store[d.id], d) && d.clientId in owner
  {
    var k :| k in store && store[k].clientId == d.clientId && store[k].desired == Active;
    assert OwnedBy(owner, store[k]) && k == d.id;
  }

  /** A selection is aimed where it says and disturbs no other client. */
  lemma SelectAims(setup: Setup, node: Node, moving: Store, all: set<string>, f: Placement)
    requires TagsDistinct(all, setup.registry) && OneOwner(node.store) && ActiveClients(node.store) <= all
    requires AllAimed(node.store, moving, node.overrides)
    requires f.id in node.store && SameClient(node.store[f.id], f) && Counts(f)
    ensures AllAimed(node.store, moving[f.id := f], Select(node, f).overrides)
  {
    forall id | id in node.store && Counts(node.store[id])
      ensures node.store[id].clientId in all && (id != f.id ==> SelectorTag(node.store[id].clientId) != SelectorTag(f.clientId))
    {
      assert node.store[id].clientId in ActiveClients(node.store);
      assert node.store[f.id].clientId in ActiveClients(node.store);
      SelectorTells(all, setup.registry, node.store[id].clientId, f.clientId);
    }
  }

  lemma SelectKeepsQueues(setup: Setup, sys: Sys, owner: Owners, f: Placement)
    requires Queues(setup, sys, owner) && FlipOf(setup, sys.node.store, owner, f.id, f) && !Busy(sys, f.id)
    ensures Queues(setup, Took(sys, Selected(f)), owner)
  {
    var sys' := Took(sys, Selected(f));
    assert FlipsOk(setup, sys'.node.store, owner, sys'.moving) by {
      assert forall id | id in sys.moving :: FlipOf(setup, sys.node.store, owner, id, sys.moving[id]);
    }
    assert Apart(sys');
  }

  lemma SelectKeepsLoaded(setup: Setup, sys: Sys, all: set<string>, f: Placement)
    requires LoadedOk(setup, sys, all) && TagsDistinct(all, setup.registry) && sys.node.loaded.Some?
    requires f.id in sys.node.store && SameClient(sys.node.store[f.id], f) && Counts(f)
    ensures LoadedOk(setup, Took(sys, Selected(f)), all)
  {
    SelectAims(setup, sys.node, sys.moving, all, f);
  }

  lemma SelectKeepsInv(setup: Setup, sys: Sys, owner: Owners, f: Placement)
    requires Queues(setup, sys, owner) && LoadedOk(setup, sys, owner.Keys) && TagsDistinct(owner.Keys, setup.registry)
    requires Counts(f) && OwnedBy(owner, f) && UserKnown(sys.node.store, f.clientId) && f.backendId in Ids(setup.registry)
    requires sys.node.loaded.Some? && !Busy(sys, f.id)
    ensures Queues(setup, Took(sys, Selected(f)), owner) && LoadedOk(setup, Took(sys, Selected(f)), owner.Keys)
  {
    KnownIsOwned(sys.node.store, owner, f);
    SelectKeepsQueues(setup, sys, owner, f);
    SelectKeepsLoaded(setup, sys, owner.Keys, f);
  }

  lemma CommandKeepsInv(setup: Setup, sys: Sys, owner: Owners, desired: Placement, mayFlip: bool, env: Env)
    requires Queues(setup, sys, owner) && LoadedOk(setup, sys, owner.Keys) && TagsDistinct(owner.Keys, setup.registry)
    requires OwnedBy(owner, desired) && !Busy(sys, desired.id) && env.listOk && env.selectOk
    requires (desired.id in sys.node.store && sys.node.store[desired.id].clientId == desired.clientId) ==> mayFlip
    ensures var sys' := Took(sys, FlipOrQueue(setup, sys.node, desired, mayFlip, env));
            Queues(setup, sys', owner) && LoadedOk(setup, sys', owner.Keys)
  {
    var d := desired.(applied := Applied);
    if mayFlip && Flips(setup, sys.node, d, env) {
      SelectKeepsInv(setup, sys, owner, d);
    } else {
      QueuedIsFresh(setup, sys.node, sys.rendered, owner, d, mayFlip, env);
      QueueKeepsQueues(setup, sys, owner, d);
    }
  }

  // Storing a flip.

  lemma PutSameClients(setup: Setup, store: Store, owner: Owners, f: Placement)
    requires StoreOwned(store, owner) && FlipOf(setup, store, owner, f.id, f)
    ensures var store' := store[f.id := f];
            SameClients(store, store') && StoreOwned(store', owner) && ActiveClients(store') == ActiveClients(store)
  {
    SameClientsActive(store, store[f.id := f]);
  }

  lemma PutKeepsJob(setup: Setup, store: Store, owner: Owners, f: Placement, job: Job)
    requires StoreOwned(store, owner) && FlipOf(setup, store, owner, f.id, f) && JobOk(setup, store, owner, job)
    requires f.id !in job.overlays
    ensures JobOk(setup, store[f.id := f], owner, job)
  {
    PutSameClients(setup, store, owner, f);
    var before, after := store + job.overlays, store[f.id := f] + job.overlays;
    forall id | id in job.seen ensures id in after && SameClient(job.seen[id], after[id]) {
      assert SameClient(job.seen[id], before[id]);
    }
  }

  lemma PutKeepsFlips(setup: Setup, store: Store, owner: Owners, moving: Store, id: string)
    requires FlipsOk(setup, store, owner, moving) && id in moving
    ensures FlipsOk(setup, store[id := moving[id]], owner, moving - {id})
  {
    assert forall k | k in moving :: FlipOf(setup, store, owner, k, moving[k]);
  }

  lemma PutKeepsQueues(setup: Setup, sys: Sys, owner: Owners, id: string)
    requires Queues(setup, sys, owner) && id in sys.moving
    ensures Queues(setup, Put(sys, id), owner)
  {
    var f, sys' := sys.moving[id], Put(sys, id);
    assert FlipOf(setup, sys.node.store, owner, id, f);
    PutSameClients(setup, sys.node.store, owner, f);
    FreshOnSameClients(setup, sys.node.store, sys'.node.store, owner, sys.pending);
    if sys.job.Some? { PutKeepsJob(setup, sys.node.store, owner, f, sys.job.value); }
    PutKeepsFlips(setup, sys.node.store, owner, sys.moving, id);
    assert Apart(sys');
  }

  lemma PutKeepsAims(store: Store, moving: Store, overrides: Overrides, id: string)
    requires AllAimed(store, moving, overrides) && id in moving && id in store && SameClient(store[id], moving[id])
    ensures AllAimed(store[id := moving[id]], moving - {id}, overrides)
  {
    var after := store[id := moving[id]];
    forall k | k in after && Counts(after[k])
      ensures k in store && Counts(store[k]) && store[k].clientId == after[k].clientId
      ensures Aim(after, moving - {id}, k) == Aim(store, moving, k)
    {
    }
  }

  lemma PutKeepsLoaded(setup: Setup, sys: Sys, owner: Owners, id: string)
    requires LoadedOk(setup, sys, owner.Keys) && StoreOwned(sys.node.store, owner)
    requires id in sys.moving && FlipOf(setup, sys.node.store, owner, id, sys.moving[id])
    ensures LoadedOk(setup, Put(sys, id), owner.Keys)
  {
    var f, sys' := sys.moving[id], Put(sys, id);
    PutSameClients(setup, sys.node.store, owner, f);
    OwnedStore(sys'.node.store, owner);
    if sys.node.loaded.Some? { PutKeepsAims(sys.node.store, sys.moving, sys.node.overrides, id); }
  }

  // Flushing.

  lemma BeginKeepsQueues(setup: Setup, sys: Sys, owner: Owners, count: nat, env: Env)
    requires Queues(setup, sys, owner) && sys.node.file.None? && sys.job.None? && count <= |sys.pending|
    ensures Queues(setup, sys.(pending := sys.pending[count..],
                               job := Rendered(setup, sys.node, Overlays(sys.pending[..count]), env)), owner)
  {
    var store, overlays := sys.node.store, Overlays(sys.pending[..count]);
    RestOfQueue(setup, store, owner, sys.pending, count);
    BatchIsFresh(setup, store, owner, sys.pending[..count]);
    forall id ensures id in overlays <==> Waiting(sys.pending[..count], id) { OverlayOf(sys.pending[..count], id); }
    assert SameClients(store + overlays, store + overlays);
  }

  /** Whether an ending flush gets through to the store. */
  predicate Succeeds(setup: Setup, sys: Sys, env: Env)
    requires sys.job.Some?
  {
    Skips(setup, sys.node, sys.job.value.cfg) || (env.writeOk && env.reloadOk)
  }

  lemma EndKeepsQueues(setup: Setup, sys: Sys, owner: Owners, node': Node)
    requires Queues(setup, sys, owner) && sys.job.Some? && node'.store == sys.node.store + sys.job.value.overlays
    ensures Queues(setup, sys.(node := node', job := None, rendered := sys.job.value.seen), owner)
  {
    var overlays := sys.job.value.overlays;
    OverlaidOwned(setup, sys.node.store, owner, overlays);
    RestIsFresh(setup, sys.node.store, owner, overlays, sys.pending);
    assert forall id | id in sys.moving :: FlipOf(setup, sys.node.store, owner, id, sys.moving[id]) && node'.store[id] == sys.node.store[id];
  }

  /** A rendered overlay that is active is registered and counts. */
  lemma RenderableOverlay(setup: Setup, store: Store, id: string)
    requires Renderable(setup, store) && id in store && store[id].desired == Active
    ensures Counts(store[id]) && store[id].backendId in Ids(setup.registry)
  {
    assert store[id] in SetOf(Listing(store));
  }

  lemma OverlaidRegistered(setup: Setup, store: Store, owner: Owners, job: Job)
    requires JobOk(setup, store, owner, job) && Registered(setup, store)
    ensures Registered(setup, store + job.overlays)
  {
    var after := store + job.overlays;
    forall id | id in after && Counts(after[id]) ensures after[id].backendId in Ids(setup.registry) {
      if id in job.overlays { RenderableOverlay(setup, job.seen, id); }
    }
  }

  /** When the hash says nothing changed, no overlay of the batch is active. */
  lemma SkippedBatchIsInactive(setup: Setup, sys: Sys, owner: Owners)
    requires Queues(setup, sys, owner) && LoadedOk(setup, sys, owner.Keys) && sys.job.Some?
    requires TagsDistinct(owner.Keys, setup.registry) && Separates(setup.hash, ConfigsAt(sys))
    requires Skips(setup, sys.node, sys.job.value.cfg)
    ensures sys.node.loaded == Some(sys.job.value.cfg)
    ensures forall id | id in sys.job.value.overlays :: !Counts(sys.job.value.overlays[id])
  {
    var job, store := sys.job.value, sys.node.store;
    var after := store + job.overlays;
    OverlaidOwned(setup, store, owner, job.overlays);
    OwnedStore(after, owner);
    SameClientsActive(job.seen, after);
    assert Render(setup, job.seen) == Render(setup, sys.rendered);
    RenderInjective(setup, job.seen, sys.rendered, owner.Keys);
    forall id | id in job.overlays
      ensures Counts(job.overlays[id]) ==> job.overlays[id].clientId in ActiveClients(store)
      ensures Counts(job.overlays[id]) ==> job.overlays[id].backendId in Ids(setup.registry)
    {
      assert after[id] == job.overlays[id] && job.seen[id] == job.overlays[id];
      if Counts(after[id]) {
        assert after[id].clientId in ActiveClients(after);
        RenderableOverlay(setup, job.seen, id);
      }
    }
    assert forall id | id in job.overlays :: Fresh(setup, store, owner, job.overlays[id]);
  }

  lemma SkipKeepsAims(store: Store, overlays: Store, moving: Store, overrides: Overrides)
    requires AllAimed(store, moving, overrides) && forall id | id in overlays :: !Counts(overlays[id])
    ensures AllAimed(store + overlays, moving, overrides)
  {
    var after := store + overlays;
    forall id | id in after && Counts(after[id]) ensures id in store && id !in overlays && after[id] == store[id] {
    }
  }

  lemma EndRunsSeen(setup: Setup, sys: Sys, owner: Owners, node': Node)
    requires Queues(setup, sys, owner) && sys.job.Some? && node'.file.None?
    requires node'.store == sys.node.store + sys.job.value.overlays
    requires node'.loaded == Some(sys.job.value.cfg) && node'.lastHash == Some(setup.hash(sys.job.value.cfg))
    ensures RunsRender(setup, node', sys.job.value.seen, owner.Keys)
  {
    OverlaidOwned(setup, sys.node.store, owner, sys.job.value.overlays);
    OwnedStore(node'.store, owner);
    SameClientsActive(sys.job.value.seen, node'.store);
  }

  /** After a flush that gets through, the loaded config is the one rendered from what it saw. */
  lemma EndLoadsSeen(setup: Setup, sys: Sys, owner: Owners, env: Env, sys': Sys)
    requires Queues(setup, sys, owner) && LoadedOk(setup, sys, owner.Keys)
    requires TagsDistinct(owner.Keys, setup.registry) && Separates(setup.hash, ConfigsAt(sys))
    requires env.putFails == {} && Next(setup, sys, End(env), sys') && Succeeds(setup, sys, env)
    ensures Queues(setup, sys', owner) && LoadedOk(setup, sys', owner.Keys)
    ensures sys'.node.store == sys.node.store + sys.job.value.overlays && sys'.rendered == sys.job.value.seen
    ensures sys'.node.loaded == Some(sys.job.value.cfg) && sys'.moving == sys.moving
    ensures sys'.node.overrides == if Skips(setup, sys.node, sys.job.value.cfg) then sys.node.overrides else map[]
  {
    var job := sys.job.value;
    if Skips(setup, sys.node, job.cfg) {
      SkippedBatchIsInactive(setup, sys, owner);
      SkipKeepsAims(sys.node.store, job.overlays, sys.moving, sys.node.overrides);
    }
    EndKeepsQueues(setup, sys, owner, sys'.node);
    EndRunsSeen(setup, sys, owner, sys'.node);
    OverlaidRegistered(setup, sys.node.store, owner, job);
  }

  lemma SimpleKeepsInv(setup: Setup, sys: Sys, d: Placement, env: Env, owner: Owners)
    requires Inv(setup, sys, owner) && TagsDistinct(owner.Keys, setup.registry) && Fair(sys, Simple(d, env), owner)
    ensures Inv(setup, Took(sys, SimpleDecision(setup, sys.node, d, env)), owner)
  {
    var c := SimpleDecision(setup, sys.node, d, env);
    if c.Selected? || c.Queued? {
      CommandKeepsInv(setup, sys, owner, d,
                      d.id in sys.node.store && sys.node.store[d.id].clientId == d.clientId, env);
    }
  }

  lemma SwapKeepsInv(setup: Setup, sys: Sys, plan: SwapPlan, env: Env, owner: Owners)
    requires Inv(setup, sys, owner) && TagsDistinct(owner.Keys, setup.registry) && Fair(sys, Swap(plan, env), owner)
    ensures Inv(setup, Took(sys, SwapDecision(setup, sys.node, plan, env)), owner)
  {
    var c := SwapDecision(setup, sys.node, plan, env);
    if c.Selected? || c.Queued? {
      CommandKeepsInv(setup, sys, owner, plan.desired, true, env);
    }
  }

  lemma PutKeepsInv(setup: Setup, sys: Sys, id: string, owner: Owners)
    requires Inv(setup, sys, owner) && id in sys.moving
    ensures Inv(setup, Put(sys, id), owner)
  {
    assert FlipOf(setup, sys.node.store, owner, id, sys.moving[id]);
    PutKeepsQueues(setup, sys, owner, id);
    PutKeepsLoaded(setup, sys, owner, id);
  }

  /** What leaves the node and the flips alone keeps what holds of the loaded config. */
  lemma SameLoaded(setup: Setup, sys: Sys, sys': Sys, owner: Owners)
    requires Inv(setup, sys, owner) && Queues(setup, sys', owner) && sys'.node == sys.node && sys'.moving == sys.moving
    requires sys'.rendered == sys.rendered
    ensures Inv(setup, sys', owner)
  {
    assert LoadedOk(setup, sys', owner.Keys);
  }

  lemma NudgeKeepsQueues(setup: Setup, sys: Sys, owner: Owners)
    requires Queues(setup, sys, owner)
    ensures Queues(setup, sys.(pending := sys.pending + [None]), owner)
  {
    var sys' := sys.(pending := sys.pending + [None]);
    forall id ensures Waiting(sys'.pending, id) <==> Waiting(sys.pending, id) { WaitingSnoc(sys.pending, None, id); }
    assert Apart(sys');
  }

  lemma EndKeepsInv(setup: Setup, sys: Sys, env: Env, sys': Sys, owner: Owners)
    requires Inv(setup, sys, owner) && TagsDistinct(owner.Keys, setup.registry) && Separates(setup.hash, ConfigsAt(sys))
    requires env.putFails == {} && Next(setup, sys, End(env), sys')
    ensures Inv(setup, sys', owner)
  {
    if Succeeds(setup, sys, env) {
      EndLoadsSeen(setup, sys, owner, env, sys');
    } else {
      EndFails(setup, sys, env, sys');
      JobDone(setup, sys, owner);
      SameLoaded(setup, sys, sys', owner);
    }
  }

  lemma JobDone(setup: Setup, sys: Sys, owner: Owners)
    requires Queues(setup, sys, owner)
    ensures Queues(setup, sys.(job := None), owner)
  {
  }

  lemma EndFails(setup: Setup, sys: Sys, env: Env, sys': Sys)
    requires sys.node.file.None? && Next(setup, sys, End(env), sys') && !Succeeds(setup, sys, env)
    ensures sys' == sys.(job := None)
  {
  }

  lemma NudgeKeepsInv(setup: Setup, sys: Sys, owner: Owners)
    requires Inv(setup, sys, owner)
    ensures Inv(setup, sys.(pending := sys.pending + [None]), owner)
  {
    NudgeKeepsQueues(setup, sys, owner);
    SameLoaded(setup, sys, sys.(pending := sys.pending + [None]), owner);
  }

  lemma BeginKeepsInv(setup: Setup, sys: Sys, count: nat, env: Env, sys': Sys, owner: Owners)
    requires Inv(setup, sys, owner) && Next(setup, sys, Begin(count, env), sys')
    ensures Inv(setup, sys', owner)
  {
    BeginKeepsQueues(setup, sys, owner, count, env);
    SameLoaded(setup, sys, sys', owner);
  }

  lemma CommandStepKeepsInv(setup: Setup, sys: Sys, e: Event, sys': Sys, owner: Owners)
    requires Inv(setup, sys, owner) && TagsDistinct(owner.Keys, setup.registry)
    requires (e.Simple? || e.Swap?) && Fair(sys, e, owner) && Next(setup, sys, e, sys')
    ensures Inv(setup, sys', owner)
  {
    if e.Simple? {
      SimpleKeepsInv(setup, sys, e.desired, e.env, owner);
    } else {
      SwapKeepsInv(setup, sys, e.plan, e.env, owner);
    }
  }

  lemma QuietStepKeepsInv(setup: Setup, sys: Sys, e: Event, sys': Sys, owner: Owners)
    requires Inv(setup, sys, owner) && (e.Stored? || e.Nudge?) && Next(setup, sys, e, sys')
    ensures Inv(setup, sys', owner)
  {
    if e.Nudge? {
      NudgeKeepsInv(setup, sys, owner);
    } else {
      PutKeepsInv(setup, sys, e.id, owner);
    }
  }

  lemma FlushStepKeepsInv(setup: Setup, sys: Sys, e: Event, sys': Sys, owner: Owners)
    requires Inv(setup, sys, owner) && TagsDistinct(owner.Keys, setup.registry) && Separates(setup.hash, ConfigsAt(sys))
    requires (e.Begin? || e.End?) && Fair(sys, e, owner) && Next(setup, sys, e, sys')
    ensures Inv(setup, sys', owner)
  {
    if e.Begin? {
      BeginKeepsInv(setup, sys, e.count, e.env, sys', owner);
    } else {
      EndKeepsInv(setup, sys, e.env, sys', owner);
    }
  }

  lemma StepKeepsInv(setup: Setup, sys: Sys, e: Event, sys': Sys, owner: Owners)
    requires Inv(setup, sys, owner) && TagsDistinct(owner.Keys, setup.registry) && Separates(setup.hash, ConfigsAt(sys))
    requires Fair(sys, e, owner) && Next(setup, sys, e, sys')
    ensures Inv(setup, sys', owner)
  {
    if e.Simple? || e.Swap? {
      CommandStepKeepsInv(setup, sys, e, sys', owner);
    } else if e.Begin? || e.End? {
      FlushStepKeepsInv(setup, sys, e, sys', owner);
    } else {
      QuietStepKeepsInv(setup, sys, e, sys', owner);
    }
  }

  // Runs.

  /** The configs whose hashes are compared in a state. */
  function ConfigsAt(sys: Sys): set<Json> {
    Compared(sys.node, if sys.job.Some? then Some(sys.job.value.cfg) else None)
  }

  function RunConfigs(states: seq<Sys>): set<Json> {
    set i, c | 0 <= i < |states| && c in ConfigsAt(states[i]) :: c
  }

  ghost predicate Run(setup: Setup, states: seq<Sys>, events: seq<Event>, owner: Owners) {
    && |states| == |events| + 1
    && forall i {:trigger events[i]} | 0 <= i < |events| ::
         Fair(states[i], events[i], owner) && Next(setup, states[i], events[i], states[i + 1])
  }

  lemma SeparatesAt(setup: Setup, states: seq<Sys>, i: nat)
    requires Separates(setup.hash, RunConfigs(states)) && i < |states|
    ensures Separates(setup.hash, ConfigsAt(states[i]))
  {
    assert forall c | c in ConfigsAt(states[i]) :: c in RunConfigs(states);
  }

  lemma {:induction false} RunKeepsInv(setup: Setup, states: seq<Sys>, events: seq<Event>, owner: Owners, i: nat)
    requires TagsDistinct(owner.Keys, setup.registry) && Separates(setup.hash, RunConfigs(states))
    requires Run(setup, states, events, owner) && Inv(setup, states[0], owner) && i < |states|
    ensures Inv(setup, states[i], owner)
  {
    if i > 0 {
      RunKeepsInv(setup, states, events, owner, i - 1);
      SeparatesAt(setup, states, i - 1);
      StepKeepsInv(setup, states[i - 1], events[i - 1], states[i], owner);
    }
  }

  // What the invariant means for a client.

  /** The active placement's client leaves by where the placement is headed. */
  ghost predicate OnCourse(setup: Setup, sys: Sys, id: string)
    requires id in sys.node.store
  {
    Routed(setup, sys.node, Aim(sys.node.store, sys.moving, id))
  }

  lemma AimFacts(setup: Setup, store: Store, owner: Owners, moving: Store, id: string)
    requires FlipsOk(setup, store, owner, moving) && Registered(setup, store) && id in store && Counts(store[id])
    ensures SameClient(store[id], Aim(store, moving, id)) && Aim(store, moving, id).backendId in Ids(setup.registry)
  {
    assert id in moving ==> FlipOf(setup, store, owner, id, moving[id]);
  }

  lemma AimedRoutedIff(setup: Setup, node: Node, moving: Store, all: set<string>, rendered: Store, id: string)
    requires RunsRender(setup, node, rendered, all) && TagsDistinct(all, setup.registry) && node.loaded.Some?
    requires id in node.store && Counts(node.store[id]) && AllAimed(node.store, moving, node.overrides)
    requires var aim := Aim(node.store, moving, id);
             SameClient(node.store[id], aim) && aim.backendId in Ids(setup.registry)
    ensures var c := node.store[id].clientId;
            && c in Clients(Listing(rendered))
            && (Routed(setup, node, Aim(node.store, moving, id)) <==>
                SelectorTag(c) in node.overrides
                || LastBackend(Listing(rendered), c).value == Aim(node.store, moving, id).backendId)
  {
    assert node.store[id].clientId in ActiveClients(node.store);
    ListingFacts(rendered);
    RoutedIff(setup, node, rendered, all, Aim(node.store, moving, id));
  }

  /** A client is on course unless a load dropped its selection and had rendered another backend. */
  lemma OnCourseIff(setup: Setup, sys: Sys, owner: Owners, id: string)
    requires Queues(setup, sys, owner) && LoadedOk(setup, sys, owner.Keys) && TagsDistinct(owner.Keys, setup.registry)
    requires id in sys.node.store && Counts(sys.node.store[id]) && sys.node.loaded.Some?
    ensures var c := sys.node.store[id].clientId;
            && c in Clients(Listing(sys.rendered))
            && (OnCourse(setup, sys, id) <==>
                SelectorTag(c) in sys.node.overrides
                || LastBackend(Listing(sys.rendered), c).value == Aim(sys.node.store, sys.moving, id).backendId)
  {
    AimFacts(setup, sys.node.store, owner, sys.moving, id);
    AimedRoutedIff(setup, sys.node, sys.moving, owner.Keys, sys.rendered, id);
  }

  /** Every active client leaves by where its placement is headed, and nobody else is routed. */
  ghost predicate AllOnCourse(setup: Setup, sys: Sys) {
    && (forall id | id in sys.node.store && Counts(sys.node.store[id]) :: OnCourse(setup, sys, id))
    && (forall user | user !in ActiveClients(sys.node.store) ::
          sys.node.loaded.Some? ==> Dispatch(sys.node.loaded.value, sys.node.overrides, user) == None)
  }

  lemma NobodyElse(setup: Setup, sys: Sys, owner: Owners, user: string)
    requires LoadedOk(setup, sys, owner.Keys) && user !in ActiveClients(sys.node.store) && sys.node.loaded.Some?
    ensures Dispatch(sys.node.loaded.value, sys.node.overrides, user) == None
  {
    RenderedStranger(setup, sys.rendered, sys.node.overrides, user);
  }

  /** With no flip half done, that is agreement with the store. */
  lemma OnCourseAgrees(setup: Setup, sys: Sys)
    requires AllOnCourse(setup, sys) && sys.moving == map[]
    ensures Agrees(setup, sys.node)
  {
    forall id | id in sys.node.store && Counts(sys.node.store[id]) ensures Routed(setup, sys.node, sys.node.store[id]) {
      assert OnCourse(setup, sys, id);
    }
  }

  /** After a flush gets through, a client is on course exactly when the flush found the config loaded
      already and the client has a selection, or the backend it rendered is where the placement is headed:
      a flip since the rendering is lost by the reload. */
  lemma EndOnCourseIff(setup: Setup, sys: Sys, owner: Owners, env: Env, sys': Sys, id: string)
    requires Inv(setup, sys, owner) && TagsDistinct(owner.Keys, setup.registry) && Separates(setup.hash, ConfigsAt(sys))
    requires env.putFails == {} && Next(setup, sys, End(env), sys') && Succeeds(setup, sys, env)
    requires id in sys'.node.store && Counts(sys'.node.store[id])
    ensures id in sys.job.value.seen
    ensures OnCourse(setup, sys', id) <==>
            || (Skips(setup, sys.node, sys.job.value.cfg) && SelectorTag(sys'.node.store[id].clientId) in sys.node.overrides)
            || sys.job.value.seen[id].backendId == Aim(sys'.node.store, sys'.moving, id).backendId
  {
    EndLoadsSeen(setup, sys, owner, env, sys');
    SeenChoice(setup, sys, owner, id);
    OnCourseIff(setup, sys', owner, id);
  }

  /** So with no flip half done a flush that reloads ends in agreement exactly when no active client's
      stored backend differs from the one it rendered. */
  lemma EndAgreesIff(setup: Setup, sys: Sys, owner: Owners, env: Env, sys': Sys)
    requires Inv(setup, sys, owner) && TagsDistinct(owner.Keys, setup.registry) && Separates(setup.hash, ConfigsAt(sys))
    requires env.putFails == {} && Next(setup, sys, End(env), sys') && Succeeds(setup, sys, env)
    requires !Skips(setup, sys.node, sys.job.value.cfg) && sys.moving == map[]
    ensures forall id | id in sys'.node.store && Counts(sys'.node.store[id]) :: id in sys.job.value.seen
    ensures Agrees(setup, sys'.node) <==>
            forall id | id in sys'.node.store && Counts(sys'.node.store[id]) ::
              sys.job.value.seen[id].backendId == sys'.node.store[id].backendId
  {
    EndLoadsSeen(setup, sys, owner, env, sys');
    forall id | id in sys'.node.store && Counts(sys'.node.store[id])
      ensures id in sys.job.value.seen
      ensures Routed(setup, sys'.node, sys'.node.store[id]) <==>
              sys.job.value.seen[id].backendId == sys'.node.store[id].backendId
    {
      EndOnCourseIff(setup, sys, owner, env, sys', id);
    }
    forall user | user !in ActiveClients(sys'.node.store)
      ensures Dispatch(sys'.node.loaded.value, sys'.node.overrides, user) == None
    {
      NobodyElse(setup, sys', owner, user);
    }
  }

  lemma SeenChoice(setup: Setup, sys: Sys, owner: Owners, id: string)
    requires Queues(setup, sys, owner) && sys.job.Some?
    requires var after := sys.node.store + sys.job.value.overlays; id in after && Counts(after[id])
    ensures var seen, c := sys.job.value.seen, (sys.node.store + sys.job.value.overlays)[id].clientId;
            id in seen && LastBackend(Listing(seen), c) == Some(seen[id].backendId)
  {
    var job := sys.job.value;
    var after := sys.node.store + job.overlays;
    OverlaidOwned(setup, sys.node.store, owner, job.overlays);
    OwnedStore(after, owner);
    SameClientsActive(job.seen, after);
    assert SameClient(job.seen[id], after[id]);
    StoredChoice(job.seen, id);
  }

  /** In every run, overlaps and all, after every event, a client is on course exactly when its selector
      has been moved since the last load or that load had rendered where its placement is headed. */
  lemma EveryRunOnCourseIff(setup: Setup, states: seq<Sys>, events: seq<Event>, owner: Owners, i: nat, id: string)
    requires TagsDistinct(owner.Keys, setup.registry) && Separates(setup.hash, RunConfigs(states))
    requires Run(setup, states, events, owner) && Inv(setup, states[0], owner) && i < |states|
    requires id in states[i].node.store && Counts(states[i].node.store[id])
    ensures var sys, c := states[i], states[i].node.store[id].clientId;
            && c in Clients(Listing(sys.rendered))
            && (OnCourse(setup, sys, id) <==>
                SelectorTag(c) in sys.node.overrides
                || LastBackend(Listing(sys.rendered), c).value == Aim(sys.node.store, sys.moving, id).backendId)
  {
    RunKeepsInv(setup, states, events, owner, i);
    if states[i].node.loaded.None? { NoneActive(states[i].node.store); }
    OnCourseIff(setup, states[i], owner, id);
  }

  // Runs in which no flip overlaps a reload.

  /** Every active client has a selection or was rendered where its placement is headed. */
  ghost predicate AllSteered(store: Store, moving: Store, overrides: Overrides, rendered: Store) {
    forall id | id in store && Counts(store[id]) ::
      || SelectorTag(store[id].clientId) in overrides
      || LastBackend(Listing(rendered), store[id].clientId) == Some(Aim(store, moving, id).backendId)
  }

  ghost predicate Steered(setup: Setup, sys: Sys, all: set<string>) {
    && LoadedOk(setup, sys, all)
    && (sys.node.loaded.Some? ==> AllSteered(sys.node.store, sys.moving, sys.node.overrides, sys.rendered))
  }

  ghost predicate CalmInv(setup: Setup, sys: Sys, owner: Owners) {
    Queues(setup, sys, owner) && Steered(setup, sys, owner.Keys)
  }

  lemma SteeredOnCourse(setup: Setup, sys: Sys, owner: Owners, id: string)
    requires Queues(setup, sys, owner) && Steered(setup, sys, owner.Keys) && TagsDistinct(owner.Keys, setup.registry)
    requires id in sys.node.store && Counts(sys.node.store[id]) && sys.node.loaded.Some?
    ensures OnCourse(setup, sys, id)
  {
    OnCourseIff(setup, sys, owner, id);
  }

  lemma CalmIsOnCourse(setup: Setup, sys: Sys, owner: Owners)
    requires CalmInv(setup, sys, owner) && TagsDistinct(owner.Keys, setup.registry)
    ensures AllOnCourse(setup, sys)
  {
    if sys.node.loaded.None? {
      NoneActive(sys.node.store);
    } else {
      forall id | id in sys.node.store && Counts(sys.node.store[id]) ensures OnCourse(setup, sys, id) {
        SteeredOnCourse(setup, sys, owner, id);
      }
      forall user | user !in ActiveClients(sys.node.store)
        ensures Dispatch(sys.node.loaded.value, sys.node.overrides, user) == None
      {
        NobodyElse(setup, sys, owner, user);
      }
    }
  }

  /** A flush that reloads does so with no flip half done and none stored since it rendered. */
  ghost predicate Calm(setup: Setup, sys: Sys, e: Event) {
    e.End? && sys.job.Some? && !Skips(setup, sys.node, sys.job.value.cfg) ==>
      sys.moving == map[] && sys.job.value.seen == sys.node.store + sys.job.value.overlays
  }

  lemma SelectKeepsSteered(setup: Setup, sys: Sys, all: set<string>, f: Placement)
    requires Steered(setup, sys, all) && LoadedOk(setup, Took(sys, Selected(f)), all)
    requires f.id in sys.node.store && SameClient(sys.node.store[f.id], f)
    ensures Steered(setup, Took(sys, Selected(f)), all)
  {
  }

  lemma CommandKeepsCalm(setup: Setup, sys: Sys, owner: Owners, desired: Placement, mayFlip: bool, env: Env)
    requires CalmInv(setup, sys, owner) && TagsDistinct(owner.Keys, setup.registry)
    requires OwnedBy(owner, desired) && !Busy(sys, desired.id) && env.listOk && env.selectOk
    requires (desired.id in sys.node.store && sys.node.store[desired.id].clientId == desired.clientId) ==> mayFlip
    ensures CalmInv(setup, Took(sys, FlipOrQueue(setup, sys.node, desired, mayFlip, env)), owner)
  {
    var c := FlipOrQueue(setup, sys.node, desired, mayFlip, env);
    CommandKeepsInv(setup, sys, owner, desired, mayFlip, env);
    if c.Selected? {
      KnownIsOwned(sys.node.store, owner, c.flip);
      SelectKeepsSteered(setup, sys, owner.Keys, c.flip);
    } else {
      assert Steered(setup, Took(sys, c), owner.Keys);
    }
  }

  lemma SimpleKeepsCalm(setup: Setup, sys: Sys, d: Placement, env: Env, owner: Owners)
    requires CalmInv(setup, sys, owner) && TagsDistinct(owner.Keys, setup.registry) && Fair(sys, Simple(d, env), owner)
    ensures CalmInv(setup, Took(sys, SimpleDecision(setup, sys.node, d, env)), owner)
  {
    var c := SimpleDecision(setup, sys.node, d, env);
    if c.Selected? || c.Queued? {
      CommandKeepsCalm(setup, sys, owner, d, d.id in sys.node.store && sys.node.store[d.id].clientId == d.clientId, env);
    }
  }

  lemma SwapKeepsCalm(setup: Setup, sys: Sys, plan: SwapPlan, env: Env, owner: Owners)
    requires CalmInv(setup, sys, owner) && TagsDistinct(owner.Keys, setup.registry) && Fair(sys, Swap(plan, env), owner)
    ensures CalmInv(setup, Took(sys, SwapDecision(setup, sys.node, plan, env)), owner)
  {
    var c := SwapDecision(setup, sys.node, plan, env);
    if c.Selected? || c.Queued? { CommandKeepsCalm(setup, sys, owner, plan.desired, true, env); }
  }

  lemma PutSteers(store: Store, moving: Store, overrides: Overrides, rendered: Store, id: string)
    requires AllSteered(store, moving, overrides, rendered) && id in moving && id in store && SameClient(store[id], moving[id])
    ensures AllSteered(store[id := moving[id]], moving - {id}, overrides, rendered)
  {
    var after := store[id := moving[id]];
    forall k | k in after && Counts(after[k])
      ensures k in store && Counts(store[k]) && store[k].clientId == after[k].clientId
      ensures Aim(after, moving - {id}, k) == Aim(store, moving, k)
    {
    }
  }

  lemma PutKeepsCalm(setup: Setup, sys: Sys, id: string, owner: Owners)
    requires CalmInv(setup, sys, owner) && id in sys.moving
    ensures CalmInv(setup, Put(sys, id), owner)
  {
    assert FlipOf(setup, sys.node.store, owner, id, sys.moving[id]);
    PutKeepsQueues(setup, sys, owner, id);
    PutKeepsLoaded(setup, sys, owner, id);
    if sys.node.loaded.Some? { PutSteers(sys.node.store, sys.moving, sys.node.overrides, sys.rendered, id); }
    assert Steered(setup, Put(sys, id), owner.Keys);
  }

  lemma SameSteered(setup: Setup, sys: Sys, sys': Sys, owner: Owners)
    requires CalmInv(setup, sys, owner) && Queues(setup, sys', owner) && sys'.node == sys.node && sys'.moving == sys.moving
    requires sys'.rendered == sys.rendered
    ensures CalmInv(setup, sys', owner)
  {
    assert Steered(setup, sys', owner.Keys);
  }

  lemma NudgeKeepsCalm(setup: Setup, sys: Sys, owner: Owners)
    requires CalmInv(setup, sys, owner)
    ensures CalmInv(setup, sys.(pending := sys.pending + [None]), owner)
  {
    NudgeKeepsQueues(setup, sys, owner);
    SameSteered(setup, sys, sys.(pending := sys.pending + [None]), owner);
  }

  lemma BeginKeepsCalm(setup: Setup, sys: Sys, count: nat, env: Env, sys': Sys, owner: Owners)
    requires CalmInv(setup, sys, owner) && Next(setup, sys, Begin(count, env), sys')
    ensures CalmInv(setup, sys', owner)
  {
    BeginKeepsQueues(setup, sys, owner, count, env);
    SameSteered(setup, sys, sys', owner);
  }

  /** What was rendered and loaded already leaves the clients where they were rendered before. */
  lemma SkipSteers(setup: Setup, store: Store, overlays: Store, moving: Store, overrides: Overrides, rendered: Store,
                   seen: Store, all: set<string>)
    requires AllSteered(store, moving, overrides, rendered) && forall id | id in overlays :: !Counts(overlays[id])
    requires Renderable(setup, rendered) && Renderable(setup, seen) && Render(setup, seen) == Render(setup, rendered)
    requires ActiveClients(rendered) == ActiveClients(store) && ActiveClients(seen) <= all && ActiveClients(rendered) <= all
    requires TagsDistinct(all, setup.registry)
    ensures AllSteered(store + overlays, moving, overrides, seen)
  {
    var after := store + overlays;
    RenderInjective(setup, seen, rendered, all);
    forall id | id in after && Counts(after[id])
      ensures id in store && after[id] == store[id]
      ensures LastBackend(Listing(seen), after[id].clientId) == LastBackend(Listing(rendered), after[id].clientId)
    {
      assert id !in overlays;
      assert store[id].clientId in ActiveClients(store);
    }
  }

  lemma LoadSteers(setup: Setup, sys: Sys, owner: Owners)
    requires Queues(setup, sys, owner) && sys.job.Some? && sys.moving == map[]
    requires sys.job.value.seen == sys.node.store + sys.job.value.overlays
    ensures AllSteered(sys.job.value.seen, map[], map[], sys.job.value.seen)
  {
    var seen := sys.job.value.seen;
    forall id | id in seen && Counts(seen[id]) ensures LastBackend(Listing(seen), seen[id].clientId) == Some(seen[id].backendId) {
      SeenChoice(setup, sys, owner, id);
    }
  }

  lemma EndKeepsSteered(setup: Setup, sys: Sys, owner: Owners, env: Env, sys': Sys)
    requires Queues(setup, sys, owner) && Steered(setup, sys, owner.Keys)
    requires TagsDistinct(owner.Keys, setup.registry) && Separates(setup.hash, ConfigsAt(sys))
    requires env.putFails == {} && Next(setup, sys, End(env), sys') && Succeeds(setup, sys, env) && Calm(setup, sys, End(env))
    ensures Queues(setup, sys', owner) && Steered(setup, sys', owner.Keys)
  {
    EndLoadsSeen(setup, sys, owner, env, sys');
    var job := sys.job.value;
    if Skips(setup, sys.node, job.cfg) {
      SkippedBatchIsInactive(setup, sys, owner);
      SkipSteers(setup, sys.node.store, job.overlays, sys.moving, sys.node.overrides, sys.rendered, job.seen, owner.Keys);
    } else {
      LoadSteers(setup, sys, owner);
    }
  }

  lemma EndKeepsCalm(setup: Setup, sys: Sys, env: Env, sys': Sys, owner: Owners)
    requires CalmInv(setup, sys, owner) && TagsDistinct(owner.Keys, setup.registry) && Separates(setup.hash, ConfigsAt(sys))
    requires env.putFails == {} && Next(setup, sys, End(env), sys') && Calm(setup, sys, End(env))
    ensures CalmInv(setup, sys', owner)
  {
    if Succeeds(setup, sys, env) {
      EndKeepsSteered(setup, sys, owner, env, sys');
    } else {
      EndFails(setup, sys, env, sys');
      JobDone(setup, sys, owner);
      SameSteered(setup, sys, sys', owner);
    }
  }

  lemma CommandStepKeepsCalm(setup: Setup, sys: Sys, e: Event, sys': Sys, owner: Owners)
    requires CalmInv(setup, sys, owner) && TagsDistinct(owner.Keys, setup.registry)
    requires (e.Simple? || e.Swap?) && Fair(sys, e, owner) && Next(setup, sys, e, sys')
    ensures CalmInv(setup, sys', owner)
  {
    if e.Simple? {
      SimpleKeepsCalm(setup, sys, e.desired, e.env, owner);
    } else {
      SwapKeepsCalm(setup, sys, e.plan, e.env, owner);
    }
  }

  lemma QuietStepKeepsCalm(setup: Setup, sys: Sys, e: Event, sys': Sys, owner: Owners)
    requires CalmInv(setup, sys, owner) && (e.Stored? || e.Nudge?) && Next(setup, sys, e, sys')
    ensures CalmInv(setup, sys', owner)
  {
    if e.Nudge? {
      NudgeKeepsCalm(setup, sys, owner);
    } else {
      PutKeepsCalm(setup, sys, e.id, owner);
    }
  }

  lemma FlushStepKeepsCalm(setup: Setup, sys: Sys, e: Event, sys': Sys, owner: Owners)
    requires CalmInv(setup, sys, owner) && TagsDistinct(owner.Keys, setup.registry) && Separates(setup.hash, ConfigsAt(sys))
    requires (e.Begin? || e.End?) && Fair(sys, e, owner) && Next(setup, sys, e, sys') && Calm(setup, sys, e)
    ensures CalmInv(setup, sys', owner)
  {
    if e.Begin? {
      BeginKeepsCalm(setup, sys, e.count, e.env, sys', owner);
    } else {
      EndKeepsCalm(setup, sys, e.env, sys', owner);
    }
  }

  lemma StepKeepsCalm(setup: Setup, sys: Sys, e: Event, sys': Sys, owner: Owners)
    requires CalmInv(setup, sys, owner) && TagsDistinct(owner.Keys, setup.registry) && Separates(setup.hash, ConfigsAt(sys))
    requires Fair(sys, e, owner) && Next(setup, sys, e, sys') && Calm(setup, sys, e)
    ensures CalmInv(setup, sys', owner)
  {
    if e.Simple? || e.Swap? {
      CommandStepKeepsCalm(setup, sys, e, sys', owner);
    } else if e.Begin? || e.End? {
      FlushStepKeepsCalm(setup, sys, e, sys', owner);
    } else {
      QuietStepKeepsCalm(setup, sys, e, sys', owner);
    }
  }

  ghost predicate CalmRun(setup: Setup, states: seq<Sys>, events: seq<Event>)
    requires |states| == |events| + 1
  {
    forall i {:trigger events[i]} | 0 <= i < |events| :: Calm(setup, states[i], events[i])
  }

  lemma {:induction false} RunKeepsCalm(setup: Setup, states: seq<Sys>, events: seq<Event>, owner: Owners, i: nat)
    requires TagsDistinct(owner.Keys, setup.registry) && Separates(setup.hash, RunConfigs(states))
    requires Run(setup, states, events, owner) && CalmRun(setup, states, events) && i < |states|
    requires CalmInv(setup, states[0], owner)
    ensures CalmInv(setup, states[i], owner)
  {
    if i > 0 {
      RunKeepsCalm(setup, states, events, owner, i - 1);
      SeparatesAt(setup, states, i - 1);
      StepKeepsCalm(setup, states[i - 1], events[i - 1], states[i], owner);
    }
  }

  /** In every run in which no flip overlaps a reload, after every event, each active client leaves by its
      stored backend, or by the one just selected for it, and nobody else is routed. */
  lemma EveryRunAgrees(setup: Setup, states: seq<Sys>, events: seq<Event>, owner: Owners, i: nat)
    requires TagsDistinct(owner.Keys, setup.registry) && Separates(setup.hash, RunConfigs(states))
    requires Run(setup, states, events, owner) && CalmRun(setup, states, events) && i < |states|
    requires CalmInv(setup, states[0], owner)
    ensures AllOnCourse(setup, states[i])
    ensures states[i].moving == map[] ==> Agrees(setup, states[i].node)
  {
    RunKeepsCalm(setup, states, events, owner, i);
    CalmIsOnCourse(setup, states[i], owner);
    if states[i].moving == map[] { OnCourseAgrees(setup, states[i]); }
  }

  /** An idle node whose store is empty is an agreeing start, and so is one that has just loaded its store. */
  lemma Starts(setup: Setup, node: Node, owner: Owners)
    requires node.file.None? && StoreOwned(node.store, owner)
    requires || (node.store == map[] && node.loaded == None && node.lastHash == None)
             || (Renderable(setup, node.store) && node.loaded == Some(Render(setup, node.store))
                 && node.overrides == map[] && node.lastHash == Some(setup.hash(node.loaded.value)))
    ensures CalmInv(setup, Sys(node, [], None, map[], node.store), owner)
  {
    var sys := Sys(node, [], None, map[], node.store);
    OwnedStore(node.store, owner);
    if node.loaded.None? {
      assert Steered(setup, sys, owner.Keys);
    } else {
      forall id | id in node.store && Counts(node.store[id])
        ensures LastBackend(Listing(node.store), node.store[id].clientId) == Some(node.store[id].backendId)
        ensures node.store[id].backendId in Ids(setup.registry)
      {
        StoredChoice(node.store, id);
        RenderableOverlay(setup, node.store, id);
      }
      assert Steered(setup, sys, owner.Keys);
    }
  }

  // Runs in which one does.

  /** What two steps of a flip leave in the state. */
  lemma FlipSteps(setup: Setup, sys: Sys, plan: SwapPlan, env: Env, selected: Sys, stored: Sys)
    requires SwapDecision(setup, sys.node, plan, env).Selected?
    requires Next(setup, sys, Swap(plan, env), selected) && Next(setup, selected, Stored(plan.desired.id), stored)
    ensures stored.node.store == sys.node.store[plan.desired.id := plan.desired.(applied := Applied)]
    ensures stored.job == sys.job && stored.node.loaded == sys.node.loaded && stored.node.lastHash == sys.node.lastHash
    ensures plan.desired.id !in stored.moving && Counts(plan.desired)
  {
  }

  lemma OvertakenIsOff(setup: Setup, sys: Sys, owner: Owners, env: Env, sys': Sys, id: string)
    requires Inv(setup, sys, owner) && TagsDistinct(owner.Keys, setup.registry) && Separates(setup.hash, ConfigsAt(sys))
    requires env.putFails == {} && Next(setup, sys, End(env), sys') && Succeeds(setup, sys, env)
    requires !Skips(setup, sys.node, sys.job.value.cfg)
    requires id in sys.node.store && Counts(sys.node.store[id]) && id !in sys.moving && id !in sys.job.value.overlays
    requires id in sys.job.value.seen && sys.job.value.seen[id].backendId != sys.node.store[id].backendId
    ensures id in sys'.node.store && sys'.node.store[id] == sys.node.store[id]
    ensures !Routed(setup, sys'.node, sys'.node.store[id])
  {
    EndLoadsSeen(setup, sys, owner, env, sys');
    EndOnCourseIff(setup, sys, owner, env, sys', id);
  }

  /** A flip that is selected and stored while a flush is between its rendering and its reload is lost:
      whatever the flip and whatever the flush, the reload brings the client back to the rendered backend
      while the store has the new one. */
  lemma FlipDuringFlushIsLost(setup: Setup, sys: Sys, owner: Owners, plan: SwapPlan, env: Env, selected: Sys,
                              stored: Sys, last: Env, end: Sys)
    requires Inv(setup, sys, owner) && TagsDistinct(owner.Keys, setup.registry) && Separates(setup.hash, ConfigsAt(sys))
    requires Fair(sys, Swap(plan, env), owner) && SwapDecision(setup, sys.node, plan, env).Selected?
    requires sys.job.Some? && !Skips(setup, sys.node, sys.job.value.cfg)
    requires plan.desired.id in sys.job.value.seen && plan.desired.backendId != sys.job.value.seen[plan.desired.id].backendId
    requires Next(setup, sys, Swap(plan, env), selected) && Next(setup, selected, Stored(plan.desired.id), stored)
    requires last.putFails == {} && last.writeOk && last.reloadOk && Next(setup, stored, End(last), end)
    ensures var id := plan.desired.id;
            && id in end.node.store && end.node.store[id] == plan.desired.(applied := Applied)
            && !Routed(setup, end.node, end.node.store[id])
  {
    FlipSteps(setup, sys, plan, env, selected, stored);
    CommandStepKeepsInv(setup, sys, Swap(plan, env), selected, owner);
    QuietStepKeepsInv(setup, selected, Stored(plan.desired.id), stored, owner);
    OvertakenIsOff(setup, stored, owner, last, end, plan.desired.id);
  }

  /** Such a schedule exists for every flip that is selected while a flush is under way. */
  lemma OvertakingSchedule(setup: Setup, sys: Sys, plan: SwapPlan, env: Env, last: Env) returns (selected: Sys, stored: Sys, end: Sys)
    requires SwapDecision(setup, sys.node, plan, env).Selected? && sys.job.Some?
    requires last.putFails == {} && last.writeOk && last.reloadOk
    ensures Next(setup, sys, Swap(plan, env), selected) && Next(setup, selected, Stored(plan.desired.id), stored)
    ensures Next(setup, stored, End(last), end)
  {
    selected := Took(sys, SwapDecision(setup, sys.node, plan, env));
    stored := Put(selected, plan.desired.id);
    var job := sys.job.value;
    var live := if Skips(setup, stored.node, job.cfg) then stored.node else Loading(setup, stored.node, job.cfg);
    end := stored.(node := live.(store := stored.node.store + job.overlays), job := None, rendered := job.seen);
    assert Ends(setup, stored, last, end, true);
  }

  /** Whatever was lost before, a flush that gets through with no flip in between restores agreement. */
  lemma NextFlushRepairs(setup: Setup, sys: Sys, owner: Owners, count: nat, env: Env, mid: Sys, last: Env, sys': Sys)
    requires Inv(setup, sys, owner) && TagsDistinct(owner.Keys, setup.registry) && sys.moving == map[]
    requires Next(setup, sys, Begin(count, env), mid) && mid.job.Some? && Separates(setup.hash, ConfigsAt(mid))
    requires last.putFails == {} && Next(setup, mid, End(last), sys') && Succeeds(setup, mid, last)
    ensures Agrees(setup, sys'.node)
  {
    BeginKeepsInv(setup, sys, count, env, mid, owner);
    EndOfCalmFlush(setup, mid, owner, last, sys');
  }

  lemma EndOfCalmFlush(setup: Setup, sys: Sys, owner: Owners, env: Env, sys': Sys)
    requires Inv(setup, sys, owner) && TagsDistinct(owner.Keys, setup.registry) && Separates(setup.hash, ConfigsAt(sys))
    requires env.putFails == {} && Next(setup, sys, End(env), sys') && Succeeds(setup, sys, env)
    requires sys.moving == map[] && sys.job.value.seen == sys.node.store + sys.job.value.overlays
    ensures Agrees(setup, sys'.node)
  {
    EndLoadsSeen(setup, sys, owner, env, sys');
    LoadSteers(setup, sys, owner);
    MoreSteered(sys'.node.store, sys'.node.overrides, sys.job.value.seen);
    assert Steered(setup, sys', owner.Keys);
    CalmIsOnCourse(setup, sys', owner);
    OnCourseAgrees(setup, sys');
  }

  lemma MoreSteered(store: Store, overrides: Overrides, rendered: Store)
    requires AllSteered(store, map[], map[], rendered)
    ensures AllSteered(store, map[], overrides, rendered)
  {
  }
}
