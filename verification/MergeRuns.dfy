/** The entry node whose renders are merged into the config file it reads back: every schedule keeps the
    running sing-box in agreement with the store, whatever calls fail on the way to it. */
module MergeRuns {
  import opened Domain
  import opened Order
  import opened Tags
  import opened Config
  import opened Build
  import opened Meaning
  import opened Merge
  import opened MergeLaws
  import opened EntrySpec
  import opened Runs = EntryRuns
  import Agreement
  import Coalescer

  // Selectors an operator's config does not have.

  /** No outbound of the config is a selector under a client's tag. */
  ghost predicate NoUserSelectors(cfg: Json, all: set<string>) {
    forall o, c | o in Outbounds(cfg) && c in all && Get(o, "tag") == Str(SelectorTag(c)) ::
      Get(o, "type") != Str("selector")
  }

  lemma SelectorTagIsStatic(client: string)
    ensures !IsDynamicTag(SelectorTag(client))
  {
    assert SelectorTag(client)[0] == SELECTOR_PREFIX[0];
    assert "b-"[0] == 'b' && "backend-"[0] == 'b';
  }

  lemma {:induction false} FoundIn(outbounds: seq<Json>, tag: string)
    ensures var o := FindOutbound(outbounds, tag); o.Some? ==> o.value in outbounds && Get(o.value, "tag") == Str(tag)
  {
    if outbounds != [] { FoundIn(outbounds[1..], tag); }
  }

  /** Then no selection for a client is accepted, whatever was merged into the config. */
  lemma NoSelection(base: Json, cfg: Json, all: set<string>, client: string, target: string)
    requires SameFrame(base, cfg) && NoUserSelectors(base, all) && client in all
    ensures !HasOption(cfg, SelectorTag(client), target)
  {
    var o := FindOutbound(Outbounds(cfg), SelectorTag(client));
    FoundIn(Outbounds(cfg), SelectorTag(client));
    SelectorTagIsStatic(client);
    if o.Some? {
      assert o.value in Filter(Outbounds(cfg), StaticOutbound);
      assert o.value in Filter(Outbounds(base), StaticOutbound);
    }
  }

  lemma SameFrameTrans(a: Json, b: Json, c: Json)
    requires SameFrame(a, b) && SameFrame(b, c)
    ensures SameFrame(a, c)
  {
    forall i | 0 <= i < |Items(a, "inbounds")| ensures SameInbound(Items(a, "inbounds")[i], Items(c, "inbounds")[i]) {
      assert SameInbound(Items(a, "inbounds")[i], Items(b, "inbounds")[i]);
      assert SameInbound(Items(b, "inbounds")[i], Items(c, "inbounds")[i]);
    }
  }

  // The invariant.

  ghost predicate MergedOnto(setup: Setup, base: Json, onto: Json, store: Store, cfg: Json) {
    SameFrame(base, onto) && Renderable(setup, store) && cfg == Merged(onto, StateOf(setup, store))
  }

  /** Once a flush has succeeded, sing-box runs the store merged into some descendant of the base. */
  ghost predicate RunsStore(setup: Setup, node: Node, base: Json) {
    node.lastHash.Some? ==>
      && node.loaded.Some? && node.lastHash == Some(setup.hash(node.loaded.value))
      && exists onto :: MergedOnto(setup, base, onto, node.store, node.loaded.value)
  }

  ghost predicate FromBase(node: Node, base: Json) {
    && node.file.Some? && node.file.value.Parsed? && SameFrame(base, node.file.value.root)
    && (node.loaded.Some? ==> SameFrame(base, node.loaded.value))
  }

  ghost predicate AllOwned(pending: seq<Option<Placement>>, owner: Owners) {
    forall i | 0 <= i < |pending| && pending[i].Some? :: OwnedBy(owner, pending[i].value)
  }

  /** The flush under way has merged what is stored, with its overlays on top, into the file. */
  ghost predicate JobMerged(setup: Setup, node: Node, owner: Owners, base: Json, job: Job) {
    && job.seen == node.store + job.overlays && StoreOwned(job.seen, owner)
    && node.file.Some? && node.file.value.Parsed?
    && MergedOnto(setup, base, node.file.value.root, job.seen, job.cfg)
  }

  ghost predicate Inv(setup: Setup, sys: Sys, owner: Owners, base: Json) {
    && StoreOwned(sys.node.store, owner)
    && AllOwned(sys.pending, owner)
    && FromBase(sys.node, base)
    && RunsStore(setup, sys.node, base)
    && sys.moving == map[]
    && (sys.job.Some? ==> JobMerged(setup, sys.node, owner, base, sys.job.value))
  }

  /** Commands keep to the owners and the store accepts writes; any other call may fail at any time, and
      nothing is asked of when commands come. */
  ghost predicate Fair(e: Event, owner: Owners) {
    match e
    case Simple(d, env) => OwnedBy(owner, d)
    case Swap(plan, env) => OwnedBy(owner, plan.desired)
    case End(env) => env.putFails == {}
    case _ => true
  }

  /** No command selects anything. */
  lemma NeverSelects(setup: Setup, node: Node, owner: Owners, base: Json, d: Placement, mayFlip: bool, env: Env)
    requires FromBase(node, base) && NoUserSelectors(base, owner.Keys) && OwnedBy(owner, d)
    ensures FlipOrQueue(setup, node, d, mayFlip, env) == Queued(d.(applied := Applied))
  {
    if Counts(d) && node.loaded.Some? {
      NoSelection(base, node.loaded.value, owner.Keys, d.clientId, OutboundTag(d.clientId, d.backendId));
    }
  }

  lemma QueueKeepsInv(setup: Setup, sys: Sys, owner: Owners, base: Json, c: Outcome)
    requires Inv(setup, sys, owner, base) && !c.Selected? && (c.Queued? ==> OwnedBy(owner, c.overlay))
    ensures Inv(setup, Took(sys, c), owner, base)
  {
  }

  lemma SimpleNeverSelects(setup: Setup, node: Node, d: Placement, env: Env, owner: Owners, base: Json)
    requires FromBase(node, base) && NoUserSelectors(base, owner.Keys) && OwnedBy(owner, d)
    ensures var c := SimpleDecision(setup, node, d, env);
            !c.Selected? && (c.Queued? ==> OwnedBy(owner, c.overlay))
  {
    NeverSelects(setup, node, owner, base, d, d.id in node.store && node.store[d.id].clientId == d.clientId, env);
  }

  lemma SimpleKeepsInv(setup: Setup, sys: Sys, d: Placement, env: Env, owner: Owners, base: Json)
    requires Inv(setup, sys, owner, base) && NoUserSelectors(base, owner.Keys) && OwnedBy(owner, d)
    ensures Inv(setup, Took(sys, SimpleDecision(setup, sys.node, d, env)), owner, base)
  {
    SimpleNeverSelects(setup, sys.node, d, env, owner, base);
    QueueKeepsInv(setup, sys, owner, base, SimpleDecision(setup, sys.node, d, env));
  }

  lemma SwapKeepsInv(setup: Setup, sys: Sys, plan: SwapPlan, env: Env, owner: Owners, base: Json)
    requires Inv(setup, sys, owner, base) && NoUserSelectors(base, owner.Keys) && OwnedBy(owner, plan.desired)
    ensures Inv(setup, Took(sys, SwapDecision(setup, sys.node, plan, env)), owner, base)
  {
    NeverSelects(setup, sys.node, owner, base, plan.desired, true, env);
    QueueKeepsInv(setup, sys, owner, base, SwapDecision(setup, sys.node, plan, env));
  }

  lemma CommandKeepsInv(setup: Setup, sys: Sys, e: Event, sys': Sys, owner: Owners, base: Json)
    requires Inv(setup, sys, owner, base) && NoUserSelectors(base, owner.Keys)
    requires (e.Simple? || e.Swap?) && Fair(e, owner) && Next(setup, sys, e, sys')
    ensures Inv(setup, sys', owner, base)
  {
    if e.Simple? {
      SimpleKeepsInv(setup, sys, e.desired, e.env, owner, base);
    } else {
      SwapKeepsInv(setup, sys, e.plan, e.env, owner, base);
    }
  }

  lemma BatchOwned(store: Store, batch: seq<Option<Placement>>, owner: Owners)
    requires StoreOwned(store, owner) && AllOwned(batch, owner)
    ensures StoreOwned(store + Overlays(batch), owner)
  {
    var after := store + Overlays(batch);
    forall id | id in after ensures after[id].id == id && OwnedBy(owner, after[id]) {
      OverlayOf(batch, id);
    }
  }

  lemma BeginKeepsInv(setup: Setup, sys: Sys, count: nat, env: Env, sys': Sys, owner: Owners, base: Json)
    requires Inv(setup, sys, owner, base) && Next(setup, sys, Begin(count, env), sys')
    ensures Inv(setup, sys', owner, base)
  {
    BatchOwned(sys.node.store, sys.pending[..count], owner);
    assert AllOwned(sys.pending[count..], owner);
  }

  lemma LoadKeepsInv(setup: Setup, node: Node, owner: Owners, base: Json, job: Job, env: Env, node': Node, ok: bool)
    requires FromBase(node, base) && RunsStore(setup, node, base) && JobMerged(setup, node, owner, base, job)
    requires Separates(setup.hash, Compared(node, Some(job.cfg)))
    requires env.putFails == {} && LoadStep(setup, node, job.cfg, job.overlays, env, node', ok)
    ensures FromBase(node', base) && RunsStore(setup, node', base)
    ensures node'.store == if ok then job.seen else node.store
  {
    var root := node.file.value.root;
    MergeKeepsFrame(root, StateOf(setup, job.seen));
    SameFrameTrans(base, root, job.cfg);
    assert MergedOnto(setup, base, root, job.seen, job.cfg);
  }

  lemma EndKeepsInv(setup: Setup, sys: Sys, env: Env, sys': Sys, owner: Owners, base: Json)
    requires Inv(setup, sys, owner, base) && Separates(setup.hash, ConfigsAt(sys))
    requires env.putFails == {} && Next(setup, sys, End(env), sys')
    ensures Inv(setup, sys', owner, base)
  {
    var ok :| Ends(setup, sys, env, sys', ok);
    LoadKeepsInv(setup, sys.node, owner, base, sys.job.value, env, sys'.node, ok);
  }

  lemma StepKeepsInv(setup: Setup, sys: Sys, e: Event, sys': Sys, owner: Owners, base: Json)
    requires Inv(setup, sys, owner, base) && NoUserSelectors(base, owner.Keys) && Separates(setup.hash, ConfigsAt(sys))
    requires Fair(e, owner) && Next(setup, sys, e, sys')
    ensures Inv(setup, sys', owner, base)
  {
    if e.Simple? || e.Swap? {
      CommandKeepsInv(setup, sys, e, sys', owner, base);
    } else if e.Begin? {
      BeginKeepsInv(setup, sys, e.count, e.env, sys', owner, base);
    } else if e.End? {
      EndKeepsInv(setup, sys, e.env, sys', owner, base);
    }
  }

  // What the invariant means.

  function EndpointAt(registry: seq<Backend>, p: Placement): Endpoint
    requires p.backendId in Ids(registry)
  {
    var b := BackendWith(registry, p.backendId);
    Endpoint(b.address, b.port as real, p.clientId)
  }

  ghost predicate Delivered(setup: Setup, node: Node, p: Placement) {
    && node.loaded.Some? && p.backendId in Ids(setup.registry)
    && Destination(node.loaded.value, node.overrides, p.clientId) == Some(EndpointAt(setup.registry, p))
  }

  /** Every active client reaches its stored backend under its own uuid, everyone else is routed as the
      operator's own rules say, and nothing else of the operator's config has changed. */
  ghost predicate MergedAgrees(setup: Setup, node: Node, base: Json) {
    && node.loaded.Some? && SameFrame(base, node.loaded.value)
    && (forall id | id in node.store && Counts(node.store[id]) :: Delivered(setup, node, node.store[id]))
    && (forall user | user !in ActiveClients(node.store) ::
          FirstRule(Rules(node.loaded.value), user) == FirstRule(Filter(Rules(base), StaticRule), user))
  }

  lemma StoredIsLeast(store: Store, id: string)
    requires OneOwner(store) && id in store && Counts(store[id])
    ensures IsLeastBackend(Listing(store), store[id].clientId, store[id].backendId)
    ensures store[id].clientId in Clients(Listing(store))
  {
    ListingFacts(store);
    assert store[id] in SetOf(Listing(store));
  }

  lemma MergedDelivers(setup: Setup, onto: Json, store: Store, all: set<string>, overrides: Overrides, id: string)
    requires onto.Obj? && Renderable(setup, store) && OneOwner(store) && ActiveClients(store) <= all
    requires TagsDistinct(all, setup.registry) && id in store && Counts(store[id])
    ensures store[id].backendId in Ids(setup.registry)
    ensures Destination(Merged(onto, StateOf(setup, store)), overrides, store[id].clientId)
            == Some(EndpointAt(setup.registry, store[id]))
  {
    StoredIsLeast(store, id);
    ListingFacts(store);
    Agreement.TagsDistinctSubset(ActiveClients(store), all, setup.registry);
    assert store[id] in SetOf(Listing(store));
    MergeRoutesToLeast(onto, StateOf(setup, store), overrides, store[id].clientId,
                       BackendWith(setup.registry, store[id].backendId));
  }

  lemma {:induction false} FirstRuleBehind(front: seq<Json>, back: seq<Json>, user: string)
    requires forall r | r in front :: !Mentions(r, user)
    ensures FirstRule(front + back, user) == FirstRule(back, user)
  {
    if front == [] {
      assert front + back == back;
    } else {
      assert (front + back)[0] == front[0] && (front + back)[1..] == front[1..] + back;
      FirstRuleBehind(front[1..], back, user);
    }
  }

  lemma MergedStranger(setup: Setup, onto: Json, store: Store, user: string)
    requires onto.Obj? && Renderable(setup, store) && user !in ActiveClients(store)
    ensures FirstRule(Rules(Merged(onto, StateOf(setup, store))), user) == FirstRule(Filter(Rules(onto), StaticRule), user)
  {
    var state := StateOf(setup, store);
    var pairs := SortedPairs(state.placements);
    ListingFacts(store);
    forall i | 0 <= i < |pairs| ensures !Mentions(DynamicRules(pairs)[i], user) {
      assert pairs[i] in SetOf(pairs);
      DynamicRows(pairs[i], BackendWith(state.backends, pairs[i].backend));
    }
    ReplaceParts(onto, state.inbound.tag, Users(state), NewOutbounds(state), NewRules(state));
    FirstRuleBehind(NewRules(state), Filter(Rules(onto), StaticRule), user);
  }

  lemma InvAgrees(setup: Setup, sys: Sys, owner: Owners, base: Json)
    requires Inv(setup, sys, owner, base) && TagsDistinct(owner.Keys, setup.registry) && sys.node.lastHash.Some?
    ensures MergedAgrees(setup, sys.node, base)
  {
    var node := sys.node;
    var onto :| MergedOnto(setup, base, onto, node.store, node.loaded.value);
    OwnedStore(node.store, owner);
    forall id | id in node.store && Counts(node.store[id]) ensures Delivered(setup, node, node.store[id]) {
      MergedDelivers(setup, onto, node.store, owner.Keys, node.overrides, id);
    }
    forall user | user !in ActiveClients(node.store)
      ensures FirstRule(Rules(node.loaded.value), user) == FirstRule(Filter(Rules(base), StaticRule), user)
    {
      MergedStranger(setup, onto, node.store, user);
    }
  }

  ghost predicate Run(setup: Setup, states: seq<Sys>, events: seq<Event>, owner: Owners) {
    && |states| == |events| + 1
    && forall i {:trigger events[i]} | 0 <= i < |events| :: Fair(events[i], owner) && Next(setup, states[i], events[i], states[i + 1])
  }

  lemma {:induction false} RunKeepsInv(setup: Setup, states: seq<Sys>, events: seq<Event>, owner: Owners, base: Json, i: nat)
    requires NoUserSelectors(base, owner.Keys) && Separates(setup.hash, RunConfigs(states))
    requires Run(setup, states, events, owner) && Inv(setup, states[0], owner, base) && i < |states|
    ensures Inv(setup, states[i], owner, base)
  {
    if i > 0 {
      RunKeepsInv(setup, states, events, owner, base, i - 1);
      SeparatesAt(setup, states, i - 1);
      StepKeepsInv(setup, states[i - 1], events[i - 1], states[i], owner, base);
    }
  }

  /** In every run, from the first successful flush on and after every event, the running config agrees
      with the store, although selections, listings, reads, writes and reloads may fail and commands may
      come at any point of a flush. */
  lemma EveryMergeRunAgrees(setup: Setup, states: seq<Sys>, events: seq<Event>, owner: Owners, base: Json, i: nat)
    requires TagsDistinct(owner.Keys, setup.registry) && NoUserSelectors(base, owner.Keys)
    requires Run(setup, states, events, owner) && Separates(setup.hash, RunConfigs(states)) && i < |states|
    requires StoreOwned(states[0].node.store, owner) && states[0].node.lastHash.None? && FromBase(states[0].node, base)
    requires states[0].pending == [] && states[0].job.None? && states[0].moving == map[]
    ensures states[i].node.lastHash.Some? ==> MergedAgrees(setup, states[i].node, base)
  {
    RunKeepsInv(setup, states, events, owner, base, i);
    if states[i].node.lastHash.Some? { InvAgrees(setup, states[i], owner, base); }
  }

  // Where it stops holding.

  /** A selection on a merged config moves nobody: after a flip the client reaches its newly stored
      backend exactly when that is the old one. */
  lemma MergedFlipMovesNobody(setup: Setup, node: Node, onto: Json, all: set<string>, d: Placement)
    requires OneOwner(node.store) && ActiveClients(node.store) <= all && Renderable(setup, node.store)
    requires onto.Obj? && node.loaded == Some(Merged(onto, StateOf(setup, node.store)))
    requires TagsDistinct(all, setup.registry) && DistinctEndpoints(setup.registry)
    requires d.id in node.store && Counts(node.store[d.id]) && d.clientId == node.store[d.id].clientId
    requires d.backendId in Ids(setup.registry)
    ensures Delivered(setup, Select(node, d), d) <==> d.backendId == node.store[d.id].backendId
  {
    MergedDelivers(setup, onto, node.store, all, Select(node, d).overrides, d.id);
    var b, b' := BackendWith(setup.registry, d.backendId), BackendWith(setup.registry, node.store[d.id].backendId);
    if b.address == b'.address && b.port as real == b'.port as real { assert b.port == b'.port; }
  }

  lemma FilterCons(row: Json, rest: seq<Json>, keep: Json -> bool)
    ensures Filter([row] + rest, keep) == (if keep(row) then [row] else []) + Filter(rest, keep)
  {
    FilterAppend([row], rest, keep);
    assert [row][..0] == [] && Filter([row], keep) == if keep(row) then [row] else [];
  }

  lemma FindCons(row: Json, rest: seq<Json>, tag: string)
    ensures FindOutbound([row] + rest, tag) == if Get(row, "tag") == Str(tag) then Some(row) else FindOutbound(rest, tag)
  {
    assert ([row] + rest)[1..] == rest;
  }

  lemma {:induction false} FindStatic(outbounds: seq<Json>, tag: string)
    requires !IsDynamicTag(tag)
    ensures FindOutbound(Filter(outbounds, StaticOutbound), tag) == FindOutbound(outbounds, tag)
  {
    if outbounds != [] {
      var row, rest := outbounds[0], outbounds[1..];
      var kept := Filter(rest, StaticOutbound);
      assert outbounds == [row] + rest;
      FilterCons(row, rest, StaticOutbound);
      FindStatic(rest, tag);
      FindCons(row, rest, tag);
      if StaticOutbound(row) {
        FindCons(row, kept, tag);
      } else {
        assert [] + kept == kept;
      }
    }
  }

  /** Every selector of a base stays in whatever is merged into it. */
  lemma SelectorStays(base: Json, cfg: Json, tag: string, target: string)
    requires SameFrame(base, cfg) && !IsDynamicTag(tag)
    ensures HasOption(cfg, tag, target) <==> HasOption(base, tag, target)
  {
    FindStatic(Outbounds(base), tag);
    FindStatic(Outbounds(cfg), tag);
  }

  lemma BuiltHasSelector(setup: Setup, store: Store, all: set<string>, client: string, backend: string)
    requires Renderable(setup, store) && ActiveClients(store) <= all && TagsDistinct(all, setup.registry)
    requires client in ActiveClients(store) && backend in Ids(setup.registry)
    ensures HasOption(Render(setup, store), SelectorTag(client), OutboundTag(client, backend))
  {
    Agreement.RenderedBackend(setup, store, client);
    Agreement.RenderedSelector(setup, store, all, client);
    var sorted := SortedBackends(setup.registry);
    assert BackendWith(setup.registry, backend) in SetOf(sorted);
    var i :| 0 <= i < |sorted| && sorted[i] == BackendWith(setup.registry, backend);
    Agreement.OptionListed(client, sorted, LastBackend(Listing(store), client).value, i);
  }

  /** An agent that starts with an empty file builds it first and merges into what it built from then on.
      The built per-user selectors count as the operator's and stay: after any number of merges, selections
      are accepted for every client of the first render, and move nobody. */
  lemma BuiltFileKeepsSelectors(setup: Setup, first: Store, states: seq<NodeState>, all: set<string>, client: string, backend: string)
    requires Renderable(setup, first) && forall s | s in states :: Valid(s)
    requires ActiveClients(first) <= all && TagsDistinct(all, setup.registry)
    requires client in ActiveClients(first) && backend in Ids(setup.registry)
    ensures Render(setup, first).Obj?
    ensures HasOption(MergeAll(Render(setup, first), states), SelectorTag(client), OutboundTag(client, backend))
  {
    var built := Render(setup, first);
    BuiltHasSelector(setup, first, all, client, backend);
    SelectorTagIsStatic(client);
    MergesKeepFrame(built, states);
    SelectorStays(built, MergeAll(built, states), SelectorTag(client), OutboundTag(client, backend));
  }

  // Coalescing.

  ghost predicate MergeFile(setup: Setup, node: Node) {
    node.file.Some? && node.file.value.Parsed? && Mergeable(node.file.value.root, setup.inbound.tag)
  }

  lemma OneFlushAbsorbs(setup: Setup, node: Node, overlays: Store, env: Env, node': Node, store: Store)
    requires MergeFile(setup, node) && FlushStep(setup, node, overlays, env, node', true)
    requires Renderable(setup, store) && ActiveClients(store) != {}
    ensures MergeFile(setup, node') && Rendering(setup, node'.file, store) == Rendering(setup, node.file, store)
  {
    ListingFacts(store);
    MergeAbsorbs(node.file.value.root, StateOf(setup, node.store + overlays), StateOf(setup, store));
  }

  lemma OneMoreAbsorbs(setup: Setup, batch: seq<Option<Placement>>, envs: seq<Env>, nodes: seq<Node>, i: nat, store: Store)
    requires Coalescer.OneByOne(setup, batch, envs, nodes) && i < |batch| && MergeFile(setup, nodes[i])
    requires Renderable(setup, store) && ActiveClients(store) != {}
    ensures MergeFile(setup, nodes[i + 1])
    ensures Rendering(setup, nodes[i + 1].file, store) == Rendering(setup, nodes[i].file, store)
  {
    OneFlushAbsorbs(setup, nodes[i], Overlays([batch[i]]), envs[i], nodes[i + 1], store);
  }

  /** The file may have been rewritten in between, but a later render of a store with an active client
      comes out as if it had been merged into the file at the start. */
  lemma {:induction false} FileAbsorbs(setup: Setup, batch: seq<Option<Placement>>, envs: seq<Env>, nodes: seq<Node>, n: nat, store: Store)
    requires Coalescer.OneByOne(setup, batch, envs, nodes) && n <= |batch|
    requires Renderable(setup, store) && ActiveClients(store) != {} && MergeFile(setup, nodes[0])
    ensures MergeFile(setup, nodes[n]) && Rendering(setup, nodes[n].file, store) == Rendering(setup, nodes[0].file, store)
  {
    if n > 0 {
      FileAbsorbs(setup, batch, envs, nodes, n - 1, store);
      OneMoreAbsorbs(setup, batch, envs, nodes, n - 1, store);
    }
  }

  lemma OneByOneRenders(setup: Setup, batch: seq<Option<Placement>>, envs: seq<Env>, nodes: seq<Node>)
    requires Coalescer.OneByOne(setup, batch, envs, nodes) && batch != []
    requires Coalescer.HashSound(setup, nodes[0]) && MergeFile(setup, nodes[0])
    requires ActiveClients(nodes[|batch|].store) != {}
    ensures nodes[|batch|].store == nodes[0].store + Overlays(batch)
    ensures nodes[|batch|].loaded == Rendering(setup, nodes[0].file, nodes[|batch|].store)
  {
    var n := |batch| - 1;
    Coalescer.OneByOneStore(setup, batch, envs, nodes, n);
    Coalescer.OneMore(setup, batch, envs, nodes, n);
    Coalescer.OneByOneStore(setup, batch, envs, nodes, |batch|);
    assert batch[..|batch|] == batch;
    RenderingIsRenderable(setup, nodes[n].file, nodes[|batch|].store);
    FileAbsorbs(setup, batch, envs, nodes, n, nodes[|batch|].store);
  }

  lemma RenderingIsRenderable(setup: Setup, file: Option<Document>, store: Store)
    requires Rendering(setup, file, store).Some?
    ensures Renderable(setup, store)
  {
  }

  /** Coalescing is invisible here too, as long as a client is active at the end of the batch. */
  lemma MergedBatchEqualsOneByOne(setup: Setup, batch: seq<Option<Placement>>, envs: seq<Env>, nodes: seq<Node>, env: Env, node': Node)
    requires Coalescer.OneByOne(setup, batch, envs, nodes) && batch != []
    requires Coalescer.ToldApart(setup, nodes[0], Overlays(batch))
    requires Coalescer.HashSound(setup, nodes[0]) && MergeFile(setup, nodes[0])
    requires ActiveClients(nodes[|batch|].store) != {}
    requires FlushStep(setup, nodes[0], Overlays(batch), env, node', true)
    ensures node'.store == nodes[|batch|].store && node'.loaded == nodes[|batch|].loaded
  {
    OneByOneRenders(setup, batch, envs, nodes);
    Coalescer.FlushLoadsRender(setup, nodes[0], Overlays(batch), env, node', true);
  }
}
