/** The entry node that drives an external sing-box: what is stored, what is loaded and what has been
    selected, and one step of each operation on it. */
module EntrySpec {
  import opened Domain
  import opened Order
  import opened Tags
  import opened Config
  import opened Build
  import opened Meaning
  import Merge

  /** What is fixed for a run: the static config parts, the backend registry and the config hash. */
  datatype Setup = Setup(top: map<string, Json>, inbound: InboundSpec, registry: seq<Backend>, hash: Json -> int)

  /** `loaded` is the config sing-box runs, `overrides` the selections made on it since, and
      `lastHash` the hash the coalescer remembers. `file` is the config file that renders are merged
      into and written back to; without one, every render is built from scratch. */
  datatype Node = Node(
    store: Store,
    loaded: Option<Json>,
    overrides: Overrides,
    lastHash: Option<int>,
    file: Option<Merge.Document>)

  /** How the calls an operation makes turn out. */
  datatype Env = Env(
    getOk: bool,
    listOk: bool,
    readOk: bool,
    selectOk: bool,
    writeOk: bool,
    reloadOk: bool,
    putFails: set<string>)

  /** The hash tells these configs apart. */
  ghost predicate Separates(hash: Json -> int, cfgs: set<Json>) {
    forall a, b | a in cfgs && b in cfgs && hash(a) == hash(b) :: a == b
  }

  /** For any configs there is a hash that does. */
  lemma {:induction false} SeparatingHash(cfgs: set<Json>) returns (hash: Json -> int)
    ensures Separates(hash, cfgs)
    ensures forall c | c in cfgs :: 0 <= hash(c) < |cfgs|
    decreases |cfgs|
  {
    if cfgs == {} {
      hash := _ => 0;
    } else {
      var c :| c in cfgs;
      var rest := SeparatingHash(cfgs - {c});
      var last := |cfgs| - 1;
      hash := j => if j == c then last else rest(j);
    }
  }

  /** The configs a flush compares: the loaded one and the one it rendered. */
  function Compared(node: Node, cfg: Option<Json>): set<Json> {
    (if node.loaded.Some? then {node.loaded.value} else {}) + (if cfg.Some? then {cfg.value} else {})
  }

  function ActiveClients(store: Store): set<string> {
    set id | id in store && Counts(store[id]) :: store[id].clientId
  }

  /** Each client belongs to one placement. */
  ghost predicate OneOwner(store: Store) {
    forall i, j | i in store && j in store && Counts(store[i]) && Counts(store[j])
      && store[i].clientId == store[j].clientId :: i == j
  }

  ghost function Listing(store: Store): (r: seq<Placement>)
    ensures SetOf(r) == store.Values
  {
    var ids := Names(store.Keys);
    assert forall i | 0 <= i < |ids| :: ids[i] in SetOf(ids);
    var r := seq(|ids|, i requires 0 <= i < |ids| => store[ids[i]]);
    forall p ensures p in r <==> p in store.Values {
      if p in store.Values {
        var k :| k in store && store[k] == p;
        assert k in SetOf(ids);
        var i :| 0 <= i < |ids| && ids[i] == k;
        assert r[i] == p;
      }
    }
    r
  }

  ghost function StateOf(setup: Setup, store: Store): NodeState {
    NodeState(setup.top, setup.inbound, setup.registry, Listing(store))
  }

  ghost predicate Renderable(setup: Setup, store: Store) {
    Valid(StateOf(setup, store))
  }

  ghost function Render(setup: Setup, store: Store): Json
    requires Renderable(setup, store)
  {
    ConfigOf(StateOf(setup, store))
  }

  lemma ListingFacts(store: Store)
    ensures Clients(Listing(store)) == ActiveClients(store)
    ensures OneOwner(store) ==> OnePerClient(Listing(store))
  {
    var s := Listing(store);
    assert forall p :: p in s <==> p in SetOf(s);
    forall c ensures c in Clients(s) <==> c in ActiveClients(store) {
      if c in Clients(s) {
        var p :| p in s && Counts(p) && p.clientId == c;
        var k :| k in store && store[k] == p;
      }
      if c in ActiveClients(store) {
        var k :| k in store && Counts(store[k]) && store[k].clientId == c;
        assert store[k] in store.Values;
      }
    }
  }

  /** Any enumeration of the stored placements builds the same config, or none. */
  lemma AnyListing(setup: Setup, store: Store, s: seq<Placement>)
    requires OneOwner(store) && SetOf(s) == store.Values
    ensures var state := StateOf(setup, store).(placements := s);
            && (Valid(state) <==> Renderable(setup, store))
            && (Valid(state) ==> ConfigOf(state) == Render(setup, store))
  {
    var canon := StateOf(setup, store);
    var state := canon.(placements := s);
    ListingFacts(store);
    assert forall p :: p in s <==> p in SetOf(s);
    assert forall p :: p in canon.placements <==> p in SetOf(canon.placements);
    if Valid(canon) { BuildIgnoresOrder(canon, state); }
  }

  /** And merges into a base alike. */
  lemma AnyMerge(setup: Setup, store: Store, s: seq<Placement>, base: Json)
    requires OneOwner(store) && SetOf(s) == store.Values && base.Obj? && Renderable(setup, store)
    requires Valid(StateOf(setup, store).(placements := s))
    ensures Merge.Merged(base, StateOf(setup, store).(placements := s)) == Merge.Merged(base, StateOf(setup, store))
  {
    ListingFacts(store);
    Merge.MergeIgnoresOrder(base, StateOf(setup, store), StateOf(setup, store).(placements := s));
  }

  /** The backend stored for an active client. */
  lemma StoredChoice(store: Store, id: string)
    requires OneOwner(store) && id in store && Counts(store[id])
    ensures LastBackend(Listing(store), store[id].clientId) == Some(store[id].backendId)
    ensures FirstTransport(Listing(store), store[id].clientId) == Some(store[id].transport)
    ensures store[id].clientId in ActiveClients(store)
  {
    ListingFacts(store);
    assert store[id] in SetOf(Listing(store));
    OnlyChoice(Listing(store), store[id]);
  }

  // Flushing a batch of overlays.

  predicate Skips(setup: Setup, node: Node, cfg: Json) {
    node.lastHash == Some(setup.hash(cfg))
  }

  /** The config of some listed placements: merged into the file if there is one with contents, built
      otherwise. */
  ghost function RenderingOf(setup: Setup, file: Option<Merge.Document>, listed: seq<Placement>): Option<Json> {
    var state := NodeState(setup.top, setup.inbound, setup.registry, listed);
    if !Valid(state) then None
    else if file.None? || file.value.Empty? then Some(ConfigOf(state))
    else if file.value.Parsed? && Merge.Mergeable(file.value.root, setup.inbound.tag) then
      Some(Merge.Merged(file.value.root, state))
    else None
  }

  ghost function Rendering(setup: Setup, file: Option<Merge.Document>, store: Store): Option<Json> {
    RenderingOf(setup, file, Listing(store))
  }

  /** Any listing of a store with one placement per client renders alike. */
  lemma AnyRendering(setup: Setup, file: Option<Merge.Document>, store: Store, listed: seq<Placement>)
    requires OneOwner(store) && SetOf(listed) == store.Values
    ensures RenderingOf(setup, file, listed) == Rendering(setup, file, store)
  {
    AnyListing(setup, store, listed);
    assert StateOf(setup, store).(placements := listed) == NodeState(setup.top, setup.inbound, setup.registry, listed);
    if Renderable(setup, store) && file.Some? && file.value.Parsed? && Merge.Mergeable(file.value.root, setup.inbound.tag) {
      AnyMerge(setup, store, listed, file.value.root);
    }
  }

  function Written(file: Option<Merge.Document>, cfg: Json): Option<Merge.Document> {
    if file.None? then None else Some(Merge.Parsed(cfg))
  }

  /** Write and load a config unless its hash is the remembered one, then persist the overlays. What
      fails before persisting changes nothing but, after a failed reload, the file. */
  ghost predicate LoadStep(setup: Setup, node: Node, cfg: Json, overlays: Store, env: Env, node': Node, ok: bool) {
    var skip := Skips(setup, node, cfg);
    if !skip && !env.writeOk then node' == node && !ok
    else if !skip && !env.reloadOk then node' == node.(file := Written(node.file, cfg)) && !ok
    else
      var live := if skip then node else Loading(setup, node, cfg);
      if env.putFails * overlays.Keys == {} then node' == live.(store := node.store + overlays) && ok
      else !ok && node' == live.(store := node'.store) && Partly(node.store, overlays, node'.store)
  }

  function Loading(setup: Setup, node: Node, cfg: Json): Node {
    node.(loaded := Some(cfg), overrides := map[], lastHash := Some(setup.hash(cfg)), file := Written(node.file, cfg))
  }

  /** A flush renders the store with the overlays on top, as listed, and loads the result. */
  ghost predicate FlushOf(setup: Setup, node: Node, listed: seq<Placement>, overlays: Store, env: Env, node': Node, ok: bool) {
    var cfg := RenderingOf(setup, node.file, listed);
    if !env.listOk || (node.file.Some? && !env.readOk) || cfg.None? then node' == node && !ok
    else LoadStep(setup, node, cfg.value, overlays, env, node', ok)
  }

  ghost predicate FlushStep(setup: Setup, node: Node, overlays: Store, env: Env, node': Node, ok: bool) {
    FlushOf(setup, node, Listing(node.store + overlays), overlays, env, node', ok)
  }

  /** Some of the overlays were stored before a write failed; nothing else changed. */
  ghost predicate Partly(before: Store, overlays: Store, after: Store) {
    && before.Keys <= after.Keys
    && forall id | id in after ::
         || (id in overlays && after[id] == overlays[id])
         || (id in before && after[id] == before[id])
  }

  // Selecting an outbound on the running config.

  predicate HasOption(cfg: Json, selector: string, target: string) {
    var o := FindOutbound(Outbounds(cfg), selector);
    o.Some? && Get(o.value, "type") == Str("selector") && Str(target) in Items(o.value, "outbounds")
  }

  /** sing-box accepts a selection on a selector of the running config that lists the target. */
  predicate Accepts(node: Node, selector: string, target: string) {
    node.loaded.Some? && HasOption(node.loaded.value, selector, target)
  }

  predicate UserKnown(store: Store, client: string) {
    exists id | id in store :: store[id].clientId == client && store[id].desired == Active
  }

  predicate Flips(setup: Setup, node: Node, desired: Placement, env: Env) {
    && Counts(desired)
    && env.listOk
    && UserKnown(node.store, desired.clientId)
    && desired.backendId in Ids(setup.registry)
    && Accepts(node, SelectorTag(desired.clientId), OutboundTag(desired.clientId, desired.backendId))
    && env.selectOk
  }

  function Select(node: Node, desired: Placement): Node {
    node.(overrides := node.overrides[SelectorTag(desired.clientId)
                                      := OutboundTag(desired.clientId, desired.backendId)])
  }

  /** What an operation comes to: it is done or refused at once, it has selected another backend that is
      still to be stored, or it leaves an overlay for the coalescer. */
  datatype Outcome = Done | Refused(reason: string) | Selected(flip: Placement) | Queued(overlay: Placement)

  function FlipOrQueue(setup: Setup, node: Node, desired: Placement, mayFlip: bool, env: Env): Outcome {
    var d := desired.(applied := Applied);
    if mayFlip && Flips(setup, node, d, env) then Selected(d) else Queued(d)
  }

  function SimpleDecision(setup: Setup, node: Node, desired: Placement, env: Env): Outcome {
    if desired.id == "" then Refused("simple-apply: placement ID required")
    else if desired.desired == Active && desired.backendId !in Ids(setup.registry) then
      Refused("simple-apply: backend not in registry")
    else if !env.getOk then Refused("simple-apply: load current placement")
    else if Stale(node.store, desired) then Done
    else FlipOrQueue(setup, node, desired,
                     desired.id in node.store && node.store[desired.id].clientId == desired.clientId, env)
  }

  function SwapDecision(setup: Setup, node: Node, plan: SwapPlan, env: Env): Outcome {
    if plan.desired.id == "" then Refused("swap: plan.Desired.ID required")
    else if plan.desired.id != plan.placementId then Refused("swap: plan.Desired.ID != plan.PlacementID")
    else if !env.getOk then Refused("swap: load current placement")
    else if StaleAt(node.store, plan.placementId, plan.opVersion) then Done
    else FlipOrQueue(setup, node, plan.desired, true, env)
  }

  /** An operation as a whole: a selection is stored at once. */
  predicate Concludes(node: Node, c: Outcome, env: Env, node': Node, r: Outcome) {
    match c
    case Selected(d) =>
      if d.id in env.putFails then node' == Select(node, d) && r.Refused?
      else node' == Select(node, d).(store := node.store[d.id := d]) && r == Done
    case _ => node' == node && r == c
  }

  predicate SimpleApplyStep(setup: Setup, node: Node, desired: Placement, env: Env, node': Node, r: Outcome) {
    Concludes(node, SimpleDecision(setup, node, desired, env), env, node', r)
  }

  predicate SwapRouteStep(setup: Setup, node: Node, plan: SwapPlan, env: Env, node': Node, r: Outcome) {
    Concludes(node, SwapDecision(setup, node, plan, env), env, node', r)
  }
}
