/** Where the selector fast path and the hash skip stop agreeing with a full rebuild. */
module EntryLimits {
  import opened Domain
  import opened Order
  import opened Tags
  import opened Config
  import opened Build
  import opened Meaning
  import opened EntrySpec
  import opened Agreement

  /** The node runs exactly the render of its store. */
  ghost predicate JustLoaded(setup: Setup, node: Node, all: set<string>) {
    && node.file.None?
    && WellKeyed(node.store) && OneOwner(node.store) && ActiveClients(node.store) <= all
    && Renderable(setup, node.store)
    && node.loaded == Some(Render(setup, node.store))
    && node.overrides == map[]
    && node.lastHash == Some(setup.hash(node.loaded.value))
  }

  predicate SameRoute(p: Placement, q: Placement) {
    p.id == q.id && Counts(p) && Counts(q) && p.clientId == q.clientId && p.backendId == q.backendId
  }

  lemma StillRenderable(setup: Setup, store: Store, d: Placement)
    requires Renderable(setup, store) && d.id in store && SameRoute(store[d.id], d)
    ensures Renderable(setup, store[d.id := d])
  {
    var s, t := Listing(store), Listing(store[d.id := d]);
    assert store[d.id] in SetOf(s);
    forall p | p in t && p.desired == Active ensures p.clientId != "" && p.backendId in Ids(setup.registry) {
      assert p in SetOf(t);
      var k :| k in store[d.id := d] && store[d.id := d][k] == p;
      assert store[k] in SetOf(s);
    }
  }

  /** Changing neither a client's backend nor its flow changes nothing in the config. */
  lemma RenderSame(setup: Setup, store: Store, d: Placement)
    requires WellKeyed(store) && OneOwner(store) && Renderable(setup, store)
    requires d.id in store && SameRoute(store[d.id], d) && FlowFor(store[d.id].transport) == FlowFor(d.transport)
    ensures Renderable(setup, store[d.id := d]) && Render(setup, store[d.id := d]) == Render(setup, store)
  {
    var store' := store[d.id := d];
    StillRenderable(setup, store, d);
    MoveKeepsClients(store, d);
    RenderAlike(setup, store, store');
  }

  lemma MovedIsElsewhere(setup: Setup, all: set<string>, client: string, x: string, y: string)
    requires TagsDistinct(all, setup.registry) && client in all
    requires x in Ids(setup.registry) && y in Ids(setup.registry) && x != y
    ensures OutboundTag(client, x) != OutboundTag(client, y)
  {
    var bx, bw := BackendWith(setup.registry, x), BackendWith(setup.registry, y);
    OutboundTells(all, setup.registry, client, bx, client, bw);
  }

  /** The rebuild finds the hash of the config that is loaded. */
  lemma BackSkips(setup: Setup, node: Node, all: set<string>, away: Placement, back: Placement, env: Env)
    requires JustLoaded(setup, node, all) && away.id in node.store
    requires SameRoute(node.store[away.id], back) && back.transport == node.store[away.id].transport
    requires env.listOk && env.putFails == {}
    ensures var moved := Select(node, away).(store := node.store[away.id := away]);
            FlushStep(setup, moved, map[back.id := back], env, moved.(store := node.store[back.id := back]), true)
    ensures Renderable(setup, node.store[back.id := back])
    ensures Render(setup, node.store[back.id := back]) == Render(setup, node.store)
  {
    assert node.store[away.id := away] + map[back.id := back] == node.store[back.id := back];
    RenderSame(setup, node.store, back);
  }

  /** A client is moved by the selector and then back, and the second selection fails: the rebuild
      that takes over finds the hash unchanged and loads nothing, so the client stays where the first
      selection put it while the store says otherwise. This happens to every such pair of moves. */
  lemma FailedFlipBackDisagrees(setup: Setup, node: Node, all: set<string>, away: Placement, back: Placement, env: Env)
    requires JustLoaded(setup, node, all) && TagsDistinct(all, setup.registry)
    requires away.id in node.store && Counts(node.store[away.id])
    requires Counts(away) && away.clientId == node.store[away.id].clientId && away.backendId in Ids(setup.registry)
    requires away.backendId != node.store[away.id].backendId
    requires back.applied == Applied && back.opVersion > away.opVersion && back.id != ""
    requires SameRoute(node.store[away.id], back) && back.transport == node.store[away.id].transport
    requires env.getOk && env.listOk && env.writeOk && env.reloadOk && env.putFails == {} && !env.selectOk
    ensures var moved := Select(node, away).(store := node.store[away.id := away]);
            var end := moved.(store := node.store[back.id := back]);
            && Agrees(setup, moved)
            && SwapRouteStep(setup, moved, PlanFor(back), env, moved, Queued(back))
            && FlushStep(setup, moved, map[back.id := back], env, end, true)
            && !Agrees(setup, end)
  {
    FlipAgrees(setup, node, all, away);
    BackSkips(setup, node, all, away, back, env);
    StaysAway(setup, node, all, away, back);
  }

  lemma StaysAway(setup: Setup, node: Node, all: set<string>, away: Placement, back: Placement)
    requires JustLoaded(setup, node, all) && TagsDistinct(all, setup.registry)
    requires away.id in node.store && Counts(node.store[away.id]) && Counts(away)
    requires away.backendId in Ids(setup.registry) && away.backendId != node.store[away.id].backendId
    requires SameRoute(node.store[away.id], back) && away.clientId == back.clientId
    requires Renderable(setup, node.store[back.id := back])
    requires Render(setup, node.store[back.id := back]) == Render(setup, node.store)
    ensures !Agrees(setup, Select(node, away).(store := node.store[back.id := back]))
  {
    MoveKeepsClients(node.store, back);
    StoredChoice(node.store, away.id);
    RenderedBackend(setup, node.store, back.clientId);
    MovedIsElsewhere(setup, all, back.clientId, away.backendId, back.backendId);
    SkipRoutesIff(setup, Select(node, away), node.store[back.id := back], all, back.id);
  }

  lemma FlipAgrees(setup: Setup, node: Node, all: set<string>, away: Placement)
    requires JustLoaded(setup, node, all) && TagsDistinct(all, setup.registry)
    requires away.id in node.store && Counts(node.store[away.id])
    requires Counts(away) && away.clientId == node.store[away.id].clientId && away.backendId in Ids(setup.registry)
    ensures Agrees(setup, Select(node, away).(store := node.store[away.id := away]))
  {
    LoadSyncs(setup, node, all);
    assert away.clientId in ActiveClients(node.store);
    FlipKeepsSync(setup, node, node.store, all, away);
    InSyncAgrees(setup, Select(node, away).(store := node.store[away.id := away]), node.store, all);
  }

  // A client handed to another placement.

  /** Clients that both stores have active are on the same backend with the same flow. */
  ghost predicate Alike(s: Store, t: Store) {
    forall i, j | i in s && j in t && Counts(s[i]) && Counts(t[j]) && s[i].clientId == t[j].clientId ::
      s[i].backendId == t[j].backendId && FlowFor(s[i].transport) == FlowFor(t[j].transport)
  }

  lemma RenderAlike(setup: Setup, s: Store, t: Store)
    requires Renderable(setup, s) && Renderable(setup, t) && OneOwner(s) && OneOwner(t)
    requires ActiveClients(s) == ActiveClients(t) && Alike(s, t)
    ensures Render(setup, s) == Render(setup, t)
  {
    ListingFacts(s);
    ListingFacts(t);
    forall c | c in ActiveClients(s)
      ensures c in Clients(Listing(s)) && c in Clients(Listing(t))
      ensures LastBackend(Listing(s), c) == LastBackend(Listing(t), c)
      ensures FlowFor(FirstTransport(Listing(s), c).value) == FlowFor(FirstTransport(Listing(t), c).value)
    {
      var i :| i in s && Counts(s[i]) && s[i].clientId == c;
      var j :| j in t && Counts(t[j]) && t[j].clientId == c;
      StoredChoice(s, i);
      StoredChoice(t, j);
    }
    ConfigCongruence(StateOf(setup, s), StateOf(setup, t));
  }

  /** The placement `gone` retires and `heir` takes over its client on the backend it was rendered with. */
  predicate Handover(store: Store, gone: Placement, heir: Placement) {
    && gone.id in store && Counts(store[gone.id]) && gone.desired == Inactive
    && heir.id !in store && Counts(heir) && heir.clientId == store[gone.id].clientId
    && heir.backendId == store[gone.id].backendId && FlowFor(heir.transport) == FlowFor(store[gone.id].transport)
  }

  function Handed(store: Store, gone: Placement, heir: Placement): Store {
    store[gone.id := gone][heir.id := heir]
  }

  lemma HandedClients(store: Store, gone: Placement, heir: Placement)
    requires OneOwner(store) && Handover(store, gone, heir)
    ensures var after := Handed(store, gone, heir);
            OneOwner(after) && ActiveClients(after) == ActiveClients(store) && Alike(store, after)
  {
    var after := Handed(store, gone, heir);
    forall k | k in after && Counts(after[k]) ensures k == heir.id || (k in store && k != gone.id && after[k] == store[k]) {
    }
    forall c ensures c in ActiveClients(after) <==> c in ActiveClients(store) {
      if c in ActiveClients(after) {
        var k :| k in after && Counts(after[k]) && after[k].clientId == c;
        assert store[if k == heir.id then gone.id else k].clientId == c;
      }
      if c in ActiveClients(store) {
        var k :| k in store && Counts(store[k]) && store[k].clientId == c;
        assert after[if k == gone.id then heir.id else k].clientId == c;
      }
    }
  }

  lemma HandedRenders(setup: Setup, store: Store, gone: Placement, heir: Placement)
    requires OneOwner(store) && Renderable(setup, store) && Handover(store, gone, heir)
    ensures var after := Handed(store, gone, heir);
            Renderable(setup, after) && Render(setup, after) == Render(setup, store)
  {
    var after := Handed(store, gone, heir);
    var s, t := Listing(store), Listing(after);
    assert store[gone.id] in SetOf(s);
    forall p | p in t && p.desired == Active ensures p.clientId != "" && p.backendId in Ids(setup.registry) {
      assert p in SetOf(t);
      var k :| k in after && after[k] == p;
      if k != heir.id { assert store[k] in SetOf(s); }
    }
    HandedClients(store, gone, heir);
    RenderAlike(setup, store, after);
  }

  /** Every call succeeds: a client is moved by its selector, and one batch then retires its placement and
      brings the client in again as another placement on the backend it had before. The hash is unchanged,
      nothing is loaded, and the client stays where the selection put it. */
  lemma HandoverDisagrees(setup: Setup, node: Node, all: set<string>, away: Placement, gone: Placement, heir: Placement, env: Env)
    requires JustLoaded(setup, node, all) && TagsDistinct(all, setup.registry) && Handover(node.store, gone, heir)
    requires away.id == gone.id && Counts(away) && away.clientId == heir.clientId
    requires away.backendId in Ids(setup.registry) && away.backendId != heir.backendId
    requires gone.id != "" && gone.applied == Applied && gone.opVersion > away.opVersion
    requires heir.id != "" && heir.applied == Applied && heir.opVersion > 0
    requires env.getOk && env.listOk && env.selectOk && env.writeOk && env.reloadOk && env.putFails == {}
    ensures var moved := Select(node, away).(store := node.store[away.id := away]);
            var end := moved.(store := Handed(node.store, gone, heir));
            && Agrees(setup, moved)
            && SimpleApplyStep(setup, moved, gone, env, moved, Queued(gone))
            && SimpleApplyStep(setup, moved, heir, env, moved, Queued(heir))
            && FlushStep(setup, moved, map[gone.id := gone, heir.id := heir], env, end, true)
            && OneOwner(end.store) && !Agrees(setup, end)
  {
    FlipAgrees(setup, node, all, away);
    HandoverQueues(setup, node, all, away, gone, heir, env);
    HandoverSkips(setup, node, all, away, gone, heir, env);
    HandoverStaysAway(setup, node, all, away, gone, heir);
  }

  lemma HandoverQueues(setup: Setup, node: Node, all: set<string>, away: Placement, gone: Placement, heir: Placement, env: Env)
    requires JustLoaded(setup, node, all) && Handover(node.store, gone, heir) && away.id == gone.id
    requires gone.id != "" && gone.applied == Applied && gone.opVersion > away.opVersion
    requires heir.id != "" && heir.applied == Applied && heir.opVersion > 0 && env.getOk
    ensures var moved := Select(node, away).(store := node.store[away.id := away]);
            && SimpleApplyStep(setup, moved, gone, env, moved, Queued(gone))
            && SimpleApplyStep(setup, moved, heir, env, moved, Queued(heir))
  {
    StoredChoice(node.store, gone.id);
    RenderedBackend(setup, node.store, heir.clientId);
    assert gone.(applied := Applied) == gone && heir.(applied := Applied) == heir;
  }

  lemma HandoverSkips(setup: Setup, node: Node, all: set<string>, away: Placement, gone: Placement, heir: Placement, env: Env)
    requires JustLoaded(setup, node, all) && Handover(node.store, gone, heir) && away.id == gone.id
    requires env.listOk && env.putFails == {}
    ensures var moved := Select(node, away).(store := node.store[away.id := away]);
            FlushStep(setup, moved, map[gone.id := gone, heir.id := heir], env,
                      moved.(store := Handed(node.store, gone, heir)), true)
  {
    assert node.store[away.id := away] + map[gone.id := gone, heir.id := heir] == Handed(node.store, gone, heir);
    HandedRenders(setup, node.store, gone, heir);
  }

  lemma HandoverStaysAway(setup: Setup, node: Node, all: set<string>, away: Placement, gone: Placement, heir: Placement)
    requires JustLoaded(setup, node, all) && TagsDistinct(all, setup.registry) && Handover(node.store, gone, heir)
    requires away.clientId == heir.clientId && away.backendId in Ids(setup.registry) && away.backendId != heir.backendId
    ensures var after := Handed(node.store, gone, heir);
            OneOwner(after) && !Agrees(setup, Select(node, away).(store := after))
  {
    var after := Handed(node.store, gone, heir);
    HandedClients(node.store, gone, heir);
    HandedRenders(setup, node.store, gone, heir);
    StoredChoice(node.store, gone.id);
    RenderedBackend(setup, node.store, heir.clientId);
    MovedIsElsewhere(setup, all, heir.clientId, away.backendId, heir.backendId);
    SkipRoutesIff(setup, Select(node, away), after, all, heir.id);
    assert after[heir.id] == heir;
  }

  // Flows.

  ghost function UserList(store: Store): seq<Json> {
    NamesAreClients(Listing(store));
    UsersFor(Names(Clients(Listing(store))), Listing(store))
  }

  lemma EntryFlow(client: string, f: string, g: string)
    ensures UserEntry(client, f) == UserEntry(client, g) <==> f == g
  {
    assert Get(UserEntry(client, f), "flow") == if f == "" then Null else Str(f);
    assert Get(UserEntry(client, g), "flow") == if g == "" then Null else Str(g);
  }

  /** The users a config's inbound lists. */
  function ListedUsers(cfg: Json): seq<Json> {
    var inbounds := Items(cfg, "inbounds");
    if inbounds == [] then [] else Items(inbounds[0], "users")
  }

  lemma RenderLists(setup: Setup, store: Store)
    requires Renderable(setup, store)
    ensures ListedUsers(Render(setup, store)) == UserList(store)
  {
    var cfg := Render(setup, store);
    var inbound := Obj(setup.inbound.shell + map["tag" := Str(setup.inbound.tag), "users" := Arr(UserList(store))]);
    assert Get(cfg, "inbounds") == Arr([inbound]);
    assert Get(inbound, "users") == Arr(UserList(store));
  }

  lemma UserRowIff(store: Store, d: Placement, client: string)
    requires WellKeyed(store) && OneOwner(store) && d.id in store && Counts(d) && Counts(store[d.id])
    requires store[d.id].clientId == d.clientId && client in ActiveClients(store)
    ensures var store' := store[d.id := d];
            && client in Clients(Listing(store)) && client in Clients(Listing(store'))
            && (Row(store, client) == Row(store', client)
                <==> (client == d.clientId ==> FlowFor(d.transport) == FlowFor(store[d.id].transport)))
  {
    var store' := store[d.id := d];
    MoveKeepsClients(store, d);
    ListingFacts(store);
    ListingFacts(store');
    var k :| k in store && Counts(store[k]) && store[k].clientId == client;
    assert k == d.id <==> client == d.clientId;
    StoredChoice(store, k);
    StoredChoice(store', k);
    EntryFlow(client, FlowFor(store[k].transport), FlowFor(store'[k].transport));
  }

  ghost function Row(store: Store, client: string): Json
    requires client in Clients(Listing(store))
  {
    UserEntry(client, FlowFor(FirstTransport(Listing(store), client).value))
  }

  lemma RowsOfList(store: Store, i: nat)
    requires i < |Names(ActiveClients(store))|
    ensures var c := Names(ActiveClients(store))[i];
            && |UserList(store)| == |Names(ActiveClients(store))|
            && c in ActiveClients(store) && c in Clients(Listing(store)) && UserList(store)[i] == Row(store, c)
  {
    ListingFacts(store);
    assert Names(ActiveClients(store))[i] in SetOf(Names(ActiveClients(store)));
  }

  lemma UserListsIff(store: Store, d: Placement)
    requires WellKeyed(store) && OneOwner(store) && d.id in store && Counts(d) && Counts(store[d.id])
    requires store[d.id].clientId == d.clientId
    ensures UserList(store[d.id := d]) == UserList(store) <==> FlowFor(d.transport) == FlowFor(store[d.id].transport)
  {
    var store' := store[d.id := d];
    MoveKeepsClients(store, d);
    var names := Names(ActiveClients(store));
    assert d.clientId in ActiveClients(store) && d.clientId in SetOf(names);
    var j :| 0 <= j < |names| && names[j] == d.clientId;
    RowsOfList(store, j);
    RowsOfList(store', j);
    UserRowIff(store, d, d.clientId);
    var a, b := UserList(store), UserList(store');
    if FlowFor(d.transport) == FlowFor(store[d.id].transport) {
      forall i | 0 <= i < |names| ensures a[i] == b[i] {
        RowsOfList(store, i);
        RowsOfList(store', i);
        UserRowIff(store, d, names[i]);
      }
    }
  }

  /** A selector flip leaves the loaded user list equal to that of a full rebuild exactly when the
      placement's flow did not change with it: the flip never rewrites the inbound's users. */
  lemma FlipMatchesRebuildIff(setup: Setup, node: Node, all: set<string>, d: Placement)
    requires JustLoaded(setup, node, all) && d.id in node.store && Counts(d)
    requires Counts(node.store[d.id]) && node.store[d.id].clientId == d.clientId
    requires Renderable(setup, node.store[d.id := d])
    ensures ListedUsers(Select(node, d).loaded.value) == ListedUsers(Render(setup, node.store[d.id := d]))
            <==> FlowFor(d.transport) == FlowFor(node.store[d.id].transport)
  {
    RenderLists(setup, node.store);
    RenderLists(setup, node.store[d.id := d]);
    UserListsIff(node.store, d);
  }
}
