/** The running sing-box agrees with the store, although selector flips never reload it and flushes
    with an unchanged hash skip the reload. */
module Agreement {
  import opened Domain
  import opened Order
  import opened Tags
  import opened Config
  import opened Build
  import opened Meaning
  import opened EntrySpec

  /** An active placement's client leaves by the stored backend. */
  ghost predicate Routed(setup: Setup, node: Node, p: Placement) {
    && p.backendId in Ids(setup.registry)
    && node.loaded.Some?
    && Dispatch(node.loaded.value, node.overrides, p.clientId)
       == Some(UserOutbound(p.clientId, BackendWith(setup.registry, p.backendId)))
  }

  /** Every active client leaves by its stored backend and nobody else is routed. */
  ghost predicate Agrees(setup: Setup, node: Node) {
    && (forall id | id in node.store && Counts(node.store[id]) :: Routed(setup, node, node.store[id]))
    && (forall user | user !in ActiveClients(node.store) ::
          node.loaded.Some? ==> Dispatch(node.loaded.value, node.overrides, user) == None)
  }

  lemma TagsDistinctSubset(clients: set<string>, all: set<string>, backends: seq<Backend>)
    requires clients <= all && TagsDistinct(all, backends)
    ensures TagsDistinct(clients, backends)
  {
  }

  /** What the loaded config says of a client, in terms of the store it was rendered from. */
  lemma RenderedDispatch(setup: Setup, rendered: Store, all: set<string>, overrides: Overrides, client: string, b: Backend)
    requires Renderable(setup, rendered) && ActiveClients(rendered) <= all && TagsDistinct(all, setup.registry)
    requires client in ActiveClients(rendered) && b in setup.registry
    requires client in Clients(Listing(rendered))
    requires Points(overrides, client, LastBackend(Listing(rendered), client).value, b.id)
    ensures Dispatch(Render(setup, rendered), overrides, client) == Some(UserOutbound(client, b))
  {
    var state := StateOf(setup, rendered);
    ListingFacts(rendered);
    TagsDistinctSubset(ActiveClients(rendered), all, setup.registry);
    ConfigDescribes(state);
    DispatchFollowsSelector(ConfigOf(state), state, overrides, client, b);
  }

  lemma RenderedStranger(setup: Setup, rendered: Store, overrides: Overrides, user: string)
    requires Renderable(setup, rendered) && user !in ActiveClients(rendered)
    ensures Dispatch(Render(setup, rendered), overrides, user) == None
  {
    var state := StateOf(setup, rendered);
    ListingFacts(rendered);
    ConfigDescribes(state);
    DispatchOfStranger(ConfigOf(state), state, overrides, user);
  }

  lemma RenderedBackend(setup: Setup, rendered: Store, client: string)
    requires Renderable(setup, rendered) && client in ActiveClients(rendered)
    ensures client in Clients(Listing(rendered))
    ensures LastBackend(Listing(rendered), client).value in Ids(setup.registry)
  {
    ListingFacts(rendered);
    LastBackendKnown(Listing(rendered), client);
  }

  lemma RenderedSelector(setup: Setup, rendered: Store, all: set<string>, client: string)
    requires Renderable(setup, rendered) && ActiveClients(rendered) <= all && TagsDistinct(all, setup.registry)
    requires client in ActiveClients(rendered) && client in Clients(Listing(rendered))
    ensures FindOutbound(Outbounds(Render(setup, rendered)), SelectorTag(client))
            == Some(UserSelector(client, SortedBackends(setup.registry), LastBackend(Listing(rendered), client).value))
  {
    var state := StateOf(setup, rendered);
    ListingFacts(rendered);
    TagsDistinctSubset(ActiveClients(rendered), all, setup.registry);
    ConfigDescribes(state);
    FindUserSelector(state, client);
  }

  lemma RenderedRule(setup: Setup, rendered: Store, user: string)
    requires Renderable(setup, rendered)
    ensures FirstRule(Rules(Render(setup, rendered)), user).Some? <==> user in ActiveClients(rendered)
  {
    var state := StateOf(setup, rendered);
    ListingFacts(rendered);
    ConfigDescribes(state);
    var users := Names(Clients(state.placements));
    assert forall u :: u in users <==> u in SetOf(users);
    RuleOf(users, user);
  }

  /** Equal configs come from stores with the same active clients on the same backends. */
  lemma RenderInjective(setup: Setup, s: Store, t: Store, all: set<string>)
    requires Renderable(setup, s) && Renderable(setup, t) && Render(setup, s) == Render(setup, t)
    requires ActiveClients(s) <= all && ActiveClients(t) <= all && TagsDistinct(all, setup.registry)
    ensures ActiveClients(s) == ActiveClients(t)
    ensures forall c | c in ActiveClients(s) ::
              && c in Clients(Listing(s)) && c in Clients(Listing(t))
              && LastBackend(Listing(s), c) == LastBackend(Listing(t), c)
  {
    forall c ensures c in ActiveClients(s) <==> c in ActiveClients(t) {
      RenderedRule(setup, s, c);
      RenderedRule(setup, t, c);
    }
    forall c | c in ActiveClients(s)
      ensures c in Clients(Listing(s)) && c in Clients(Listing(t))
      ensures LastBackend(Listing(s), c) == LastBackend(Listing(t), c)
    {
      RenderedBackend(setup, s, c);
      RenderedBackend(setup, t, c);
      RenderedSelector(setup, s, all, c);
      RenderedSelector(setup, t, all, c);
      SelectorInjective(c, setup.registry, all, SortedBackends(setup.registry),
                        LastBackend(Listing(s), c).value, LastBackend(Listing(t), c).value);
    }
  }

  lemma SelectorInjective(c: string, registry: seq<Backend>, all: set<string>, sorted: seq<Backend>, x: string, y: string)
    requires c in all && TagsDistinct(all, registry) && x in Ids(registry) && y in Ids(registry)
    requires UserSelector(c, sorted, x) == UserSelector(c, sorted, y)
    ensures x == y
  {
    assert Get(UserSelector(c, sorted, x), "default") == Str(OutboundTag(c, x));
    assert Get(UserSelector(c, sorted, y), "default") == Str(OutboundTag(c, y));
    var bx, bw := BackendWith(registry, x), BackendWith(registry, y);
    OutboundTells(all, registry, c, bx, c, bw);
  }

  // Which node agrees.

  ghost predicate Pointed(setup: Setup, overrides: Overrides, rendered: Store, client: string, backend: string) {
    && backend in Ids(setup.registry)
    && client in Clients(Listing(rendered))
    && Points(overrides, client, LastBackend(Listing(rendered), client).value, backend)
  }

  ghost predicate AllPointed(setup: Setup, store: Store, overrides: Overrides, rendered: Store) {
    forall id | id in store && Counts(store[id]) ::
      Pointed(setup, overrides, rendered, store[id].clientId, store[id].backendId)
  }

  /** A client leaves by a backend exactly when the loaded config has a selector for it that points there:
      by the selection made on it, or by the rendered default. */
  lemma RoutedIff(setup: Setup, node: Node, rendered: Store, all: set<string>, p: Placement)
    requires Renderable(setup, rendered) && ActiveClients(rendered) <= all && TagsDistinct(all, setup.registry)
    requires node.loaded == Some(Render(setup, rendered))
    ensures Routed(setup, node, p) <==> Pointed(setup, node.overrides, rendered, p.clientId, p.backendId)
  {
    ListingFacts(rendered);
    if p.clientId !in ActiveClients(rendered) {
      RenderedStranger(setup, rendered, node.overrides, p.clientId);
    } else if p.backendId in Ids(setup.registry) {
      RenderedBackend(setup, rendered, p.clientId);
      var b, chosen := BackendWith(setup.registry, p.backendId), LastBackend(Listing(rendered), p.clientId).value;
      if Points(node.overrides, p.clientId, chosen, p.backendId) {
        RenderedDispatch(setup, rendered, all, node.overrides, p.clientId, b);
      } else if SelectorTag(p.clientId) in node.overrides {
        AwayIsElsewhere(setup, rendered, all, node.overrides, p.clientId, b);
      } else {
        DefaultIsElsewhere(setup, rendered, all, node.overrides, p.clientId, b);
      }
    }
  }

  /** Without a selection the client leaves by the rendered backend and by no other. */
  lemma DefaultIsElsewhere(setup: Setup, rendered: Store, all: set<string>, overrides: Overrides, client: string, b: Backend)
    requires Renderable(setup, rendered) && ActiveClients(rendered) <= all && TagsDistinct(all, setup.registry)
    requires client in ActiveClients(rendered) && client in Clients(Listing(rendered))
    requires SelectorTag(client) !in overrides && b in setup.registry
    requires LastBackend(Listing(rendered), client).value != b.id
    ensures Dispatch(Render(setup, rendered), overrides, client) != Some(UserOutbound(client, b))
  {
    RenderedBackend(setup, rendered, client);
    var chosen := BackendWith(setup.registry, LastBackend(Listing(rendered), client).value);
    RenderedDispatch(setup, rendered, all, overrides, client, chosen);
    TagsOfRows(client, b, [], "");
    TagsOfRows(client, chosen, [], "");
    OutboundTells(all, setup.registry, client, b, client, chosen);
  }

  /** Every selection made for a client of the loaded config names a registered backend. */
  ghost predicate Served(setup: Setup, overrides: Overrides, rendered: Store) {
    forall c | c in ActiveClients(rendered) && SelectorTag(c) in overrides ::
      exists b | b in setup.registry :: overrides[SelectorTag(c)] == OutboundTag(c, b.id)
  }

  lemma ClientIsRouted(setup: Setup, rendered: Store, all: set<string>, overrides: Overrides, client: string)
    requires Renderable(setup, rendered) && ActiveClients(rendered) <= all && TagsDistinct(all, setup.registry)
    requires Served(setup, overrides, rendered) && client in ActiveClients(rendered)
    ensures Dispatch(Render(setup, rendered), overrides, client).Some?
  {
    RenderedBackend(setup, rendered, client);
    if SelectorTag(client) in overrides {
      var b :| b in setup.registry && overrides[SelectorTag(client)] == OutboundTag(client, b.id);
      RenderedDispatch(setup, rendered, all, overrides, client, b);
    } else {
      RenderedDispatch(setup, rendered, all, overrides, client,
                       BackendWith(setup.registry, LastBackend(Listing(rendered), client).value));
    }
  }

  lemma DispatchKnows(setup: Setup, rendered: Store, all: set<string>, overrides: Overrides, user: string)
    requires Renderable(setup, rendered) && ActiveClients(rendered) <= all && TagsDistinct(all, setup.registry)
    requires Served(setup, overrides, rendered)
    ensures Dispatch(Render(setup, rendered), overrides, user).Some? <==> user in ActiveClients(rendered)
  {
    if user in ActiveClients(rendered) {
      ClientIsRouted(setup, rendered, all, overrides, user);
    } else {
      RenderedStranger(setup, rendered, overrides, user);
    }
  }

  ghost predicate OnlyRouted(cfg: Json, overrides: Overrides, clients: set<string>) {
    forall user :: Dispatch(cfg, overrides, user).Some? <==> user in clients
  }

  /** An agreeing node routes exactly its active clients. */
  lemma AgreeingRoutes(setup: Setup, node: Node)
    requires Agrees(setup, node) && node.loaded.Some?
    ensures OnlyRouted(node.loaded.value, node.overrides, ActiveClients(node.store))
  {
    forall user | user in ActiveClients(node.store) ensures Dispatch(node.loaded.value, node.overrides, user).Some? {
      var id :| id in node.store && Counts(node.store[id]) && node.store[id].clientId == user;
      assert Routed(setup, node, node.store[id]);
    }
  }

  /** A node agrees with its store exactly when the loaded config was rendered for the same clients and
      every selector points to the stored backend. */
  lemma AgreesIff(setup: Setup, node: Node, rendered: Store, all: set<string>)
    requires Renderable(setup, rendered) && ActiveClients(rendered) <= all && TagsDistinct(all, setup.registry)
    requires node.loaded == Some(Render(setup, rendered)) && Served(setup, node.overrides, rendered)
    ensures Agrees(setup, node) <==>
            && ActiveClients(node.store) == ActiveClients(rendered)
            && AllPointed(setup, node.store, node.overrides, rendered)
  {
    var cfg := node.loaded.value;
    forall user ensures Dispatch(cfg, node.overrides, user).Some? <==> user in ActiveClients(rendered) {
      DispatchKnows(setup, rendered, all, node.overrides, user);
    }
    forall id | id in node.store && Counts(node.store[id])
      ensures Routed(setup, node, node.store[id]) <==>
              Pointed(setup, node.overrides, rendered, node.store[id].clientId, node.store[id].backendId)
    {
      RoutedIff(setup, node, rendered, all, node.store[id]);
    }
    RoutesDecide(setup, node, rendered);
  }

  lemma RoutesDecide(setup: Setup, node: Node, rendered: Store)
    requires node.loaded.Some? && OnlyRouted(node.loaded.value, node.overrides, ActiveClients(rendered))
    requires forall id | id in node.store && Counts(node.store[id]) ::
               Routed(setup, node, node.store[id]) <==>
               Pointed(setup, node.overrides, rendered, node.store[id].clientId, node.store[id].backendId)
    ensures Agrees(setup, node) <==>
            && ActiveClients(node.store) == ActiveClients(rendered)
            && AllPointed(setup, node.store, node.overrides, rendered)
  {
    if Agrees(setup, node) {
      AgreeingRoutes(setup, node);
      assert forall c :: c in ActiveClients(node.store) <==> c in ActiveClients(rendered);
    }
  }

  // The invariant.

  /** There is no file to merge into; the loaded config was rendered from `rendered`, which had today's
      active clients; and the hash is that of the loaded config. */
  ghost predicate RunsRender(setup: Setup, node: Node, rendered: Store, all: set<string>) {
    && node.file.None?
    && WellKeyed(node.store) && OneOwner(node.store) && ActiveClients(node.store) <= all
    && (node.loaded.None? ==> node.lastHash.None? && ActiveClients(node.store) == {})
    && (node.loaded.Some? ==>
          && Renderable(setup, rendered) && OneOwner(rendered)
          && node.loaded.value == Render(setup, rendered)
          && node.lastHash == Some(setup.hash(node.loaded.value))
          && ActiveClients(rendered) == ActiveClients(node.store))
  }

  /** Besides, each selector points to the stored backend. */
  ghost predicate InSync(setup: Setup, node: Node, rendered: Store, all: set<string>) {
    && RunsRender(setup, node, rendered, all)
    && (node.loaded.Some? ==> AllPointed(setup, node.store, node.overrides, rendered))
  }

  lemma InSyncServed(setup: Setup, node: Node, rendered: Store, all: set<string>)
    requires InSync(setup, node, rendered, all) && node.loaded.Some?
    ensures Served(setup, node.overrides, rendered)
  {
    forall c | c in ActiveClients(rendered) && SelectorTag(c) in node.overrides
      ensures exists b | b in setup.registry :: node.overrides[SelectorTag(c)] == OutboundTag(c, b.id)
    {
      var id :| id in node.store && Counts(node.store[id]) && node.store[id].clientId == c;
      assert Pointed(setup, node.overrides, rendered, c, node.store[id].backendId);
      var b := BackendWith(setup.registry, node.store[id].backendId);
      assert b in setup.registry && node.overrides[SelectorTag(c)] == OutboundTag(c, b.id);
    }
  }

  lemma InSyncAgrees(setup: Setup, node: Node, rendered: Store, all: set<string>)
    requires InSync(setup, node, rendered, all) && TagsDistinct(all, setup.registry)
    ensures Agrees(setup, node)
  {
    if node.loaded.Some? {
      InSyncServed(setup, node, rendered, all);
      AgreesIff(setup, node, rendered, all);
    } else {
      NoneActive(node.store);
    }
  }

  lemma NoneActive(store: Store)
    requires ActiveClients(store) == {}
    ensures forall id | id in store :: !Counts(store[id])
  {
    ActiveMembers(store);
  }

  lemma ActiveMembers(store: Store)
    ensures forall id | id in store :: Counts(store[id]) ==> store[id].clientId in ActiveClients(store)
  {
  }

  // Selector flips.

  /** sing-box can always serve the flip of a known client to a registered backend. */
  lemma FlipIsServable(setup: Setup, node: Node, rendered: Store, all: set<string>, client: string, backend: string)
    requires RunsRender(setup, node, rendered, all) && TagsDistinct(all, setup.registry)
    requires client in ActiveClients(node.store) && backend in Ids(setup.registry)
    ensures Accepts(node, SelectorTag(client), OutboundTag(client, backend))
  {
    RenderedBackend(setup, rendered, client);
    RenderedSelector(setup, rendered, all, client);
    var sorted := SortedBackends(setup.registry);
    var b := BackendWith(setup.registry, backend);
    assert b in SetOf(sorted);
    var i :| 0 <= i < |sorted| && sorted[i] == b;
    OptionListed(client, sorted, LastBackend(Listing(rendered), client).value, i);
  }

  lemma OptionListed(client: string, backends: seq<Backend>, chosen: string, i: nat)
    requires i < |backends|
    ensures Get(UserSelector(client, backends, chosen), "type") == Str("selector")
    ensures Str(OutboundTag(client, backends[i].id)) in Items(UserSelector(client, backends, chosen), "outbounds")
  {
    var options := Options(client, backends) + [Str("block")];
    assert Items(UserSelector(client, backends, chosen), "outbounds") == options;
    assert options[i] == Str(OutboundTag(client, backends[i].id));
  }

  /** Moving a placement to another backend keeps its client the owner's. */
  lemma MoveKeepsClients(store: Store, d: Placement)
    requires WellKeyed(store) && OneOwner(store) && Counts(d)
    requires d.id in store && Counts(store[d.id]) && store[d.id].clientId == d.clientId
    ensures var store' := store[d.id := d];
            WellKeyed(store') && OneOwner(store') && ActiveClients(store') == ActiveClients(store)
  {
    var store' := store[d.id := d];
    assert forall k :: k in store' <==> k in store;
    assert forall k | k in store :: Counts(store'[k]) == Counts(store[k]) && store'[k].clientId == store[k].clientId;
    forall c ensures c in ActiveClients(store') <==> c in ActiveClients(store) {
      if c in ActiveClients(store) {
        var k :| k in store && Counts(store[k]) && store[k].clientId == c;
        assert k in store' && Counts(store'[k]) && store'[k].clientId == c;
      }
    }
  }

  /** A selection moves its own client and nobody else. */
  lemma SelectMoves(setup: Setup, node: Node, rendered: Store, all: set<string>, d: Placement, client: string, backend: string)
    requires TagsDistinct(all, setup.registry) && d.clientId in all && client in all
    requires Pointed(setup, node.overrides, rendered, client, backend) && d.backendId in Ids(setup.registry)
    ensures Pointed(setup, Select(node, d).overrides, rendered, client,
                    if client == d.clientId then d.backendId else backend)
  {
    SelectorTells(all, setup.registry, client, d.clientId);
  }

  lemma FlipPoints(setup: Setup, node: Node, rendered: Store, all: set<string>, d: Placement)
    requires TagsDistinct(all, setup.registry) && AllPointed(setup, node.store, node.overrides, rendered)
    requires OneOwner(node.store) && ActiveClients(node.store) <= all
    requires Counts(d) && d.clientId in all && d.backendId in Ids(setup.registry)
    requires d.id in node.store && Counts(node.store[d.id]) && node.store[d.id].clientId == d.clientId
    ensures AllPointed(setup, node.store[d.id := d], Select(node, d).overrides, rendered)
  {
    var store' := node.store[d.id := d];
    forall id | id in store' && Counts(store'[id])
      ensures Pointed(setup, Select(node, d).overrides, rendered, store'[id].clientId, store'[id].backendId)
    {
      var p := node.store[id];
      assert Counts(p) && p.clientId in ActiveClients(node.store);
      assert id != d.id ==> p.clientId != d.clientId;
      SelectMoves(setup, node, rendered, all, d, p.clientId, p.backendId);
    }
  }

  /** A flip through the selector keeps the node in sync without touching the loaded config. */
  lemma FlipKeepsSync(setup: Setup, node: Node, rendered: Store, all: set<string>, d: Placement)
    requires InSync(setup, node, rendered, all) && TagsDistinct(all, setup.registry)
    requires Counts(d) && d.clientId in all && d.backendId in Ids(setup.registry)
    requires d.id in node.store && Counts(node.store[d.id]) && node.store[d.id].clientId == d.clientId
    requires node.loaded.Some?
    ensures InSync(setup, Select(node, d).(store := node.store[d.id := d]), rendered, all)
  {
    MoveKeepsClients(node.store, d);
    FlipPoints(setup, node, rendered, all, d);
  }

  // Flushes.

  /** Loading a fresh render puts the node in sync whatever it ran before. */
  lemma LoadSyncs(setup: Setup, node: Node, all: set<string>)
    requires node.file.None? && WellKeyed(node.store) && OneOwner(node.store) && ActiveClients(node.store) <= all
    requires Renderable(setup, node.store) && node.loaded == Some(Render(setup, node.store))
    requires node.overrides == map[] && node.lastHash == Some(setup.hash(node.loaded.value))
    ensures InSync(setup, node, node.store, all)
  {
    forall id | id in node.store && Counts(node.store[id]) ensures Pointed(setup, node.overrides, node.store, node.store[id].clientId, node.store[id].backendId) {
      StoredChoice(node.store, id);
      ListingFacts(node.store);
      RenderedBackend(setup, node.store, node.store[id].clientId);
    }
  }

  /** A flush that skips the reload leaves the agreement exactly when no active client's selector
      points away from the backend it is now stored on. */
  lemma SkipAgreesIff(setup: Setup, node: Node, store: Store, all: set<string>)
    requires TagsDistinct(all, setup.registry)
    requires WellKeyed(store) && OneOwner(store) && ActiveClients(store) <= all && Renderable(setup, store)
    requires Separates(setup.hash, Compared(node, Some(Render(setup, store))))
    requires node.loaded.Some? && node.lastHash == Some(setup.hash(node.loaded.value))
    requires Skips(setup, node, Render(setup, store))
    ensures Agrees(setup, node.(store := store)) <==> forall id | id in store && Counts(store[id]) ::
              SelectorTag(store[id].clientId) in node.overrides ==>
                node.overrides[SelectorTag(store[id].clientId)] == OutboundTag(store[id].clientId, store[id].backendId)
  {
    var node' := node.(store := store);
    assert node.loaded.value == Render(setup, store);
    forall user | user !in ActiveClients(store) ensures Dispatch(node.loaded.value, node.overrides, user) == None {
      RenderedStranger(setup, store, node.overrides, user);
    }
    forall id | id in store && Counts(store[id])
      ensures Routed(setup, node', store[id]) <==>
              (SelectorTag(store[id].clientId) in node.overrides ==>
                node.overrides[SelectorTag(store[id].clientId)] == OutboundTag(store[id].clientId, store[id].backendId))
    {
      SkipRoutesIff(setup, node, store, all, id);
    }
  }

  lemma SkipRoutesIff(setup: Setup, node: Node, store: Store, all: set<string>, id: string)
    requires TagsDistinct(all, setup.registry)
    requires OneOwner(store) && ActiveClients(store) <= all && Renderable(setup, store)
    requires node.loaded == Some(Render(setup, store)) && id in store && Counts(store[id])
    ensures var c := store[id].clientId;
            Routed(setup, node.(store := store), store[id]) <==>
              (SelectorTag(c) in node.overrides ==> node.overrides[SelectorTag(c)] == OutboundTag(c, store[id].backendId))
  {
    StoredChoice(store, id);
    RenderedBackend(setup, store, store[id].clientId);
    RoutedIff(setup, node.(store := store), store, all, store[id]);
  }

  /** A selector that points away sends the client to some other outbound. */
  lemma AwayIsElsewhere(setup: Setup, store: Store, all: set<string>, overrides: Overrides, client: string, b: Backend)
    requires Renderable(setup, store) && ActiveClients(store) <= all && TagsDistinct(all, setup.registry)
    requires client in ActiveClients(store) && SelectorTag(client) in overrides
    requires overrides[SelectorTag(client)] != OutboundTag(client, b.id)
    ensures Dispatch(Render(setup, store), overrides, client) != Some(UserOutbound(client, b))
  {
    RenderedBackend(setup, store, client);
    RenderedSelector(setup, store, all, client);
    RenderedTag(setup, store, client);
    OverrideTag(Render(setup, store), overrides, client, SortedBackends(setup.registry),
                LastBackend(Listing(store), client).value);
    TagsOfRows(client, b, [], "");
  }

  lemma RenderedTag(setup: Setup, store: Store, user: string)
    requires Renderable(setup, store) && user in ActiveClients(store)
    ensures FirstRule(Rules(Render(setup, store)), user) == Some(SelectorTag(user))
  {
    var state := StateOf(setup, store);
    ListingFacts(store);
    ConfigDescribes(state);
    var users := Names(Clients(state.placements));
    assert user in SetOf(users);
    RuleOf(users, user);
  }

  /** An overridden selector sends the client to an outbound that carries the selected tag. */
  lemma OverrideTag(cfg: Json, overrides: Overrides, client: string, backends: seq<Backend>, chosen: string)
    requires FirstRule(Rules(cfg), client) == Some(SelectorTag(client))
    requires FindOutbound(Outbounds(cfg), SelectorTag(client)) == Some(UserSelector(client, backends, chosen))
    requires SelectorTag(client) in overrides
    ensures var o := Dispatch(cfg, overrides, client);
            o.Some? ==> Get(o.value, "tag") == Str(overrides[SelectorTag(client)])
  {
    assert Get(UserSelector(client, backends, chosen), "type") == Str("selector");
    FoundTag(Outbounds(cfg), overrides[SelectorTag(client)]);
  }

  lemma {:induction false} FoundTag(outbounds: seq<Json>, tag: string)
    ensures FindOutbound(outbounds, tag).Some? ==> Get(FindOutbound(outbounds, tag).value, "tag") == Str(tag)
  {
    if outbounds != [] { FoundTag(outbounds[1..], tag); }
  }

  // Writes that bypass the proxy.

  /** The write leaves every route of the store as it is. */
  predicate KeepsRoutes(store: Store, p: Placement) {
    if p.id in store && Counts(store[p.id]) then
      Counts(p) && p.clientId == store[p.id].clientId && p.backendId == store[p.id].backendId
    else
      Counts(p) ==> exists id | id in store ::
        Counts(store[id]) && store[id].clientId == p.clientId && store[id].backendId == p.backendId
  }

  lemma WriteClients(store: Store, p: Placement)
    requires OneOwner(store)
    ensures var after := store[p.id := p];
            ActiveClients(after) == ActiveClients(store) <==>
              if p.id in store && Counts(store[p.id]) then Counts(p) && p.clientId == store[p.id].clientId
              else Counts(p) ==> p.clientId in ActiveClients(store)
  {
    var after := store[p.id := p];
    forall k | k in store && k != p.id && Counts(store[k])
      ensures store[k].clientId in ActiveClients(after) && store[k].clientId in ActiveClients(store)
    {
      assert after[k] == store[k];
    }
    if Counts(p) { assert after[p.id] == p && p.clientId in ActiveClients(after); }
    if p.id in store && Counts(store[p.id]) {
      var c := store[p.id].clientId;
      assert c in ActiveClients(store);
      if c in ActiveClients(after) {
        var k :| k in after && Counts(after[k]) && after[k].clientId == c;
        assert k == p.id;
      }
    }
    forall c | c in ActiveClients(after) ensures c in ActiveClients(store) || (Counts(p) && c == p.clientId) {
      var k :| k in after && Counts(after[k]) && after[k].clientId == c;
    }
    if (if p.id in store && Counts(store[p.id]) then Counts(p) && p.clientId == store[p.id].clientId
        else Counts(p) ==> p.clientId in ActiveClients(store)) {
      forall c | c in ActiveClients(store) ensures c in ActiveClients(after) {
        var k :| k in store && Counts(store[k]) && store[k].clientId == c;
        if k == p.id { assert after[k] == p; }
      }
    }
  }

  /** A placement stored without telling sing-box, as after a failed command or by a snapshot, keeps an
      in-sync node in agreement exactly when it leaves every route as it is. */
  lemma WriteAgreesIff(setup: Setup, node: Node, rendered: Store, all: set<string>, p: Placement)
    requires InSync(setup, node, rendered, all) && TagsDistinct(all, setup.registry)
    ensures Agrees(setup, node.(store := node.store[p.id := p])) <==> KeepsRoutes(node.store, p)
  {
    var node' := node.(store := node.store[p.id := p]);
    if node.loaded.Some? {
      InSyncServed(setup, node, rendered, all);
      AgreesIff(setup, node', rendered, all);
      WriteClients(node.store, p);
      if Counts(p) { WritePoints(setup, node, rendered, all, p); }
    } else {
      NoneActive(node.store);
      assert Counts(p) ==> !Routed(setup, node', node'.store[p.id]);
    }
  }

  /** Who else holds the client of a write decides whether its selector already points to the backend. */
  lemma WritePoints(setup: Setup, node: Node, rendered: Store, all: set<string>, p: Placement)
    requires InSync(setup, node, rendered, all) && TagsDistinct(all, setup.registry) && node.loaded.Some?
    requires Counts(p)
    ensures Pointed(setup, node.overrides, rendered, p.clientId, p.backendId) <==>
            exists id | id in node.store ::
              Counts(node.store[id]) && node.store[id].clientId == p.clientId && node.store[id].backendId == p.backendId
  {
    ListingFacts(rendered);
    if Pointed(setup, node.overrides, rendered, p.clientId, p.backendId) {
      var id :| id in node.store && Counts(node.store[id]) && node.store[id].clientId == p.clientId;
      assert Pointed(setup, node.overrides, rendered, p.clientId, node.store[id].backendId);
      PointsOnce(setup, all, node.overrides, rendered, p.clientId, p.backendId, node.store[id].backendId);
    }
  }

  /** A selector points to one backend. */
  lemma PointsOnce(setup: Setup, all: set<string>, overrides: Overrides, rendered: Store, client: string, x: string, y: string)
    requires TagsDistinct(all, setup.registry) && client in all
    requires Pointed(setup, overrides, rendered, client, x) && Pointed(setup, overrides, rendered, client, y)
    ensures x == y
  {
    var bx, bw := BackendWith(setup.registry, x), BackendWith(setup.registry, y);
    OutboundTells(all, setup.registry, client, bx, client, bw);
  }

  lemma DeleteClients(store: Store, id: string)
    requires OneOwner(store) && id in store
    ensures ActiveClients(store - {id}) == ActiveClients(store) <==> !Counts(store[id])
  {
    var after := store - {id};
    forall c | c in ActiveClients(after) ensures c in ActiveClients(store) {
      var k :| k in after && Counts(after[k]) && after[k].clientId == c;
      assert store[k] == after[k];
    }
    if Counts(store[id]) {
      var c := store[id].clientId;
      assert c in ActiveClients(store) && c !in ActiveClients(after);
    } else {
      forall c | c in ActiveClients(store) ensures c in ActiveClients(after) {
        var k :| k in store && Counts(store[k]) && store[k].clientId == c;
        assert k in after && after[k] == store[k];
      }
    }
  }

  /** A placement removed without telling sing-box, as by a prune, does exactly when it was not active. */
  lemma DeleteAgreesIff(setup: Setup, node: Node, rendered: Store, all: set<string>, id: string)
    requires InSync(setup, node, rendered, all) && TagsDistinct(all, setup.registry) && id in node.store
    ensures Agrees(setup, node.(store := node.store - {id})) <==> !Counts(node.store[id])
  {
    var node' := node.(store := node.store - {id});
    DeleteClients(node.store, id);
    if node.loaded.Some? {
      InSyncServed(setup, node, rendered, all);
      AgreesIff(setup, node', rendered, all);
      assert AllPointed(setup, node'.store, node.overrides, rendered);
    } else {
      NoneActive(node.store);
    }
  }
}
