/** The live tables of the embedded proxy against what a rebuild from the store would install. */
module ProxyRuns {
  import opened Domain
  import opened Order
  import opened Applier
  import opened EntryProxy
  import opened ProxyActions
  import opened FlipLaws
  import Flip

  const EMPTY := Tables(map[], map[], map[])

  // Rebuilding.

  /** On an empty proxy a rebuild installs exactly the clients with access, each routed to the known
      backends of its placements, without duplicates and in the order the placements first name them. */
  lemma RebuildIsExact(registry: seq<Backend>, placements: seq<Placement>, client: string)
    ensures var t := Rebuilt(registry, EMPTY, placements);
            && (client in t.users <==>
                exists p | p in placements :: p.desired == Active && !p.revoked && p.clientId == client && client != "")
            && (client in t.route ==> client in t.users)
            && Distinct(RouteOf(t, client)) && InNamedOrder(placements, client, RouteOf(t, client))
            && (forall id :: id in RouteOf(t, client) <==>
                  && id != "" && id in Ids(registry)
                  && exists p | p in placements ::
                       p.desired == Active && !p.revoked && p.clientId == client && client != "" && p.backendId == id)
  {
    var cands := Cands(placements, client);
    CandsFacts(placements, client);
    EligibleFacts(Ids(registry), cands);
    CleanedFacts(KnownOf(registry, placements, client));
    EligibleInOrder(Ids(registry), placements, client);
    CleanedInOrder(placements, client, KnownOf(registry, placements, client));
  }

  /** A second rebuild changes nothing. */
  lemma RebuildIdempotent(registry: seq<Backend>, t: Tables, placements: seq<Placement>)
    ensures Rebuilt(registry, Rebuilt(registry, t, placements), placements) == Rebuilt(registry, t, placements)
  {
    Absorb(t.users, UsersWith(ServedClients(placements), Flows(placements)));
    Absorb(t.route, RoutesWith(ServedClients(placements), Knowns(registry, placements)));
  }

  lemma Absorb<V>(m: map<string, V>, n: map<string, V>)
    ensures m + n + n == m + n
  {
  }

  /** A rebuild never removes a user, so it leaves exactly the clients with access if and only if the
      proxy served no other client before. */
  lemma RebuildExactIff(registry: seq<Backend>, t: Tables, placements: seq<Placement>)
    ensures Rebuilt(registry, t, placements).users.Keys == ServedClients(placements)
            <==> t.users.Keys <= ServedClients(placements)
  {
    var served := ServedClients(placements);
    assert Rebuilt(registry, t, placements).users.Keys == t.users.Keys + served;
    if t.users.Keys <= served { assert t.users.Keys + served == served; }
    if t.users.Keys + served == served { assert t.users.Keys <= t.users.Keys + served; }
  }

  // Commands through the applier and the flip executor.

  /** How a flip goes: its context may end before the swap, or something after the swap may fail. */
  datatype Env = Env(cancelled: bool, late: bool)

  function Executed(registry: seq<Backend>, live: Live, p: Placement, env: Env): Attempt {
    var existing := Lookup(live.store, p.id);
    if existing.None? || !IsBackendFlip(existing.value, p) then SimpleApplied(registry, live, p)
    else if env.cancelled || p.backendId !in Ids(registry) then Attempt(live, false)
    else
      var s := Swapped(registry, live, PlanFor(p));
      Attempt(s.live, s.ok && !env.late)
  }

  /** That is what the flip executor does with these tables: its validation asks for a known backend, its
      swap is the one above, cooling does nothing, and whatever ends the run before the swap or makes it
      fail after it decides the rest. */
  lemma FlipIsExecuted(registry: seq<Backend>, live: Live, p: Placement, flip: Flip.Env, drained: Option<Flip.Error>, error: Flip.Error)
    requires p.id in live.store && IsBackendFlip(live.store[p.id], p) && error != Flip.DrainTimeout
    requires flip.validate == (if p.backendId in Ids(registry) then None else Some(error))
    requires flip.swap == (if Swapped(registry, live, PlanFor(p)).ok then None else Some(error))
    ensures var r := Flip.RunFrom(Flip.Steady, flip, drained);
            var early := flip.cancelledAt(Flip.Steady) || flip.cancelledAt(Flip.Announced) || flip.cancelledAt(Flip.Warming);
            Executed(registry, live, p, Env(early, FlipLaws.Reported(r) != None))
            == Attempt(if Flip.SwapRoute in r.trace then Swapped(registry, live, PlanFor(p)).live else live, FlipLaws.Reported(r) == None)
  {
    RunUpToSwap(flip, drained);
  }

  /** The executor neither removes its placement nor sets it back. */
  lemma ExecutedKeepsOwn(registry: seq<Backend>, live: Live, p: Placement, env: Env)
    requires p.opVersion > 0 && p.id in live.store
    ensures var after := Executed(registry, live, p, env).live.store;
            p.id in after && after[p.id].opVersion >= live.store[p.id].opVersion
  {
  }

  function HandledLive(registry: seq<Backend>, live: Live, p: Placement, env: Env): Live {
    var existing := Lookup(live.store, p.id);
    if IsStale(existing, p) || IsIdempotent(existing, p) then live
    else
      var e := Executed(registry, live, p, env);
      e.live.(store := e.live.store[p.id := p.(applied := if e.ok then Applied else Failed)])
  }

  /** The store part is what the applier does with an executor that behaves like this one. */
  lemma HandledByApplier(registry: seq<Backend>, live: Live, p: Placement, env: Env, self: string, d: Delivery)
    requires d.command == Some(Command(self, p)) && d.getOk && d.putOk
    requires var e := Executed(registry, live, p, env);
             d.run(Lookup(live.store, p.id)) == ExecRun(Lookup(e.live.store, p.id), if e.ok then Succeeded else Fatal(""))
    ensures HandledLive(registry, live, p, env).store == Handled(self, live.store, d)
  {
    var e := Executed(registry, live, p, env);
    assert forall id | id != p.id :: Lookup(e.live.store, id) == Lookup(live.store, id);
    var a, b := HandledLive(registry, live, p, env).store, Handled(self, live.store, d);
    forall id ensures (id in a <==> id in b) && (id in a ==> a[id] == b[id]) {
      if id != p.id { assert Lookup(e.live.store, id) == Lookup(live.store, id); }
    }
  }

  // The invariant.

  function LiveClients(store: Store): set<string> {
    set id | id in store && Serves(store[id]) :: store[id].clientId
  }

  /** Each placement has one client for the whole run and no two share one. */
  predicate Assigned(clients: map<string, string>) {
    forall i, j | i in clients && j in clients && clients[i] == clients[j] :: i == j
  }

  predicate ClientOf(clients: map<string, string>, p: Placement) {
    p.id in clients && clients[p.id] == p.clientId && (p.desired == Active ==> !p.revoked)
  }

  predicate RoutedLive(registry: seq<Backend>, t: Tables, p: Placement) {
    Serves(p) && p.backendId in Ids(registry) ==> p.backendId in RouteOf(t, p.clientId)
  }

  ghost predicate InvAt(registry: seq<Backend>, clients: map<string, string>, live: Live, id: string) {
    id in live.store ==>
      && live.store[id].id == id && ClientOf(clients, live.store[id])
      && (Serves(live.store[id]) <==> live.store[id].clientId != "" && live.store[id].clientId in live.tables.users)
      && RoutedLive(registry, live.tables, live.store[id])
  }

  ghost predicate Inv(registry: seq<Backend>, clients: map<string, string>, live: Live) {
    && (forall id | id in live.store :: InvAt(registry, clients, live, id))
    && live.tables.users.Keys <= LiveClients(live.store)
  }

  /** What the commands and the context guarantee: an assigned client, no active revoked placement, a
      version as the wire format demands, content determined by the version, and no cancellation
      before the swap. */
  predicate Fair(clients: map<string, string>, live: Live, p: Placement, env: Env) {
    && p.id != "" && p.opVersion > 0 && ClientOf(clients, p)
    && (p.id in live.store && live.store[p.id].opVersion == p.opVersion ==> live.store[p.id].(applied := p.applied) == p)
    && !env.cancelled
  }

  /** What handling does to the tables: nothing, or a change for the command's own client. */
  lemma OnlyOwnClient(registry: seq<Backend>, live: Live, p: Placement, env: Env, other: string)
    requires other != p.clientId
    ensures var live' := HandledLive(registry, live, p, env);
            && (other in live'.tables.users <==> other in live.tables.users)
            && RouteOf(live'.tables, other) == RouteOf(live.tables, other)
  {
  }

  lemma OnlyOwnPlacement(registry: seq<Backend>, live: Live, p: Placement, env: Env, id: string)
    requires id != p.id
    ensures var live' := HandledLive(registry, live, p, env);
            (id in live'.store <==> id in live.store) && (id in live.store ==> live'.store[id] == live.store[id])
  {
  }

  /** The command's own placement after handling: its client is served exactly when it should be and its
      known backend is routed. */
  lemma OwnAfterHandling(registry: seq<Backend>, clients: map<string, string>, live: Live, p: Placement, env: Env)
    requires InvAt(registry, clients, live, p.id) && Fair(clients, live, p, env)
    requires p.id !in live.store && p.clientId != "" ==> p.clientId !in live.tables.users
    ensures var live' := HandledLive(registry, live, p, env);
            p.id in live'.store && InvAt(registry, clients, live', p.id)
  {
  }

  lemma UsersAreAssigned(registry: seq<Backend>, clients: map<string, string>, live: Live, p: Placement)
    requires Inv(registry, clients, live) && Assigned(clients) && ClientOf(clients, p) && p.id !in live.store
    ensures p.clientId !in live.tables.users
  {
    forall k | k in live.store && Serves(live.store[k]) ensures live.store[k].clientId != p.clientId {
      assert InvAt(registry, clients, live, k);
    }
    assert p.clientId !in LiveClients(live.store);
  }

  lemma StepKeepsInv(registry: seq<Backend>, clients: map<string, string>, live: Live, p: Placement, env: Env)
    requires Inv(registry, clients, live) && Assigned(clients) && Fair(clients, live, p, env)
    ensures Inv(registry, clients, HandledLive(registry, live, p, env))
  {
    var live' := HandledLive(registry, live, p, env);
    if p.id !in live.store { UsersAreAssigned(registry, clients, live, p); }
    OwnAfterHandling(registry, clients, live, p, env);
    forall id | id in live'.store ensures InvAt(registry, clients, live', id) {
      if id != p.id {
        OnlyOwnPlacement(registry, live, p, env, id);
        assert InvAt(registry, clients, live, id);
        OnlyOwnClient(registry, live, p, env, live.store[id].clientId);
      }
    }
    forall c | c in live'.tables.users ensures c in LiveClients(live'.store) {
      if c == p.clientId {
        NoEmptyUser(registry, clients, live, p, env);
        assert Serves(live'.store[p.id]);
      } else {
        OnlyOwnClient(registry, live, p, env, c);
        assert c in LiveClients(live.store);
        var k :| k in live.store && Serves(live.store[k]) && live.store[k].clientId == c;
        assert InvAt(registry, clients, live, k);
        OnlyOwnPlacement(registry, live, p, env, k);
        assert live'.store[k] == live.store[k];
      }
    }
  }

  lemma NoEmptyUser(registry: seq<Backend>, clients: map<string, string>, live: Live, p: Placement, env: Env)
    requires Inv(registry, clients, live)
    ensures "" !in HandledLive(registry, live, p, env).tables.users
  {
    assert "" !in LiveClients(live.store);
  }

  /** Handling a sequence of commands. */
  function AfterCommands(registry: seq<Backend>, live: Live, commands: seq<(Placement, Env)>): Live {
    if commands == [] then live
    else
      var last := commands[|commands| - 1];
      HandledLive(registry, AfterCommands(registry, live, commands[..|commands| - 1]), last.0, last.1)
  }

  ghost predicate AllFair(registry: seq<Backend>, clients: map<string, string>, live: Live, commands: seq<(Placement, Env)>) {
    forall i | 0 <= i < |commands| ::
      Fair(clients, AfterCommands(registry, live, commands[..i]), commands[i].0, commands[i].1)
  }

  lemma FairFront(registry: seq<Backend>, clients: map<string, string>, live: Live, commands: seq<(Placement, Env)>)
    requires AllFair(registry, clients, live, commands) && commands != []
    ensures AllFair(registry, clients, live, commands[..|commands| - 1])
  {
    var front := commands[..|commands| - 1];
    forall i | 0 <= i < |front| ensures Fair(clients, AfterCommands(registry, live, front[..i]), front[i].0, front[i].1) {
      assert front[..i] == commands[..i];
    }
  }

  lemma {:induction false} RunKeepsInv(registry: seq<Backend>, clients: map<string, string>, live: Live, commands: seq<(Placement, Env)>)
    requires Inv(registry, clients, live) && Assigned(clients) && AllFair(registry, clients, live, commands)
    ensures Inv(registry, clients, AfterCommands(registry, live, commands))
  {
    if commands != [] {
      var n := |commands| - 1;
      FairFront(registry, clients, live, commands);
      RunKeepsInv(registry, clients, live, commands[..n]);
      StepKeepsInv(registry, clients, AfterCommands(registry, live, commands[..n]), commands[n].0, commands[n].1);
    }
  }

  lemma SameUsers(registry: seq<Backend>, clients: map<string, string>, live: Live, placements: seq<Placement>, client: string)
    requires Inv(registry, clients, live) && SetOf(placements) == live.store.Values
    ensures client in live.tables.users <==> client in Rebuilt(registry, EMPTY, placements).users
  {
    ListedClients(live.store, placements);
    RebuildIsExact(registry, placements, client);
    if client in LiveClients(live.store) {
      var k :| k in live.store && Serves(live.store[k]) && live.store[k].clientId == client;
      assert InvAt(registry, clients, live, k);
    }
  }

  lemma RouteCovers(registry: seq<Backend>, clients: map<string, string>, live: Live, placements: seq<Placement>, client: string, id: string)
    requires Inv(registry, clients, live) && SetOf(placements) == live.store.Values
    requires id in RouteOf(Rebuilt(registry, EMPTY, placements), client)
    ensures id in RouteOf(live.tables, client)
  {
    RebuildIsExact(registry, placements, client);
    var p :| p in placements && Serves(p) && p.clientId == client && p.backendId == id;
    assert p in SetOf(placements);
    var k :| k in live.store && live.store[k] == p;
    assert InvAt(registry, clients, live, k);
  }

  /** After every run the live users are exactly those a rebuild would install in an empty proxy, and
      every client's live route contains the rebuilt one. */
  lemma LiveMatchesRebuild(registry: seq<Backend>, clients: map<string, string>, live: Live,
                           commands: seq<(Placement, Env)>, placements: seq<Placement>, client: string)
    requires Inv(registry, clients, live) && Assigned(clients) && AllFair(registry, clients, live, commands)
    requires SetOf(placements) == AfterCommands(registry, live, commands).store.Values
    ensures var end := AfterCommands(registry, live, commands).tables;
            var installed := Rebuilt(registry, EMPTY, placements);
            && (client in end.users <==> client in installed.users)
            && forall id | id in RouteOf(installed, client) :: id in RouteOf(end, client)
  {
    var end := AfterCommands(registry, live, commands);
    RunKeepsInv(registry, clients, live, commands);
    SameUsers(registry, clients, end, placements, client);
    forall id | id in RouteOf(Rebuilt(registry, EMPTY, placements), client) ensures id in RouteOf(end.tables, client) {
      RouteCovers(registry, clients, end, placements, client, id);
    }
  }

  lemma ListedClients(store: Store, placements: seq<Placement>)
    requires SetOf(placements) == store.Values
    ensures ServedClients(placements) == LiveClients(store)
  {
    assert forall p :: p in placements <==> p in SetOf(placements);
    forall c ensures c in ServedClients(placements) <==> c in LiveClients(store) {
      if c in ServedClients(placements) {
        var p :| p in placements && Serves(p) && p.clientId == c;
        var k :| k in store && store[k] == p;
      }
      if c in LiveClients(store) {
        var k :| k in store && Serves(store[k]) && store[k].clientId == c;
        assert store[k] in store.Values;
      }
    }
  }

  /** Runs may begin with an empty proxy over an empty store. */
  lemma BeginsEmpty(registry: seq<Backend>, clients: map<string, string>)
    ensures Inv(registry, clients, Live(map[], EMPTY))
  {
  }

  /** Runs may begin with any store pushed to an empty proxy, as after a restart. */
  lemma BeginsRebuilt(registry: seq<Backend>, clients: map<string, string>, store: Store, placements: seq<Placement>)
    requires SetOf(placements) == store.Values && Assigned(clients) && "" !in Ids(registry)
    requires forall id | id in store :: store[id].id == id && ClientOf(clients, store[id])
    ensures Inv(registry, clients, Live(store, Rebuilt(registry, EMPTY, placements)))
  {
    var live := Live(store, Rebuilt(registry, EMPTY, placements));
    ListedClients(store, placements);
    forall id | id in store ensures InvAt(registry, clients, live, id) {
      var p := store[id];
      RebuildIsExact(registry, placements, p.clientId);
      assert p in store.Values && p in SetOf(placements);
      if p.clientId in LiveClients(store) {
        var k :| k in store && Serves(store[k]) && store[k].clientId == p.clientId;
        assert k == id;
      }
    }
    forall c | c in live.tables.users ensures c in LiveClients(store) { RebuildIsExact(registry, placements, c); }
  }

  /** From an empty proxy over an empty store, or over any store pushed to it, every run of commands leaves
      the users a rebuild would install, and routes that contain the rebuilt ones. */
  lemma FreshRunMatchesRebuild(registry: seq<Backend>, clients: map<string, string>, store: Store, listed: seq<Placement>,
                               commands: seq<(Placement, Env)>, placements: seq<Placement>, client: string)
    requires Assigned(clients) && "" !in Ids(registry) && SetOf(listed) == store.Values
    requires forall id | id in store :: store[id].id == id && ClientOf(clients, store[id])
    requires var live := if store == map[] then Live(map[], EMPTY) else Live(store, Rebuilt(registry, EMPTY, listed));
             && AllFair(registry, clients, live, commands)
             && SetOf(placements) == AfterCommands(registry, live, commands).store.Values
    ensures var live := if store == map[] then Live(map[], EMPTY) else Live(store, Rebuilt(registry, EMPTY, listed));
            var end, installed := AfterCommands(registry, live, commands).tables, Rebuilt(registry, EMPTY, placements);
            && (client in end.users <==> client in installed.users)
            && forall id | id in RouteOf(installed, client) :: id in RouteOf(end, client)
  {
    if store == map[] {
      BeginsEmpty(registry, clients);
      LiveMatchesRebuild(registry, clients, Live(map[], EMPTY), commands, placements, client);
    } else {
      BeginsRebuilt(registry, clients, store, listed);
      LiveMatchesRebuild(registry, clients, Live(store, Rebuilt(registry, EMPTY, listed)), commands, placements, client);
    }
  }

  // Routes over runs.

  function LiveAt(registry: seq<Backend>, live: Live, commands: seq<(Placement, Env)>, i: nat): Live
    requires i <= |commands|
  {
    AfterCommands(registry, live, commands[..i])
  }

  lemma LiveAtNext(registry: seq<Backend>, live: Live, commands: seq<(Placement, Env)>, i: nat)
    requires i < |commands|
    ensures LiveAt(registry, live, commands, i + 1) == HandledLive(registry, LiveAt(registry, live, commands, i), commands[i].0, commands[i].1)
  {
    assert commands[..i + 1][..i] == commands[..i];
  }

  /** A command leaves a served client's route in front and may add to it. */
  lemma StepExtendsRoute(registry: seq<Backend>, live: Live, p: Placement, env: Env, client: string)
    requires client in HandledLive(registry, live, p, env).tables.users
    ensures RouteOf(live.tables, client) <= RouteOf(HandledLive(registry, live, p, env).tables, client)
  {
    if client != p.clientId { OnlyOwnClient(registry, live, p, env, client); }
  }

  /** While a client stays served its route only grows. */
  lemma {:induction false} RouteGrows(registry: seq<Backend>, live: Live, commands: seq<(Placement, Env)>, client: string, i: nat, j: nat)
    requires i <= j <= |commands|
    requires forall k | i < k <= j :: client in LiveAt(registry, live, commands, k).tables.users
    ensures RouteOf(LiveAt(registry, live, commands, i).tables, client) <= RouteOf(LiveAt(registry, live, commands, j).tables, client)
  {
    if i < j {
      RouteGrows(registry, live, commands, client, i, j - 1);
      LiveAtNext(registry, live, commands, j - 1);
      StepExtendsRoute(registry, LiveAt(registry, live, commands, j - 1), commands[j - 1].0, commands[j - 1].1, client);
    }
  }

  lemma FairPrefix(registry: seq<Backend>, clients: map<string, string>, live: Live, commands: seq<(Placement, Env)>, n: nat)
    requires AllFair(registry, clients, live, commands) && n <= |commands|
    ensures AllFair(registry, clients, live, commands[..n])
  {
    forall i | 0 <= i < n ensures Fair(clients, AfterCommands(registry, live, commands[..n][..i]), commands[..n][i].0, commands[..n][i].1) {
      assert commands[..n][..i] == commands[..i];
    }
  }

  /** So while a client stays served, its route holds every known backend that a placement of it was ever on. */
  lemma EverPlacedIsRouted(registry: seq<Backend>, clients: map<string, string>, live: Live, commands: seq<(Placement, Env)>,
                           i: nat, j: nat, id: string)
    requires Inv(registry, clients, live) && Assigned(clients) && AllFair(registry, clients, live, commands) && i <= j <= |commands|
    requires var then' := LiveAt(registry, live, commands, i).store;
             && id in then' && Serves(then'[id]) && then'[id].backendId in Ids(registry)
             && forall k | i < k <= j :: then'[id].clientId in LiveAt(registry, live, commands, k).tables.users
    ensures var p := LiveAt(registry, live, commands, i).store[id];
            p.backendId in RouteOf(LiveAt(registry, live, commands, j).tables, p.clientId)
  {
    FairPrefix(registry, clients, live, commands, i);
    RunKeepsInv(registry, clients, live, commands[..i]);
    var at := LiveAt(registry, live, commands, i);
    assert InvAt(registry, clients, at, id);
    RouteGrows(registry, live, commands, at.store[id].clientId, i, j);
  }

  /** Only served clients have routes. */
  ghost predicate RoutedAreServed(t: Tables) {
    forall c | c in t.route && c != "" :: c in t.users
  }

  lemma StepKeepsRoutedServed(registry: seq<Backend>, clients: map<string, string>, live: Live, p: Placement, env: Env)
    requires Inv(registry, clients, live) && Fair(clients, live, p, env) && RoutedAreServed(live.tables)
    ensures RoutedAreServed(HandledLive(registry, live, p, env).tables)
  {
    if p.id in live.store { assert InvAt(registry, clients, live, p.id); }
  }

  lemma {:induction false} RunKeepsRoutedServed(registry: seq<Backend>, clients: map<string, string>, live: Live, commands: seq<(Placement, Env)>)
    requires Inv(registry, clients, live) && Assigned(clients) && AllFair(registry, clients, live, commands)
    requires RoutedAreServed(live.tables)
    ensures RoutedAreServed(AfterCommands(registry, live, commands).tables)
  {
    if commands != [] {
      var n := |commands| - 1;
      FairFront(registry, clients, live, commands);
      RunKeepsRoutedServed(registry, clients, live, commands[..n]);
      RunKeepsInv(registry, clients, live, commands[..n]);
      StepKeepsRoutedServed(registry, clients, AfterCommands(registry, live, commands[..n]), commands[n].0, commands[n].1);
    }
  }

  // Flows over runs.

  /** The user of a placement with access has the placement's flow. */
  predicate FlowAt(live: Live, id: string) {
    id in live.store && Serves(live.store[id]) ==>
      var c := live.store[id].clientId;
      c in live.tables.users && live.tables.users[c] == FlowFor(live.store[id].transport)
  }

  /** The command is executed as a flip that changes the flow. */
  predicate ChangesFlowByFlip(live: Live, p: Placement) {
    && p.id in live.store && p.clientId != ""
    && live.store[p.id].opVersion <= p.opVersion && IsBackendFlip(live.store[p.id], p)
    && FlowFor(live.store[p.id].transport) != FlowFor(p.transport)
  }

  /** A command leaves its client with its flow if and only if it is not a flip that changes it: a flip moves
      the route and never touches the user. */
  lemma FlowAfterIff(registry: seq<Backend>, clients: map<string, string>, live: Live, p: Placement, env: Env)
    requires InvAt(registry, clients, live, p.id) && Fair(clients, live, p, env) && FlowAt(live, p.id)
    ensures FlowAt(HandledLive(registry, live, p, env), p.id) <==> !ChangesFlowByFlip(live, p)
  {
  }

  lemma OnlyOwnFlow(registry: seq<Backend>, live: Live, p: Placement, env: Env, other: string)
    requires other != p.clientId && other in live.tables.users
    ensures var t := HandledLive(registry, live, p, env).tables;
            other in t.users && t.users[other] == live.tables.users[other]
  {
  }

  ghost predicate AllFlows(live: Live) {
    forall id | id in live.store :: FlowAt(live, id)
  }

  lemma StepKeepsFlows(registry: seq<Backend>, clients: map<string, string>, live: Live, p: Placement, env: Env)
    requires Inv(registry, clients, live) && Assigned(clients) && Fair(clients, live, p, env) && AllFlows(live)
    requires !ChangesFlowByFlip(live, p)
    ensures AllFlows(HandledLive(registry, live, p, env))
  {
    var live' := HandledLive(registry, live, p, env);
    forall id | id in live'.store ensures FlowAt(live', id) {
      if id == p.id {
        assert FlowAt(live, p.id);
        FlowAfterIff(registry, clients, live, p, env);
      } else {
        OnlyOwnPlacement(registry, live, p, env, id);
        assert InvAt(registry, clients, live, id) && FlowAt(live, id);
        if Serves(live.store[id]) { OnlyOwnFlow(registry, live, p, env, live.store[id].clientId); }
      }
    }
  }

  ghost predicate NoFlowFlips(registry: seq<Backend>, live: Live, commands: seq<(Placement, Env)>) {
    forall i | 0 <= i < |commands| :: !ChangesFlowByFlip(AfterCommands(registry, live, commands[..i]), commands[i].0)
  }

  lemma {:induction false} RunKeepsFlows(registry: seq<Backend>, clients: map<string, string>, live: Live, commands: seq<(Placement, Env)>)
    requires Inv(registry, clients, live) && Assigned(clients) && AllFair(registry, clients, live, commands)
    requires AllFlows(live) && NoFlowFlips(registry, live, commands)
    ensures AllFlows(AfterCommands(registry, live, commands))
  {
    if commands != [] {
      var n := |commands| - 1;
      var front := commands[..n];
      FairFront(registry, clients, live, commands);
      forall i | 0 <= i < n ensures !ChangesFlowByFlip(AfterCommands(registry, live, front[..i]), front[i].0) {
        assert front[..i] == commands[..i];
      }
      RunKeepsFlows(registry, clients, live, front);
      RunKeepsInv(registry, clients, live, front);
      StepKeepsFlows(registry, clients, AfterCommands(registry, live, front), commands[n].0, commands[n].1);
    }
  }

  lemma RebuiltFlow(registry: seq<Backend>, clients: map<string, string>, live: Live, placements: seq<Placement>, id: string)
    requires Inv(registry, clients, live) && Assigned(clients) && SetOf(placements) == live.store.Values
    requires id in live.store && Serves(live.store[id])
    ensures FlowOf(placements, live.store[id].clientId) == FlowFor(live.store[id].transport)
  {
    var c := live.store[id].clientId;
    var cands := Cands(placements, c);
    CandsFacts(placements, c);
    assert live.store[id] in live.store.Values && live.store[id] in SetOf(placements);
    assert live.store[id] in cands;
    assert cands[0] in cands && cands[0] in SetOf(placements);
    var k :| k in live.store && live.store[k] == cands[0];
    assert InvAt(registry, clients, live, k) && InvAt(registry, clients, live, id);
  }

  /** After every run in which no flip changes a flow, the live users and their flows are exactly those of a
      rebuild. */
  lemma LiveFlowsMatchRebuild(registry: seq<Backend>, clients: map<string, string>, live: Live,
                              commands: seq<(Placement, Env)>, placements: seq<Placement>)
    requires Inv(registry, clients, live) && Assigned(clients) && AllFair(registry, clients, live, commands)
    requires AllFlows(live) && NoFlowFlips(registry, live, commands)
    requires SetOf(placements) == AfterCommands(registry, live, commands).store.Values
    ensures AfterCommands(registry, live, commands).tables.users == Rebuilt(registry, EMPTY, placements).users
  {
    var end := AfterCommands(registry, live, commands);
    RunKeepsInv(registry, clients, live, commands);
    RunKeepsFlows(registry, clients, live, commands);
    var installed := Rebuilt(registry, EMPTY, placements).users;
    forall c ensures (c in end.tables.users <==> c in installed) && (c in installed ==> installed[c] == end.tables.users[c]) {
      SameUsers(registry, clients, end, placements, c);
      if c in end.tables.users {
        assert c in LiveClients(end.store);
        var id :| id in end.store && Serves(end.store[id]) && end.store[id].clientId == c;
        assert FlowAt(end, id);
        RebuiltFlow(registry, clients, end, placements, id);
      }
    }
  }

  // Where the guarantee stops.

  /** A flip whose context ends before the swap is stored all the same; the live route still covers the
      stored backend exactly when that backend had been routed earlier. */
  lemma CancelledFlipIff(registry: seq<Backend>, clients: map<string, string>, live: Live, p: Placement, env: Env)
    requires Inv(registry, clients, live) && env.cancelled && p.id in live.store && p.opVersion > live.store[p.id].opVersion
    requires ClientOf(clients, p) && p.clientId != "" && IsBackendFlip(live.store[p.id], p) && p.backendId in Ids(registry)
    ensures var live' := HandledLive(registry, live, p, env);
            && live'.tables == live.tables
            && live'.store[p.id] == p.(applied := Failed)
            && (RoutedLive(registry, live'.tables, live'.store[p.id]) <==> p.backendId in RouteOf(live.tables, p.clientId))
  {
  }

  /** The placement's access and route are as the command wants them. */
  predicate InForce(registry: seq<Backend>, t: Tables, p: Placement) {
    if p.desired == Active && !p.revoked then
      p.clientId in t.users && (p.backendId in Ids(registry) ==> p.backendId in RouteOf(t, p.clientId))
    else p.clientId !in t.users
  }

  /** A command that is neither stale nor idempotent is skipped by the executor exactly when its version is
      stored already, as after a failed execution; the tables then stay as they are, and the command is
      recorded as applied unless it is a flip that ends before or fails after the skipped swap. */
  lemma SkippedIff(registry: seq<Backend>, live: Live, p: Placement, env: Env)
    requires p.id != "" && p.opVersion > 0
    requires !IsStale(Lookup(live.store, p.id), p) && !IsIdempotent(Lookup(live.store, p.id), p)
    ensures Stale(live.store, p) <==> p.id in live.store && live.store[p.id].opVersion == p.opVersion
    ensures var live' := HandledLive(registry, live, p, env);
            Stale(live.store, p) ==>
              && live'.tables == live.tables && p.id in live.store && p.id in live'.store
              && live'.store[p.id] == p.(applied :=
                   if IsBackendFlip(live.store[p.id], p) && (env.cancelled || env.late || p.backendId !in Ids(registry))
                   then Failed else Applied)
  {
  }

  /** So a command recorded as applied is in force if and only if its version was not stored before, or it
      was in force before: delivered again, a command whose execution failed is recorded as applied without
      being executed. */
  lemma AppliedIsInForceIff(registry: seq<Backend>, live: Live, p: Placement, env: Env)
    requires p.id != "" && p.opVersion > 0
    requires !IsStale(Lookup(live.store, p.id), p) && !IsIdempotent(Lookup(live.store, p.id), p)
    requires p.id in live.store ==> !IsBackendFlip(live.store[p.id], p)
    ensures var live' := HandledLive(registry, live, p, env);
            && p.id in live'.store
            && ((live'.store[p.id].applied == Applied ==> InForce(registry, live'.tables, p)) <==>
                !(p.id in live.store && live.store[p.id].opVersion == p.opVersion) || InForce(registry, live.tables, p))
  {
    SkippedIff(registry, live, p, env);
  }

  /** For a flip to a known backend that is neither cancelled nor fails late, the same holds of its route. */
  lemma AppliedFlipIsRoutedIff(registry: seq<Backend>, live: Live, p: Placement, env: Env)
    requires p.id != "" && p.opVersion > 0
    requires !IsStale(Lookup(live.store, p.id), p) && p.id in live.store && IsBackendFlip(live.store[p.id], p)
    requires p.backendId in Ids(registry) && !env.cancelled && !env.late
    ensures var live' := HandledLive(registry, live, p, env);
            && p.id in live'.store && live'.store[p.id].applied == Applied
            && (p.backendId in RouteOf(live'.tables, p.clientId) <==>
                live.store[p.id].opVersion != p.opVersion || p.backendId in RouteOf(live.tables, p.clientId))
  {
    SkippedIff(registry, live, p, env);
  }
}
