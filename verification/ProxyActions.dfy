/** Driving the embedded entry proxy: commands change its users and routes live, and a rebuild pushes
    the whole store. */
module ProxyActions {
  import opened Domain
  import opened Order
  import opened Applier
  import opened EntryProxy

  /** A placement that gives its client access. */
  predicate Serves(p: Placement) {
    p.desired == Active && !p.revoked && p.clientId != ""
  }

  // Rebuilding.

  function ServedClients(placements: seq<Placement>): set<string> {
    set p | p in placements && Serves(p) :: p.clientId
  }

  /** A client's placements, in the order listed. */
  function Cands(placements: seq<Placement>, client: string): seq<Placement> {
    if placements == [] then []
    else
      var front, last := placements[..|placements| - 1], placements[|placements| - 1];
      if Serves(last) && last.clientId == client then Cands(front, client) + [last] else Cands(front, client)
  }

  lemma {:induction false} CandsFacts(placements: seq<Placement>, client: string)
    ensures Cands(placements, client) != [] <==> client in ServedClients(placements)
    ensures forall p :: p in Cands(placements, client) <==> p in placements && Serves(p) && p.clientId == client
  {
    if placements != [] {
      var front, last := placements[..|placements| - 1], placements[|placements| - 1];
      assert placements == front + [last];
      CandsFacts(front, client);
    }
    if client in ServedClients(placements) {
      var p :| p in placements && Serves(p) && p.clientId == client;
      assert p in Cands(placements, client);
    }
    if Cands(placements, client) != [] { assert Cands(placements, client)[0] in Cands(placements, client); }
  }

  /** The known backends of some placements, each once, in order. */
  function Eligible(known: set<string>, cands: seq<Placement>): seq<string> {
    if cands == [] then []
    else
      var front, last := Eligible(known, cands[..|cands| - 1]), cands[|cands| - 1].backendId;
      if last in front || last !in known then front else front + [last]
  }

  lemma {:induction false} EligibleFacts(known: set<string>, cands: seq<Placement>)
    ensures Distinct(Eligible(known, cands))
    ensures forall id :: id in Eligible(known, cands) <==> id in known && exists p | p in cands :: p.backendId == id
  {
    if cands != [] {
      var front, last := cands[..|cands| - 1], cands[|cands| - 1];
      assert cands == front + [last];
      EligibleFacts(known, front);
    }
  }

  /** Where a client's placements first name a backend. */
  function FirstNamed(placements: seq<Placement>, client: string, id: string): nat {
    if placements == [] then 0
    else
      var front, last := placements[..|placements| - 1], placements[|placements| - 1];
      if NamedBy(front, client, id) then FirstNamed(front, client, id) else |front|
  }

  predicate NamedEarlier(placements: seq<Placement>, client: string, a: string, b: string) {
    FirstNamed(placements, client, a) < FirstNamed(placements, client, b)
  }

  /** Ids in the order in which the client's placements first name them. */
  predicate InNamedOrder(placements: seq<Placement>, client: string, ids: seq<string>) {
    forall i, j | 0 <= i < j < |ids| :: NamedEarlier(placements, client, ids[i], ids[j])
  }

  predicate NamedBy(placements: seq<Placement>, client: string, id: string) {
    exists p | p in placements :: Serves(p) && p.clientId == client && p.backendId == id
  }

  lemma {:induction false} FirstNamedBound(placements: seq<Placement>, client: string, id: string)
    requires placements != []
    ensures FirstNamed(placements, client, id) < |placements|
  {
    var front := placements[..|placements| - 1];
    if NamedBy(front, client, id) { FirstNamedBound(front, client, id); }
  }

  lemma FirstNamedSnoc(front: seq<Placement>, last: Placement, client: string, id: string)
    ensures FirstNamed(front + [last], client, id) == if NamedBy(front, client, id) then FirstNamed(front, client, id) else |front|
    ensures NamedBy(front, client, id) ==> FirstNamed(front, client, id) < |front|
  {
    assert (front + [last])[..|front|] == front;
    if NamedBy(front, client, id) { FirstNamedBound(front, client, id); }
  }

  lemma StillInOrder(front: seq<Placement>, last: Placement, client: string, ids: seq<string>)
    requires InNamedOrder(front, client, ids) && forall id | id in ids :: NamedBy(front, client, id)
    ensures InNamedOrder(front + [last], client, ids)
    ensures forall id | id in ids :: FirstNamed(front + [last], client, id) < |front|
  {
    forall id | id in ids
      ensures FirstNamed(front + [last], client, id) == FirstNamed(front, client, id) < |front|
    {
      FirstNamedSnoc(front, last, client, id);
    }
    forall i, j | 0 <= i < j < |ids| ensures NamedEarlier(front + [last], client, ids[i], ids[j]) {
      assert NamedEarlier(front, client, ids[i], ids[j]) && ids[i] in ids && ids[j] in ids;
    }
  }

  lemma EligibleNamed(known: set<string>, placements: seq<Placement>, client: string)
    ensures forall id | id in known :: id in Eligible(known, Cands(placements, client)) <==> NamedBy(placements, client, id)
    ensures forall id | id in Eligible(known, Cands(placements, client)) :: NamedBy(placements, client, id)
  {
    CandsFacts(placements, client);
    EligibleFacts(known, Cands(placements, client));
  }

  lemma EligibleSnoc(known: set<string>, front: seq<Placement>, last: Placement, client: string)
    ensures var ids := Eligible(known, Cands(front, client));
            Eligible(known, Cands(front + [last], client))
            == if Serves(last) && last.clientId == client && last.backendId in known && last.backendId !in ids
               then ids + [last.backendId] else ids
  {
    CandsSnoc(front, last, client);
    assert (Cands(front, client) + [last])[..|Cands(front, client)|] == Cands(front, client);
  }

  /** Eligible backends stand in the order in which the client's placements first name them. */
  lemma {:induction false} EligibleInOrder(known: set<string>, placements: seq<Placement>, client: string)
    ensures InNamedOrder(placements, client, Eligible(known, Cands(placements, client)))
  {
    if placements != [] {
      var front, last := placements[..|placements| - 1], placements[|placements| - 1];
      var ids := Eligible(known, Cands(front, client));
      assert placements == front + [last];
      EligibleInOrder(known, front, client);
      EligibleNamed(known, front, client);
      StillInOrder(front, last, client, ids);
      EligibleSnoc(known, front, last, client);
      FirstNamedSnoc(front, last, client, last.backendId);
    }
  }

  lemma {:induction false} CleanedInOrder(placements: seq<Placement>, client: string, ids: seq<string>)
    requires InNamedOrder(placements, client, ids)
    ensures InNamedOrder(placements, client, Cleaned(ids))
  {
    if ids != [] {
      var front, last := ids[..|ids| - 1], ids[|ids| - 1];
      CleanedInOrder(placements, client, front);
      CleanedFacts(front);
      forall id | id in Cleaned(front) ensures NamedEarlier(placements, client, id, last) {
        assert id in front;
      }
    }
  }

  /** The flow of a client's first placement. */
  function FlowOf(placements: seq<Placement>, client: string): string {
    var cands := Cands(placements, client);
    if cands == [] then "" else FlowFor(cands[0].transport)
  }

  function KnownOf(registry: seq<Backend>, placements: seq<Placement>, client: string): seq<string> {
    Eligible(Ids(registry), Cands(placements, client))
  }

  function Flows(placements: seq<Placement>): string -> string {
    c => FlowOf(placements, c)
  }

  function Knowns(registry: seq<Backend>, placements: seq<Placement>): string -> seq<string> {
    c => KnownOf(registry, placements, c)
  }

  function UsersWith(done: set<string>, flow: string -> string): map<string, string> {
    map c | c in done :: flow(c)
  }

  function RoutesWith(done: set<string>, ids: string -> seq<string>): map<string, seq<string>> {
    map c | c in done && ids(c) != [] :: Cleaned(ids(c))
  }

  /** The tables when the clients in `done` have been rebuilt: they are added and routed to their known
      backends; nothing is removed. */
  function PartlyRebuilt(registry: seq<Backend>, t: Tables, placements: seq<Placement>, done: set<string>): Tables {
    Tables(t.users + UsersWith(done, Flows(placements)), PoolOf(registry),
           t.route + RoutesWith(done, Knowns(registry, placements)))
  }

  function Rebuilt(registry: seq<Backend>, t: Tables, placements: seq<Placement>): Tables {
    PartlyRebuilt(registry, t, placements, ServedClients(placements))
  }

  /** Each of these clients has a known backend. */
  predicate AllRouted(registry: seq<Backend>, placements: seq<Placement>, clients: set<string>) {
    forall c | c in clients :: KnownOf(registry, placements, c) != []
  }

  // Commands.

  datatype Live = Live(store: Store, tables: Tables)

  datatype Attempt = Attempt(live: Live, ok: bool)

  function SimpleApplied(registry: seq<Backend>, live: Live, p: Placement): Attempt {
    var d := p.(applied := Applied);
    if p.id == "" then Attempt(live, false)
    else if Stale(live.store, p) then Attempt(live, true)
    else if p.desired == Active && !p.revoked then
      var synced := WithPool(live.tables, PoolOf(registry));
      if p.clientId == "" then Attempt(live.(tables := synced), false)
      else
        var added := WithUser(synced, p.clientId, FlowFor(p.transport));
        var routed := if p.backendId in Ids(registry) then WithRouted(added, p.clientId, p.backendId) else added;
        Attempt(Live(live.store[p.id := d], routed), true)
    else Attempt(Live(live.store[p.id := d], WithoutUser(live.tables, p.clientId)), true)
  }

  function Swapped(registry: seq<Backend>, live: Live, plan: SwapPlan): Attempt {
    var p := plan.desired;
    if p.id == "" || p.id != plan.placementId then Attempt(live, false)
    else if StaleAt(live.store, plan.placementId, plan.opVersion) then Attempt(live, true)
    else
      var synced := WithPool(live.tables, PoolOf(registry));
      if p.backendId !in Ids(registry) then Attempt(live.(tables := synced), false)
      else Attempt(Live(live.store[p.id := p.(applied := Applied)], WithRouted(synced, p.clientId, p.backendId)), true)
  }

  /** What an application comes to: refused without an id, or without a client to add; nothing to do for a
      version that is stored; otherwise stored, with the client added under its flow and routed to its backend
      if that is known, or removed. */
  lemma ApplicationTells(registry: seq<Backend>, live: Live, p: Placement)
    ensures var r := SimpleApplied(registry, live, p);
            var known := p.id in live.store && live.store[p.id].opVersion >= p.opVersion && p.opVersion != 0;
            var grants := p.desired == Active && !p.revoked;
            && (r.ok <==> p.id != "" && (known || p.clientId != "" || !grants))
            && (p.id == "" || known ==> r.live == live)
            && (r.ok && !known ==> r.live.store == live.store[p.id := p.(applied := Applied)])
            && (r.ok && !known && grants ==>
                  && r.live.tables.users == live.tables.users[p.clientId := FlowFor(p.transport)]
                  && r.live.tables.pool == PoolOf(registry)
                  && RouteOf(r.live.tables, p.clientId)
                     == RouteOf(live.tables, p.clientId)
                        + (if p.backendId in Ids(registry) && p.backendId !in RouteOf(live.tables, p.clientId)
                           then [p.backendId] else []))
            && (r.ok && !known && !grants ==>
                  p.clientId !in r.live.tables.users && p.clientId !in r.live.tables.route && r.live.tables.pool == live.tables.pool)
  {
  }

  /** And a swap: refused without its plan's id or for an unknown backend; nothing to do for a version that is
      stored; otherwise stored, with the backend added to the client's route and no user touched. */
  lemma SwapTells(registry: seq<Backend>, live: Live, plan: SwapPlan)
    ensures var r, p := Swapped(registry, live, plan), plan.desired;
            var known := plan.placementId in live.store && live.store[plan.placementId].opVersion >= plan.opVersion && plan.opVersion != 0;
            && (r.ok <==> p.id != "" && p.id == plan.placementId && (known || p.backendId in Ids(registry)))
            && (!r.ok || known ==> r.live.store == live.store)
            && r.live.tables.users == live.tables.users
            && (r.ok && !known ==>
                  && r.live.store == live.store[p.id := p.(applied := Applied)] && r.live.tables.pool == PoolOf(registry)
                  && RouteOf(r.live.tables, p.clientId)
                     == RouteOf(live.tables, p.clientId)
                        + (if p.backendId in RouteOf(live.tables, p.clientId) then [] else [p.backendId]))
            && (r.ok && known ==> r.live == live)
  {
  }

  class EntryProxyActions {
    const proxy: Proxy
    const registry: seq<Backend>
    var store: Store
    var pending: bool
    var users: nat

    constructor (proxy: Proxy, registry: seq<Backend>, store: Store)
      ensures this.proxy == proxy && this.registry == registry && this.store == store && !pending && users == 0
    {
      this.proxy, this.registry, this.store := proxy, registry, store;
      pending, users := false, 0;
    }

    function View(): Live
      reads this, proxy
    {
      Live(store, proxy.View())
    }

    method SyncBackends()
      modifies proxy
      ensures proxy.View() == WithPool(old(proxy.View()), PoolOf(registry))
    {
      proxy.SetBackends(registry);
    }

    method SwapRoute(plan: SwapPlan) returns (ok: bool)
      modifies this, proxy
      ensures Attempt(View(), ok) == Swapped(registry, old(View()), plan)
      ensures pending == old(pending) && users == old(users)
    {
      var p := plan.desired;
      if p.id == "" || p.id != plan.placementId { return false; }
      var version := if plan.placementId in store then store[plan.placementId].opVersion else 0;
      if plan.opVersion != 0 && version >= plan.opVersion { return true; }
      SyncBackends();
      PoolKeys(registry);
      var selected := proxy.SelectBackend(p.clientId, p.backendId);
      if !selected { return false; }
      store := store[p.id := p.(applied := Applied)];
      return true;
    }

    method SimpleApply(p: Placement) returns (ok: bool)
      modifies this, proxy
      ensures Attempt(View(), ok) == SimpleApplied(registry, old(View()), p)
      ensures users == old(users)
      ensures pending <==> old(pending) || (ok && !Stale(old(store), p) && p.desired == Active && !p.revoked
                                            && p.backendId !in Ids(registry))
    {
      if p.id == "" { return false; }
      var version := if p.id in store then store[p.id].opVersion else 0;
      if p.opVersion != 0 && version >= p.opVersion { return true; }
      PoolKeys(registry);
      if p.desired == Active && !p.revoked {
        SyncBackends();
        var added := proxy.AddUser(p.clientId, FlowFor(p.transport));
        if !added { return false; }
        if p.backendId in Ids(registry) {
          var selected := proxy.SelectBackend(p.clientId, p.backendId);
        } else {
          pending := true;
        }
      } else {
        proxy.RemoveUser(p.clientId);
      }
      store := store[p.id := p.(applied := Applied)];
      return true;
    }

    method EligibleBackendIds(cands: seq<Placement>) returns (ids: seq<string>)
      ensures ids == Eligible(Ids(registry), cands)
    {
      ids := [];
      for i := 0 to |cands|
        invariant ids == Eligible(Ids(registry), cands[..i])
      {
        assert cands[..i + 1][..i] == cands[..i];
        var bid := cands[i].backendId;
        if bid in ids { continue; }
        if bid !in Ids(registry) { continue; }
        ids := ids + [bid];
      }
      assert cands[..|cands|] == cands;
    }

    /** The placements that give access, grouped by client in the order listed. */
    method GroupByUser(placements: seq<Placement>) returns (byUser: map<string, seq<Placement>>)
      ensures Grouped(byUser, placements)
    {
      byUser := map[];
      for i := 0 to |placements|
        invariant Grouped(byUser, placements[..i])
      {
        var p := placements[i];
        GroupStep(byUser, placements[..i], p);
        assert placements[..i + 1] == placements[..i] + [p];
        if p.desired != Active || p.revoked || p.clientId == "" { continue; }
        byUser := byUser[p.clientId := (if p.clientId in byUser then byUser[p.clientId] else []) + [p]];
      }
      assert placements[..|placements|] == placements;
    }

    /** Adds and routes one client; true when no backend of it is known yet. */
    method RebuildUser(client: string, cands: seq<Placement>, ghost placements: seq<Placement>) returns (deferred: bool)
      requires client != "" && cands != [] && cands == Cands(placements, client)
      modifies proxy
      ensures deferred <==> KnownOf(registry, placements, client) == []
      ensures proxy.View() == WithClient(registry, old(proxy.View()), placements, client)
    {
      var _ := proxy.AddUser(client, FlowFor(cands[0].transport));
      var ids := EligibleBackendIds(cands);
      if |ids| == 0 { return true; }
      var _ := proxy.SetUserBackends(client, ids);
      return false;
    }

    method RebuildUsers(byUser: map<string, seq<Placement>>, ghost placements: seq<Placement>)
      returns (late: bool, ghost order: seq<string>)
      requires forall c | c in byUser :: c != "" && byUser[c] != [] && byUser[c] == Cands(placements, c)
      modifies proxy
      ensures Distinct(order) && SetOf(order) == byUser.Keys
      ensures proxy.View() == Along(registry, old(proxy.View()), placements, order)
      ensures late <==> exists c | c in order :: KnownOf(registry, placements, c) == []
    {
      late, order := false, [];
      var left := byUser.Keys;
      while left != {}
        invariant left <= byUser.Keys && Distinct(order)
        invariant forall c :: c in order <==> c in byUser && c !in left
        invariant proxy.View() == Along(registry, old(proxy.View()), placements, order)
        invariant late <==> exists c | c in order :: KnownOf(registry, placements, c) == []
        decreases |left|
      {
        var client :| client in left;
        var deferred := RebuildUser(client, byUser[client], placements);
        late := late || deferred;
        left := left - {client};
        assert (order + [client])[..|order|] == order;
        order := order + [client];
      }
    }

    /** Pushes the listed placements to the proxy, visiting the clients in any order. */
    method RebuildFromStore(placements: seq<Placement>)
      modifies this`pending, this`users, proxy
      ensures proxy.View() == Rebuilt(registry, old(proxy.View()), placements)
      ensures pending <==> !AllRouted(registry, placements, ServedClients(placements))
      ensures users == |ServedClients(placements)|
    {
      SyncBackends();
      var byUser := GroupByUser(placements);
      forall c | c in byUser ensures byUser[c] != [] { CandsFacts(placements, c); }
      ghost var order;
      pending, order := RebuildUsers(byUser, placements);
      assert forall c :: c in order <==> c in SetOf(order);
      AlongAny(registry, WithPool(old(proxy.View()), PoolOf(registry)), placements, order);
      assert Rebuilt(registry, WithPool(old(proxy.View()), PoolOf(registry)), placements) == Rebuilt(registry, old(proxy.View()), placements);
      users := |byUser|;
      assert |byUser| == |byUser.Keys|;
    }
  }

  ghost predicate Grouped(byUser: map<string, seq<Placement>>, placements: seq<Placement>) {
    byUser.Keys == ServedClients(placements) && forall c | c in byUser :: byUser[c] == Cands(placements, c)
  }

  lemma GroupStep(byUser: map<string, seq<Placement>>, front: seq<Placement>, p: Placement)
    requires Grouped(byUser, front)
    ensures Grouped(if !Serves(p) then byUser
                    else byUser[p.clientId := (if p.clientId in byUser then byUser[p.clientId] else []) + [p]], front + [p])
  {
    ServedSnoc(front, p);
    CandsFacts(front, p.clientId);
    forall c | c in ServedClients(front + [p]) { CandsSnoc(front, p, c); }
  }

  lemma ServedSnoc(front: seq<Placement>, p: Placement)
    ensures ServedClients(front + [p]) == ServedClients(front) + (if Serves(p) then {p.clientId} else {})
  {
  }

  lemma CandsSnoc(front: seq<Placement>, p: Placement, c: string)
    ensures Cands(front + [p], c) == if Serves(p) && p.clientId == c then Cands(front, c) + [p] else Cands(front, c)
  {
    assert (front + [p])[..|front|] == front;
  }

  lemma {:induction false} PoolKeys(registry: seq<Backend>)
    ensures PoolOf(registry).Keys == Ids(registry)
  {
    PoolFacts(registry);
  }

  lemma UsersStep(users: map<string, string>, done: set<string>, flow: string -> string, client: string)
    ensures users + UsersWith(done + {client}, flow) == (users + UsersWith(done, flow))[client := flow(client)]
  {
  }

  lemma RoutesStep(route: map<string, seq<string>>, done: set<string>, ids: string -> seq<string>, client: string)
    requires client !in done
    ensures route + RoutesWith(done + {client}, ids)
            == if ids(client) == [] then route + RoutesWith(done, ids)
               else (route + RoutesWith(done, ids))[client := Cleaned(ids(client))]
  {
    if ids(client) == [] { assert RoutesWith(done + {client}, ids) == RoutesWith(done, ids); }
  }

  lemma PartlyStep(registry: seq<Backend>, t: Tables, placements: seq<Placement>, done: set<string>, client: string)
    requires client !in done
    ensures PartlyRebuilt(registry, t, placements, done + {client})
            == WithClient(registry, PartlyRebuilt(registry, t, placements, done), placements, client)
  {
    UsersStep(t.users, done, Flows(placements), client);
    RoutesStep(t.route, done, Knowns(registry, placements), client);
  }

  /** One client added, and routed if a backend of it is known. */
  function WithClient(registry: seq<Backend>, t: Tables, placements: seq<Placement>, client: string): Tables {
    var added := WithUser(t, client, FlowOf(placements, client));
    var ids := KnownOf(registry, placements, client);
    if ids == [] then added else WithRoute(added, client, ids)
  }

  /** Rebuilding clients one after the other. */
  function Along(registry: seq<Backend>, t: Tables, placements: seq<Placement>, order: seq<string>): Tables {
    if order == [] then t
    else WithClient(registry, Along(registry, t, placements, order[..|order| - 1]), placements, order[|order| - 1])
  }

  lemma NothingRebuilt(registry: seq<Backend>, t: Tables, placements: seq<Placement>)
    requires t.pool == PoolOf(registry)
    ensures PartlyRebuilt(registry, t, placements, {}) == t
  {
    assert UsersWith({}, Flows(placements)) == map[] && RoutesWith({}, Knowns(registry, placements)) == map[];
  }

  lemma SetOfSnoc(front: seq<string>, last: string)
    ensures SetOf(front + [last]) == SetOf(front) + {last}
  {
  }

  /** Tables that each client's rebuild extends are reached along any order. */
  lemma {:induction false} AlongReaches(registry: seq<Backend>, t: Tables, placements: seq<Placement>, order: seq<string>,
                                        part: set<string> -> Tables)
    requires Distinct(order) && part({}) == t
    requires forall done, c | c !in done :: part(done + {c}) == WithClient(registry, part(done), placements, c)
    ensures Along(registry, t, placements, order) == part(SetOf(order))
  {
    if order == [] {
      assert SetOf(order) == {};
    } else {
      var front, client := order[..|order| - 1], order[|order| - 1];
      AlongReaches(registry, t, placements, front, part);
      assert order == front + [client];
      SetOfSnoc(front, client);
      assert client !in SetOf(front);
    }
  }

  /** Whatever the order, the result is the same. */
  lemma AlongAny(registry: seq<Backend>, t: Tables, placements: seq<Placement>, order: seq<string>)
    requires Distinct(order) && t.pool == PoolOf(registry)
    ensures Along(registry, t, placements, order) == PartlyRebuilt(registry, t, placements, SetOf(order))
  {
    var part := done => PartlyRebuilt(registry, t, placements, done);
    NothingRebuilt(registry, t, placements);
    forall done, c | c !in done ensures part(done + {c}) == WithClient(registry, part(done), placements, c) {
      PartlyStep(registry, t, placements, done, c);
    }
    AlongReaches(registry, t, placements, order, part);
  }
}
