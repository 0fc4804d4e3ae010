/** What the rendered config does: every active client reaches the backend of its placement. */
module Meaning {
  import opened Domain
  import opened Order
  import opened Tags
  import opened Config
  import opened Build

  /** No two (client, backend) pairs share an outbound tag and no two clients share a selector. */
  ghost predicate TagsDistinct(clients: set<string>, backends: seq<Backend>) {
    && (forall c, c', b, b' {:trigger SameOutbound(c, b, c', b')} |
          c in clients && c' in clients && b in backends && b' in backends && SameOutbound(c, b, c', b') ::
          c == c' && b == b')
    && (forall c, c' {:trigger SameSelector(c, c')} | c in clients && c' in clients && SameSelector(c, c') :: c == c')
  }

  predicate SameOutbound(c: string, b: Backend, c': string, b': Backend) {
    OutboundTag(c, b.id) == OutboundTag(c', b'.id)
  }

  predicate SameSelector(c: string, c': string) {
    SelectorTag(c) == SelectorTag(c')
  }

  lemma OutboundTells(clients: set<string>, backends: seq<Backend>, c: string, b: Backend, c': string, b': Backend)
    requires TagsDistinct(clients, backends) && c in clients && c' in clients && b in backends && b' in backends
    ensures OutboundTag(c, b.id) == OutboundTag(c', b'.id) <==> c == c' && b == b'
  {
    assert SameOutbound(c, b, c', b') <==> OutboundTag(c, b.id) == OutboundTag(c', b'.id);
  }

  lemma SelectorTells(clients: set<string>, backends: seq<Backend>, c: string, c': string)
    requires TagsDistinct(clients, backends) && c in clients && c' in clients
    ensures SelectorTag(c) == SelectorTag(c') <==> c == c'
  {
    assert SameSelector(c, c') <==> SelectorTag(c) == SelectorTag(c');
  }

  ghost predicate LowerDistinct(ids: set<string>) {
    forall a, b | a in ids && b in ids && Lower(a) == Lower(b) :: a == b
  }

  /** Ids in the text form of section 4 of RFC 9562, without two that differ in case only, never clash. */
  lemma UuidsHaveDistinctTags(clients: set<string>, backends: seq<Backend>)
    requires forall c | c in clients :: Hyphens(c) == 4
    requires forall b | b in backends :: Hyphens(b.id) == 4
    requires LowerDistinct(clients) && LowerDistinct(Ids(backends)) && UniqueIds(backends)
    ensures TagsDistinct(clients, backends)
  {
    forall c, c', b, b' | c in clients && c' in clients && b in backends && b' in backends
      && OutboundTag(c, b.id) == OutboundTag(c', b'.id)
      ensures c == c' && b == b'
    {
      PrintInjective(c, b.id, c', b'.id);
      assert b.id in Ids(backends) && b'.id in Ids(backends);
    }
    forall c, c' | c in clients && c' in clients && SelectorTag(c) == SelectorTag(c') ensures c == c' {
      assert SelectorTag(c)[2..] == Lower(c) && SelectorTag(c')[2..] == Lower(c');
    }
  }

  // Which outbounds and rules the config holds.

  predicate IsBlockRow(o: Json, u: string, backends: seq<Backend>, chosen: string) {
    || o == UserSelector(u, backends, chosen)
    || exists b | b in backends :: o == UserOutbound(u, b)
  }

  lemma BlockRows(u: string, backends: seq<Backend>, chosen: string, o: Json)
    ensures o in BlockOf(u, backends, chosen) <==> IsBlockRow(o, u, backends, chosen)
  {
    var rows := UserOutbounds(u, backends);
    if b :| b in backends && o == UserOutbound(u, b) {
      var i :| 0 <= i < |backends| && backends[i] == b;
      assert rows[i] == o;
    }
  }

  lemma {:induction false} BlocksRows(users: seq<string>, backends: seq<Backend>, placements: seq<Placement>, o: Json)
    requires forall u | u in users :: u in Clients(placements)
    ensures o in BlocksFor(users, backends, placements)
            <==> exists u | u in users :: IsBlockRow(o, u, backends, LastBackend(placements, u).value)
  {
    if users != [] {
      var front, u := users[..|users| - 1], users[|users| - 1];
      var block := BlockOf(u, backends, LastBackend(placements, u).value);
      BlocksRows(front, backends, placements, o);
      BlockRows(u, backends, LastBackend(placements, u).value, o);
      assert forall v :: v in users <==> v in front || v == u by { assert users == front + [u]; }
      assert BlocksFor(users, backends, placements) == BlocksFor(front, backends, placements) + block;
    }
  }

  lemma TagsOfRows(u: string, b: Backend, backends: seq<Backend>, chosen: string)
    ensures Get(UserOutbound(u, b), "tag") == Str(OutboundTag(u, b.id))
    ensures Get(UserSelector(u, backends, chosen), "tag") == Str(SelectorTag(u))
  {
  }

  lemma TagKinds(u: string, c: string, b: string)
    ensures OutboundTag(c, b) != SelectorTag(u)
    ensures forall k | k == "direct" || k == "block" ::
              Get(Plain(k), "tag") == Str(k) && OutboundTag(c, b) != k && SelectorTag(u) != k
  {
    assert OutboundTag(c, b)[0] == 'b' && OutboundTag(c, b)[1] == '-' && SelectorTag(u)[0] == 'u';
    assert "direct"[0] == 'd' && "block"[0] == 'b' && "block"[1] == 'l';
  }

  ghost function Rows(state: NodeState): seq<Json>
    requires Valid(state)
  {
    NamesAreClients(state.placements);
    [Plain("direct"), Plain("block")]
    + BlocksFor(Names(Clients(state.placements)), SortedBackends(state.backends), state.placements)
  }

  /** The parts of a config that decide where users go. */
  ghost predicate Describes(cfg: Json, state: NodeState) {
    && Valid(state)
    && Outbounds(cfg) == Rows(state)
    && Rules(cfg) == RulesFor(Names(Clients(state.placements)))
  }

  lemma ConfigDescribes(state: NodeState)
    requires Valid(state)
    ensures Describes(ConfigOf(state), state)
  {
    var cfg := ConfigOf(state);
    assert Get(cfg, "outbounds") == Arr(Rows(state));
    var route := Get(cfg, "route");
    assert Get(route, "rules") == Arr(RulesFor(Names(Clients(state.placements))));
  }

  lemma RowIs(state: NodeState, o: Json)
    requires Valid(state)
    ensures o in Rows(state) <==>
              || o == Plain("direct") || o == Plain("block")
              || exists u | u in Clients(state.placements) ::
                   IsBlockRow(o, u, SortedBackends(state.backends), LastBackend(state.placements, u).value)
  {
    NamesAreClients(state.placements);
    var users := Names(Clients(state.placements));
    assert forall u :: u in users <==> u in SetOf(users);
    BlocksRows(users, SortedBackends(state.backends), state.placements, o);
  }

  lemma RowWithOutboundTag(state: NodeState, c: string, b: string, o: Json) returns (u: string, b': Backend)
    requires Valid(state) && o in Rows(state) && Get(o, "tag") == Str(OutboundTag(c, b))
    ensures u in Clients(state.placements) && b' in state.backends && o == UserOutbound(u, b')
    ensures OutboundTag(u, b'.id) == OutboundTag(c, b)
  {
    var sorted := SortedBackends(state.backends);
    RowIs(state, o);
    TagKinds("", c, b);
    u :| u in Clients(state.placements) && IsBlockRow(o, u, sorted, LastBackend(state.placements, u).value);
    TagKinds(u, c, b);
    TagsOfRows(u, Backend("", "", 0), sorted, LastBackend(state.placements, u).value);
    b' :| b' in sorted && o == UserOutbound(u, b');
    TagsOfRows(u, b', sorted, "");
    assert b' in SetOf(sorted);
  }

  /** Every outbound that carries the tag of a (client, backend) pair is that pair's outbound. */
  lemma OutboundTagIdentifies(state: NodeState, c: string, b: Backend, o: Json)
    requires Valid(state) && TagsDistinct(Clients(state.placements), state.backends)
    requires c in Clients(state.placements) && b in state.backends
    requires o in Rows(state) && Get(o, "tag") == Str(OutboundTag(c, b.id))
    ensures o == UserOutbound(c, b)
  {
    var u, b' := RowWithOutboundTag(state, c, b.id, o);
    OutboundTells(Clients(state.placements), state.backends, u, b', c, b);
  }

  lemma SelectorTagIdentifies(state: NodeState, c: string, o: Json)
    requires Valid(state) && TagsDistinct(Clients(state.placements), state.backends)
    requires c in Clients(state.placements)
    requires o in Rows(state) && Get(o, "tag") == Str(SelectorTag(c))
    ensures o == UserSelector(c, SortedBackends(state.backends), LastBackend(state.placements, c).value)
  {
    var sorted := SortedBackends(state.backends);
    RowIs(state, o);
    TagKinds(c, "", "");
    var u :| u in Clients(state.placements) && IsBlockRow(o, u, sorted, LastBackend(state.placements, u).value);
    SelectorTells(Clients(state.placements), state.backends, u, c);
    if o != UserSelector(u, sorted, LastBackend(state.placements, u).value) {
      var b' :| b' in sorted && o == UserOutbound(u, b');
      TagsOfRows(u, b', sorted, "");
      TagKinds(c, u, b'.id);
    } else {
      TagsOfRows(u, Backend("", "", 0), sorted, LastBackend(state.placements, u).value);
    }
  }

  lemma RowsPresent(state: NodeState, c: string)
    requires Valid(state) && c in Clients(state.placements)
    ensures forall b | b in state.backends :: UserOutbound(c, b) in Rows(state)
    ensures UserSelector(c, SortedBackends(state.backends), LastBackend(state.placements, c).value) in Rows(state)
  {
    var sorted, chosen := SortedBackends(state.backends), LastBackend(state.placements, c).value;
    forall b | b in state.backends ensures UserOutbound(c, b) in Rows(state) {
      assert b in SetOf(sorted);
      assert IsBlockRow(UserOutbound(c, b), c, sorted, chosen);
      RowIs(state, UserOutbound(c, b));
    }
    assert IsBlockRow(UserSelector(c, sorted, chosen), c, sorted, chosen);
    RowIs(state, UserSelector(c, sorted, chosen));
  }

  lemma FindUserOutbound(state: NodeState, c: string, b: Backend)
    requires Valid(state) && TagsDistinct(Clients(state.placements), state.backends)
    requires c in Clients(state.placements) && b in state.backends
    ensures FindOutbound(Rows(state), OutboundTag(c, b.id)) == Some(UserOutbound(c, b))
  {
    RowsPresent(state, c);
    forall o | o in Rows(state) && Get(o, "tag") == Str(OutboundTag(c, b.id)) ensures o == UserOutbound(c, b) {
      OutboundTagIdentifies(state, c, b, o);
    }
    TagsOfRows(c, b, [], "");
    FindUnique(Rows(state), OutboundTag(c, b.id), UserOutbound(c, b));
  }

  lemma FindUserSelector(state: NodeState, c: string)
    requires Valid(state) && TagsDistinct(Clients(state.placements), state.backends)
    requires c in Clients(state.placements)
    ensures FindOutbound(Rows(state), SelectorTag(c))
            == Some(UserSelector(c, SortedBackends(state.backends), LastBackend(state.placements, c).value))
  {
    var sorted, chosen := SortedBackends(state.backends), LastBackend(state.placements, c).value;
    RowsPresent(state, c);
    forall o | o in Rows(state) && Get(o, "tag") == Str(SelectorTag(c)) ensures o == UserSelector(c, sorted, chosen) {
      SelectorTagIdentifies(state, c, o);
    }
    TagsOfRows(c, Backend("", "", 0), sorted, chosen);
    FindUnique(Rows(state), SelectorTag(c), UserSelector(c, sorted, chosen));
  }

  lemma RuleMentions(u: string, c: string)
    ensures Mentions(UserRule(u), c) <==> u == c
    ensures Get(UserRule(u), "outbound") == Str(SelectorTag(u))
  {
    assert Items(UserRule(u), "auth_user") == [Str(u)];
  }

  lemma RuleOf(users: seq<string>, c: string)
    ensures FirstRule(RulesFor(users), c) == if c in users then Some(SelectorTag(c)) else None
  {
    var rules := RulesFor(users);
    forall i | 0 <= i < |rules| ensures Mentions(rules[i], c) <==> users[i] == c {
      RuleMentions(users[i], c);
    }
    if c in users {
      var i :| 0 <= i < |users| && users[i] == c;
      RuleMentions(c, c);
      assert rules[i] == UserRule(c);
      FirstRuleUnique(rules, c, UserRule(c));
    } else {
      FirstRuleAbsent(rules, c);
    }
  }

  function BackendWith(backends: seq<Backend>, id: string): (b: Backend)
    requires id in Ids(backends)
    ensures b in backends && b.id == id
  {
    if backends[0].id == id then backends[0] else BackendWith(backends[1..], id)
  }

  lemma BackendWithId(backends: seq<Backend>, b: Backend)
    requires UniqueIds(backends) && b in backends
    ensures b.id in Ids(backends) && BackendWith(backends, b.id) == b
  {
    var found := BackendWith(backends, b.id);
    var i :| 0 <= i < |backends| && backends[i] == b;
    var j :| 0 <= j < |backends| && backends[j] == found;
  }

  lemma {:induction false} LastBackendKnown(placements: seq<Placement>, c: string)
    requires c in Clients(placements)
    ensures exists p | p in placements :: Counts(p) && p.clientId == c && p.backendId == LastBackend(placements, c).value
  {
    var front, last := placements[..|placements| - 1], placements[|placements| - 1];
    assert placements == front + [last];
    if !(Counts(last) && last.clientId == c) { LastBackendKnown(front, c); }
  }

  /** The backend a client leaves by, given a selection on its selector or none. */
  ghost predicate Points(overrides: Overrides, client: string, chosen: string, backend: string) {
    if SelectorTag(client) in overrides then overrides[SelectorTag(client)] == OutboundTag(client, backend)
    else backend == chosen
  }

  lemma SelectedTag(client: string, backends: seq<Backend>, chosen: string, overrides: Overrides, backend: string)
    requires Points(overrides, client, chosen, backend)
    ensures Selected(UserSelector(client, backends, chosen), SelectorTag(client), overrides) == OutboundTag(client, backend)
  {
  }

  /** Whatever has been selected, traffic leaves by the backend the selector points to. */
  lemma DispatchFollowsSelector(cfg: Json, state: NodeState, overrides: Overrides, client: string, b: Backend)
    requires Describes(cfg, state) && TagsDistinct(Clients(state.placements), state.backends)
    requires client in Clients(state.placements) && b in state.backends
    requires Points(overrides, client, LastBackend(state.placements, client).value, b.id)
    ensures Dispatch(cfg, overrides, client) == Some(UserOutbound(client, b))
  {
    var users := Names(Clients(state.placements));
    assert client in SetOf(users);
    RuleOf(users, client);
    FindUserSelector(state, client);
    FindUserOutbound(state, client, b);
    SelectedTag(client, SortedBackends(state.backends), LastBackend(state.placements, client).value, overrides, b.id);
  }

  lemma DispatchOfStranger(cfg: Json, state: NodeState, overrides: Overrides, client: string)
    requires Describes(cfg, state) && client !in Clients(state.placements)
    ensures Dispatch(cfg, overrides, client) == None
  {
    var users := Names(Clients(state.placements));
    assert client !in SetOf(users);
    RuleOf(users, client);
  }

  lemma EndpointOfUser(client: string, b: Backend)
    ensures EndpointOf(UserOutbound(client, b)) == Some(Endpoint(b.address, b.port as real, client))
  {
  }

  /** Rendering preserves meaning: each active client is sent to the address and port of the backend
      of its last active placement, under its own uuid, and no other user is sent anywhere. */
  lemma BuildRoutesToPlacement(state: NodeState, client: string)
    requires Valid(state) && TagsDistinct(Clients(state.placements), state.backends)
    ensures client in Clients(state.placements) ==>
              && LastBackend(state.placements, client).value in Ids(state.backends)
              && var b := BackendWith(state.backends, LastBackend(state.placements, client).value);
              Destination(ConfigOf(state), map[], client) == Some(Endpoint(b.address, b.port as real, client))
    ensures client !in Clients(state.placements) ==> Destination(ConfigOf(state), map[], client) == None
  {
    ConfigDescribes(state);
    if client in Clients(state.placements) {
      LastBackendKnown(state.placements, client);
      var b := BackendWith(state.backends, LastBackend(state.placements, client).value);
      DispatchFollowsSelector(ConfigOf(state), state, map[], client, b);
      EndpointOfUser(client, b);
    } else {
      DispatchOfStranger(ConfigOf(state), state, map[], client);
    }
  }

  // The order of placements does not matter when each client has one.

  ghost predicate OnePerClient(placements: seq<Placement>) {
    forall p, q | p in placements && q in placements && Counts(p) && Counts(q) && p.clientId == q.clientId :: p == q
  }

  lemma {:induction false} OnlyChoice(placements: seq<Placement>, p: Placement)
    requires OnePerClient(placements) && p in placements && Counts(p)
    ensures LastBackend(placements, p.clientId) == Some(p.backendId)
    ensures FirstTransport(placements, p.clientId) == Some(p.transport)
  {
    var front, last := placements[..|placements| - 1], placements[|placements| - 1];
    assert placements == front + [last];
    ChoiceSnoc(front, last, p.clientId);
    if p.clientId in Clients(front) {
      var q :| q in front && Counts(q) && q.clientId == p.clientId;
      assert q == p;
      OnlyChoice(front, p);
    }
  }

  /** The config depends on the clients, the backend chosen for each and each one's flow alone. */
  lemma ConfigCongruence(s: NodeState, t: NodeState)
    requires Valid(s) && Valid(t) && t == s.(placements := t.placements)
    requires Clients(s.placements) == Clients(t.placements)
    requires forall c | c in Clients(s.placements) ::
               && LastBackend(s.placements, c) == LastBackend(t.placements, c)
               && FlowFor(FirstTransport(s.placements, c).value) == FlowFor(FirstTransport(t.placements, c).value)
    ensures ConfigOf(s) == ConfigOf(t)
  {
    NamesAreClients(s.placements);
    var users := Names(Clients(s.placements));
    BlocksCongruence(users, SortedBackends(s.backends), s.placements, t.placements);
    assert UsersFor(users, s.placements) == UsersFor(users, t.placements);
  }

  lemma {:induction false} BlocksCongruence(users: seq<string>, backends: seq<Backend>, s: seq<Placement>, t: seq<Placement>)
    requires forall u | u in users :: u in Clients(s) && u in Clients(t) && LastBackend(s, u) == LastBackend(t, u)
    ensures BlocksFor(users, backends, s) == BlocksFor(users, backends, t)
  {
    if users != [] { BlocksCongruence(users[..|users| - 1], backends, s, t); }
  }

  /** Listing the same placements in any order, or repeatedly, renders the same config. */
  lemma BuildIgnoresOrder(s: NodeState, t: NodeState)
    requires Valid(s) && t == s.(placements := t.placements)
    requires SetOf(s.placements) == SetOf(t.placements) && OnePerClient(s.placements)
    ensures Valid(t) && ConfigOf(s) == ConfigOf(t)
  {
    assert forall p :: p in s.placements <==> p in SetOf(s.placements);
    assert forall p :: p in t.placements <==> p in SetOf(t.placements);
    assert Clients(s.placements) == Clients(t.placements);
    forall c | c in Clients(s.placements)
      ensures LastBackend(s.placements, c) == LastBackend(t.placements, c)
      ensures FirstTransport(s.placements, c) == FirstTransport(t.placements, c)
    {
      var p :| p in s.placements && Counts(p) && p.clientId == c;
      OnlyChoice(s.placements, p);
      OnlyChoice(t.placements, p);
    }
    ConfigCongruence(s, t);
  }
}
