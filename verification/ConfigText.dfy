/** What rendered and merged configs say, in the fields of the config itself and the order of the listed
    placements. */
module ConfigText {
  import opened Domain
  import opened Order
  import opened Tags
  import opened Config
  import opened Build
  import opened Meaning
  import opened Merge
  import opened MergeLaws

  // Placements that decide.

  predicate IsActive(p: Placement, client: string) {
    p.desired == Active && p.clientId == client && client != ""
  }

  /** The last active placement of its client. */
  ghost predicate LastOf(placements: seq<Placement>, client: string, i: int) {
    && 0 <= i < |placements| && IsActive(placements[i], client)
    && forall j | i < j < |placements| :: !IsActive(placements[j], client)
  }

  /** The first active placement of its client. */
  ghost predicate FirstOf(placements: seq<Placement>, client: string, i: int) {
    && 0 <= i < |placements| && IsActive(placements[i], client)
    && forall j | 0 <= j < i :: !IsActive(placements[j], client)
  }

  lemma {:induction false} LastIsChosen(placements: seq<Placement>, client: string, i: int)
    requires LastOf(placements, client, i)
    ensures LastBackend(placements, client) == Some(placements[i].backendId)
  {
    var n := |placements| - 1;
    if i < n {
      assert !IsActive(placements[n], client);
      LastIsChosen(placements[..n], client, i);
    }
  }

  lemma {:induction false} FirstIsChosen(placements: seq<Placement>, client: string, i: int)
    requires FirstOf(placements, client, i)
    ensures FirstTransport(placements, client) == Some(placements[i].transport)
  {
    var n := |placements| - 1;
    var front := placements[..n];
    if i < n {
      FirstIsChosen(front, client, i);
    } else {
      assert forall j | 0 <= j < |front| :: !IsActive(front[j], client);
    }
  }

  lemma {:induction false} FirstExists(placements: seq<Placement>, client: string) returns (i: int)
    requires client in Clients(placements)
    ensures FirstOf(placements, client, i)
  {
    var n := |placements| - 1;
    var front := placements[..n];
    assert placements == front + [placements[n]];
    if client in Clients(front) {
      i := FirstExists(front, client);
    } else {
      i := n;
      forall j | 0 <= j < n ensures !IsActive(placements[j], client) { assert front[j] in front; }
    }
  }

  // Where a built config sends users.

  /** A client is sent to the backend of its last active placement, under its own uuid. */
  lemma BuildSends(state: NodeState, client: string, i: int, b: Backend)
    requires Valid(state) && TagsDistinct(Clients(state.placements), state.backends)
    requires LastOf(state.placements, client, i) && b in state.backends && b.id == state.placements[i].backendId
    ensures Destination(ConfigOf(state), map[], client) == Some(Endpoint(b.address, b.port as real, client))
  {
    LastIsChosen(state.placements, client, i);
    BackendWithId(state.backends, b);
    assert state.placements[i] in state.placements && Counts(state.placements[i]);
    BuildRoutesToPlacement(state, client);
  }

  /** Nobody without an active placement matches a rule; such traffic leaves by the direct outbound. */
  lemma BuildSendsNobodyElse(state: NodeState, user: string)
    requires Valid(state) && forall i | 0 <= i < |state.placements| :: !IsActive(state.placements[i], user)
    ensures var cfg := ConfigOf(state);
            && FirstRule(Rules(cfg), user) == None
            && Get(Get(cfg, "route"), "final") == Str("direct")
            && FindOutbound(Outbounds(cfg), "direct") == Some(Obj(map["type" := Str("direct"), "tag" := Str("direct")]))
  {
    var cfg := ConfigOf(state);
    ConfigDescribes(state);
    assert user !in Clients(state.placements);
    var users := Names(Clients(state.placements));
    assert forall u :: u in users <==> u in SetOf(users);
    RuleOf(users, user);
    assert Outbounds(cfg)[0] == Plain("direct") && Get(Plain("direct"), "tag") == Str("direct");
    FinalIsDirect(state);
  }

  lemma FinalIsDirect(state: NodeState)
    requires Valid(state)
    ensures Get(Get(ConfigOf(state), "route"), "final") == Str("direct")
  {
    var route := Get(ConfigOf(state), "route");
    assert route.Obj? && "final" in route.fields;
  }

  /** A client's selector offers exactly its own outbound to every backend, and blocking. */
  lemma SelectorOffers(state: NodeState, client: string, i: int, tag: string)
    requires Valid(state) && TagsDistinct(Clients(state.placements), state.backends) && LastOf(state.placements, client, i)
    ensures var o := FindOutbound(Outbounds(ConfigOf(state)), "u-" + Lower(client));
            && o.Some? && Get(o.value, "type") == Str("selector")
            && Get(o.value, "default") == Str("b-" + Lower(client) + "-" + Lower(state.placements[i].backendId))
            && (Str(tag) in Items(o.value, "outbounds") <==>
                tag == "block" || exists b | b in state.backends :: tag == "b-" + Lower(client) + "-" + Lower(b.id))
  {
    LastIsChosen(state.placements, client, i);
    assert state.placements[i] in state.placements && Counts(state.placements[i]);
    ConfigDescribes(state);
    FindUserSelector(state, client);
    OptionsAre(client, SortedBackends(state.backends), state.placements[i].backendId, tag);
    assert forall b :: b in SortedBackends(state.backends) <==> b in SetOf(SortedBackends(state.backends));
    assert forall b :: b in state.backends <==> b in SetOf(state.backends);
  }

  lemma OptionsAre(client: string, backends: seq<Backend>, chosen: string, tag: string)
    ensures var o := UserSelector(client, backends, chosen);
            && Get(o, "type") == Str("selector") && Get(o, "default") == Str(OutboundTag(client, chosen))
            && (Str(tag) in Items(o, "outbounds") <==>
                tag == "block" || exists b | b in backends :: tag == OutboundTag(client, b.id))
  {
    var options := Options(client, backends) + [Str("block")];
    assert Items(UserSelector(client, backends, chosen), "outbounds") == options;
    assert options[|backends|] == Str("block");
    if b :| b in backends && tag == OutboundTag(client, b.id) {
      var i :| 0 <= i < |backends| && backends[i] == b;
      assert options[i] == Str(tag);
    }
  }

  /** Backends are listed by ascending id. */
  lemma BackendsAscend(state: NodeState, i: int, j: int)
    requires Valid(state) && 0 <= i < j < |SortedBackends(state.backends)|
    ensures Less(SortedBackends(state.backends)[i].id, SortedBackends(state.backends)[j].id)
  {
    assert LessBackend(SortedBackends(state.backends)[i], SortedBackends(state.backends)[j]);
  }

  // Users.

  /** The entry of a user: its uuid as name and uuid, and the vision flow on REALITY alone. */
  predicate IsUserRow(u: Json, client: string, t: Transport) {
    && u.Obj? && u.fields.Keys == (if t == Reality then {"name", "uuid", "flow"} else {"name", "uuid"})
    && Get(u, "name") == Str(client) && Get(u, "uuid") == Str(client)
    && (t == Reality ==> Get(u, "flow") == Str("xtls-rprx-vision"))
  }

  lemma EntryIsUserRow(client: string, t: Transport)
    ensures IsUserRow(UserEntry(client, FlowFor(t)), client, t)
  {
    var u := UserEntry(client, FlowFor(t));
    assert Get(u, "name") == Str(client) && Get(u, "uuid") == Str(client);
  }

  /** These are the users of some placements: one row per active client, in ascending order, with the
      transport of its first active placement. */
  ghost predicate AreUsers(users: seq<Json>, clients: seq<string>, placements: seq<Placement>) {
    && |users| == |clients| && Ascending(Less, clients)
    && (forall c :: c in clients <==> exists i | 0 <= i < |placements| :: IsActive(placements[i], c))
    && forall k, i | 0 <= k < |users| && FirstOf(placements, clients[k], i) ::
         IsUserRow(users[k], clients[k], placements[i].transport)
  }

  lemma UsersAreUsers(placements: seq<Placement>)
    ensures forall u | u in Names(Clients(placements)) :: u in Clients(placements)
    ensures AreUsers(UsersFor(Names(Clients(placements)), placements), Names(Clients(placements)), placements)
  {
    NamesAreClients(placements);
    var clients := Names(Clients(placements));
    var users := UsersFor(clients, placements);
    forall c ensures c in clients <==> exists i | 0 <= i < |placements| :: IsActive(placements[i], c) {
      assert c in clients <==> c in SetOf(clients);
      if c in Clients(placements) {
        var i := FirstExists(placements, c);
      }
      if i :| 0 <= i < |placements| && IsActive(placements[i], c) {
        assert placements[i] in placements && Counts(placements[i]);
      }
    }
    forall k, i | 0 <= k < |users| && FirstOf(placements, clients[k], i)
      ensures IsUserRow(users[k], clients[k], placements[i].transport)
    {
      FirstIsChosen(placements, clients[k], i);
      EntryIsUserRow(clients[k], placements[i].transport);
    }
  }

  ghost function BuiltInbound(state: NodeState): Json {
    NamesAreClients(state.placements);
    Obj(state.inbound.shell + map["tag" := Str(state.inbound.tag),
                                  "users" := Arr(UsersFor(Names(Clients(state.placements)), state.placements))])
  }

  lemma BuiltInbounds(state: NodeState)
    requires Valid(state)
    ensures Items(ConfigOf(state), "inbounds") == [BuiltInbound(state)]
  {
    assert Get(ConfigOf(state), "inbounds") == Arr([BuiltInbound(state)]);
  }

  lemma InboundUsers(state: NodeState)
    ensures forall u | u in Names(Clients(state.placements)) :: u in Clients(state.placements)
    ensures Get(BuiltInbound(state), "tag") == Str(state.inbound.tag)
    ensures Items(BuiltInbound(state), "users") == UsersFor(Names(Clients(state.placements)), state.placements)
  {
    NamesAreClients(state.placements);
  }

  /** A built config has one inbound, under the node's tag, with exactly those users. */
  lemma BuildListsUsers(state: NodeState)
    requires Valid(state)
    ensures var inbounds := Items(ConfigOf(state), "inbounds");
            && |inbounds| == 1 && Get(inbounds[0], "tag") == Str(state.inbound.tag)
            && AreUsers(Items(inbounds[0], "users"), Names(Clients(state.placements)), state.placements)
  {
    BuiltInbounds(state);
    InboundUsers(state);
    UsersAreUsers(state.placements);
  }

  /** A merged config has them in every inbound under the node's tag, if there are any. */
  lemma MergeListsUsers(base: Json, state: NodeState, k: nat)
    requires base.Obj? && Valid(state) && k < |Items(base, "inbounds")|
    ensures var before, after := Items(base, "inbounds")[k], Items(Merged(base, state), "inbounds");
            && |after| == |Items(base, "inbounds")|
            && if before.Obj? && Get(before, "tag") == Str(state.inbound.tag) && Clients(state.placements) != {} then
                 after[k].Obj? && after[k].fields.Keys == before.fields.Keys + {"users"}
                 && AreUsers(Items(after[k], "users"), Names(Clients(state.placements)), state.placements)
               else after[k] == before
  {
    UsersAreUsers(state.placements);
    NoClientsNoUsers(state);
    ReplaceParts(base, state.inbound.tag, Users(state), NewOutbounds(state), NewRules(state));
  }

  // The operator's rows.

  /** A tag the agent claims as its own. */
  ghost predicate AgentsTag(tag: string) {
    exists rest: string :: tag == "b-" + rest || tag == "backend-" + rest
  }

  /** A row whose field holds such a tag. */
  ghost predicate Agents(row: Json, field: string) {
    Get(row, field).Str? && AgentsTag(Get(row, field).s)
  }

  lemma DynamicTagIff(tag: string)
    ensures IsDynamicTag(tag) <==> AgentsTag(tag)
  {
    if HasPrefix(tag, "b-") { assert tag == "b-" + tag[2..]; }
    if HasPrefix(tag, "backend-") { assert tag == "backend-" + tag[8..]; }
  }

  lemma StaticIff(row: Json)
    ensures StaticOutbound(row) <==> !Agents(row, "tag")
    ensures StaticRule(row) <==> !Agents(row, "outbound")
  {
    if Get(row, "tag").Str? { DynamicTagIff(Get(row, "tag").s); }
    if Get(row, "outbound").Str? { DynamicTagIff(Get(row, "outbound").s); }
  }

  lemma {:induction false} FilterSame(rows: seq<Json>, f: Json -> bool, g: Json -> bool)
    requires forall r | r in rows :: f(r) == g(r)
    ensures Filter(rows, f) == Filter(rows, g)
  {
    if rows != [] { FilterSame(rows[..|rows| - 1], f, g); }
  }

  /** A merge keeps the base's outbounds whose tag does not start with `b-` or `backend-`, in their order, and
      puts the new state's behind them; and its rules likewise, with the new state's in front. */
  lemma MergeKeepsOperatorRows(base: Json, state: NodeState)
    requires base.Obj? && Valid(state)
    ensures Outbounds(Merged(base, state)) == Filter(Outbounds(base), o => !Agents(o, "tag")) + NewOutbounds(state)
    ensures Rules(Merged(base, state)) == NewRules(state) + Filter(Rules(base), r => !Agents(r, "outbound"))
  {
    ReplaceParts(base, state.inbound.tag, Users(state), NewOutbounds(state), NewRules(state));
    forall r ensures StaticOutbound(r) == !Agents(r, "tag") && StaticRule(r) == !Agents(r, "outbound") { StaticIff(r); }
    FilterSame(Outbounds(base), StaticOutbound, o => !Agents(o, "tag"));
    FilterSame(Rules(base), StaticRule, r => !Agents(r, "outbound"));
  }

  /** The fields of a merged outbound. */
  predicate IsPairOutbound(o: Json, p: Placement, b: Backend) {
    && p.desired == Active && p.clientId != "" && b.id == p.backendId
    && o == Obj(map["type" := Str("vless"), "tag" := Str("b-" + Lower(p.clientId) + "-" + Lower(b.id)),
                    "server" := Str(b.address), "server_port" := Num(b.port as real),
                    "uuid" := Str(p.clientId), "flow" := Str("")])
  }

  predicate IsPairRule(r: Json, p: Placement) {
    && p.desired == Active && p.clientId != ""
    && r == Obj(map["auth_user" := Arr([Str(p.clientId)]),
                    "outbound" := Str("b-" + Lower(p.clientId) + "-" + Lower(p.backendId))])
  }

  lemma PairOfPlacement(state: NodeState, p: Placement) returns (i: nat)
    requires p in state.placements && Counts(p)
    ensures i < |SortedPairs(state.placements)| && SortedPairs(state.placements)[i] == Pair(p.clientId, p.backendId)
  {
    var pairs := SortedPairs(state.placements);
    assert Pair(p.clientId, p.backendId) in PairsOf(state.placements);
    assert Pair(p.clientId, p.backendId) in SetOf(pairs);
    i :| 0 <= i < |pairs| && pairs[i] == Pair(p.clientId, p.backendId);
  }

  lemma PlacementOfPair(state: NodeState, i: nat) returns (p: Placement)
    requires i < |SortedPairs(state.placements)|
    ensures p in state.placements && Counts(p) && SortedPairs(state.placements)[i] == Pair(p.clientId, p.backendId)
  {
    var pairs := SortedPairs(state.placements);
    assert pairs[i] in SetOf(pairs);
    p :| p in state.placements && Counts(p) && Pair(p.clientId, p.backendId) == pairs[i];
  }

  /** The new outbounds are exactly one per client and backend with an active placement. */
  lemma NewOutboundsAreExact(state: NodeState, row: Json)
    requires Valid(state)
    ensures row in NewOutbounds(state) <==>
            exists p, b | p in state.placements && b in state.backends :: IsPairOutbound(row, p, b)
  {
    PairsKnown(state);
    var outs := NewOutbounds(state);
    if row in outs {
      var i :| 0 <= i < |outs| && outs[i] == row;
      var p := PlacementOfPair(state, i);
      assert IsPairOutbound(row, p, BackendWith(state.backends, p.backendId));
    }
    if p, b :| p in state.placements && b in state.backends && IsPairOutbound(row, p, b) {
      var i := PairOfPlacement(state, p);
      BackendWithId(state.backends, b);
      assert outs[i] == row;
    }
  }

  /** And so are the new rules. */
  lemma NewRulesAreExact(state: NodeState, row: Json)
    ensures row in NewRules(state) <==> exists p | p in state.placements :: IsPairRule(row, p)
  {
    var rules := NewRules(state);
    if row in rules {
      var i :| 0 <= i < |rules| && rules[i] == row;
      var p := PlacementOfPair(state, i);
      assert IsPairRule(row, p);
    }
    if p :| p in state.placements && IsPairRule(row, p) {
      var i := PairOfPlacement(state, p);
      assert rules[i] == row;
    }
  }

  /** They stand by ascending backend id, then client id, each pair once. */
  lemma NewRowsAscend(state: NodeState, i: nat, j: nat)
    requires Valid(state) && i < j < |SortedPairs(state.placements)|
    ensures var a, b := SortedPairs(state.placements)[i], SortedPairs(state.placements)[j];
            Less(a.backend, b.backend) || (a.backend == b.backend && Less(a.client, b.client))
    ensures |NewOutbounds(state)| == |NewRules(state)| == |SortedPairs(state.placements)|
  {
    assert LessPair(SortedPairs(state.placements)[i], SortedPairs(state.placements)[j]);
  }

  /** A merged config sends a client to the least backend id among its active placements. */
  lemma MergeSends(base: Json, state: NodeState, overrides: Overrides, client: string, i: int, b: Backend)
    requires base.Obj? && Valid(state) && TagsDistinct(Clients(state.placements), state.backends)
    requires 0 <= i < |state.placements| && IsActive(state.placements[i], client)
    requires forall j | 0 <= j < |state.placements| && IsActive(state.placements[j], client) ::
               state.placements[j].backendId == state.placements[i].backendId
               || Less(state.placements[i].backendId, state.placements[j].backendId)
    requires b in state.backends && b.id == state.placements[i].backendId
    ensures Destination(Merged(base, state), overrides, client) == Some(Endpoint(b.address, b.port as real, client))
  {
    assert state.placements[i] in state.placements && Counts(state.placements[i]);
    assert Pair(client, b.id) in PairsOf(state.placements);
    forall x | Pair(client, x) in PairsOf(state.placements) ensures x == b.id || Less(b.id, x) {
      var p :| p in state.placements && Counts(p) && Pair(p.clientId, p.backendId) == Pair(client, x);
      var j :| 0 <= j < |state.placements| && state.placements[j] == p;
      assert IsActive(state.placements[j], client);
    }
    MergeRoutesToLeast(base, state, overrides, client, b);
  }

  /** No sequence of merges drops a row that is not the agent's, or brings one in. */
  lemma OperatorRowsSurvive(base: Json, states: seq<NodeState>, row: Json)
    requires base.Obj? && forall s | s in states :: Valid(s)
    ensures !Agents(row, "tag") ==> (row in Outbounds(MergeAll(base, states)) <==> row in Outbounds(base))
    ensures !Agents(row, "outbound") ==> (row in Rules(MergeAll(base, states)) <==> row in Rules(base))
  {
    MergesKeepFrame(base, states);
    StaticIff(row);
    var m := MergeAll(base, states);
    assert row in Filter(Outbounds(m), StaticOutbound) <==> row in Filter(Outbounds(base), StaticOutbound);
    assert row in Filter(Rules(m), StaticRule) <==> row in Filter(Rules(base), StaticRule);
  }

  /** In particular the direct and block outbounds survive every sequence of merges. */
  lemma DirectAndBlockSurvive(base: Json, states: seq<NodeState>, o: Json)
    requires base.Obj? && (forall s | s in states :: Valid(s)) && o in Outbounds(base)
    requires Get(o, "tag") == Str("direct") || Get(o, "tag") == Str("block")
    ensures o in Outbounds(MergeAll(base, states))
  {
    forall rest: string ensures "b-" + rest != "direct" && "b-" + rest != "block" && "backend-" + rest != "direct" && "backend-" + rest != "block" {
      assert ("b-" + rest)[1] == '-' && ("backend-" + rest)[1] == 'a' && "block"[1] == 'l' && "direct"[1] == 'i';
    }
    OperatorRowsSurvive(base, states, o);
  }
}
