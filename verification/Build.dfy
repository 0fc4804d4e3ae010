/** Rendering the node's placements and backends into a complete sing-box config. */
module Build {
  import opened Domain
  import opened Order
  import opened Tags
  import opened Config

  /** `shell` holds the inbound's other fields (listen address, port, sniffing, TLS block). */
  datatype InboundSpec = InboundSpec(tag: string, port: nat, shell: map<string, Json>)

  /** `top` holds the log and experimental sections. */
  datatype NodeState = NodeState(
    top: map<string, Json>,
    inbound: InboundSpec,
    backends: seq<Backend>,
    placements: seq<Placement>)

  // Validation.

  predicate UniqueIds(backends: seq<Backend>) {
    forall i, j | 0 <= i < j < |backends| :: backends[i].id != backends[j].id
  }

  predicate Valid(state: NodeState) {
    && state.inbound.tag != ""
    && state.inbound.port != 0
    && (forall b | b in state.backends :: b.id != "" && b.address != "" && b.port != 0)
    && UniqueIds(state.backends)
    && (forall p | p in state.placements && p.desired == Active ::
          p.clientId != "" && p.backendId in Ids(state.backends))
  }

  /** No error means a tag, a port, complete backends with pairwise different ids, and a client and a listed
      backend for every active placement; and nothing else is asked. */
  method Validate(state: NodeState) returns (error: Option<string>)
    ensures error == None <==> Valid(state)
    ensures error == None <==>
            && state.inbound.tag != "" && state.inbound.port != 0
            && (forall i | 0 <= i < |state.backends| ::
                  var b := state.backends[i]; b.id != "" && b.address != "" && b.port != 0)
            && (forall i, j | 0 <= i < j < |state.backends| :: state.backends[i].id != state.backends[j].id)
            && (forall i | 0 <= i < |state.placements| && state.placements[i].desired == Active ::
                  state.placements[i].clientId != "" && state.placements[i].backendId in Ids(state.backends))
  {
    if state.inbound.tag == "" { return Some("inbound.tag required"); }
    if state.inbound.port == 0 { return Some("inbound.listen.port required"); }
    var seen: set<string> := {};
    for i := 0 to |state.backends|
      invariant seen == Ids(state.backends[..i])
      invariant forall b | b in state.backends[..i] :: b.id != "" && b.address != "" && b.port != 0
      invariant UniqueIds(state.backends[..i])
    {
      var b := state.backends[i];
      assert state.backends[..i + 1] == state.backends[..i] + [b];
      if b.id == "" { return Some("backend id required"); }
      if b.address == "" || b.port == 0 { return Some("backend requires address+port"); }
      if b.id in seen { return Some("duplicate backend id"); }
      seen := seen + {b.id};
    }
    assert state.backends[..|state.backends|] == state.backends;
    for i := 0 to |state.placements|
      invariant forall p | p in state.placements[..i] && p.desired == Active ::
                  p.clientId != "" && p.backendId in seen
    {
      var p := state.placements[i];
      if p.desired != Active { continue; }
      if p.clientId == "" { return Some("placement missing client_id"); }
      if p.backendId !in seen { return Some("placement references unknown backend"); }
    }
    return None;
  }

  // What the config is made of.

  predicate Counts(p: Placement) {
    p.desired == Active && p.clientId != ""
  }

  function Clients(placements: seq<Placement>): set<string> {
    set p | p in placements && Counts(p) :: p.clientId
  }

  function LastBackend(placements: seq<Placement>, client: string): (r: Option<string>)
    ensures r.Some? <==> client in Clients(placements)
  {
    if placements == [] then None
    else
      var last := placements[|placements| - 1];
      assert placements == placements[..|placements| - 1] + [last];
      if Counts(last) && last.clientId == client then Some(last.backendId)
      else LastBackend(placements[..|placements| - 1], client)
  }

  function FirstTransport(placements: seq<Placement>, client: string): (r: Option<Transport>)
    ensures r.Some? <==> client in Clients(placements)
  {
    if placements == [] then None
    else
      var front, last := placements[..|placements| - 1], placements[|placements| - 1];
      assert placements == front + [last];
      var earlier := FirstTransport(front, client);
      if earlier.Some? then earlier
      else if Counts(last) && last.clientId == client then Some(last.transport)
      else None
  }

  predicate LessBackend(a: Backend, b: Backend) {
    Less(a.id, b.id)
  }

  function UserEntry(client: string, flow: string): Json {
    if flow == "" then Obj(map["name" := Str(client), "uuid" := Str(client)])
    else Obj(map["name" := Str(client), "uuid" := Str(client), "flow" := Str(flow)])
  }

  function UserOutbound(client: string, b: Backend): Json {
    Obj(map["type" := Str("vless"), "tag" := Str(OutboundTag(client, b.id)),
            "server" := Str(b.address), "server_port" := Num(b.port as real), "uuid" := Str(client)])
  }

  function Options(client: string, backends: seq<Backend>): seq<Json> {
    seq(|backends|, i requires 0 <= i < |backends| => Str(OutboundTag(client, backends[i].id)))
  }

  function UserSelector(client: string, backends: seq<Backend>, chosen: string): Json {
    Obj(map["type" := Str("selector"), "tag" := Str(SelectorTag(client)),
            "outbounds" := Arr(Options(client, backends) + [Str("block")]),
            "default" := Str(OutboundTag(client, chosen))])
  }

  function UserRule(client: string): Json {
    Obj(map["auth_user" := Arr([Str(client)]), "outbound" := Str(SelectorTag(client))])
  }

  function Plain(kind: string): Json {
    Obj(map["type" := Str(kind), "tag" := Str(kind)])
  }

  // The config of a state, described by its set of clients.

  lemma BackendOrder(backends: seq<Backend>)
    requires UniqueIds(backends)
    ensures StrictOrder(LessBackend) && TotalOn(LessBackend, SetOf(backends)) && Distinct(backends)
  {
    LessIsOrder({});
    forall a, b | a in backends && b in backends && a != b
      ensures LessBackend(a, b) || LessBackend(b, a)
    {
      LessTotal(a.id, b.id);
    }
  }

  ghost function SortedBackends(backends: seq<Backend>): (r: seq<Backend>)
    requires UniqueIds(backends)
    ensures SetOf(r) == SetOf(backends) && Ascending(LessBackend, r)
  {
    BackendOrder(backends);
    Arranged(LessBackend, SetOf(backends))
  }

  function UserOutbounds(client: string, backends: seq<Backend>): seq<Json> {
    seq(|backends|, i requires 0 <= i < |backends| => UserOutbound(client, backends[i]))
  }

  /** One client's outbounds, one per backend, followed by its selector. */
  function BlockOf(client: string, backends: seq<Backend>, chosen: string): seq<Json> {
    UserOutbounds(client, backends) + [UserSelector(client, backends, chosen)]
  }

  function BlocksFor(users: seq<string>, backends: seq<Backend>, placements: seq<Placement>): seq<Json>
    requires forall u | u in users :: u in Clients(placements)
  {
    if users == [] then []
    else
      var u := users[|users| - 1];
      BlocksFor(users[..|users| - 1], backends, placements)
      + BlockOf(u, backends, LastBackend(placements, u).value)
  }

  function UsersFor(users: seq<string>, placements: seq<Placement>): seq<Json>
    requires forall u | u in users :: u in Clients(placements)
  {
    seq(|users|, i requires 0 <= i < |users| =>
      UserEntry(users[i], FlowFor(FirstTransport(placements, users[i]).value)))
  }

  function RulesFor(users: seq<string>): seq<Json> {
    seq(|users|, i requires 0 <= i < |users| => UserRule(users[i]))
  }

  function Assemble(state: NodeState, users: seq<Json>, outbounds: seq<Json>, rules: seq<Json>): Json {
    Obj(state.top + map[
      "inbounds" := Arr([Obj(state.inbound.shell + map["tag" := Str(state.inbound.tag), "users" := Arr(users)])]),
      "outbounds" := Arr(outbounds),
      "route" := Obj(map["rules" := Arr(rules), "auto_detect_interface" := Bool(true), "final" := Str("direct")])])
  }

  ghost function ConfigOf(state: NodeState): Json
    requires Valid(state)
  {
    var users := Names(Clients(state.placements));
    assert forall u | u in users :: u in SetOf(users);
    Assemble(state, UsersFor(users, state.placements),
             [Plain("direct"), Plain("block")]
             + BlocksFor(users, SortedBackends(state.backends), state.placements),
             RulesFor(users))
  }

  // The loops that build it.

  lemma ClientsSnoc(front: seq<Placement>, p: Placement)
    ensures Clients(front + [p]) == Clients(front) + (if Counts(p) then {p.clientId} else {})
  {
  }

  lemma ChoiceSnoc(front: seq<Placement>, p: Placement, u: string)
    ensures LastBackend(front + [p], u)
            == if Counts(p) && p.clientId == u then Some(p.backendId) else LastBackend(front, u)
    ensures FirstTransport(front + [p], u)
            == if u in Clients(front) then FirstTransport(front, u)
               else if Counts(p) && p.clientId == u then Some(p.transport) else None
  {
    assert (front + [p])[..|front|] == front;
  }

  /** The clients of the active placements, sorted, with the flow of each one's first placement. */
  method GatherUsers(placements: seq<Placement>) returns (names: seq<string>, flows: map<string, string>)
    ensures names == Names(Clients(placements)) && flows.Keys == Clients(placements)
    ensures forall u | u in flows :: flows[u] == FlowFor(FirstTransport(placements, u).value)
  {
    flows, names := map[], [];
    for i := 0 to |placements|
      invariant Distinct(names) && SetOf(names) == Clients(placements[..i]) == flows.Keys
      invariant forall u | u in flows :: flows[u] == FlowFor(FirstTransport(placements[..i], u).value)
    {
      var p := placements[i];
      assert placements[..i + 1] == placements[..i] + [p];
      ClientsSnoc(placements[..i], p);
      forall u { ChoiceSnoc(placements[..i], p, u); }
      if p.desired != Active { continue; }
      if p.clientId == "" || p.clientId in flows { continue; }
      assert p.clientId !in SetOf(names);
      flows := flows[p.clientId := FlowFor(p.transport)];
      names := names + [p.clientId];
    }
    assert placements[..|placements|] == placements;
    SortIsNames(names);
    names := Sort(Less, names);
  }

  lemma NamesAreClients(placements: seq<Placement>)
    ensures forall u | u in Names(Clients(placements)) :: u in Clients(placements)
  {
    assert forall u | u in Names(Clients(placements)) :: u in SetOf(Names(Clients(placements)));
  }

  method Entries(names: seq<string>, flows: map<string, string>) returns (users: seq<Json>)
    requires forall u | u in names :: u in flows
    ensures |users| == |names| && forall j | 0 <= j < |names| :: users[j] == UserEntry(names[j], flows[names[j]])
  {
    users := [];
    for i := 0 to |names|
      invariant |users| == i && forall j | 0 <= j < i :: users[j] == UserEntry(names[j], flows[names[j]])
    {
      users := users + [UserEntry(names[i], flows[names[i]])];
    }
  }

  method CollectActiveUsers(placements: seq<Placement>) returns (users: seq<Json>)
    ensures forall u | u in Names(Clients(placements)) :: u in Clients(placements)
    ensures users == UsersFor(Names(Clients(placements)), placements)
  {
    NamesAreClients(placements);
    var names, flows := GatherUsers(placements);
    users := Entries(names, flows);
  }

  /** The routable clients, sorted, with the backend of each one's last active placement. */
  method GatherChoices(placements: seq<Placement>, known: set<string>)
    returns (users: seq<string>, chosen: map<string, string>)
    requires forall p | p in placements && p.desired == Active :: p.clientId != "" && p.backendId in known
    ensures users == Names(Clients(placements)) && chosen.Keys == Clients(placements)
    ensures forall u | u in chosen :: chosen[u] == LastBackend(placements, u).value
  {
    users, chosen := [], map[];
    for i := 0 to |placements|
      invariant Distinct(users) && SetOf(users) == Clients(placements[..i]) == chosen.Keys
      invariant forall u | u in chosen :: chosen[u] == LastBackend(placements[..i], u).value
    {
      var p := placements[i];
      assert placements[..i + 1] == placements[..i] + [p];
      ClientsSnoc(placements[..i], p);
      forall u { ChoiceSnoc(placements[..i], p, u); }
      if p.desired != Active { continue; }
      if p.clientId == "" { continue; }
      if p.backendId !in known { continue; }
      if p.clientId !in chosen {
        assert p.clientId !in SetOf(users);
        users := users + [p.clientId];
      }
      chosen := chosen[p.clientId := p.backendId];
    }
    assert placements[..|placements|] == placements;
    SortIsNames(users);
    users := Sort(Less, users);
  }

  method UserBlock(uid: string, sorted: seq<Backend>, chosen: string) returns (rows: seq<Json>)
    ensures rows == BlockOf(uid, sorted, chosen)
  {
    rows := [];
    for j := 0 to |sorted|
      invariant rows == UserOutbounds(uid, sorted[..j])
    {
      rows := rows + [UserOutbound(uid, sorted[j])];
    }
    var options := [];
    for j := 0 to |sorted|
      invariant options == Options(uid, sorted[..j])
    {
      options := options + [Str(OutboundTag(uid, sorted[j].id))];
    }
    assert sorted[..|sorted|] == sorted;
    options := options + [Str("block")];
    rows := rows + [Obj(map["type" := Str("selector"), "tag" := Str(SelectorTag(uid)),
                            "outbounds" := Arr(options), "default" := Str(OutboundTag(uid, chosen))])];
  }

  lemma BlocksSnoc(users: seq<string>, i: nat, backends: seq<Backend>, placements: seq<Placement>)
    requires i < |users| && forall u | u in users :: u in Clients(placements)
    ensures BlocksFor(users[..i + 1], backends, placements)
            == BlocksFor(users[..i], backends, placements)
               + BlockOf(users[i], backends, LastBackend(placements, users[i]).value)
  {
    assert users[..i + 1][..i] == users[..i] && users[..i + 1][i] == users[i];
  }

  lemma SortIsSortedBackends(backends: seq<Backend>)
    requires UniqueIds(backends)
    ensures Sort(LessBackend, backends) == SortedBackends(backends)
  {
    BackendOrder(backends);
    SortAscending(LessBackend, backends);
    AscendingUnique(LessBackend, Sort(LessBackend, backends), SortedBackends(backends));
  }

  method BuildOutbounds(placements: seq<Placement>, backends: seq<Backend>) returns (out: seq<Json>)
    requires UniqueIds(backends)
    requires forall p | p in placements && p.desired == Active :: p.clientId != "" && p.backendId in Ids(backends)
    ensures forall u | u in Names(Clients(placements)) :: u in Clients(placements)
    ensures out == [Plain("direct"), Plain("block")]
                   + BlocksFor(Names(Clients(placements)), SortedBackends(backends), placements)
  {
    NamesAreClients(placements);
    SortIsSortedBackends(backends);
    var sorted := Sort(LessBackend, backends);
    var users, chosen := GatherChoices(placements, Ids(backends));
    var blocks := [];
    for i := 0 to |users|
      invariant blocks == BlocksFor(users[..i], sorted, placements)
    {
      var rows := UserBlock(users[i], sorted, chosen[users[i]]);
      BlocksSnoc(users, i, sorted, placements);
      blocks := blocks + rows;
    }
    assert users[..|users|] == users;
    out := [Plain("direct"), Plain("block")] + blocks;
  }

  /** The routable clients, sorted. */
  method GatherRoutable(placements: seq<Placement>, known: set<string>) returns (users: seq<string>)
    requires forall p | p in placements && p.desired == Active :: p.clientId != "" && p.backendId in known
    ensures users == Names(Clients(placements))
  {
    users := [];
    var seen: set<string> := {};
    for i := 0 to |placements|
      invariant Distinct(users) && SetOf(users) == Clients(placements[..i]) == seen
    {
      var p := placements[i];
      assert placements[..i + 1] == placements[..i] + [p];
      ClientsSnoc(placements[..i], p);
      if p.desired != Active { continue; }
      if p.backendId !in known { continue; }
      if p.clientId == "" { continue; }
      if p.clientId in seen { continue; }
      assert p.clientId !in SetOf(users);
      seen := seen + {p.clientId};
      users := users + [p.clientId];
    }
    assert placements[..|placements|] == placements;
    SortIsNames(users);
    users := Sort(Less, users);
  }

  method BuildRoute(placements: seq<Placement>, backends: seq<Backend>) returns (rules: seq<Json>)
    requires forall p | p in placements && p.desired == Active :: p.clientId != "" && p.backendId in Ids(backends)
    ensures rules == RulesFor(Names(Clients(placements)))
  {
    var users := GatherRoutable(placements, Ids(backends));
    rules := [];
    for i := 0 to |users|
      invariant rules == RulesFor(users[..i])
    {
      rules := rules + [UserRule(users[i])];
    }
    assert users[..|users|] == users;
  }

  /** A complete config, or an error exactly on invalid states. */
  method BuildConfig(state: NodeState) returns (r: Result<Json>)
    ensures r.Ok? <==> Valid(state)
    ensures r.Ok? ==> r.value == ConfigOf(state)
  {
    var error := Validate(state);
    if error.Some? { return Err(error.value); }
    var users := CollectActiveUsers(state.placements);
    var outbounds := BuildOutbounds(state.placements, state.backends);
    var rules := BuildRoute(state.placements, state.backends);
    r := Ok(Assemble(state, users, outbounds, rules));
  }
}
