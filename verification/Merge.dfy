/** Merging the node's placements into an operator-supplied sing-box config. */
module Merge {
  import opened Domain
  import opened Order
  import opened Tags
  import opened Config
  import opened Build
  import opened Meaning

  predicate IsDynamicTag(tag: string) {
    HasPrefix(tag, "b-") || HasPrefix(tag, "backend-")
  }

  predicate StaticOutbound(o: Json) {
    !(Get(o, "tag").Str? && IsDynamicTag(Get(o, "tag").s))
  }

  predicate StaticRule(r: Json) {
    !(Get(r, "outbound").Str? && IsDynamicTag(Get(r, "outbound").s))
  }

  // The per-user rows.

  datatype Pair = Pair(client: string, backend: string)

  predicate LessPair(a: Pair, b: Pair) {
    if a.backend != b.backend then Less(a.backend, b.backend) else Less(a.client, b.client)
  }

  lemma PairOrder(s: set<Pair>)
    ensures StrictOrder(LessPair) && TotalOn(LessPair, s)
  {
    LessIsOrder({});
    forall x, y, z | LessPair(x, y) && LessPair(y, z) ensures LessPair(x, z) {
      if x.backend != y.backend && y.backend != z.backend {
        LessTransitive(x.backend, y.backend, z.backend);
      }
    }
    forall x, y | x in s && y in s && x != y ensures LessPair(x, y) || LessPair(y, x) {
      LessTotal(x.backend, y.backend);
      LessTotal(x.client, y.client);
    }
  }

  function PairsOf(placements: seq<Placement>): set<Pair> {
    set p | p in placements && Counts(p) :: Pair(p.clientId, p.backendId)
  }

  ghost function SortedPairs(placements: seq<Placement>): (r: seq<Pair>)
    ensures Ascending(LessPair, r) && SetOf(r) == PairsOf(placements)
  {
    PairOrder(PairsOf(placements));
    Arranged(LessPair, PairsOf(placements))
  }

  function DynamicOutbound(client: string, b: Backend): Json {
    Obj(map["type" := Str("vless"), "tag" := Str(OutboundTag(client, b.id)), "server" := Str(b.address),
            "server_port" := Num(b.port as real), "uuid" := Str(client), "flow" := Str("")])
  }

  function DynamicRule(pair: Pair): Json {
    Obj(map["auth_user" := Arr([Str(pair.client)]), "outbound" := Str(OutboundTag(pair.client, pair.backend))])
  }

  function DynamicOutbounds(pairs: seq<Pair>, backends: seq<Backend>): seq<Json>
    requires forall p | p in pairs :: p.backend in Ids(backends)
  {
    seq(|pairs|, i requires 0 <= i < |pairs| =>
      DynamicOutbound(pairs[i].client, BackendWith(backends, pairs[i].backend)))
  }

  function DynamicRules(pairs: seq<Pair>): seq<Json> {
    seq(|pairs|, i requires 0 <= i < |pairs| => DynamicRule(pairs[i]))
  }

  // The merged config as a function of the base and the state.

  predicate Matches(inbound: Json, tag: string) {
    inbound.Obj? && Get(inbound, "tag") == Str(tag)
  }

  function WithUsers(inbound: Json, tag: string, users: seq<Json>): Json {
    if Matches(inbound, tag) && users != [] then Obj(inbound.fields["users" := Arr(users)]) else inbound
  }

  function WithUsersAll(inbounds: seq<Json>, tag: string, users: seq<Json>): (r: seq<Json>) {
    seq(|inbounds|, i requires 0 <= i < |inbounds| => WithUsers(inbounds[i], tag, users))
  }

  predicate Mergeable(base: Json, tag: string) {
    && base.Obj?
    && Get(base, "inbounds").Arr?
    && exists inb | inb in Items(base, "inbounds") :: Matches(inb, tag)
  }

  function RouteFields(base: Json): map<string, Json> {
    if Get(base, "route").Obj? then Get(base, "route").fields else map[]
  }

  ghost function Users(state: NodeState): seq<Json> {
    NamesAreClients(state.placements);
    UsersFor(Names(Clients(state.placements)), state.placements)
  }

  lemma PairsKnown(state: NodeState)
    requires Valid(state)
    ensures forall p | p in SortedPairs(state.placements) :: p.backend in Ids(state.backends)
  {
    assert forall p | p in SortedPairs(state.placements) :: p in SetOf(SortedPairs(state.placements));
  }

  ghost function NewOutbounds(state: NodeState): seq<Json>
    requires Valid(state)
  {
    PairsKnown(state);
    DynamicOutbounds(SortedPairs(state.placements), state.backends)
  }

  ghost function NewRules(state: NodeState): seq<Json> {
    DynamicRules(SortedPairs(state.placements))
  }

  /** The base with three things replaced: the users of the node's inbound, the dynamic outbounds
      and the dynamic route rules. */
  function Replace(base: Json, tag: string, users: seq<Json>, outbounds: seq<Json>, rules: seq<Json>): Json
    requires base.Obj?
  {
    Obj(base.fields[
      "inbounds" := Arr(WithUsersAll(Items(base, "inbounds"), tag, users))][
      "outbounds" := Arr(Filter(Outbounds(base), StaticOutbound) + outbounds)][
      "route" := Obj(RouteFields(base)["rules" := Arr(rules + Filter(Rules(base), StaticRule))])])
  }

  ghost function Merged(base: Json, state: NodeState): Json
    requires base.Obj? && Valid(state)
  {
    Replace(base, state.inbound.tag, Users(state), NewOutbounds(state), NewRules(state))
  }

  /** Merging the same placements listed in any order gives the same config. */
  lemma MergeIgnoresOrder(base: Json, s: NodeState, t: NodeState)
    requires base.Obj? && Valid(s) && Valid(t) && t == s.(placements := t.placements)
    requires SetOf(s.placements) == SetOf(t.placements) && OnePerClient(s.placements)
    ensures Merged(base, s) == Merged(base, t)
  {
    assert forall p :: p in s.placements <==> p in SetOf(s.placements);
    assert forall p :: p in t.placements <==> p in SetOf(t.placements);
    assert PairsOf(s.placements) == PairsOf(t.placements);
    assert Clients(s.placements) == Clients(t.placements);
    NamesAreClients(s.placements);
    var users := Names(Clients(s.placements));
    forall c | c in users ensures FirstTransport(s.placements, c) == FirstTransport(t.placements, c) {
      var p :| p in s.placements && Counts(p) && p.clientId == c;
      OnlyChoice(s.placements, p);
      OnlyChoice(t.placements, p);
    }
    assert UsersFor(users, s.placements) == UsersFor(users, t.placements);
  }

  // The loops that compute it.

  method GatherPairs(placements: seq<Placement>, known: set<string>) returns (pairs: seq<Pair>)
    requires forall p | p in placements && p.desired == Active :: p.clientId != "" && p.backendId in known
    ensures pairs == SortedPairs(placements)
  {
    var seen: set<Pair> := {};
    pairs := [];
    for i := 0 to |placements|
      invariant Distinct(pairs) && SetOf(pairs) == seen == PairsOf(placements[..i])
    {
      var p := placements[i];
      assert placements[..i + 1] == placements[..i] + [p];
      if p.desired != Active { continue; }
      if p.backendId !in known { continue; }
      if p.clientId == "" { continue; }
      var k := Pair(p.clientId, p.backendId);
      if k in seen { continue; }
      assert k !in SetOf(pairs);
      seen := seen + {k};
      pairs := pairs + [k];
    }
    assert placements[..|placements|] == placements;
    PairOrder(SetOf(pairs));
    SortAscending(LessPair, pairs);
    AscendingUnique(LessPair, Sort(LessPair, pairs), SortedPairs(placements));
    pairs := Sort(LessPair, pairs);
  }

  method MergeInbounds(base: Json, tag: string, users: seq<Json>) returns (r: Result<seq<Json>>)
    requires base.Obj?
    ensures r.Ok? <==> Mergeable(base, tag)
    ensures r.Ok? ==> r.value == WithUsersAll(Items(base, "inbounds"), tag, users)
  {
    if "inbounds" !in base.fields { return Err("base missing inbounds[]"); }
    if !base.fields["inbounds"].Arr? { return Err("base inbounds must be array"); }
    var inbounds := base.fields["inbounds"].items;
    var matched := false;
    var out := [];
    for i := 0 to |inbounds|
      invariant out == WithUsersAll(inbounds[..i], tag, users)
      invariant matched <==> exists inb | inb in inbounds[..i] :: Matches(inb, tag)
    {
      var m := inbounds[i];
      assert inbounds[..i + 1] == inbounds[..i] + [m];
      if Matches(m, tag) {
        if |users| > 0 { m := Obj(m.fields["users" := Arr(users)]); }
        matched := true;
      }
      out := out + [m];
    }
    assert inbounds[..|inbounds|] == inbounds;
    if !matched { return Err("base has no inbound with that tag"); }
    r := Ok(out);
  }

  method KeepStatic(rows: seq<Json>, keep: Json -> bool) returns (kept: seq<Json>)
    ensures kept == Filter(rows, keep)
  {
    kept := [];
    for i := 0 to |rows|
      invariant kept == Filter(rows[..i], keep)
    {
      assert rows[..i + 1][..i] == rows[..i];
      if keep(rows[i]) { kept := kept + [rows[i]]; }
    }
    assert rows[..|rows|] == rows;
  }

  method MergeOutbounds(base: Json, state: NodeState) returns (out: seq<Json>)
    requires Valid(state)
    ensures out == Filter(Outbounds(base), StaticOutbound) + NewOutbounds(state)
  {
    PairsKnown(state);
    var kept := KeepStatic(Outbounds(base), StaticOutbound);
    var pairs := GatherPairs(state.placements, Ids(state.backends));
    var added := [];
    for i := 0 to |pairs|
      invariant added == DynamicOutbounds(pairs[..i], state.backends)
    {
      added := added + [DynamicOutbound(pairs[i].client, BackendWith(state.backends, pairs[i].backend))];
    }
    assert pairs[..|pairs|] == pairs;
    out := kept + added;
  }

  method MergeRules(base: Json, state: NodeState) returns (out: seq<Json>)
    requires Valid(state)
    ensures out == NewRules(state) + Filter(Rules(base), StaticRule)
  {
    var kept := KeepStatic(Rules(base), StaticRule);
    var pairs := GatherPairs(state.placements, Ids(state.backends));
    out := [];
    for i := 0 to |pairs|
      invariant out == DynamicRules(pairs[..i])
    {
      out := out + [DynamicRule(pairs[i])];
    }
    assert pairs[..|pairs|] == pairs;
    out := out + kept;
  }

  datatype Document = Empty | Malformed | Parsed(root: Json)

  /** Merging succeeds exactly on valid states and bases with a matching inbound; an empty base
      means a complete config is built instead. */
  method MergeBase(base: Document, state: NodeState) returns (r: Result<Json>)
    ensures r.Ok? <==> Valid(state) && (base.Empty? || (base.Parsed? && Mergeable(base.root, state.inbound.tag)))
    ensures r.Ok? && base.Empty? ==> r.value == ConfigOf(state)
    ensures r.Ok? && base.Parsed? ==> r.value == Merged(base.root, state)
  {
    if base.Empty? {
      r := BuildConfig(state);
      return;
    }
    var error := Validate(state);
    if error.Some? { return Err(error.value); }
    if !base.Parsed? { return Err("parse base"); }
    if !base.root.Obj? { return Err("parse base"); }
    var root := base.root;
    var users := CollectActiveUsers(state.placements);
    var inbounds := MergeInbounds(root, state.inbound.tag, users);
    if inbounds.Err? { return Err(inbounds.error); }
    var outbounds := MergeOutbounds(root, state);
    var rules := MergeRules(root, state);
    r := Ok(Obj(root.fields["inbounds" := Arr(inbounds.value)]["outbounds" := Arr(outbounds)][
                "route" := Obj(RouteFields(root)["rules" := Arr(rules)])]));
  }
}
