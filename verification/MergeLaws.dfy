/** Laws of merging: absorption of earlier merges, what merging never touches, where users go. */
module MergeLaws {
  import opened Domain
  import opened Order
  import opened Tags
  import opened Config
  import opened Build
  import opened Meaning
  import opened Merge

  // The rows a merge adds are the rows the next merge removes.

  lemma NewRowsAreDynamic(state: NodeState)
    requires Valid(state)
    ensures forall o | o in NewOutbounds(state) :: !StaticOutbound(o)
    ensures forall r | r in NewRules(state) :: !StaticRule(r)
  {
    PairsKnown(state);
    var pairs := SortedPairs(state.placements);
    forall i | 0 <= i < |pairs| ensures !StaticOutbound(NewOutbounds(state)[i]) && !StaticRule(NewRules(state)[i]) {
      DynamicRows(pairs[i], BackendWith(state.backends, pairs[i].backend));
    }
  }

  lemma DynamicRows(pair: Pair, b: Backend)
    ensures Get(DynamicOutbound(pair.client, b), "tag") == Str(OutboundTag(pair.client, b.id))
    ensures Get(DynamicRule(pair), "outbound") == Str(OutboundTag(pair.client, pair.backend))
    ensures Items(DynamicRule(pair), "auth_user") == [Str(pair.client)]
    ensures !StaticOutbound(DynamicOutbound(pair.client, b)) && !StaticRule(DynamicRule(pair))
  {
    assert HasPrefix(OutboundTag(pair.client, b.id), "b-");
    assert HasPrefix(OutboundTag(pair.client, pair.backend), "b-");
  }

  lemma ReplaceParts(base: Json, tag: string, users: seq<Json>, outs: seq<Json>, rules: seq<Json>)
    requires base.Obj?
    ensures var m := Replace(base, tag, users, outs, rules);
            && Items(m, "inbounds") == WithUsersAll(Items(base, "inbounds"), tag, users)
            && Outbounds(m) == Filter(Outbounds(base), StaticOutbound) + outs
            && Rules(m) == rules + Filter(Rules(base), StaticRule)
            && RouteFields(m) == RouteFields(base)["rules" := Arr(rules + Filter(Rules(base), StaticRule))]
  {
    var m := Replace(base, tag, users, outs, rules);
    var route := Obj(RouteFields(base)["rules" := Arr(rules + Filter(Rules(base), StaticRule))]);
    assert Get(m, "route") == route;
    assert Get(route, "rules") == Arr(rules + Filter(Rules(base), StaticRule));
  }

  lemma StaticSurvives(base: Json, tag: string, users: seq<Json>, outs: seq<Json>, rules: seq<Json>)
    requires base.Obj?
    requires forall o | o in outs :: !StaticOutbound(o)
    requires forall r | r in rules :: !StaticRule(r)
    ensures var m := Replace(base, tag, users, outs, rules);
            && Filter(Outbounds(m), StaticOutbound) == Filter(Outbounds(base), StaticOutbound)
            && Filter(Rules(m), StaticRule) == Filter(Rules(base), StaticRule)
  {
    ReplaceParts(base, tag, users, outs, rules);
    var keptOuts, keptRules := Filter(Outbounds(base), StaticOutbound), Filter(Rules(base), StaticRule);
    FilterAppend(keptOuts, outs, StaticOutbound);
    FilterAppend(rules, keptRules, StaticRule);
    FilterAll(keptOuts, StaticOutbound);
    FilterAll(keptRules, StaticRule);
    FilterNone(outs, StaticOutbound);
    FilterNone(rules, StaticRule);
  }

  /** Every matching inbound of the base already lists exactly these users. */
  predicate UsersAlready(inbounds: seq<Json>, tag: string, users: seq<Json>) {
    forall inb | inb in inbounds && Matches(inb, tag) :: Get(inb, "users") == Arr(users)
  }

  lemma WithUsersOnce(inb: Json, tag: string, u1: seq<Json>, u2: seq<Json>)
    ensures Matches(WithUsers(inb, tag, u1), tag) <==> Matches(inb, tag)
    ensures u2 != [] || u1 == [] ==>
              WithUsers(WithUsers(inb, tag, u1), tag, u2) == WithUsers(inb, tag, u2)
    ensures u1 != [] ==> (WithUsers(inb, tag, u1) == inb <==> (Matches(inb, tag) ==> Get(inb, "users") == Arr(u1)))
  {
    if Matches(inb, tag) {
      assert inb.fields["users" := Arr(u1)]["users" := Arr(u2)] == inb.fields["users" := Arr(u2)];
      if Get(inb, "users") == Arr(u1) { assert inb.fields["users" := Arr(u1)] == inb.fields; }
    }
  }

  lemma WithUsersTwice(inbounds: seq<Json>, tag: string, u1: seq<Json>, u2: seq<Json>)
    ensures WithUsersAll(WithUsersAll(inbounds, tag, u1), tag, u2) == WithUsersAll(inbounds, tag, u2)
            <==> u2 != [] || u1 == [] || UsersAlready(inbounds, tag, u1)
  {
    forall i | 0 <= i < |inbounds| { WithUsersOnce(inbounds[i], tag, u1, u2); }
    var once := WithUsersAll(inbounds, tag, u1);
    if u2 == [] && u1 != [] {
      assert WithUsersAll(once, tag, u2) == once && WithUsersAll(inbounds, tag, u2) == inbounds;
      if once == inbounds {
        forall inb | inb in inbounds && Matches(inb, tag) ensures Get(inb, "users") == Arr(u1) {
          var i :| 0 <= i < |inbounds| && inbounds[i] == inb;
          assert once[i] == inb;
        }
      }
    }
  }

  /** A second replacement absorbs the first exactly when it lists users, or the first listed none,
      or the first changed none. */
  lemma ReplaceAbsorbs(base: Json, tag: string, u1: seq<Json>, o1: seq<Json>, r1: seq<Json>,
                       u2: seq<Json>, o2: seq<Json>, r2: seq<Json>)
    requires base.Obj?
    requires forall o | o in o1 :: !StaticOutbound(o)
    requires forall r | r in r1 :: !StaticRule(r)
    ensures Replace(Replace(base, tag, u1, o1, r1), tag, u2, o2, r2) == Replace(base, tag, u2, o2, r2)
            <==> u2 != [] || u1 == [] || UsersAlready(Items(base, "inbounds"), tag, u1)
  {
    var m := Replace(base, tag, u1, o1, r1);
    ReplaceParts(base, tag, u1, o1, r1);
    StaticSurvives(base, tag, u1, o1, r1);
    WithUsersTwice(Items(base, "inbounds"), tag, u1, u2);
    var twice, direct := Replace(m, tag, u2, o2, r2), Replace(base, tag, u2, o2, r2);
    var rules2 := Arr(r2 + Filter(Rules(base), StaticRule));
    assert RouteFields(m)["rules" := rules2] == RouteFields(base)["rules" := rules2];
    ReplaceParts(base, tag, u2, o2, r2);
    ReplaceParts(m, tag, u2, o2, r2);
    ReplaceEqual(base, m, tag, u2, o2, r2);
  }

  lemma ReplaceEqual(base: Json, m: Json, tag: string, u: seq<Json>, o: seq<Json>, r: seq<Json>)
    requires base.Obj? && m.Obj?
    requires forall k | k != "inbounds" && k != "outbounds" && k != "route" ::
               (k in m.fields <==> k in base.fields) && (k in base.fields ==> m.fields[k] == base.fields[k])
    requires Filter(Outbounds(m), StaticOutbound) == Filter(Outbounds(base), StaticOutbound)
    requires Filter(Rules(m), StaticRule) == Filter(Rules(base), StaticRule)
    requires RouteFields(m)["rules" := Null] == RouteFields(base)["rules" := Null]
    ensures Replace(m, tag, u, o, r) == Replace(base, tag, u, o, r)
            <==> WithUsersAll(Items(m, "inbounds"), tag, u) == WithUsersAll(Items(base, "inbounds"), tag, u)
  {
    var rules := Arr(r + Filter(Rules(base), StaticRule));
    var fs, gs := RouteFields(m), RouteFields(base);
    assert fs["rules" := rules] == fs["rules" := Null]["rules" := rules];
    assert gs["rules" := rules] == gs["rules" := Null]["rules" := rules];
    var x, y := Replace(m, tag, u, o, r), Replace(base, tag, u, o, r);
    assert x.fields["inbounds"] == Arr(WithUsersAll(Items(m, "inbounds"), tag, u));
    assert y.fields["inbounds"] == Arr(WithUsersAll(Items(base, "inbounds"), tag, u));
    if WithUsersAll(Items(m, "inbounds"), tag, u) == WithUsersAll(Items(base, "inbounds"), tag, u) {
      assert x.fields == y.fields;
    }
  }

  // Absorption.

  lemma NoClientsNoUsers(state: NodeState)
    ensures Users(state) == [] <==> Clients(state.placements) == {}
  {
    var names := Names(Clients(state.placements));
    assert |Users(state)| == |names|;
    if names != [] { assert names[0] in SetOf(names); }
  }

  lemma MergeableAgain(base: Json, tag: string, users: seq<Json>, outs: seq<Json>, rules: seq<Json>)
    requires base.Obj? && Get(base, "inbounds").Arr?
    ensures Mergeable(Replace(base, tag, users, outs, rules), tag) <==> Mergeable(base, tag)
  {
    var inbounds := Items(base, "inbounds");
    ReplaceParts(base, tag, users, outs, rules);
    forall i | 0 <= i < |inbounds| { WithUsersOnce(inbounds[i], tag, users, []); }
    var once := WithUsersAll(inbounds, tag, users);
    if inb :| inb in inbounds && Matches(inb, tag) {
      var i :| 0 <= i < |inbounds| && inbounds[i] == inb;
      assert Matches(once[i], tag) && once[i] in once;
    }
  }

  /** A later merge erases an earlier one for the same inbound exactly when the later state has an
      active client, or the earlier one had none, or it listed the users that were there already. */
  lemma MergeAbsorbs(base: Json, s1: NodeState, s2: NodeState)
    requires Valid(s1) && Valid(s2) && s1.inbound.tag == s2.inbound.tag && Mergeable(base, s1.inbound.tag)
    ensures Mergeable(Merged(base, s1), s2.inbound.tag)
    ensures Merged(Merged(base, s1), s2) == Merged(base, s2)
            <==> || Clients(s2.placements) != {}
                 || Clients(s1.placements) == {}
                 || UsersAlready(Items(base, "inbounds"), s1.inbound.tag, Users(s1))
  {
    NewRowsAreDynamic(s1);
    NoClientsNoUsers(s1);
    NoClientsNoUsers(s2);
    MergeableAgain(base, s1.inbound.tag, Users(s1), NewOutbounds(s1), NewRules(s1));
    ReplaceAbsorbs(base, s1.inbound.tag, Users(s1), NewOutbounds(s1), NewRules(s1),
                   Users(s2), NewOutbounds(s2), NewRules(s2));
  }

  /** Merging the same state again changes nothing. */
  lemma MergeIdempotent(base: Json, s: NodeState)
    requires Valid(s) && Mergeable(base, s.inbound.tag)
    ensures Merged(Merged(base, s), s) == Merged(base, s)
  {
    MergeAbsorbs(base, s, s);
  }

  const LONE_INBOUND := Obj(map["tag" := Str("in")])
  const LONE_BASE := Obj(map["inbounds" := Arr([LONE_INBOUND])])
  const LONE_STATE := NodeState(map[], InboundSpec("in", 443, map[]), [Backend("b", "a", 1)],
                                [Placement("p", "c", "b", Active, Applied, 1, Tcp, false, "")])

  lemma LoneStateValid()
    ensures Valid(LONE_STATE) && Valid(LONE_STATE.(placements := []))
    ensures "c" in Clients(LONE_STATE.placements)
  {
    assert LONE_STATE.backends[0].id == "b" && "b" in Ids(LONE_STATE.backends);
    assert LONE_STATE.placements[0] in LONE_STATE.placements;
  }

  /** The condition is needed: once the last client leaves, its entry stays in the inbound. */
  lemma DepartedUsersStay()
    ensures Valid(LONE_STATE) && Valid(LONE_STATE.(placements := [])) && Mergeable(LONE_BASE, "in")
    ensures Merged(Merged(LONE_BASE, LONE_STATE), LONE_STATE.(placements := []))
            != Merged(LONE_BASE, LONE_STATE.(placements := []))
  {
    LoneStateValid();
    assert Items(LONE_BASE, "inbounds") == [LONE_INBOUND];
    assert Matches(LONE_INBOUND, "in") && LONE_INBOUND in Items(LONE_BASE, "inbounds");
    assert Get(LONE_INBOUND, "users") == Null;
    MergeAbsorbs(LONE_BASE, LONE_STATE, LONE_STATE.(placements := []));
  }

  /** Merging a sequence of states one after the other. */
  ghost function MergeAll(base: Json, states: seq<NodeState>): Json
    requires base.Obj? && forall s | s in states :: Valid(s)
    ensures MergeAll(base, states).Obj?
  {
    if states == [] then base
    else Merged(MergeAll(base, states[..|states| - 1]), states[|states| - 1])
  }

  /** However many states were merged before, the file holds the merge of the latest one into the
      original base, as soon as that state has an active client. */
  lemma {:induction false} LatestStateWins(base: Json, states: seq<NodeState>)
    requires states != [] && forall s | s in states :: Valid(s) && s.inbound.tag == states[0].inbound.tag
    requires Mergeable(base, states[0].inbound.tag) && Clients(states[|states| - 1].placements) != {}
    ensures MergeAll(base, states) == Merged(base, states[|states| - 1])
  {
    var last := states[|states| - 1];
    AbsorbAll(base, states[..|states| - 1], last);
  }

  lemma {:induction false} AbsorbAll(base: Json, states: seq<NodeState>, last: NodeState)
    requires Valid(last) && Mergeable(base, last.inbound.tag) && Clients(last.placements) != {}
    requires forall s | s in states :: Valid(s) && s.inbound.tag == last.inbound.tag
    ensures Mergeable(MergeAll(base, states), last.inbound.tag)
    ensures Merged(MergeAll(base, states), last) == Merged(base, last)
  {
    if states != [] {
      var front, s := states[..|states| - 1], states[|states| - 1];
      AbsorbAll(base, front, last);
      MergeAbsorbs(MergeAll(base, front), s, last);
    }
  }

  // What merging leaves alone.

  ghost predicate SameInbound(a: Json, b: Json) {
    a == b || (a.Obj? && b.Obj? && a.fields - {"users"} == b.fields - {"users"})
  }

  /** The frame of a merge: other top-level keys, every inbound up to its user list (so its REALITY
      block), the route's other keys, and the operator's own outbounds and rules in their order. */
  ghost predicate SameFrame(a: Json, b: Json) {
    && a.Obj? && b.Obj?
    && a.fields - {"inbounds", "outbounds", "route"} == b.fields - {"inbounds", "outbounds", "route"}
    && |Items(a, "inbounds")| == |Items(b, "inbounds")|
    && (forall i | 0 <= i < |Items(a, "inbounds")| :: SameInbound(Items(a, "inbounds")[i], Items(b, "inbounds")[i]))
    && RouteFields(a) - {"rules"} == RouteFields(b) - {"rules"}
    && Filter(Outbounds(a), StaticOutbound) == Filter(Outbounds(b), StaticOutbound)
    && Filter(Rules(a), StaticRule) == Filter(Rules(b), StaticRule)
  }

  lemma InboundsKeepFrame(inbounds: seq<Json>, tag: string, users: seq<Json>)
    ensures forall i | 0 <= i < |inbounds| :: SameInbound(inbounds[i], WithUsersAll(inbounds, tag, users)[i])
  {
    forall i | 0 <= i < |inbounds| ensures SameInbound(inbounds[i], WithUsersAll(inbounds, tag, users)[i]) {
      var inb := inbounds[i];
      if Matches(inb, tag) { assert inb.fields["users" := Arr(users)] - {"users"} == inb.fields - {"users"}; }
    }
  }

  lemma FieldsKeepFrame(fs: map<string, Json>, a: Json, b: Json, c: Json)
    ensures fs["inbounds" := a]["outbounds" := b]["route" := c] - {"inbounds", "outbounds", "route"}
            == fs - {"inbounds", "outbounds", "route"}
    ensures fs["rules" := a] - {"rules"} == fs - {"rules"}
  {
  }

  lemma MergeKeepsFrame(base: Json, s: NodeState)
    requires base.Obj? && Valid(s)
    ensures SameFrame(base, Merged(base, s))
  {
    var tag, users, outs, rules := s.inbound.tag, Users(s), NewOutbounds(s), NewRules(s);
    NewRowsAreDynamic(s);
    ReplaceParts(base, tag, users, outs, rules);
    StaticSurvives(base, tag, users, outs, rules);
    InboundsKeepFrame(Items(base, "inbounds"), tag, users);
    var m := Replace(base, tag, users, outs, rules);
    FieldsKeepFrame(base.fields, m.fields["inbounds"], m.fields["outbounds"], m.fields["route"]);
    FieldsKeepFrame(RouteFields(base), RouteFields(m)["rules"], Null, Null);
  }

  /** No sequence of merges, for any inbounds, touches anything outside the three replaced parts. */
  lemma {:induction false} MergesKeepFrame(base: Json, states: seq<NodeState>)
    requires base.Obj? && forall s | s in states :: Valid(s)
    ensures SameFrame(base, MergeAll(base, states))
  {
    if states != [] {
      var front := states[..|states| - 1];
      MergesKeepFrame(base, front);
      MergeKeepsFrame(MergeAll(base, front), states[|states| - 1]);
    }
  }

  // Where a merged config sends users.

  /** The backend of least id among a client's active placements. */
  ghost predicate IsLeastBackend(placements: seq<Placement>, client: string, backend: string) {
    && Pair(client, backend) in PairsOf(placements)
    && forall b | Pair(client, b) in PairsOf(placements) :: b == backend || Less(backend, b)
  }

  lemma LeastHeads(pairs: seq<Pair>, client: string, backend: string)
    requires Ascending(LessPair, pairs) && Pair(client, backend) in pairs && pairs[0].client == client
    requires forall b | Pair(client, b) in pairs :: b == backend || Less(backend, b)
    ensures pairs[0].backend == backend
  {
    var head := pairs[0];
    assert head == Pair(client, head.backend) && head in pairs;
    if head.backend != backend {
      assert LessPair(head, Pair(client, backend));
      LessIrreflexive(backend);
      LessTransitive(backend, head.backend, backend);
    }
  }

  lemma {:induction false} FirstDynamicRule(pairs: seq<Pair>, client: string, backend: string)
    requires Ascending(LessPair, pairs) && Pair(client, backend) in pairs
    requires forall b | Pair(client, b) in pairs :: b == backend || Less(backend, b)
    ensures FirstRule(DynamicRules(pairs), client) == Some(OutboundTag(client, backend))
  {
    var head := pairs[0];
    DynamicRows(head, Backend("", "", 0));
    assert DynamicRules(pairs)[0] == DynamicRule(head);
    assert DynamicRules(pairs)[1..] == DynamicRules(pairs[1..]);
    if head.client == client {
      LeastHeads(pairs, client, backend);
    } else {
      FirstDynamicRule(pairs[1..], client, backend);
    }
  }

  lemma {:induction false} FindAfter(front: seq<Json>, back: seq<Json>, tag: string)
    requires forall o | o in front :: Get(o, "tag") != Str(tag)
    ensures FindOutbound(front + back, tag) == FindOutbound(back, tag)
  {
    if front == [] {
      assert front + back == back;
    } else {
      assert (front + back)[0] == front[0] && (front + back)[1..] == front[1..] + back;
      assert front[0] in front;
      FindAfter(front[1..], back, tag);
    }
  }

  /** Only the pair's own row carries the pair's tag. */
  lemma NewRowWithTag(state: NodeState, client: string, b: Backend, pair: Pair)
    requires Valid(state) && TagsDistinct(Clients(state.placements), state.backends)
    requires client in Clients(state.placements) && b in state.backends && pair in PairsOf(state.placements)
    requires pair.backend in Ids(state.backends)
    requires OutboundTag(pair.client, pair.backend) == OutboundTag(client, b.id)
    ensures pair == Pair(client, b.id)
  {
    var b' := BackendWith(state.backends, pair.backend);
    assert pair.client in Clients(state.placements);
    OutboundTells(Clients(state.placements), state.backends, pair.client, b', client, b);
  }

  lemma NewRowAt(state: NodeState, client: string, b: Backend, i: nat)
    requires Valid(state) && TagsDistinct(Clients(state.placements), state.backends)
    requires Pair(client, b.id) in PairsOf(state.placements) && b in state.backends && i < |NewOutbounds(state)|
    ensures Get(NewOutbounds(state)[i], "tag") == Str(OutboundTag(client, b.id)) ==>
              NewOutbounds(state)[i] == DynamicOutbound(client, b)
  {
    var pair := SortedPairs(state.placements)[i];
    PairsKnown(state);
    BackendWithId(state.backends, b);
    assert pair in SetOf(SortedPairs(state.placements));
    DynamicRows(pair, BackendWith(state.backends, pair.backend));
    if OutboundTag(pair.client, pair.backend) == OutboundTag(client, b.id) { NewRowWithTag(state, client, b, pair); }
  }

  lemma NewRowExists(state: NodeState, client: string, b: Backend)
    requires Valid(state) && Pair(client, b.id) in PairsOf(state.placements) && b in state.backends
    ensures DynamicOutbound(client, b) in NewOutbounds(state)
  {
    PairsKnown(state);
    BackendWithId(state.backends, b);
    var pairs := SortedPairs(state.placements);
    assert Pair(client, b.id) in SetOf(pairs);
    var k :| 0 <= k < |pairs| && pairs[k] == Pair(client, b.id);
    assert NewOutbounds(state)[k] == DynamicOutbound(client, b);
  }

  lemma FindNewOutbound(state: NodeState, client: string, b: Backend)
    requires Valid(state) && TagsDistinct(Clients(state.placements), state.backends)
    requires Pair(client, b.id) in PairsOf(state.placements) && b in state.backends
    ensures FindOutbound(NewOutbounds(state), OutboundTag(client, b.id)) == Some(DynamicOutbound(client, b))
  {
    var outs := NewOutbounds(state);
    NewRowExists(state, client, b);
    DynamicRows(Pair(client, b.id), b);
    forall i | 0 <= i < |outs| && Get(outs[i], "tag") == Str(OutboundTag(client, b.id))
      ensures outs[i] == DynamicOutbound(client, b)
    {
      NewRowAt(state, client, b, i);
    }
    FindUnique(outs, OutboundTag(client, b.id), DynamicOutbound(client, b));
  }

  lemma MergedRule(base: Json, state: NodeState, client: string, backend: string)
    requires base.Obj? && Valid(state) && IsLeastBackend(state.placements, client, backend)
    ensures FirstRule(Rules(Merged(base, state)), client) == Some(OutboundTag(client, backend))
  {
    var pairs := SortedPairs(state.placements);
    assert forall p :: p in pairs <==> p in SetOf(pairs);
    FirstDynamicRule(pairs, client, backend);
    FirstRuleInFront(NewRules(state), Filter(Rules(base), StaticRule), client);
    ReplaceParts(base, state.inbound.tag, Users(state), NewOutbounds(state), NewRules(state));
  }

  lemma MergedOutbound(base: Json, state: NodeState, client: string, b: Backend)
    requires base.Obj? && Valid(state) && TagsDistinct(Clients(state.placements), state.backends)
    requires Pair(client, b.id) in PairsOf(state.placements) && b in state.backends
    ensures FindOutbound(Outbounds(Merged(base, state)), OutboundTag(client, b.id)) == Some(DynamicOutbound(client, b))
  {
    assert HasPrefix(OutboundTag(client, b.id), "b-");
    FindAfter(Filter(Outbounds(base), StaticOutbound), NewOutbounds(state), OutboundTag(client, b.id));
    FindNewOutbound(state, client, b);
    ReplaceParts(base, state.inbound.tag, Users(state), NewOutbounds(state), NewRules(state));
  }

  /** Whatever the base and whatever was selected, a merged config sends each active client to its
      backend of least id, under its own uuid. */
  lemma MergeRoutesToLeast(base: Json, state: NodeState, overrides: Overrides, client: string, b: Backend)
    requires base.Obj? && Valid(state) && TagsDistinct(Clients(state.placements), state.backends)
    requires IsLeastBackend(state.placements, client, b.id) && b in state.backends
    ensures Destination(Merged(base, state), overrides, client) == Some(Endpoint(b.address, b.port as real, client))
  {
    MergedRule(base, state, client, b.id);
    MergedOutbound(base, state, client, b);
    EndpointOfDynamic(client, b);
    DispatchDirect(Merged(base, state), overrides, client, OutboundTag(client, b.id), DynamicOutbound(client, b));
  }

  lemma EndpointOfDynamic(client: string, b: Backend)
    ensures EndpointOf(DynamicOutbound(client, b)) == Some(Endpoint(b.address, b.port as real, client))
    ensures Get(DynamicOutbound(client, b), "type") == Str("vless")
  {
  }

  lemma DispatchDirect(cfg: Json, overrides: Overrides, client: string, tag: string, o: Json)
    requires FirstRule(Rules(cfg), client) == Some(tag) && FindOutbound(Outbounds(cfg), tag) == Some(o)
    requires Get(o, "type") == Str("vless")
    ensures Dispatch(cfg, overrides, client) == Some(o)
  {
  }

  predicate DistinctEndpoints(backends: seq<Backend>) {
    forall a, b | a in backends && b in backends && a.address == b.address && a.port == b.port :: a == b
  }

  lemma LeastExists(placements: seq<Placement>, client: string) returns (b: string)
    requires client in Clients(placements)
    ensures IsLeastBackend(placements, client, b)
  {
    var mine := set p | p in PairsOf(placements) && p.client == client :: p.backend;
    var p :| p in placements && Counts(p) && p.clientId == client;
    assert Pair(client, p.backendId) in PairsOf(placements);
    assert p.backendId in mine;
    var names := Names(mine);
    assert p.backendId in SetOf(names);
    b := names[0];
    assert b in SetOf(names);
    forall x | Pair(client, x) in PairsOf(placements) ensures x == b || Less(b, x) {
      assert x in SetOf(names);
    }
  }

  /** A complete config and a merged one send a client to the same place exactly when the client's
      last active placement is on its backend of least id. */
  lemma MergeAgreesWithBuild(base: Json, state: NodeState, client: string)
    requires base.Obj? && Valid(state) && TagsDistinct(Clients(state.placements), state.backends)
    requires client in Clients(state.placements) && DistinctEndpoints(state.backends)
    ensures Destination(Merged(base, state), map[], client) == Destination(ConfigOf(state), map[], client)
            <==> IsLeastBackend(state.placements, client, LastBackend(state.placements, client).value)
  {
    var least := LeastExists(state.placements, client);
    var bl := BackendWith(state.backends, least);
    MergeRoutesToLeast(base, state, map[], client, bl);
    BuildRoutesToPlacement(state, client);
    var last := LastBackend(state.placements, client).value;
    if IsLeastBackend(state.placements, client, last) && last != least {
      LessIrreflexive(last);
      LessTransitive(last, least, last);
    }
  }

  /** With one active placement per client both renderings send every client to the same backend. */
  lemma MergeMatchesBuild(base: Json, state: NodeState, client: string)
    requires base.Obj? && Valid(state) && TagsDistinct(Clients(state.placements), state.backends)
    requires client in Clients(state.placements) && OnePerClient(state.placements)
    ensures Destination(Merged(base, state), map[], client) == Destination(ConfigOf(state), map[], client)
  {
    var p :| p in state.placements && Counts(p) && p.clientId == client;
    OnlyChoice(state.placements, p);
    assert IsLeastBackend(state.placements, client, p.backendId);
    BuildRoutesToPlacement(state, client);
    MergeRoutesToLeast(base, state, map[], client, BackendWith(state.backends, p.backendId));
  }
}
