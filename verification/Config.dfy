/** JSON values (RFC 8259) and what a sing-box routing config does with an authenticated user. */
module Config {
  import opened Domain

  datatype Json =
    | Null
    | Bool(b: bool)
    | Num(n: real)
    | Str(s: string)
    | Arr(items: seq<Json>)
    | Obj(fields: map<string, Json>)

  function Get(j: Json, key: string): (r: Json) {
    if j.Obj? && key in j.fields then j.fields[key] else Null
  }

  /** The items of an array field; a missing or non-array field counts as empty. */
  function Items(j: Json, key: string): seq<Json> {
    if Get(j, key).Arr? then Get(j, key).items else []
  }

  predicate Mentions(rule: Json, user: string) {
    Str(user) in Items(rule, "auth_user") && Get(rule, "outbound").Str?
  }

  /** The outbound tag of the first rule that names the user. */
  function FirstRule(rules: seq<Json>, user: string): Option<string> {
    if rules == [] then None
    else if Mentions(rules[0], user) then Some(Get(rules[0], "outbound").s)
    else FirstRule(rules[1..], user)
  }

  /** The first outbound that carries a tag. */
  function FindOutbound(outbounds: seq<Json>, tag: string): Option<Json> {
    if outbounds == [] then None
    else if Get(outbounds[0], "tag") == Str(tag) then Some(outbounds[0])
    else FindOutbound(outbounds[1..], tag)
  }

  type Overrides = map<string, string>

  function Rules(cfg: Json): seq<Json> {
    Items(Get(cfg, "route"), "rules")
  }

  function Outbounds(cfg: Json): seq<Json> {
    Items(cfg, "outbounds")
  }

  /** The tag a selector currently points to: the last selection made on it, or its default. */
  function Selected(outbound: Json, tag: string, overrides: Overrides): string {
    if Get(outbound, "type") != Str("selector") then tag
    else if tag in overrides then overrides[tag]
    else if Get(outbound, "default").Str? then Get(outbound, "default").s
    else ""
  }

  /** The outbound that carries a user's traffic: first matching rule, then selector, then outbound. */
  function Dispatch(cfg: Json, overrides: Overrides, user: string): Option<Json> {
    var rule := FirstRule(Rules(cfg), user);
    if rule.None? then None
    else
      var first := FindOutbound(Outbounds(cfg), rule.value);
      if first.None? then None
      else FindOutbound(Outbounds(cfg), Selected(first.value, rule.value, overrides))
  }

  /** Where a VLESS outbound leads: server address, port and the identity presented there. */
  datatype Endpoint = Endpoint(server: string, port: real, uuid: string)

  function EndpointOf(outbound: Json): Option<Endpoint> {
    if && Get(outbound, "type") == Str("vless")
       && Get(outbound, "server").Str? && Get(outbound, "server_port").Num? && Get(outbound, "uuid").Str?
    then Some(Endpoint(Get(outbound, "server").s, Get(outbound, "server_port").n, Get(outbound, "uuid").s))
    else None
  }

  function Destination(cfg: Json, overrides: Overrides, user: string): Option<Endpoint> {
    var o := Dispatch(cfg, overrides, user);
    if o.None? then None else EndpointOf(o.value)
  }

  lemma {:induction false} FindUnique(outbounds: seq<Json>, tag: string, target: Json)
    requires target in outbounds && Get(target, "tag") == Str(tag)
    requires forall o | o in outbounds && Get(o, "tag") == Str(tag) :: o == target
    ensures FindOutbound(outbounds, tag) == Some(target)
  {
    if outbounds[0] != target {
      assert target in outbounds[1..];
      FindUnique(outbounds[1..], tag, target);
    }
  }

  lemma {:induction false} FindAbsent(outbounds: seq<Json>, tag: string)
    requires forall o | o in outbounds :: Get(o, "tag") != Str(tag)
    ensures FindOutbound(outbounds, tag) == None
  {
    if outbounds != [] { FindAbsent(outbounds[1..], tag); }
  }

  lemma {:induction false} FirstRuleUnique(rules: seq<Json>, user: string, target: Json)
    requires target in rules && Mentions(target, user)
    requires forall r | r in rules && Mentions(r, user) :: r == target
    ensures FirstRule(rules, user) == Some(Get(target, "outbound").s)
  {
    if rules[0] != target {
      assert target in rules[1..];
      FirstRuleUnique(rules[1..], user, target);
    }
  }

  lemma {:induction false} FirstRuleAbsent(rules: seq<Json>, user: string)
    requires forall r | r in rules :: !Mentions(r, user)
    ensures FirstRule(rules, user) == None
  {
    if rules != [] { FirstRuleAbsent(rules[1..], user); }
  }

  lemma {:induction false} FirstRuleInFront(front: seq<Json>, back: seq<Json>, user: string)
    requires FirstRule(front, user).Some?
    ensures FirstRule(front + back, user) == FirstRule(front, user)
  {
    assert (front + back)[0] == front[0] && (front + back)[1..] == front[1..] + back;
    if !Mentions(front[0], user) { FirstRuleInFront(front[1..], back, user); }
  }
}
