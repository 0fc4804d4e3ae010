/** The embedded entry proxy's tables: users, backends, routes and backend health, and the order in
    which the backends of a connection are tried. */
module EntryProxy {
  import opened Domain
  import opened Order
  import Fnv

  // Health.

  const FAIL_THRESHOLD: nat := 2
  const COOLDOWN: nat := 30

  /** Consecutive failures and the time until which the backend counts as unhealthy; zero is no time. */
  datatype Health = Health(fails: nat, until: nat)

  type HealthTable = map<string, Health>

  datatype Mark = Failure(id: string, at: nat) | Success(id: string)

  function Marked(health: HealthTable, mark: Mark): HealthTable {
    match mark
    case Failure(id, at) =>
      var h := if id in health then health[id] else Health(0, 0);
      health[id := Health(h.fails + 1, if h.fails + 1 >= FAIL_THRESHOLD then at + COOLDOWN else h.until)]
    case Success(id) =>
      if id in health then health[id := Health(0, 0)] else health
  }

  predicate IsHealthy(health: HealthTable, id: string, now: nat) {
    id !in health || now >= health[id].until
  }

  function AfterMarks(marks: seq<Mark>): HealthTable {
    if marks == [] then map[] else Marked(AfterMarks(marks[..|marks| - 1]), marks[|marks| - 1])
  }

  /** The failures of a backend since its last success. */
  function FailuresSince(marks: seq<Mark>, id: string): seq<nat> {
    if marks == [] then []
    else
      var front, last := FailuresSince(marks[..|marks| - 1], id), marks[|marks| - 1];
      if last.id != id then front
      else match last
        case Failure(_, at) => front + [at]
        case Success(_) => []
  }

  lemma {:induction false} HealthTracksFailures(marks: seq<Mark>, id: string)
    ensures var h, f := AfterMarks(marks), FailuresSince(marks, id);
            && (id !in h ==> f == [])
            && (id in h ==> h[id].fails == |f|
                            && h[id].until == if |f| >= FAIL_THRESHOLD then f[|f| - 1] + COOLDOWN else 0)
  {
    if marks != [] { HealthTracksFailures(marks[..|marks| - 1], id); }
  }

  /** The breaker refines its history: a backend is unhealthy exactly while it has at least two failures
      since its last success and the latest of them is less than the cooldown ago. */
  lemma BreakerRefinesHistory(marks: seq<Mark>, id: string, now: nat)
    ensures !IsHealthy(AfterMarks(marks), id, now) <==>
            var f := FailuresSince(marks, id); |f| >= 2 && now < f[|f| - 1] + 30
  {
    HealthTracksFailures(marks, id);
  }

  // Candidates.

  datatype Candidate = Candidate(backend: Backend, score: nat, healthy: bool)

  /** Healthy candidates before unhealthy ones, then by descending score. */
  predicate Better(a: Candidate, b: Candidate) {
    if a.healthy != b.healthy then a.healthy else a.score > b.score
  }

  type Pool = map<string, Backend>

  function ScoreOf(id: string, client: string, dest: string): nat {
    Fnv.Score(Fnv.Octets(id), Fnv.Octets(client), Fnv.Octets(dest))
  }

  /** One look at the tables for one connection. */
  datatype Look = Look(pool: Pool, health: HealthTable, client: string, dest: string, now: nat)

  function CandidateFor(look: Look, id: string): Candidate
    requires id in look.pool
  {
    Candidate(look.pool[id], ScoreOf(id, look.client, look.dest), IsHealthy(look.health, id, look.now))
  }

  function Candidates(look: Look, ids: seq<string>): seq<Candidate> {
    if ids == [] then []
    else
      var front, id := Candidates(look, ids[..|ids| - 1]), ids[|ids| - 1];
      if id in look.pool then front + [CandidateFor(look, id)] else front
  }

  function Ranked(look: Look, ids: seq<string>): seq<Candidate> {
    Sort(Better, Candidates(look, ids))
  }

  /** Healthy candidates come first, and candidates of equal health by descending score. */
  lemma BetterMeans(s: seq<Candidate>, i: nat, j: nat)
    requires Ascending(Better, s) && i < j < |s|
    ensures s[j].healthy ==> s[i].healthy
    ensures s[i].healthy == s[j].healthy ==> s[i].score > s[j].score
  {
    assert Better(s[i], s[j]);
  }

  class Proxy {
    var users: map<string, string>
    var backends: Pool
    var route: map<string, seq<string>>
    var health: HealthTable

    constructor ()
      ensures users == map[] && backends == map[] && route == map[] && health == map[]
    {
      users, backends, route, health := map[], map[], map[], map[];
    }

    function View(): Tables
      reads this
    {
      Tables(users, backends, route)
    }

    method MarkBackendFailure(id: string, now: nat)
      modifies this`health
      ensures health == Marked(old(health), Failure(id, now))
    {
      var h := if id in health then health[id] else Health(0, 0);
      h := h.(fails := h.fails + 1);
      if h.fails >= FAIL_THRESHOLD { h := h.(until := now + COOLDOWN); }
      health := health[id := h];
    }

    method MarkBackendSuccess(id: string)
      modifies this`health
      ensures health == Marked(old(health), Success(id))
    {
      if id in health { health := health[id := Health(0, 0)]; }
    }

    /** The backends to try for a client and a destination, best first. */
    method ConnBackends(client: string, dest: string, now: nat) returns (out: seq<Backend>)
      ensures var ranked := Ranked(Look(backends, health, client, dest, now), RouteOf(View(), client));
              |out| == |ranked| && forall i | 0 <= i < |out| :: out[i] == ranked[i].backend
    {
      var ids := if client in route then route[client] else [];
      ghost var look := Look(backends, health, client, dest, now);
      var cands: seq<Candidate> := [];
      for i := 0 to |ids|
        invariant cands == Candidates(look, ids[..i])
      {
        assert ids[..i + 1][..i] == ids[..i];
        if ids[i] !in backends { continue; }
        var healthy := IsHealthy(health, ids[i], now);
        var score := Fnv.HrwScore(Fnv.Octets(ids[i]), Fnv.Octets(client), Fnv.Octets(dest));
        cands := cands + [Candidate(backends[ids[i]], score, healthy)];
      }
      assert ids[..|ids|] == ids;
      cands := Sort(Better, cands);
      out := seq(|cands|, i requires 0 <= i < |cands| => cands[i].backend);
    }

    method AddUser(client: string, flow: string) returns (ok: bool)
      modifies this`users
      ensures ok <==> client != ""
      ensures View() == if ok then WithUser(old(View()), client, flow) else old(View())
    {
      if client == "" { return false; }
      users := users[client := flow];
      return true;
    }

    method RemoveUser(client: string)
      modifies this`users, this`route
      ensures View() == WithoutUser(old(View()), client)
    {
      users := users - {client};
      route := route - {client};
    }

    /** Adds a backend to a client's route; backends already there stay. */
    method SelectBackend(client: string, backend: string) returns (ok: bool)
      modifies this`route
      ensures ok <==> backend in backends
      ensures old(RouteOf(View(), client)) <= RouteOf(View(), client)
      ensures View() == if ok then WithRouted(old(View()), client, backend) else old(View())
    {
      if backend !in backends { return false; }
      var ids := if client in route then route[client] else [];
      for i := 0 to |ids|
        invariant backend !in ids[..i]
      {
        if ids[i] == backend { return true; }
      }
      assert ids[..|ids|] == ids;
      route := route[client := ids + [backend]];
      return true;
    }

    method SetUserBackends(client: string, ids: seq<string>) returns (ok: bool)
      modifies this`route
      ensures ok <==> client != ""
      ensures View() == if ok then WithRoute(old(View()), client, ids) else old(View())
    {
      if client == "" { return false; }
      var kept: seq<string> := [];
      for i := 0 to |ids|
        invariant kept == Cleaned(ids[..i])
      {
        assert ids[..i + 1][..i] == ids[..i];
        if ids[i] == "" { continue; }
        if ids[i] in kept { continue; }
        kept := kept + [ids[i]];
      }
      assert ids[..|ids|] == ids;
      route := route[client := kept];
      return true;
    }

    method SetBackends(specs: seq<Backend>)
      modifies this`backends
      ensures View() == WithPool(old(View()), PoolOf(specs))
    {
      var next: Pool := map[];
      for i := 0 to |specs|
        invariant next == PoolOf(specs[..i])
      {
        assert specs[..i + 1][..i] == specs[..i];
        next := next[specs[i].id := specs[i]];
      }
      assert specs[..|specs|] == specs;
      backends := next;
    }
  }

  // The tables that commands change.

  datatype Tables = Tables(users: map<string, string>, pool: Pool, route: map<string, seq<string>>)

  function RouteOf(t: Tables, client: string): seq<string> {
    if client in t.route then t.route[client] else []
  }

  function WithUser(t: Tables, client: string, flow: string): Tables {
    t.(users := t.users[client := flow])
  }

  function WithoutUser(t: Tables, client: string): Tables {
    t.(users := t.users - {client}, route := t.route - {client})
  }

  function WithRouted(t: Tables, client: string, backend: string): Tables {
    if backend in RouteOf(t, client) then t
    else t.(route := t.route[client := RouteOf(t, client) + [backend]])
  }

  /** A selection leaves the old route in front and adds exactly the selected backend, if it was absent;
      users, pool and the other clients' routes stay. */
  lemma SelectionExtends(t: Tables, client: string, backend: string, other: string)
    ensures var t' := WithRouted(t, client, backend);
            && RouteOf(t', client) == RouteOf(t, client) + (if backend in RouteOf(t, client) then [] else [backend])
            && (other != client ==> RouteOf(t', other) == RouteOf(t, other))
            && t'.users == t.users && t'.pool == t.pool
  {
  }

  function WithRoute(t: Tables, client: string, ids: seq<string>): Tables {
    t.(route := t.route[client := Cleaned(ids)])
  }

  function WithPool(t: Tables, pool: Pool): Tables {
    t.(pool := pool)
  }

  /** The non-empty ids, each once, in order of first appearance. */
  function Cleaned(ids: seq<string>): seq<string> {
    if ids == [] then []
    else
      var front, last := Cleaned(ids[..|ids| - 1]), ids[|ids| - 1];
      if last == "" || last in front then front else front + [last]
  }

  lemma {:induction false} CleanedFacts(ids: seq<string>)
    ensures Distinct(Cleaned(ids)) && forall id :: id in Cleaned(ids) <==> id in ids && id != ""
  {
    if ids != [] {
      var front, last := ids[..|ids| - 1], ids[|ids| - 1];
      assert ids == front + [last];
      CleanedFacts(front);
    }
  }

  function PoolOf(specs: seq<Backend>): Pool {
    if specs == [] then map[]
    else PoolOf(specs[..|specs| - 1])[specs[|specs| - 1].id := specs[|specs| - 1]]
  }

  lemma {:induction false} PoolFacts(specs: seq<Backend>)
    ensures forall id | id in PoolOf(specs) :: PoolOf(specs)[id].id == id && PoolOf(specs)[id] in specs
    ensures forall b | b in specs :: b.id in PoolOf(specs)
  {
    if specs != [] { PoolFacts(specs[..|specs| - 1]); }
  }

  /** Of several backends with one id the last wins. */
  lemma {:induction false} LastSpecWins(specs: seq<Backend>, i: nat)
    requires i < |specs| && forall j | i < j < |specs| :: specs[j].id != specs[i].id
    ensures specs[i].id in PoolOf(specs) && PoolOf(specs)[specs[i].id] == specs[i]
  {
    var n := |specs| - 1;
    if i < n {
      assert specs[n].id != specs[i].id;
      LastSpecWins(specs[..n], i);
    }
  }
}
