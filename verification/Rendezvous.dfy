/** Rendezvous hashing: which backend serves a destination, and who moves when a backend leaves. */
module Rendezvous {
  import opened Domain
  import opened Order
  import opened EntryProxy
  import Fnv

  /** No two known backends of the route have colliding names. */
  predicate NamesApart(pool: Pool, ids: seq<string>) {
    && Distinct(ids)
    && forall a, b | a in ids && b in ids && a in pool && b in pool && a != b ::
         Fnv.Hash(Fnv.Octets(a)) != Fnv.Hash(Fnv.Octets(b))
  }

  predicate KeyedPool(pool: Pool) {
    forall id | id in pool :: pool[id].id == id
  }

  lemma BetterIsOrder()
    ensures StrictOrder(Better)
  {
  }

  lemma {:induction false} CandidateOrigin(look: Look, ids: seq<string>, c: Candidate)
    ensures c in Candidates(look, ids) <==> exists id | id in ids :: id in look.pool && c == CandidateFor(look, id)
  {
    if ids != [] {
      var front, last := ids[..|ids| - 1], ids[|ids| - 1];
      assert ids == front + [last];
      CandidateOrigin(look, front, c);
    }
  }

  /** Distinct names have distinct scores, for every client and destination. */
  lemma ScoresApart(look: Look, ids: seq<string>, a: string, b: string)
    requires NamesApart(look.pool, ids) && a in ids && b in ids && a in look.pool && b in look.pool && a != b
    ensures CandidateFor(look, a).score != CandidateFor(look, b).score
  {
    Fnv.TieIsBackendTie(Fnv.Octets(a), Fnv.Octets(b), Fnv.Octets(look.client), Fnv.Octets(look.dest));
  }

  lemma {:induction false} CandidatesDistinct(look: Look, ids: seq<string>)
    requires NamesApart(look.pool, ids) && KeyedPool(look.pool)
    ensures Distinct(Candidates(look, ids))
  {
    if ids != [] {
      var front, last := ids[..|ids| - 1], ids[|ids| - 1];
      assert ids == front + [last];
      assert NamesApart(look.pool, front);
      CandidatesDistinct(look, front);
      if last in look.pool {
        var c := CandidateFor(look, last);
        CandidateOrigin(look, front, c);
        assert c !in Candidates(look, front);
      }
    }
  }

  lemma CandidatesTotal(look: Look, ids: seq<string>)
    requires NamesApart(look.pool, ids)
    ensures TotalOn(Better, SetOf(Candidates(look, ids)))
  {
    forall x, y | x in Candidates(look, ids) && y in Candidates(look, ids) && x != y
      ensures Better(x, y) || Better(y, x)
    {
      CandidateOrigin(look, ids, x);
      CandidateOrigin(look, ids, y);
      var a :| a in ids && a in look.pool && x == CandidateFor(look, a);
      var b :| b in ids && b in look.pool && y == CandidateFor(look, b);
      ScoresApart(look, ids, a, b);
    }
  }

  /** The ranking holds exactly the known backends of the route, each once, healthy before unhealthy and
      each part by descending score. */
  lemma RankedIsExact(look: Look, ids: seq<string>)
    requires NamesApart(look.pool, ids) && KeyedPool(look.pool)
    ensures Ascending(Better, Ranked(look, ids))
    ensures forall c :: c in Ranked(look, ids) <==> exists id | id in ids :: id in look.pool && c == CandidateFor(look, id)
  {
    BetterIsOrder();
    CandidatesTotal(look, ids);
    CandidatesDistinct(look, ids);
    SortAscending(Better, Candidates(look, ids));
    SameElements(Ranked(look, ids), Candidates(look, ids));
    forall c ensures c in Ranked(look, ids) <==> exists id | id in ids :: id in look.pool && c == CandidateFor(look, id) {
      CandidateOrigin(look, ids, c);
    }
  }

  // A backend leaves.

  predicate NotNamed(gone: string, c: Candidate) {
    c.backend.id != gone
  }

  lemma {:induction false} FilterAscending(s: seq<Candidate>, keep: Candidate -> bool)
    requires Ascending(Better, s)
    ensures Ascending(Better, Filter(s, keep))
  {
    if s != [] {
      var front, last := s[..|s| - 1], s[|s| - 1];
      FilterAscending(front, keep);
      forall c | c in Filter(front, keep) ensures Better(c, last) { assert c in front; }
    }
  }

  /** Two rankings whose candidates differ by one name are the same list, with and without it. */
  lemma RankedWithout(look: Look, ids: seq<string>, look': Look, ids': seq<string>, gone: string)
    requires NamesApart(look.pool, ids) && KeyedPool(look.pool) && NamesApart(look'.pool, ids') && KeyedPool(look'.pool)
    requires look' == look.(pool := look'.pool)
    requires forall id :: id in ids' && id in look'.pool <==> id in ids && id in look.pool && id != gone
    requires forall id | id in look'.pool && id in look.pool :: look'.pool[id] == look.pool[id]
    ensures Ranked(look', ids') == Filter(Ranked(look, ids), c => NotNamed(gone, c))
  {
    var kept := Filter(Ranked(look, ids), c => NotNamed(gone, c));
    RankedIsExact(look, ids);
    RankedIsExact(look', ids');
    BetterIsOrder();
    FilterAscending(Ranked(look, ids), c => NotNamed(gone, c));
    forall c ensures c in Ranked(look', ids') <==> c in kept {
      if c in kept {
        var id :| id in ids && id in look.pool && c == CandidateFor(look, id);
        assert c == CandidateFor(look', id);
      }
      if c in Ranked(look', ids') {
        var id :| id in ids' && id in look'.pool && c == CandidateFor(look', id);
        assert c == CandidateFor(look, id);
      }
    }
    AscendingUnique(Better, Ranked(look', ids'), kept);
  }

  /** A backend removed from the pool: every connection's list is the old one without it. */
  lemma PoolRemovalIsStable(look: Look, ids: seq<string>, gone: string)
    requires NamesApart(look.pool, ids) && KeyedPool(look.pool)
    ensures Ranked(look.(pool := look.pool - {gone}), ids) == Filter(Ranked(look, ids), c => NotNamed(gone, c))
  {
    RankedWithout(look, ids, look.(pool := look.pool - {gone}), ids, gone);
  }

  lemma {:induction false} FilterKeepsDistinct(ids: seq<string>, keep: string -> bool)
    requires Distinct(ids)
    ensures Distinct(Filter(ids, keep))
  {
    if ids != [] {
      var front, last := ids[..|ids| - 1], ids[|ids| - 1];
      FilterKeepsDistinct(front, keep);
      forall id | id in Filter(front, keep) ensures id != last { assert id in front; }
    }
  }

  /** A backend removed from the client's route: likewise. */
  lemma RouteRemovalIsStable(look: Look, ids: seq<string>, gone: string)
    requires NamesApart(look.pool, ids) && KeyedPool(look.pool)
    ensures Ranked(look, Filter(ids, id => id != gone)) == Filter(Ranked(look, ids), c => NotNamed(gone, c))
  {
    var ids' := Filter(ids, id => id != gone);
    FilterKeepsDistinct(ids, id => id != gone);
    RankedWithout(look, ids, look, ids', gone);
  }

  /** So a destination moves only if the backend that served it left the pool or the route. */
  lemma OnlyItsOwnMoves(look: Look, ids: seq<string>, gone: string)
    requires NamesApart(look.pool, ids) && KeyedPool(look.pool)
    requires Ranked(look, ids) != [] && Ranked(look, ids)[0].backend.id != gone
    ensures var after := Ranked(look.(pool := look.pool - {gone}), ids);
            after != [] && after[0] == Ranked(look, ids)[0]
    ensures var after := Ranked(look, Filter(ids, id => id != gone));
            after != [] && after[0] == Ranked(look, ids)[0]
  {
    PoolRemovalIsStable(look, ids, gone);
    RouteRemovalIsStable(look, ids, gone);
    FilterHead(Ranked(look, ids), c => NotNamed(gone, c));
  }

  lemma {:induction false} FilterHead(s: seq<Candidate>, keep: Candidate -> bool)
    requires s != [] && keep(s[0])
    ensures Filter(s, keep) != [] && Filter(s, keep)[0] == s[0]
  {
    if |s| > 1 { FilterHead(s[..|s| - 1], keep); }
  }

  // A backend is added, as by a flip: the old one stays in the route.

  lemma WithoutAdded(ids: seq<string>, added: string)
    requires added !in ids
    ensures Filter(ids + [added], id => id != added) == ids
  {
    assert (ids + [added])[..|ids|] == ids;
    FilterAll(ids, id => id != added);
  }

  lemma RankedMember(look: Look, ids: seq<string>, id: string)
    requires NamesApart(look.pool, ids) && KeyedPool(look.pool) && id in ids && id in look.pool
    ensures CandidateFor(look, id) in Ranked(look, ids) && CandidateFor(look, id).backend.id == id
  {
    RankedIsExact(look, ids);
  }

  /** Adding a backend to a client's route moves a destination exactly when the new backend ranks before
      the one that served it; otherwise the destination stays where it was. */
  lemma FlipMovesIff(look: Look, ids: seq<string>, added: string)
    requires added !in ids && added in look.pool && NamesApart(look.pool, ids + [added]) && KeyedPool(look.pool)
    requires Ranked(look, ids) != []
    ensures var before, after := Ranked(look, ids)[0], Ranked(look, ids + [added]);
            && after != []
            && after[0] == if Better(CandidateFor(look, added), before) then CandidateFor(look, added) else before
  {
    var all := ids + [added];
    var after, earlier := Ranked(look, all), Ranked(look, ids);
    assert added in all;
    RankedIsExact(look, all);
    RankedMember(look, all, added);
    WithoutAdded(ids, added);
    RouteRemovalIsStable(look, all, added);
    BetterIsOrder();
    var c := CandidateFor(look, added);
    assert earlier[0] in earlier && earlier[0] in after;
    var i :| 0 <= i < |after| && after[i] == c;
    var j :| 0 <= j < |after| && after[j] == earlier[0];
    if NotNamed(added, after[0]) {
      FilterHead(after, x => NotNamed(added, x));
    } else {
      SoleName(look, all, added, after[0]);
    }
  }

  lemma SoleName(look: Look, ids: seq<string>, id: string, c: Candidate)
    requires NamesApart(look.pool, ids) && KeyedPool(look.pool) && c in Ranked(look, ids) && c.backend.id == id
    ensures id in look.pool && c == CandidateFor(look, id)
  {
    RankedIsExact(look, ids);
  }

  /** On the route a selection leaves, likewise: a destination moves to the selected backend exactly when that
      was absent and ranks first, and otherwise stays. */
  lemma SelectionMovesIff(look: Look, t: Tables, backend: string)
    requires NamesApart(look.pool, RouteOf(WithRouted(t, look.client, backend), look.client)) && KeyedPool(look.pool)
    requires backend in look.pool && Ranked(look, RouteOf(t, look.client)) != []
    ensures var before := Ranked(look, RouteOf(t, look.client))[0];
            var after := Ranked(look, RouteOf(WithRouted(t, look.client, backend), look.client));
            && after != []
            && after[0] == if backend !in RouteOf(t, look.client) && Better(CandidateFor(look, backend), before)
                           then CandidateFor(look, backend) else before
  {
    SelectionExtends(t, look.client, backend, look.client);
    if backend !in RouteOf(t, look.client) {
      FlipMovesIff(look, RouteOf(t, look.client), backend);
    } else {
      assert RouteOf(t, look.client) + [] == RouteOf(t, look.client);
    }
  }

  /** The backends to try, in the terms of the tables: the known ones of the route, each once, the healthy
      before the unhealthy and then by descending score for this client and destination. */
  lemma RankedInTables(look: Look, ids: seq<string>, i: nat, j: nat)
    requires NamesApart(look.pool, ids) && KeyedPool(look.pool) && i < j < |Ranked(look, ids)|
    ensures var a, b := Ranked(look, ids)[i].backend, Ranked(look, ids)[j].backend;
            && a.id in ids && a.id in look.pool && look.pool[a.id] == a
            && b.id in ids && b.id in look.pool && look.pool[b.id] == b && a.id != b.id
            && (IsHealthy(look.health, b.id, look.now) ==> IsHealthy(look.health, a.id, look.now))
            && (IsHealthy(look.health, a.id, look.now) == IsHealthy(look.health, b.id, look.now) ==>
                Fnv.Score(Fnv.Octets(a.id), Fnv.Octets(look.client), Fnv.Octets(look.dest))
                > Fnv.Score(Fnv.Octets(b.id), Fnv.Octets(look.client), Fnv.Octets(look.dest)))
  {
    var ranked := Ranked(look, ids);
    RankedIsExact(look, ids);
    BetterMeans(ranked, i, j);
    assert ranked[i] in ranked && ranked[j] in ranked;
    SoleName(look, ids, ranked[i].backend.id, ranked[i]);
    SoleName(look, ids, ranked[j].backend.id, ranked[j]);
  }
}
