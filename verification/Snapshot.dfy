/** Consuming a full snapshot in chunks: items are stored, and the last chunk removes what the
    snapshot did not mention. */
module Snapshot {
  import opened Domain
  import opened Applier
  import opened Convergence

  datatype Chunk = Chunk(node: string, snapshotId: string, items: seq<Placement>, isLast: bool)

  /** `failAt` is the first item whose read or write fails, if it is an index at all. */
  datatype Env = Env(failAt: nat, listOk: bool, deleteFails: set<string>, rebuildOk: bool, publishOk: bool)

  datatype Ended = Fine | Broken(reason: string) | Panic

  function IdsOf(items: seq<Placement>): set<string> {
    set p | p in items :: p.id
  }

  function ItemEvents(items: seq<Placement>): seq<Event> {
    seq(|items|, i requires 0 <= i < |items| => Item(items[i], true, true))
  }

  function Kept(store: Store, seen: set<string>): Store {
    map id | id in store && id in seen :: store[id]
  }

  class Consumer {
    const self: string
    var store: Store
    var seenIds: Option<set<string>>
    var seenSnap: string
    var chunks: nat
    var synced: nat
    var completed: bool

    constructor (self: string, store: Store)
      ensures Valid() && this.self == self && this.store == store && seenIds == None && seenSnap == "" && !completed
    {
      this.self, this.store := self, store;
      seenIds, seenSnap, chunks, synced, completed := None, "", 0, 0, false;
    }

    function View(): State
      reads this
    {
      State(store, seenIds, seenSnap)
    }

    /** Without a set of seen ids no snapshot is in progress. */
    predicate Valid()
      reads this
    {
      seenIds == None ==> seenSnap == ""
    }

    /** Remembers the chunk's ids, starting afresh when the snapshot changes. Writing to the missing set
        panics, which happens only for items of a snapshot with an empty id. */
    method TrackSeen(snapshotId: string, items: seq<Placement>) returns (panicked: bool)
      requires Valid()
      modifies this`seenIds, this`seenSnap
      ensures Valid()
      ensures panicked <==> Panics(old(View()), snapshotId, items)
      ensures View() == if panicked then old(View()) else Tracked(old(View()), snapshotId, items)
    {
      if seenSnap != snapshotId {
        seenIds := Some({});
        seenSnap := snapshotId;
      }
      panicked := false;
      ghost var seen := if seenIds.Some? then seenIds.value else {};
      for i := 0 to |items|
        invariant seenSnap == snapshotId && Valid()
        invariant seenIds.None? ==> i == 0 && old(View()) == View()
        invariant seenIds.Some? ==> seenIds.value == seen + IdsOf(items[..i])
        invariant seenIds.None? <==> old(seenSnap) == snapshotId && old(seenIds) == None
      {
        assert items[..i + 1] == items[..i] + [items[i]];
        if seenIds.None? { return true; }
        seenIds := Some(seenIds.value + {items[i].id});
      }
      assert items[..|items|] == items && {} + IdsOf(items) == IdsOf(items);
    }

    method ApplyItem(p: Placement) returns (applied: bool)
      modifies this`store
      ensures store == ItemApplied(old(store), p, true, true)
      ensures applied <==> !(p.id in old(store) && old(store)[p.id].opVersion >= p.opVersion)
    {
      if p.id in store && store[p.id].opVersion >= p.opVersion { return false; }
      store := store[p.id := p.(applied := Applied)];
      return true;
    }

    /** Deletes what the snapshot did not mention, unless it mentioned nothing. The seen ids are gone
        afterwards, even when a deletion fails half-way. */
    method PruneAbsent(snapshotId: string, listOk: bool, deleteFails: set<string>) returns (ok: bool)
      requires Valid()
      modifies this`store, this`seenIds, this`seenSnap
      ensures Valid() && seenIds == None && seenSnap == ""
      ensures old(seenSnap) != snapshotId || old(seenIds) == None || old(seenIds) == Some({}) ==> ok && store == old(store)
      ensures old(seenSnap) == snapshotId && old(seenIds).Some? && old(seenIds).value != {} ==>
                && (ok <==> listOk && (deleteFails * old(store).Keys) - old(seenIds).value == {})
                && (ok ==> store == Kept(old(store), old(seenIds).value))
                && Kept(old(store), old(seenIds).value).Keys <= store.Keys <= old(store).Keys
    {
      var seen, current := seenIds, seenSnap;
      seenIds, seenSnap := None, "";
      if current != snapshotId { return true; }
      if seen.None? || seen.value == {} { return true; }
      if !listOk { return false; }
      ok := DeleteAbsent(seen.value, deleteFails);
    }

    method DeleteAbsent(seen: set<string>, deleteFails: set<string>) returns (ok: bool)
      modifies this`store
      ensures ok <==> (deleteFails * old(store).Keys) - seen == {}
      ensures ok ==> store == Kept(old(store), seen)
      ensures Kept(old(store), seen).Keys <= store.Keys <= old(store).Keys
    {
      var left := store.Keys;
      while left != {}
        invariant left <= old(store).Keys && store.Keys <= old(store).Keys
        invariant forall id | id in old(store) :: (id in left || id in seen) ==> id in store && store[id] == old(store)[id]
        invariant forall id | id in old(store) && id !in left && id !in seen :: id !in store && id !in deleteFails
        decreases |left|
      {
        var id :| id in left;
        if id !in seen {
          if id in deleteFails {
            assert id in (deleteFails * old(store).Keys) - seen;
            return false;
          }
          store := store - {id};
        }
        left := left - {id};
      }
      assert store == Kept(old(store), seen);
      return true;
    }

    /** One chunk: its ids are tracked, its items applied up to the first that fails, and the last chunk
        then prunes, rebuilds and reports. */
    method Handle(chunk: Chunk, env: Env) returns (r: Ended)
      requires Valid()
      modifies this
      ensures Valid()
      ensures chunk.node != self ==> r == Fine && View() == old(View())
      ensures chunk.node == self && Panics(old(View()), chunk.snapshotId, chunk.items) ==> r == Panic && View() == old(View())
      ensures chunk.node == self && !Panics(old(View()), chunk.snapshotId, chunk.items) ==>
                && var n := if env.failAt < |chunk.items| then env.failAt else |chunk.items|;
                && var done := Tracked(old(View()), chunk.snapshotId, chunk.items)
                               .(store := After(self, old(store), ItemEvents(chunk.items[..n])));
                && (n < |chunk.items| ==> r == Broken("snapshot chunk item") && View() == done)
                && (n == |chunk.items| ==> done == Steps(self, old(View()), ChunkSteps(chunk.snapshotId, chunk.items)))
                && (n == |chunk.items| && !chunk.isLast ==> r == Fine && View() == done)
                && (n == |chunk.items| && chunk.isLast ==>
                      && PrunedUpTo(done, chunk.snapshotId, View(), PruneOk(done, chunk.snapshotId, env))
                      && (r == Fine <==> PruneOk(done, chunk.snapshotId, env) && env.rebuildOk && env.publishOk))
      ensures completed <==> old(completed) || (chunk.node == self && chunk.isLast && r == Fine)
    {
      if chunk.node != self { return Fine; }
      chunks := chunks + 1;
      var panicked := TrackSeen(chunk.snapshotId, chunk.items);
      if panicked { return Panic; }
      var persisted := 0;
      for i := 0 to |chunk.items|
        modifies this`store
        invariant store == After(self, old(store), ItemEvents(chunk.items[..i])) && i <= env.failAt
      {
        if i == env.failAt { return Broken("snapshot chunk item"); }
        assert ItemEvents(chunk.items[..i + 1])[..i] == ItemEvents(chunk.items[..i]);
        var applied := ApplyItem(chunk.items[i]);
        if applied { persisted := persisted + 1; }
      }
      assert chunk.items[..|chunk.items|] == chunk.items;
      ChunkEffect(self, old(View()), chunk.snapshotId, chunk.items);
      synced := synced + persisted;
      if !chunk.isLast { return Fine; }
      var pruned := PruneAbsent(chunk.snapshotId, env.listOk, env.deleteFails);
      if !pruned { return Broken("prune after last chunk"); }
      if !env.rebuildOk { return Broken("rebuild after last chunk"); }
      if !env.publishOk { return Broken("publish sync report"); }
      completed := true;
      r := Fine;
    }
  }

  /** Whether the prune after a last chunk gets through. */
  predicate PruneOk(s: State, snapshotId: string, env: Env) {
    s.snap == snapshotId && s.seen.Some? && s.seen.value != {} ==>
      env.listOk && (env.deleteFails * s.store.Keys) - s.seen.value == {}
  }

  /** A prune that gets through is complete; one that fails has deleted some of what it should. */
  ghost predicate PrunedUpTo(s: State, snapshotId: string, s': State, ok: bool) {
    && s'.seen == None && s'.snap == ""
    && (ok ==> s' == Pruned(s, snapshotId))
    && Pruned(s, snapshotId).store.Keys <= s'.store.Keys <= s.store.Keys
  }

  // A whole snapshot, with commands in between.

  datatype Step = Track(snapshotId: string, items: seq<Placement>) | Apply(item: Placement) | Command(delivery: Delivery)

  datatype State = State(store: Store, seen: Option<set<string>>, snap: string)

  predicate Panics(s: State, snapshotId: string, items: seq<Placement>) {
    s.snap == snapshotId && s.seen.None? && items != []
  }

  function Tracked(s: State, snapshotId: string, items: seq<Placement>): State {
    if s.snap != snapshotId then s.(seen := Some(IdsOf(items)), snap := snapshotId)
    else if s.seen.None? then s
    else s.(seen := Some(s.seen.value + IdsOf(items)))
  }

  function Next(self: string, s: State, step: Step): State {
    match step
    case Track(id, items) => Tracked(s, id, items)
    case Apply(p) => s.(store := ItemApplied(s.store, p, true, true))
    case Command(d) => s.(store := Handled(self, s.store, d))
  }

  function Steps(self: string, s: State, steps: seq<Step>): State {
    if steps == [] then s else Next(self, Steps(self, s, steps[..|steps| - 1]), steps[|steps| - 1])
  }

  /** What one chunk does: its ids are tracked first, then its items are applied. */
  function ChunkSteps(snapshotId: string, items: seq<Placement>): seq<Step> {
    [Track(snapshotId, items)] + seq(|items|, i requires 0 <= i < |items| => Apply(items[i]))
  }

  lemma {:induction false} AppliesFold(self: string, s: State, snapshotId: string, all: seq<Placement>, n: nat)
    requires n <= |all|
    ensures Steps(self, s, ChunkSteps(snapshotId, all)[..n + 1])
            == Tracked(s, snapshotId, all).(store := After(self, s.store, ItemEvents(all[..n])))
  {
    var steps := ChunkSteps(snapshotId, all)[..n + 1];
    assert steps[..n] == ChunkSteps(snapshotId, all)[..n];
    if n == 0 {
      assert steps == [Track(snapshotId, all)] && steps[..0] == [];
    } else {
      AppliesFold(self, s, snapshotId, all, n - 1);
      assert steps[n] == Apply(all[n - 1]);
      assert ItemEvents(all[..n])[..n - 1] == ItemEvents(all[..n - 1]);
    }
  }

  lemma ChunkEffect(self: string, s: State, snapshotId: string, items: seq<Placement>)
    ensures Steps(self, s, ChunkSteps(snapshotId, items))
            == Tracked(s, snapshotId, items).(store := After(self, s.store, ItemEvents(items)))
  {
    var steps := ChunkSteps(snapshotId, items);
    assert steps[..|items| + 1] == steps && items[..|items|] == items;
    AppliesFold(self, s, snapshotId, items, |items|);
  }

  function Pruned(s: State, snapshotId: string): State {
    State(if s.snap == snapshotId && s.seen.Some? && s.seen.value != {} then Kept(s.store, s.seen.value) else s.store, None, "")
  }

  /** The placements the snapshot's chunks mention. */
  function Mentioned(steps: seq<Step>): set<Placement> {
    set i, p | 0 <= i < |steps| && steps[i].Track? && p in steps[i].items :: p
  }

  /** Chunks of one snapshot, every item applied at some point, any commands in between. */
  ghost predicate WholeSnapshot(snapshotId: string, steps: seq<Step>) {
    && snapshotId != ""
    && (forall step | step in steps && step.Track? :: step.snapshotId == snapshotId)
    && (forall p | p in Mentioned(steps) :: Apply(p) in steps)
    && (forall step | step in steps && step.Command? :: KeepsOwn(step.delivery))
  }

  /** No step removes a placement or sets it back. */
  lemma StepHolds(self: string, s: State, step: Step, id: string)
    requires id in s.store && (step.Command? ==> KeepsOwn(step.delivery))
    ensures id in Next(self, s, step).store && Next(self, s, step).store[id].opVersion >= s.store[id].opVersion
  {
    if step.Command? && Addressed(self, step.delivery) {
      var p := step.delivery.command.value.placement;
      if p.id == id { assert Lookup(s.store, id).Some?; }
    }
  }

  lemma {:induction false} AppliedIsStored(self: string, s: State, steps: seq<Step>, p: Placement)
    requires Apply(p) in steps && forall step | step in steps && step.Command? :: KeepsOwn(step.delivery)
    ensures p.id in Steps(self, s, steps).store && Steps(self, s, steps).store[p.id].opVersion >= p.opVersion
  {
    var front, last := steps[..|steps| - 1], steps[|steps| - 1];
    assert steps == front + [last];
    if last != Apply(p) {
      assert Apply(p) in front && last in steps;
      AppliedIsStored(self, s, front, p);
      StepHolds(self, Steps(self, s, front), last, p.id);
    }
  }

  ghost function MentionedIds(steps: seq<Step>): set<string> {
    set p | p in Mentioned(steps) :: p.id
  }

  lemma MentionedSnoc(front: seq<Step>, last: Step)
    ensures MentionedIds(front + [last]) == MentionedIds(front) + (if last.Track? then IdsOf(last.items) else {})
  {
    var steps := front + [last];
    forall id ensures id in MentionedIds(steps) <==> id in MentionedIds(front) || (last.Track? && id in IdsOf(last.items)) {
      if id in MentionedIds(front) {
        var p :| p in Mentioned(front) && p.id == id;
        var i :| 0 <= i < |front| && front[i].Track? && p in front[i].items;
        assert steps[i] == front[i];
        assert p in Mentioned(steps);
      }
      if last.Track? && id in IdsOf(last.items) {
        var p :| p in last.items && p.id == id;
        assert steps[|front|] == last && p in Mentioned(steps);
      }
      if id in MentionedIds(steps) {
        var p :| p in Mentioned(steps) && p.id == id;
        var i :| 0 <= i < |steps| && steps[i].Track? && p in steps[i].items;
        if i < |front| { assert front[i] == steps[i] && p in Mentioned(front); }
      }
    }
  }

  /** From the first chunk on, the seen ids are the ids mentioned so far. */
  lemma {:induction false} SeenIsMentioned(self: string, s: State, snapshotId: string, steps: seq<Step>)
    requires s.snap != snapshotId && forall step | step in steps && step.Track? :: step.snapshotId == snapshotId
    ensures var t := Steps(self, s, steps);
            if exists step | step in steps :: step.Track? then t.snap == snapshotId && t.seen == Some(MentionedIds(steps))
            else t.snap == s.snap && MentionedIds(steps) == {}
  {
    if steps != [] {
      var front, last := steps[..|steps| - 1], steps[|steps| - 1];
      assert steps == front + [last];
      SeenIsMentioned(self, s, snapshotId, front);
      MentionedSnoc(front, last);
      assert forall step :: step in steps <==> step in front || step == last;
      assert last in steps;
      if last.Track? { assert {} + IdsOf(last.items) == IdsOf(last.items); }
      assert MentionedIds(steps) == if last.Track? then MentionedIds(front) + IdsOf(last.items) else MentionedIds(front);
    }
  }

  /** Snapshot exactness: whatever commands arrive in between, with whatever executor that keeps its own
      placement, pruning after a whole snapshot leaves
      exactly the placements it mentioned, each at the snapshot's version or later. */
  lemma SnapshotIsExact(self: string, s: State, snapshotId: string, steps: seq<Step>)
    requires s.snap != snapshotId && WholeSnapshot(snapshotId, steps)
    requires MentionedIds(steps) != {}
    ensures var t := Pruned(Steps(self, s, steps), snapshotId);
            && t.store.Keys == MentionedIds(steps)
            && (forall p | p in Mentioned(steps) :: t.store[p.id].opVersion >= p.opVersion)
            && t.seen == None && t.snap == ""
  {
    var t := Steps(self, s, steps);
    SeenIsMentioned(self, s, snapshotId, steps);
    forall p | p in Mentioned(steps) ensures p.id in t.store && t.store[p.id].opVersion >= p.opVersion {
      AppliedIsStored(self, s, steps, p);
    }
    assert Kept(t.store, MentionedIds(steps)).Keys == MentionedIds(steps);
  }

  /** A snapshot that mentions nothing removes nothing. */
  lemma EmptySnapshotRemovesNothing(self: string, s: State, snapshotId: string, steps: seq<Step>)
    requires s.snap != snapshotId && WholeSnapshot(snapshotId, steps) && MentionedIds(steps) == {}
    ensures Pruned(Steps(self, s, steps), snapshotId).store == Steps(self, s, steps).store
  {
    SeenIsMentioned(self, s, snapshotId, steps);
  }

  /** When the work after pruning fails, the last chunk is delivered again to a consumer that has
      forgotten the earlier chunks: it keeps the earlier chunks' placements exactly when the last chunk
      mentions them too, or mentions nothing. */
  lemma RedeliveredLastChunk(self: string, s: State, snapshotId: string, steps: seq<Step>, last: seq<Placement>)
    requires s.snap != snapshotId && WholeSnapshot(snapshotId, steps) && MentionedIds(steps) != {}
    requires IdsOf(last) <= MentionedIds(steps)
    ensures var once := Pruned(Steps(self, s, steps), snapshotId);
            var again := Pruned(Steps(self, once, ChunkSteps(snapshotId, last)), snapshotId);
            again.store.Keys == once.store.Keys <==> last == [] || MentionedIds(steps) <= IdsOf(last)
  {
    var once := Pruned(Steps(self, s, steps), snapshotId);
    SnapshotIsExact(self, s, snapshotId, steps);
    var redo := ChunkSteps(snapshotId, last);
    RedoIsWhole(snapshotId, last);
    if last == [] {
      EmptySnapshotRemovesNothing(self, once, snapshotId, redo);
      RedoEmpty(self, once, snapshotId);
    } else {
      assert last[0].id in IdsOf(last);
      SnapshotIsExact(self, once, snapshotId, redo);
    }
  }

  lemma RedoIsWhole(snapshotId: string, last: seq<Placement>)
    requires snapshotId != ""
    ensures WholeSnapshot(snapshotId, ChunkSteps(snapshotId, last))
    ensures MentionedIds(ChunkSteps(snapshotId, last)) == IdsOf(last)
  {
    var redo := ChunkSteps(snapshotId, last);
    forall p ensures p in Mentioned(redo) <==> p in last {
      if p in last { assert redo[0].Track? && p in redo[0].items; }
    }
    forall p | p in last ensures Apply(p) in redo {
      var i :| 0 <= i < |last| && last[i] == p;
      assert redo[i + 1] == Apply(p);
    }
  }

  lemma RedoEmpty(self: string, s: State, snapshotId: string)
    ensures Steps(self, s, ChunkSteps(snapshotId, [])).store == s.store
  {
    var redo := ChunkSteps(snapshotId, []);
    assert redo == [Track(snapshotId, [])] && redo[..0] == [];
  }
}
