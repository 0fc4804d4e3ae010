/** Handlers that read a placement first and write it later: which schedules lose an update, and which
    amount to one handler after the other. */
module Overlap {
  import opened Domain
  import opened Applier
  import opened Convergence

  /** What a handler does to the store once it has read. */
  datatype Effect = Nothing | Put(placement: Placement) | Delete

  function IdOf(e: Event): string {
    if Carried(e).Some? then Carried(e).value.id else ""
  }

  /** What an executor left under its own placement. */
  function OwnEffect(own: Option<Placement>, read: Option<Placement>): Effect {
    if own == read then Nothing else if own.Some? then Put(own.value) else Delete
  }

  /** A skipped command and an item that is not newer write nothing; a command's executor and its final
      write are taken together. */
  function EffectOf(self: string, e: Event, read: Option<Placement>): Effect {
    match e
    case Item(p, getOk, putOk) =>
      if !getOk || (read.Some? && read.value.opVersion >= p.opVersion) || !putOk then Nothing
      else Put(p.(applied := Applied))
    case Cmd(d) =>
      if !Addressed(self, d) || !d.getOk then Nothing
      else
        var p := d.command.value.placement;
        if IsStale(read, p) || IsIdempotent(read, p) then Nothing
        else
          var run := d.run(read);
          if run.result.Retryable? || !d.putOk then OwnEffect(run.own, read)
          else Put(p.(applied := if run.result.Succeeded? then Applied else Failed))
  }

  function Perform(store: Store, id: string, effect: Effect): Store {
    match effect
    case Nothing => store
    case Put(p) => store[id := p]
    case Delete => store - {id}
  }

  datatype Task = Task(event: Event, read: Option<Placement>)

  /** The store and the handlers that have read and not written yet: the applier's workers and the
      snapshot consumer's items, by number. */
  datatype Board = Board(store: Store, busy: map<nat, Task>)

  datatype Move = Read(w: nat, event: Event) | Write(w: nat)

  predicate Enabled(board: Board, m: Move) {
    match m
    case Read(w, _) => w !in board.busy
    case Write(w) => w in board.busy
  }

  function Moved(self: string, board: Board, m: Move): Board
    requires Enabled(board, m)
  {
    match m
    case Read(w, e) => board.(busy := board.busy[w := Task(e, Lookup(board.store, IdOf(e)))])
    case Write(w) => Board(Perform(board.store, IdOf(board.busy[w].event), WriteOf(self, board, w)), board.busy - {w})
  }

  function WriteOf(self: string, board: Board, w: nat): Effect
    requires w in board.busy
  {
    EffectOf(self, board.busy[w].event, board.busy[w].read)
  }

  ghost predicate Run(self: string, boards: seq<Board>, moves: seq<Move>) {
    && |boards| == |moves| + 1 && boards[0].busy == map[]
    && forall i {:trigger moves[i]} | 0 <= i < |moves| ::
         Enabled(boards[i], moves[i]) && boards[i + 1] == Moved(self, boards[i], moves[i])
  }

  // One handler at a time.

  /** A write that finds what its handler read does what atomic handling does. */
  lemma UndisturbedIsAtomic(self: string, store: Store, e: Event, read: Option<Placement>)
    requires read == Lookup(store, IdOf(e))
    ensures Perform(store, IdOf(e), EffectOf(self, e, read)) == Step(self, store, e)
  {
    if e.Cmd? && Addressed(self, e.delivery) {
      var p := e.delivery.command.value.placement;
      assert Assign(store, p.id, Lookup(store, p.id)) == store;
    }
  }

  /** No two handlers are busy with one placement. */
  ghost predicate Apart(board: Board) {
    forall v, w | v in board.busy && w in board.busy && IdOf(board.busy[v].event) == IdOf(board.busy[w].event) :: v == w
  }

  ghost predicate ReadsCurrent(board: Board) {
    forall w | w in board.busy :: board.busy[w].read == Lookup(board.store, IdOf(board.busy[w].event))
  }

  lemma ApartKeepsReads(self: string, board: Board, m: Move)
    requires Enabled(board, m) && Apart(board) && ReadsCurrent(board)
    ensures ReadsCurrent(Moved(self, board, m))
  {
    var after := Moved(self, board, m);
    forall w | w in after.busy ensures after.busy[w].read == Lookup(after.store, IdOf(after.busy[w].event)) {
      if m.Write? { assert w in board.busy && IdOf(board.busy[w].event) != IdOf(board.busy[m.w].event); }
    }
  }

  /** The events handled so far, in the order of their writes. */
  function Written(boards: seq<Board>, moves: seq<Move>, n: nat): seq<Event>
    requires n <= |moves| <= |boards|
  {
    if n == 0 then []
    else
      var m, front := moves[n - 1], Written(boards, moves, n - 1);
      if m.Write? && m.w in boards[n - 1].busy then front + [boards[n - 1].busy[m.w].event] else front
  }

  /** As long as handlers of one placement never overlap, any schedule is a serial one: the store is that of
      handling the events one after the other in the order of their writes. */
  lemma {:induction false} ApartIsSerial(self: string, boards: seq<Board>, moves: seq<Move>, n: nat)
    requires Run(self, boards, moves) && n <= |moves| && forall i | 0 <= i < n :: Apart(boards[i])
    ensures ReadsCurrent(boards[n])
    ensures boards[n].store == After(self, boards[0].store, Written(boards, moves, n))
  {
    if n > 0 {
      ApartIsSerial(self, boards, moves, n - 1);
      var m, before, done := moves[n - 1], boards[n - 1], Written(boards, moves, n - 1);
      ApartKeepsReads(self, before, m);
      if m.Write? {
        var e := before.busy[m.w].event;
        UndisturbedIsAtomic(self, before.store, e, before.busy[m.w].read);
        assert (done + [e])[..|done|] == done;
      }
    }
  }

  // Handlers that overlap.

  ghost predicate Lowers(before: Store, after: Store, id: string) {
    id in before && (id !in after || after[id].opVersion < before[id].opVersion)
  }

  ghost predicate Careful(e: Event) {
    e.Cmd? ==> KeepsOwn(e.delivery)
  }

  /** A handler never writes less than it read. */
  lemma WritesNoLess(self: string, e: Event, read: Option<Placement>)
    requires Careful(e) && read.Some?
    ensures EffectOf(self, e, read) != Delete
    ensures EffectOf(self, e, read).Put? ==> EffectOf(self, e, read).placement.opVersion >= read.value.opVersion
  {
    if e.Cmd? && Addressed(self, e.delivery) { assert read == Some(read.value); }
  }

  predicate Newer(store: Store, id: string, version: nat) {
    id in store && store[id].opVersion > version
  }

  /** At its own placement a write lowers the version exactly when what is stored by then is newer than what
      it puts, or it deletes. */
  lemma LowersIff(self: string, board: Board, m: Move, id: string)
    requires Enabled(board, m)
    ensures Lowers(board.store, Moved(self, board, m).store, id) <==>
            && m.Write? && IdOf(board.busy[m.w].event) == id
            && var effect := WriteOf(self, board, m.w);
               (effect.Put? && Newer(board.store, id, effect.placement.opVersion)) || (effect == Delete && id in board.store)
  {
  }

  /** Where a busy handler has read. */
  lemma {:induction false} ReadBefore(self: string, boards: seq<Board>, moves: seq<Move>, j: nat, w: nat) returns (i: nat)
    requires Run(self, boards, moves) && j < |boards| && w in boards[j].busy
    ensures i < j && moves[i] == Read(w, boards[j].busy[w].event)
    ensures boards[j].busy[w].read == Lookup(boards[i].store, IdOf(boards[j].busy[w].event))
    ensures forall k | i < k <= j :: w in boards[k].busy && boards[k].busy[w] == boards[j].busy[w]
  {
    var m := moves[j - 1];
    if m.Read? && m.w == w {
      i := j - 1;
    } else {
      i := ReadBefore(self, boards, moves, j - 1, w);
    }
  }

  /** A placement that becomes newer than a version was written so at some moment in between. */
  lemma {:induction false} Crossing(self: string, boards: seq<Board>, moves: seq<Move>, i: nat, j: nat, id: string, v: nat) returns (k: nat)
    requires Run(self, boards, moves) && i <= j < |boards|
    requires !Newer(boards[i].store, id, v) && Newer(boards[j].store, id, v)
    ensures i <= k < j && moves[k].Write? && moves[k].w in boards[k].busy
    ensures IdOf(boards[k].busy[moves[k].w].event) == id
    ensures !Newer(boards[k].store, id, v) && Newer(boards[k + 1].store, id, v)
  {
    assert i < j;
    var m := moves[j - 1];
    if Newer(boards[j - 1].store, id, v) {
      k := Crossing(self, boards, moves, i, j - 1, id, v);
    } else {
      k := j - 1;
    }
  }

  /** In every schedule a step lowers a stored version if and only if it is the write of a handler that puts
      an older one than is stored by then; and that is so because, between the handler's read and its write,
      another handler of the same placement wrote a newer version. */
  lemma LoweredByOverlap(self: string, boards: seq<Board>, moves: seq<Move>, j: nat, id: string)
    returns (i: nat, k: nat)
    requires Run(self, boards, moves) && j < |moves| && forall m | m in moves && m.Read? :: Careful(m.event)
    ensures Lowers(boards[j].store, boards[j + 1].store, id) <==>
            && moves[j].Write? && moves[j].w in boards[j].busy && IdOf(boards[j].busy[moves[j].w].event) == id
            && var effect := WriteOf(self, boards[j], moves[j].w);
               effect.Put? && Newer(boards[j].store, id, effect.placement.opVersion)
    ensures Lowers(boards[j].store, boards[j + 1].store, id) ==>
            && i < k < j && moves[i] == Read(moves[j].w, boards[j].busy[moves[j].w].event)
            && moves[k].Write? && moves[k].w != moves[j].w
            && moves[k].w in boards[k].busy && IdOf(boards[k].busy[moves[k].w].event) == id
            && var v := WriteOf(self, boards[j], moves[j].w).placement.opVersion;
               !Newer(boards[k].store, id, v) && Newer(boards[k + 1].store, id, v)
  {
    i, k := 0, 0;
    LowersIff(self, boards[j], moves[j], id);
    if moves[j].Write? && IdOf(boards[j].busy[moves[j].w].event) == id {
      var w, effect := moves[j].w, WriteOf(self, boards[j], moves[j].w);
      var task := boards[j].busy[w];
      i := ReadBefore(self, boards, moves, j, w);
      assert Careful(moves[i].event);
      if task.read.Some? { WritesNoLess(self, task.event, task.read); }
      if effect == Delete && task.read.None? { DeletesNothingUnread(self, task.event); }
      if effect.Put? && Newer(boards[j].store, id, effect.placement.opVersion) {
        k := Crossing(self, boards, moves, i, j, id, effect.placement.opVersion);
      }
    }
  }

  lemma DeletesNothingUnread(self: string, e: Event)
    ensures EffectOf(self, e, None) != Delete
  {
  }

  /** Every two commands or items for one placement that would both be written have such a schedule: both
      read, the newer is written, then the older over it. One after the other, the older would be skipped. */
  lemma OverlappingHandlersLoseUpdates(self: string, store: Store, older: Event, newer: Event)
    requires IdOf(older) == IdOf(newer) && Carried(older).Some? && Carried(newer).Some?
    requires Carried(older).value.opVersion < Carried(newer).value.opVersion
    requires EffectOf(self, older, Lookup(store, IdOf(older))).Put? && EffectOf(self, newer, Lookup(store, IdOf(older))).Put?
    requires EffectOf(self, older, Lookup(store, IdOf(older))).placement.opVersion == Carried(older).value.opVersion
    requires EffectOf(self, newer, Lookup(store, IdOf(older))).placement.opVersion == Carried(newer).value.opVersion
    ensures var id := IdOf(older);
            var moves := [Read(0, older), Read(1, newer), Write(1), Write(0)];
            var read := Moved(self, Moved(self, Board(store, map[]), moves[0]), moves[1]);
            && Enabled(read, Write(1))
            && var first := Moved(self, read, Write(1));
            && Enabled(first, Write(0))
            && Lowers(first.store, Moved(self, first, Write(0)).store, id)
            && Step(self, first.store, older) == first.store
  {
    var id := IdOf(older);
    var read := Moved(self, Moved(self, Board(store, map[]), Read(0, older)), Read(1, newer));
    assert read.busy[0] == Task(older, Lookup(store, id)) && read.busy[1] == Task(newer, Lookup(store, id));
    var first := Moved(self, read, Write(1));
    LowersIff(self, first, Write(0), id);
    UndisturbedIsAtomic(self, first.store, older, Lookup(first.store, id));
  }
}
