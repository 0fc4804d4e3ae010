/** Traffic accounting: per-tick byte deltas of live connections, summed per backend. */
module Traffic {
  import opened Domain
  import opened Order
  import opened Tags

  datatype Conn = Conn(id: string, chains: seq<string>, up: nat, down: nat)

  datatype Counters = Counters(up: nat, down: nat)

  datatype Direction = Up | Down

  function BytesOf(c: Counters, dir: Direction): nat {
    if dir == Up then c.up else c.down
  }

  /** The backend named by the first tag of the chain that parses, or none. */
  function Pick(chains: seq<string>): string {
    if chains == [] then ""
    else if ParseTag(chains[0]).Some? then ParseTag(chains[0]).value.1
    else Pick(chains[1..])
  }

  method PickBackendId(chains: seq<string>) returns (backend: string)
    ensures backend == Pick(chains)
  {
    for i := 0 to |chains|
      invariant Pick(chains) == Pick(chains[i..])
    {
      var parsed := ParseTag(chains[i]);
      if parsed.Some? { return parsed.value.1; }
      assert chains[i..][1..] == chains[i + 1..];
    }
    return "";
  }

  /** A connection is booked on the backend of the first tag of its chain that parses: behind tags that do
      not, a printed tag of UUID-shaped ids gives its backend. */
  lemma {:induction false} PicksPrinted(chains: seq<string>, i: nat, client: string, backend: string)
    requires i < |chains| && chains[i] == OutboundTag(client, backend) && Hyphens(client) == 4 && Hyphens(backend) == 4
    requires forall j | 0 <= j < i :: ParseTag(chains[j]).None?
    ensures Pick(chains) == Lower(backend)
  {
    if i == 0 {
      PrintParse(client, backend);
    } else {
      PicksPrinted(chains[1..], i - 1, client, backend);
    }
  }

  lemma {:induction false} PicksNothing(chains: seq<string>)
    requires forall tag | tag in chains :: ParseTag(tag).None?
    ensures Pick(chains) == ""
  {
    if chains != [] { PicksNothing(chains[1..]); }
  }

  type Memory = map<string, Counters>

  /** What a connection moved since it was last seen; nothing for a new one or one whose counter fell. */
  function Delta(last: Memory, c: Conn, dir: Direction): nat {
    var now := BytesOf(Counters(c.up, c.down), dir);
    if c.id in last && now >= BytesOf(last[c.id], dir) then now - BytesOf(last[c.id], dir) else 0
  }

  /** The bytes a tick books on a backend. */
  function Booked(last: Memory, conns: seq<Conn>, backend: string, dir: Direction): nat {
    if conns == [] then 0
    else
      var c := conns[|conns| - 1];
      Booked(last, conns[..|conns| - 1], backend, dir) + (if Pick(c.chains) == backend then Delta(last, c, dir) else 0)
  }

  function Remembered(conns: seq<Conn>): Memory {
    if conns == [] then map[]
    else
      var front, c := Remembered(conns[..|conns| - 1]), conns[|conns| - 1];
      if Pick(c.chains) == "" then front else front[c.id := Counters(c.up, c.down)]
  }

  function Sessions(conns: seq<Conn>, backend: string): nat {
    if conns == [] then 0
    else Sessions(conns[..|conns| - 1], backend) + (if Pick(conns[|conns| - 1].chains) == backend then 1 else 0)
  }

  function At(m: map<string, nat>, k: string): nat {
    if k in m then m[k] else 0
  }

  datatype Report = Report(bytesIn: map<string, nat>, bytesOut: map<string, nat>, active: map<string, nat>)

  /** The report of a tick: per backend the bytes booked in each direction and the live connections. */
  ghost predicate Reports(r: Report, last: Memory, conns: seq<Conn>) {
    forall b | b != "" :: && At(r.bytesOut, b) == Booked(last, conns, b, Up)
                          && At(r.bytesIn, b) == Booked(last, conns, b, Down)
                          && At(r.active, b) == Sessions(conns, b)
  }

  class Publisher {
    var lastConn: Memory
    var published: seq<Report>

    constructor ()
      ensures lastConn == map[] && published == []
    {
      lastConn, published := map[], [];
    }

    /** One tick over the reported connections. The memory is replaced before the report is published, so
        a failed publication is not made up for later. */
    method Tick(conns: seq<Conn>, fetchOk: bool, publishOk: bool) returns (ok: bool, r: Report)
      modifies this
      ensures !fetchOk ==> !ok && unchanged(this)
      ensures fetchOk ==> lastConn == Remembered(conns) && Reports(r, old(lastConn), conns)
      ensures fetchOk ==> (ok <==> r.active == map[] || publishOk)
      ensures fetchOk ==> published == old(published) + if r.active != map[] && publishOk then [r] else []
    {
      r := Report(map[], map[], map[]);
      if !fetchOk { return false, r; }
      var cur;
      r, cur := Account(conns);
      lastConn := cur;
      if r.active == map[] { return true, r; }
      if !publishOk { return false, r; }
      published := published + [r];
      ok := true;
    }

    /** The ticker loop: what a new publisher has published after any firings are, for every backend, the bytes
        booked by the ticks whose report went out. */
    method Run(firings: seq<Firing>)
      requires lastConn == map[] && published == []
      modifies this
      ensures forall b, dir | b != "" ::
                InReports(published, b, dir) == Delivered(TicksOf(firings), SentOf(firings), b, dir)
    {
      for i := 0 to |firings|
        invariant var ticks := TicksOf(firings[..i]);
                  lastConn == if ticks == [] then map[] else Remembered(ticks[|ticks| - 1])
        invariant forall b, dir | b != "" ::
                    InReports(published, b, dir) == Delivered(TicksOf(firings[..i]), SentOf(firings[..i]), b, dir)
      {
        var f := firings[i];
        ghost var ticks, sent, before, last := TicksOf(firings[..i]), SentOf(firings[..i]), published, lastConn;
        assert firings[..i + 1][..i] == firings[..i];
        if f.conns.None? {
          var _, _ := Tick([], false, f.publishOk);
        } else {
          var _, r := Tick(f.conns.value, true, f.publishOk);
          assert TicksOf(firings[..i + 1]) == ticks + [f.conns.value] && SentOf(firings[..i + 1]) == sent + [f.publishOk];
          forall b, dir | b != ""
            ensures InReports(published, b, dir) == Delivered(ticks + [f.conns.value], sent + [f.publishOk], b, dir)
          {
            TickDelivers(ticks, sent, before, f.conns.value, f.publishOk, last, r, b, dir);
          }
        }
      }
      assert firings[..|firings|] == firings;
    }

    /** The loop of a tick. */
    method Account(conns: seq<Conn>) returns (r: Report, cur: Memory)
      ensures cur == Remembered(conns) && Reports(r, lastConn, conns)
    {
      r, cur := Report(map[], map[], map[]), map[];
      for i := 0 to |conns|
        invariant cur == Remembered(conns[..i]) && Reports(r, lastConn, conns[..i])
      {
        var c := conns[i];
        assert conns[..i + 1][..i] == conns[..i];
        var backend := PickBackendId(c.chains);
        if backend == "" { continue; }
        ghost var before := r;
        var up, down := Delta(lastConn, c, Up), Delta(lastConn, c, Down);
        if up > 0 { r := r.(bytesOut := r.bytesOut[backend := At(r.bytesOut, backend) + up]); }
        if down > 0 { r := r.(bytesIn := r.bytesIn[backend := At(r.bytesIn, backend) + down]); }
        r := r.(active := r.active[backend := At(r.active, backend) + 1]);
        cur := cur[c.id := Counters(c.up, c.down)];
        forall b | b != ""
          ensures && At(r.bytesOut, b) == Booked(lastConn, conns[..i + 1], b, Up)
                  && At(r.bytesIn, b) == Booked(lastConn, conns[..i + 1], b, Down)
                  && At(r.active, b) == Sessions(conns[..i + 1], b)
        {
          assert At(before.active, b) == Sessions(conns[..i], b);
        }
      }
      assert conns[..|conns|] == conns;
    }
  }

  /** A tick over one connection that was seen before: its upload growth goes out, its download growth comes
      in, and its backend has one session. */
  lemma OneConnection(r: Report, id: string, was: Counters, chains: seq<string>, up: nat, down: nat)
    requires Pick(chains) != "" && up >= was.up && down >= was.down
    requires Reports(r, map[id := was], [Conn(id, chains, up, down)])
    ensures At(r.bytesOut, Pick(chains)) == up - was.up
    ensures At(r.bytesIn, Pick(chains)) == down - was.down
    ensures At(r.active, Pick(chains)) == 1
  {
    var c, last, b := Conn(id, chains, up, down), map[id := was], Pick(chains);
    assert [c][..0] == [];
    assert forall dir :: Booked(last, [c], b, dir) == Booked(last, [], b, dir) + Delta(last, c, dir);
    assert Sessions([c], b) == Sessions([], b) + 1;
  }

  /** Sessions are counted one per connection of the backend. */
  lemma {:induction false} SessionsCount(conns: seq<Conn>, backend: string)
    ensures Sessions(conns, backend) == |Filter(conns, (c: Conn) => Pick(c.chains) == backend)|
  {
    if conns != [] { SessionsCount(conns[..|conns| - 1], backend); }
  }

  // Over many ticks.

  type Ticks = seq<seq<Conn>>

  function MemoryBefore(ticks: Ticks, i: nat): Memory
    requires i < |ticks|
  {
    if i == 0 then map[] else Remembered(ticks[i - 1])
  }

  /** The bytes tick i books on a backend. */
  function BookedAt(ticks: Ticks, i: nat, backend: string, dir: Direction): nat
    requires i < |ticks|
  {
    Booked(MemoryBefore(ticks, i), ticks[i], backend, dir)
  }

  /** The bytes booked on a backend over all ticks. */
  function Total(ticks: Ticks, backend: string, dir: Direction): nat {
    if ticks == [] then 0
    else
      var n := |ticks| - 1;
      Total(ticks[..n], backend, dir) + BookedAt(ticks, n, backend, dir)
  }

  /** A connection's counter in a report. */
  function Counter(conns: seq<Conn>, id: string, dir: Direction): Option<nat> {
    if id in Remembered(conns) then Some(BytesOf(Remembered(conns)[id], dir)) else None
  }

  predicate UniqueIds(conns: seq<Conn>) {
    forall i, j | 0 <= i < j < |conns| :: conns[i].id != conns[j].id
  }

  /** The bytes booked for one connection in one tick. */
  function BookedFor(last: Memory, conns: seq<Conn>, id: string, dir: Direction): nat {
    if conns == [] then 0
    else
      var c := conns[|conns| - 1];
      BookedFor(last, conns[..|conns| - 1], id, dir) + (if c.id == id && Pick(c.chains) != "" then Delta(last, c, dir) else 0)
  }

  function TotalFor(ticks: Ticks, id: string, dir: Direction): nat {
    if ticks == [] then 0
    else
      var n := |ticks| - 1;
      TotalFor(ticks[..n], id, dir) + BookedFor(MemoryBefore(ticks, n), ticks[n], id, dir)
  }

  // One connection: the deltas of consecutive sightings telescope.

  function SeenAt(ticks: Ticks, i: int, id: string, dir: Direction): Option<nat> {
    if 0 <= i < |ticks| then Counter(ticks[i], id, dir) else None
  }

  /** Tick n continues the run of tick n - 1: both report the connection and its counter did not fall. */
  predicate Continues(ticks: Ticks, n: int, id: string, dir: Direction) {
    var before, now := SeenAt(ticks, n - 1, id, dir), SeenAt(ticks, n, id, dir);
    before.Some? && now.Some? && before.value <= now.value
  }

  /** The sum of a connection's counters at the first tick of each maximal run. */
  function RunStarts(ticks: Ticks, id: string, dir: Direction): nat {
    if ticks == [] then 0
    else
      var n := |ticks| - 1;
      var now := SeenAt(ticks, n, id, dir);
      RunStarts(ticks[..n], id, dir) + (if now.Some? && !Continues(ticks, n, id, dir) then now.value else 0)
  }

  /** The sum of its counters at the last tick of each run that ended before the final tick. */
  function EndedRuns(ticks: Ticks, id: string, dir: Direction): nat {
    if ticks == [] then 0
    else
      var n := |ticks| - 1;
      var before := SeenAt(ticks, n - 1, id, dir);
      EndedRuns(ticks[..n], id, dir) + (if before.Some? && !Continues(ticks, n, id, dir) then before.value else 0)
  }

  /** Its counter at the final tick, if a run reaches it. */
  function OpenRun(ticks: Ticks, id: string, dir: Direction): nat {
    var now := SeenAt(ticks, |ticks| - 1, id, dir);
    if now.Some? then now.value else 0
  }

  lemma {:induction false} AbsentConn(last: Memory, conns: seq<Conn>, id: string, dir: Direction)
    requires forall c | c in conns :: c.id != id
    ensures BookedFor(last, conns, id, dir) == 0 && id !in Remembered(conns)
  {
    if conns != [] { AbsentConn(last, conns[..|conns| - 1], id, dir); }
  }

  /** With unique ids a tick books, for a connection, the growth of its counter. */
  lemma {:induction false} BookedIsGrowth(last: Memory, conns: seq<Conn>, id: string, dir: Direction)
    requires UniqueIds(conns)
    ensures var now := Counter(conns, id, dir);
            BookedFor(last, conns, id, dir)
            == if now.Some? && id in last && now.value >= BytesOf(last[id], dir) then now.value - BytesOf(last[id], dir) else 0
  {
    if conns != [] {
      var front, c := conns[..|conns| - 1], conns[|conns| - 1];
      if c.id == id {
        AbsentConn(last, front, id, dir);
      } else {
        BookedIsGrowth(last, front, id, dir);
      }
    }
  }

  /** A tick books the difference to the previous tick if it continues a run, and nothing otherwise. */
  lemma TickBooks(ticks: Ticks, n: nat, id: string, dir: Direction)
    requires n < |ticks| && UniqueIds(ticks[n])
    ensures BookedFor(MemoryBefore(ticks, n), ticks[n], id, dir)
            == if Continues(ticks, n, id, dir) then SeenAt(ticks, n, id, dir).value - SeenAt(ticks, n - 1, id, dir).value
               else 0
  {
    BookedIsGrowth(MemoryBefore(ticks, n), ticks[n], id, dir);
  }

  /** Telescoping for one connection: the bytes booked are last minus first, over each maximal run of
      consecutive ticks that report the connection with a counter that does not fall; none is counted
      twice. */
  lemma {:induction false} ConnectionTelescopes(ticks: Ticks, id: string, dir: Direction)
    requires forall t | t in ticks :: UniqueIds(t)
    ensures TotalFor(ticks, id, dir) + RunStarts(ticks, id, dir) == EndedRuns(ticks, id, dir) + OpenRun(ticks, id, dir)
  {
    if ticks != [] {
      var n := |ticks| - 1;
      var front := ticks[..n];
      assert forall i | i < n :: SeenAt(front, i, id, dir) == SeenAt(ticks, i, id, dir);
      ConnectionTelescopes(front, id, dir);
      assert ticks[n] in ticks;
      TickBooks(ticks, n, id, dir);
    }
  }

  // All connections of a backend.

  function Sum(ids: seq<string>, f: string -> nat): nat {
    if ids == [] then 0 else Sum(ids[..|ids| - 1], f) + f(ids[|ids| - 1])
  }

  lemma {:induction false} SumAdd(ids: seq<string>, f: string -> nat, g: string -> nat, h: string -> nat)
    requires forall id | id in ids :: h(id) == f(id) + g(id)
    ensures Sum(ids, h) == Sum(ids, f) + Sum(ids, g)
  {
    if ids != [] { SumAdd(ids[..|ids| - 1], f, g, h); }
  }

  lemma {:induction false} SumOne(ids: seq<string>, k: string, v: nat, f: string -> nat)
    requires Distinct(ids) && forall id | id in ids :: f(id) == if id == k then v else 0
    ensures Sum(ids, f) == if k in ids then v else 0
  {
    if ids != [] {
      var front, last := ids[..|ids| - 1], ids[|ids| - 1];
      assert ids == front + [last];
      SumOne(front, k, v, f);
    }
  }

  /** These are the connections of the backend: each connection's chain names one backend throughout. */
  predicate Attributed(conns: seq<Conn>, ids: seq<string>, backend: string) {
    forall c | c in conns && Pick(c.chains) != "" :: Pick(c.chains) == backend <==> c.id in ids
  }

  lemma {:induction false} BookedBySum(last: Memory, conns: seq<Conn>, ids: seq<string>, backend: string, dir: Direction)
    requires Distinct(ids) && backend != "" && Attributed(conns, ids, backend)
    ensures Booked(last, conns, backend, dir) == Sum(ids, id => BookedFor(last, conns, id, dir))
  {
    if conns == [] {
      SumOne(ids, "", 0, id => BookedFor(last, conns, id, dir));
    } else {
      var front, c := conns[..|conns| - 1], conns[|conns| - 1];
      BookedBySum(last, front, ids, backend, dir);
      var v := if Pick(c.chains) != "" then Delta(last, c, dir) else 0;
      SumOne(ids, c.id, v, id => if id == c.id then v else 0);
      SumAdd(ids, id => BookedFor(last, front, id, dir), id => if id == c.id then v else 0, id => BookedFor(last, conns, id, dir));
    }
  }

  lemma {:induction false} TotalBySum(ticks: Ticks, ids: seq<string>, backend: string, dir: Direction)
    requires Distinct(ids) && backend != "" && forall t | t in ticks :: Attributed(t, ids, backend)
    ensures Total(ticks, backend, dir) == Sum(ids, id => TotalFor(ticks, id, dir))
  {
    if ticks == [] {
      SumOne(ids, "", 0, id => TotalFor(ticks, id, dir));
    } else {
      var n := |ticks| - 1;
      var front, last := ticks[..n], MemoryBefore(ticks, n);
      assert ticks[n] in ticks;
      TotalBySum(front, ids, backend, dir);
      BookedBySum(last, ticks[n], ids, backend, dir);
      SumAdd(ids, id => TotalFor(front, id, dir), id => BookedFor(last, ticks[n], id, dir), id => TotalFor(ticks, id, dir));
    }
  }

  /** Traffic telescopes: over any ticks with unique connection ids and one backend per connection, the
      bytes booked on a backend are, summed over its connections and over each connection's maximal runs,
      the last counter minus the first. */
  lemma TrafficTelescopes(ticks: Ticks, ids: seq<string>, backend: string, dir: Direction)
    requires Distinct(ids) && backend != ""
    requires forall t | t in ticks :: UniqueIds(t) && Attributed(t, ids, backend)
    ensures Total(ticks, backend, dir) + Sum(ids, id => RunStarts(ticks, id, dir))
            == Sum(ids, id => EndedRuns(ticks, id, dir) + OpenRun(ticks, id, dir))
  {
    TotalBySum(ticks, ids, backend, dir);
    forall id | id in ids
      ensures EndedRuns(ticks, id, dir) + OpenRun(ticks, id, dir) == TotalFor(ticks, id, dir) + RunStarts(ticks, id, dir)
    {
      ConnectionTelescopes(ticks, id, dir);
    }
    SumAdd(ids, id => TotalFor(ticks, id, dir), id => RunStarts(ticks, id, dir),
           id => EndedRuns(ticks, id, dir) + OpenRun(ticks, id, dir));
  }

  // What reaches the subscribers.

  /** One firing of the ticker: the connections reported, if they could be fetched, and whether the report
      goes out. */
  datatype Firing = Firing(conns: Option<seq<Conn>>, publishOk: bool)

  /** The ticks of the firings whose connections could be fetched. */
  function TicksOf(firings: seq<Firing>): Ticks {
    if firings == [] then []
    else
      var front, last := TicksOf(firings[..|firings| - 1]), firings[|firings| - 1];
      if last.conns.Some? then front + [last.conns.value] else front
  }

  function SentOf(firings: seq<Firing>): (r: seq<bool>)
    ensures |r| == |TicksOf(firings)|
  {
    if firings == [] then []
    else
      var front, last := SentOf(firings[..|firings| - 1]), firings[|firings| - 1];
      if last.conns.Some? then front + [last.publishOk] else front
  }

  /** The bytes some reports give a backend. */
  function InReports(reports: seq<Report>, backend: string, dir: Direction): nat {
    if reports == [] then 0
    else
      var last := reports[|reports| - 1];
      InReports(reports[..|reports| - 1], backend, dir)
      + At(if dir == Up then last.bytesOut else last.bytesIn, backend)
  }

  /** The bytes booked on a backend by the ticks whose report went out. */
  function Delivered(ticks: Ticks, sent: seq<bool>, backend: string, dir: Direction): nat
    requires |sent| == |ticks|
  {
    if ticks == [] then 0
    else
      var n := |ticks| - 1;
      Delivered(ticks[..n], sent[..n], backend, dir)
      + (if sent[n] then BookedAt(ticks, n, backend, dir) else 0)
  }

  lemma {:induction false} NoSessionsNothingBooked(last: Memory, conns: seq<Conn>, backend: string, dir: Direction)
    requires Sessions(conns, backend) == 0
    ensures Booked(last, conns, backend, dir) == 0
  {
    if conns != [] { NoSessionsNothingBooked(last, conns[..|conns| - 1], backend, dir); }
  }

  lemma DeliveredSnoc(ticks: Ticks, sent: seq<bool>, conns: seq<Conn>, ok: bool, backend: string, dir: Direction)
    requires |sent| == |ticks|
    ensures Delivered(ticks + [conns], sent + [ok], backend, dir)
            == Delivered(ticks, sent, backend, dir)
               + (if ok then Booked(if ticks == [] then map[] else Remembered(ticks[|ticks| - 1]), conns, backend, dir) else 0)
  {
    var all := ticks + [conns];
    assert all[..|ticks|] == ticks && (sent + [ok])[..|ticks|] == sent;
    assert all[|ticks|] == conns;
  }

  lemma InReportsSnoc(reports: seq<Report>, r: Report, backend: string, dir: Direction)
    ensures InReports(reports + [r], backend, dir)
            == InReports(reports, backend, dir) + At(if dir == Up then r.bytesOut else r.bytesIn, backend)
  {
    assert (reports + [r])[..|reports|] == reports;
  }

  /** What one more tick adds to the published reports is what it adds to the delivered bytes. */
  lemma TickDelivers(ticks: Ticks, sent: seq<bool>, published: seq<Report>, conns: seq<Conn>, ok: bool, last: Memory, r: Report,
                     backend: string, dir: Direction)
    requires |sent| == |ticks| && backend != "" && last == (if ticks == [] then map[] else Remembered(ticks[|ticks| - 1]))
    requires InReports(published, backend, dir) == Delivered(ticks, sent, backend, dir) && Reports(r, last, conns)
    ensures InReports(published + if r.active != map[] && ok then [r] else [], backend, dir)
            == Delivered(ticks + [conns], sent + [ok], backend, dir)
  {
    DeliveredSnoc(ticks, sent, conns, ok, backend, dir);
    InReportsSnoc(published, r, backend, dir);
    assert published + [] == published;
    if r.active == map[] {
      assert At(r.active, backend) == 0;
      NoSessionsNothingBooked(last, conns, backend, dir);
    }
  }

  /** Every byte booked is delivered if and only if no tick whose publication failed had booked any:
      a later tick never makes up for a failed one. */
  lemma {:induction false} DeliveredIff(ticks: Ticks, sent: seq<bool>, backend: string, dir: Direction)
    requires |sent| == |ticks|
    ensures Delivered(ticks, sent, backend, dir) <= Total(ticks, backend, dir)
    ensures Delivered(ticks, sent, backend, dir) == Total(ticks, backend, dir)
            <==> forall i | 0 <= i < |ticks| && !sent[i] :: BookedAt(ticks, i, backend, dir) == 0
  {
    if ticks != [] {
      var n := |ticks| - 1;
      var front := ticks[..n];
      DeliveredIff(front, sent[..n], backend, dir);
      assert forall i | 0 <= i < n :: BookedAt(front, i, backend, dir) == BookedAt(ticks, i, backend, dir);
    }
  }
}
