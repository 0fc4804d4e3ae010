/** Handling one placement command: skip what is stale or already done, execute, persist, report. */
module Applier {
  import opened Domain

  datatype Command = Command(node: string, placement: Placement)

  datatype ExecResult = Succeeded | Retryable(error: string) | Fatal(error: string)

  /** What an executor left in the store under its own placement, and how it ended. */
  datatype ExecRun = ExecRun(own: Option<Placement>, result: ExecResult)

  /** One delivery of a message together with how the calls made for it turn out. `run` is the
      executor: it sees and touches no placement but its own. */
  datatype Delivery = Delivery(
    seqNo: nat,
    command: Option<Command>,
    getOk: bool,
    run: Option<Placement> -> ExecRun,
    putOk: bool,
    publishOk: bool)

  datatype Status = SkippedStale | SkippedIdempotent | Done | Error

  datatype Report = Report(id: string, version: nat, applied: AppliedState, status: Status)

  /** A delivery is acknowledged, possibly after a report, or negatively acknowledged. */
  datatype Verdict = Ack(report: Option<Report>) | Nak(report: Option<Report>)

  function Lookup(store: Store, id: string): Option<Placement> {
    if id in store then Some(store[id]) else None
  }

  function Assign(store: Store, id: string, own: Option<Placement>): Store {
    if own.Some? then store[id := own.value] else store - {id}
  }

  predicate IsStale(existing: Option<Placement>, p: Placement) {
    existing.Some? && existing.value.opVersion > p.opVersion
  }

  predicate IsIdempotent(existing: Option<Placement>, p: Placement) {
    && existing.Some?
    && existing.value.opVersion == p.opVersion
    && existing.value.applied == Applied
    && existing.value.desired == p.desired
    && existing.value.backendId == p.backendId
  }

  /** What handling does to the command's own placement. */
  function Outcome(existing: Option<Placement>, p: Placement, d: Delivery): Option<Placement> {
    if !d.getOk || IsStale(existing, p) || IsIdempotent(existing, p) then existing
    else
      var run := d.run(existing);
      match run.result
      case Retryable(_) => run.own
      case Fatal(_) => if d.putOk then Some(p.(applied := Failed)) else run.own
      case Succeeded => if d.putOk then Some(p.(applied := Applied)) else run.own
  }

  function Reported(existing: Option<Placement>, p: Placement, d: Delivery): Option<Report> {
    if !d.getOk then None
    else if IsStale(existing, p) then Some(Report(p.id, p.opVersion, existing.value.applied, SkippedStale))
    else if IsIdempotent(existing, p) then Some(Report(p.id, p.opVersion, Applied, SkippedIdempotent))
    else
      match d.run(existing).result
      case Retryable(_) => None
      case Fatal(_) => Some(Report(p.id, p.opVersion, Failed, Error))
      case Succeeded => if d.putOk then Some(Report(p.id, p.opVersion, Applied, Done)) else None
  }

  predicate Addressed(self: string, d: Delivery) {
    d.command.Some? && d.command.value.node == self
  }

  /** The store after one delivery. */
  function Handled(self: string, store: Store, d: Delivery): Store {
    if !Addressed(self, d) then store
    else
      var p := d.command.value.placement;
      Assign(store, p.id, Outcome(Lookup(store, p.id), p, d))
  }

  /** The executor neither removes its placement nor sets it back to an earlier version. */
  ghost predicate KeepsOwn(d: Delivery) {
    forall own: Option<Placement> :: own.Some? ==>
      d.run(own).own.Some? && d.run(own).own.value.opVersion >= own.value.opVersion
  }

  class Applier {
    const self: string
    var store: Store
    var received: nat
    var applied: nat
    var failed: nat
    var reports: seq<Report>

    constructor (self: string, store: Store)
      ensures this.self == self && this.store == store && reports == [] && received == applied == failed == 0
    {
      this.self, this.store := self, store;
      received, applied, failed, reports := 0, 0, 0, [];
    }

    method PublishReport(report: Report, publishOk: bool) returns (v: Verdict)
      modifies this`reports
      ensures v == if publishOk then Ack(Some(report)) else Nak(Some(report))
      ensures reports == if publishOk then old(reports) + [report] else old(reports)
    {
      if !publishOk { return Nak(Some(report)); }
      reports := reports + [report];
      v := Ack(Some(report));
    }

    /** Handles one delivery. Its report reflects what is stored, and it is acknowledged exactly when it
        was meant for another node or its report was published. */
    method Handle(d: Delivery) returns (v: Verdict)
      modifies this
      ensures store == Handled(self, old(store), d)
      ensures Addressed(self, d) ==>
                && var p := d.command.value.placement;
                && var r := Reported(Lookup(old(store), p.id), p, d);
                && received == old(received) + 1
                && applied == old(applied) + (if r.Some? && r.value.status == Done then 1 else 0)
                && failed == old(failed) + (if r.Some? && r.value.status == Error then 1 else 0)
                && reports == (if r.Some? && d.publishOk then old(reports) + [r.value] else old(reports))
                && v == (if r.Some? && d.publishOk then Ack(r) else Nak(r))
      ensures !Addressed(self, d) ==>
                && v == (if d.command.None? then Nak(None) else Ack(None))
                && received == old(received) && applied == old(applied) && failed == old(failed) && reports == old(reports)
    {
      if d.command.None? { return Nak(None); }
      var cmd := d.command.value;
      if cmd.node != self { return Ack(None); }
      var p := cmd.placement;
      received := received + 1;
      if !d.getOk {
        assert Assign(store, p.id, Lookup(store, p.id)) == store;
        return Nak(None);
      }
      var existing := Lookup(store, p.id);
      assert Assign(store, p.id, existing) == store;
      if existing.Some? && existing.value.opVersion > p.opVersion {
        v := PublishReport(Report(p.id, p.opVersion, existing.value.applied, SkippedStale), d.publishOk);
        return;
      }
      if IsIdempotent(existing, p) {
        v := PublishReport(Report(p.id, p.opVersion, existing.value.applied, SkippedIdempotent), d.publishOk);
        return;
      }
      var run := d.run(existing);
      store := Assign(store, p.id, run.own);
      if run.result.Retryable? { return Nak(None); }
      if run.result.Fatal? {
        if d.putOk { store := store[p.id := p.(applied := Failed)]; }
        failed := failed + 1;
        v := PublishReport(Report(p.id, p.opVersion, Failed, Error), d.publishOk);
        return;
      }
      if !d.putOk { return Nak(None); }
      store := store[p.id := p.(applied := Applied)];
      applied := applied + 1;
      v := PublishReport(Report(p.id, p.opVersion, Applied, Done), d.publishOk);
    }
  }

  // What reports tell.

  /** The executor is run for the delivery. */
  predicate Runs(existing: Option<Placement>, p: Placement, d: Delivery) {
    && d.getOk
    && (existing.Some? ==> existing.value.opVersion <= p.opVersion)
    && !(existing.Some? && existing.value.opVersion == p.opVersion && existing.value.applied == Applied
         && existing.value.desired == p.desired && existing.value.backendId == p.backendId)
  }

  /** A report says what became of the command: skipped as stale exactly when a later version is stored, as
      idempotent exactly when this version is stored as applied with the same state and backend, done exactly
      when the executor ran, succeeded and was persisted, and an error exactly when it ran and ended fatally.
      There is none when the store cannot be read, the error may pass, or a success could not be persisted. */
  lemma ReportTells(existing: Option<Placement>, p: Placement, d: Delivery)
    ensures var r := Reported(existing, p, d);
            && (r.Some? ==> r.value.id == p.id && r.value.version == p.opVersion)
            && (r.Some? && r.value.status == SkippedStale <==>
                d.getOk && existing.Some? && existing.value.opVersion > p.opVersion)
            && (r.Some? && r.value.status == SkippedIdempotent <==>
                d.getOk && existing.Some? && existing.value.opVersion == p.opVersion && existing.value.applied == Applied
                && existing.value.desired == p.desired && existing.value.backendId == p.backendId)
            && (r.Some? && r.value.status == Done <==> Runs(existing, p, d) && d.run(existing).result == Succeeded && d.putOk)
            && (r.Some? && r.value.status == Error <==> Runs(existing, p, d) && d.run(existing).result.Fatal?)
  {
  }

  /** What the command's placement is afterwards: as the executor left it when nothing more is written, and
      otherwise the command itself, applied or failed as the executor ended. */
  lemma OutcomeTells(existing: Option<Placement>, p: Placement, d: Delivery)
    ensures var after := Outcome(existing, p, d);
            if !Runs(existing, p, d) then after == existing
            else if d.run(existing).result.Retryable? || !d.putOk then after == d.run(existing).own
            else after == Some(p.(applied := if d.run(existing).result.Succeeded? then Applied else Failed))
  {
  }

  /** A report's applied state is the stored one, unless a failure could not be written. */
  lemma ReportReflectsStore(self: string, store: Store, d: Delivery)
    requires Addressed(self, d)
    ensures var p := d.command.value.placement;
            var existing, after := Lookup(store, p.id), Lookup(Handled(self, store, d), p.id);
            var r := Reported(existing, p, d);
            r.Some? && (d.putOk || r.value.status != Error) ==> after.Some? && r.value.applied == after.value.applied
  {
  }
}
