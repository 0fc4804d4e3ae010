/** The render coalescer: requests are batched, one flush serves a batch, each request is answered once. */
module Coalescer {
  import opened Domain
  import opened Order
  import opened Config
  import opened Build
  import opened EntrySpec
  import opened EntryRuns
  import Actions = EntryActions

  datatype Request = Request(ticket: nat, overlay: Option<Placement>)

  /** What the select loop wakes up for. */
  datatype Wake = Arrived(request: Request, env: Env) | TimerFired(env: Env) | Cancelled

  datatype Answer = Answer(ticket: nat, ok: bool)

  function Asked(requests: seq<Request>): seq<Option<Placement>> {
    seq(|requests|, i requires 0 <= i < |requests| => requests[i].overlay)
  }

  function Tickets(requests: seq<Request>): seq<nat> {
    seq(|requests|, i requires 0 <= i < |requests| => requests[i].ticket)
  }

  function Answered(answers: seq<Answer>): seq<nat> {
    seq(|answers|, i requires 0 <= i < |answers| => answers[i].ticket)
  }

  class RenderCoalescer {
    const actions: Actions.EntryActions
    const maxBatch: nat
    var pending: seq<Request>
    var overlays: Store
    var armed: bool
    var answers: seq<Answer>

    constructor (actions: Actions.EntryActions, maxBatch: nat)
      requires WellKeyed(actions.store)
      ensures Valid() && pending == [] && answers == [] && this.actions == actions
      ensures this.maxBatch == if maxBatch == 0 then 256 else maxBatch
    {
      this.actions := actions;
      this.maxBatch := if maxBatch == 0 then 256 else maxBatch;
      pending, overlays, armed, answers := [], map[], false, [];
    }

    /** A batch is never full between wake-ups, and the debounce timer runs exactly while requests wait. */
    ghost predicate Valid()
      reads this, actions
    {
      && |pending| < maxBatch
      && (armed <==> pending != [])
      && overlays == Overlays(Asked(pending))
      && WellKeyed(actions.store)
    }

    /** One flush answers the whole batch with its result and resets the batch and the timer. */
    method DoFlush(env: Env) returns (ok: bool)
      requires |pending| <= maxBatch && 0 < maxBatch && overlays == Overlays(Asked(pending)) && WellKeyed(actions.store)
      requires pending == [] ==> !armed
      modifies this, actions
      ensures Valid() && pending == []
      ensures Answered(answers) == old(Answered(answers)) + old(Tickets(pending))
      ensures old(pending) == [] ==> actions.View() == old(actions.View()) && answers == old(answers)
      ensures old(pending) != [] && OneOwner(old(actions.store) + old(overlays)) ==>
                FlushStep(actions.setup, old(actions.View()), Overlays(old(Asked(pending))), env, actions.View(), ok)
      ensures forall i | |old(answers)| <= i < |answers| :: answers[i].ok == ok
    {
      if |pending| == 0 {
        assert Tickets(pending) == [];
        return true;
      }
      OverlaysKeyed(Asked(pending));
      ok := actions.FlushBatch(overlays, env);
      AnswerAll(ok);
      pending, overlays, armed := [], map[], false;
      assert Asked(pending) == [];
    }

    method AnswerAll(ok: bool)
      modifies this`answers
      ensures Answered(answers) == old(Answered(answers)) + Tickets(pending)
      ensures old(answers) <= answers
      ensures forall k | |old(answers)| <= k < |answers| :: answers[k].ok == ok
    {
      for i := 0 to |pending|
        modifies this`answers
        invariant old(answers) <= answers
        invariant Answered(answers) == old(Answered(answers)) + Tickets(pending[..i])
        invariant forall k | |old(answers)| <= k < |answers| :: answers[k].ok == ok
      {
        assert Tickets(pending[..i + 1]) == Tickets(pending[..i]) + [pending[i].ticket];
        assert Answered(answers + [Answer(pending[i].ticket, ok)]) == Answered(answers) + [pending[i].ticket];
        answers := answers + [Answer(pending[i].ticket, ok)];
      }
      assert pending[..|pending|] == pending;
    }

    /** A request joins the batch; a full batch is flushed at once, otherwise the timer is armed. */
    method Arrive(request: Request, env: Env)
      requires Valid()
      modifies this, actions
      ensures Valid()
      ensures Answered(answers) + Tickets(pending)
              == old(Answered(answers) + Tickets(pending)) + [request.ticket]
      ensures |old(pending)| + 1 < maxBatch ==>
                pending == old(pending) + [request] && answers == old(answers) && actions.View() == old(actions.View())
      ensures |old(pending)| + 1 >= maxBatch ==> pending == []
    {
      JoinBatch(pending, request);
      pending := pending + [request];
      if request.overlay.Some? { overlays := overlays[request.overlay.value.id := request.overlay.value]; }
      if |pending| >= maxBatch {
        var _ := DoFlush(env);
        assert Tickets([]) == [];
      } else if !armed {
        armed := true;
      }
    }

    /** The select loop, for any sequence of wake-ups: every request taken from the channel is answered
        exactly once or still waits, in the order taken, and cancellation leaves none waiting. */
    method Run(wakes: seq<Wake>) returns (taken: seq<nat>, cancelled: bool)
      requires Valid()
      modifies this, actions
      ensures |pending| < maxBatch
      ensures !cancelled ==> Valid() && Answered(answers) + Tickets(pending) == old(Answered(answers) + Tickets(pending)) + taken
      ensures cancelled ==> Answered(answers) == old(Answered(answers) + Tickets(pending)) + taken
      ensures !cancelled ==> taken == Arrivals(wakes)
      ensures cancelled <==> Cancelled in wakes
      ensures !cancelled && wakes != [] && wakes[|wakes| - 1].TimerFired? ==> pending == []
    {
      taken, cancelled := [], false;
      for i := 0 to |wakes|
        invariant Valid() && !cancelled
        invariant Answered(answers) + Tickets(pending) == old(Answered(answers) + Tickets(pending)) + taken
        invariant taken == Arrivals(wakes[..i]) && Cancelled !in wakes[..i]
        invariant i > 0 && wakes[i - 1].TimerFired? ==> pending == []
      {
        assert wakes[..i + 1][..i] == wakes[..i];
        match wakes[i]
        case Arrived(request, env) =>
          Arrive(request, env);
          taken := taken + [request.ticket];
        case TimerFired(env) =>
          if armed {
            var _ := DoFlush(env);
            assert Tickets(pending) == [];
          }
        case Cancelled =>
          AnswerAll(false);
          cancelled := true;
          return;
      }
      assert wakes[..|wakes|] == wakes;
    }
  }

  lemma JoinBatch(pending: seq<Request>, r: Request)
    ensures Tickets(pending + [r]) == Tickets(pending) + [r.ticket]
    ensures Overlays(Asked(pending + [r]))
            == if r.overlay.None? then Overlays(Asked(pending))
               else Overlays(Asked(pending))[r.overlay.value.id := r.overlay.value]
  {
    var asked := Asked(pending);
    assert Asked(pending + [r]) == asked + [r.overlay] && (asked + [r.overlay])[..|asked|] == asked;
  }

  function Arrivals(wakes: seq<Wake>): seq<nat> {
    if wakes == [] then []
    else
      var front, last := Arrivals(wakes[..|wakes| - 1]), wakes[|wakes| - 1];
      if last.Arrived? then front + [last.request.ticket] else front
  }

  lemma OverlaysKeyed(batch: seq<Option<Placement>>)
    ensures WellKeyed(Overlays(batch))
  {
    forall id | id in Overlays(batch) ensures Overlays(batch)[id].id == id { OverlayOf(batch, id); }
  }

  // What a flush achieves.

  ghost predicate HashSound(setup: Setup, node: Node) {
    node.lastHash.Some? ==> node.loaded.Some? && node.lastHash == Some(setup.hash(node.loaded.value))
  }

  /** The hash tells what a flush renders from what is loaded. */
  ghost predicate ToldApart(setup: Setup, node: Node, overlays: Store) {
    Separates(setup.hash, Compared(node, Rendering(setup, node.file, node.store + overlays)))
  }

  /** After a successful flush sing-box runs the rendering of the new store, with the selections made so far
      if it ran that already and with none if it had to reload; after one that failed before persisting
      nothing has changed but, possibly, the file. */
  lemma FlushLoadsRender(setup: Setup, node: Node, overlays: Store, env: Env, node': Node, ok: bool)
    requires ToldApart(setup, node, overlays) && HashSound(setup, node) && FlushStep(setup, node, overlays, env, node', ok)
    ensures HashSound(setup, node')
    ensures ok ==> && node'.store == node.store + overlays && node'.loaded.Some?
                   && node'.loaded == Rendering(setup, node.file, node'.store)
    ensures !ok && env.putFails * overlays.Keys == {} ==> node' == node.(file := node'.file)
    ensures ok ==> node'.overrides == if node.loaded == node'.loaded && node.lastHash.Some? then node.overrides else map[]
    ensures node.file.None? ==> node'.file.None?
  {
  }

  /** Each flushed on its own, with a hash that tells apart what each flush compares. */
  ghost predicate OneByOne(setup: Setup, batch: seq<Option<Placement>>, envs: seq<Env>, nodes: seq<Node>) {
    && |envs| == |batch| && |nodes| == |batch| + 1
    && forall i {:trigger envs[i]} | 0 <= i < |batch| ::
         && ToldApart(setup, nodes[i], Overlays([batch[i]]))
         && FlushStep(setup, nodes[i], Overlays([batch[i]]), envs[i], nodes[i + 1], true)
  }

  lemma OneMore(setup: Setup, batch: seq<Option<Placement>>, envs: seq<Env>, nodes: seq<Node>, i: nat)
    requires OneByOne(setup, batch, envs, nodes) && i < |batch| && HashSound(setup, nodes[i])
    ensures HashSound(setup, nodes[i + 1]) && nodes[i + 1].store == nodes[i].store + Overlays([batch[i]])
    ensures nodes[i + 1].loaded.Some? && nodes[i + 1].loaded == Rendering(setup, nodes[i].file, nodes[i + 1].store)
    ensures nodes[i].file.None? ==> nodes[i + 1].file.None?
  {
    FlushLoadsRender(setup, nodes[i], Overlays([batch[i]]), envs[i], nodes[i + 1], true);
  }

  lemma {:induction false} OneByOneStore(setup: Setup, batch: seq<Option<Placement>>, envs: seq<Env>, nodes: seq<Node>, n: nat)
    requires OneByOne(setup, batch, envs, nodes) && HashSound(setup, nodes[0]) && n <= |batch|
    ensures HashSound(setup, nodes[n]) && nodes[n].store == nodes[0].store + Overlays(batch[..n])
    ensures nodes[0].file.None? ==> nodes[n].file.None?
  {
    if n > 0 {
      OneByOneStore(setup, batch, envs, nodes, n - 1);
      OverlaysSnoc(nodes[0].store, batch[..n - 1], batch[n - 1]);
      assert batch[..n] == batch[..n - 1] + [batch[n - 1]];
      OneMore(setup, batch, envs, nodes, n - 1);
    }
  }

  lemma OverlaysSnoc(store: Store, front: seq<Option<Placement>>, last: Option<Placement>)
    ensures store + Overlays(front) + Overlays([last]) == store + Overlays(front + [last])
  {
    assert (front + [last])[..|front|] == front;
    assert [last][..0] == [] && Overlays([last]) == if last.None? then map[] else map[last.value.id := last.value];
  }

  /** Coalescing is invisible: whenever the requests of a batch would all succeed one by one, flushing
      them together can be rendered too, and once flushed leaves the same store and the same config. */
  lemma BatchEqualsOneByOne(setup: Setup, batch: seq<Option<Placement>>, envs: seq<Env>, nodes: seq<Node>, env: Env, node': Node)
    requires OneByOne(setup, batch, envs, nodes) && HashSound(setup, nodes[0]) && batch != []
    requires nodes[0].file.None? && ToldApart(setup, nodes[0], Overlays(batch))
    ensures Renderable(setup, nodes[0].store + Overlays(batch))
    ensures FlushStep(setup, nodes[0], Overlays(batch), env, node', true) ==>
              node'.store == nodes[|batch|].store && node'.loaded == nodes[|batch|].loaded
  {
    OneByOneStore(setup, batch, envs, nodes, |batch| - 1);
    OneMore(setup, batch, envs, nodes, |batch| - 1);
    OneByOneStore(setup, batch, envs, nodes, |batch|);
    assert batch[..|batch|] == batch;
    if FlushStep(setup, nodes[0], Overlays(batch), env, node', true) {
      FlushLoadsRender(setup, nodes[0], Overlays(batch), env, node', true);
    }
  }
}
