/** The operations on the entry node, in place. */
module EntryActions {
  import opened Domain
  import opened Order
  import opened Tags
  import opened Config
  import opened Build
  import opened Meaning
  import opened EntrySpec
  import Merge

  lemma PutValues(store: Store, p: Placement)
    requires WellKeyed(store)
    ensures WellKeyed(store[p.id := p])
    ensures store[p.id := p].Values == (set q | q in store.Values && q.id != p.id) + {p}
  {
    var after := store[p.id := p];
    forall q ensures q in after.Values <==> q == p || (q in store.Values && q.id != p.id) {
      if q == p { assert after[p.id] == p; }
      if q in store.Values && q.id != p.id {
        var k :| k in store && store[k] == q;
        assert after[k] == q;
      }
      if q in after.Values && q != p {
        var k :| k in after && after[k] == q;
        assert store[k] == q;
      }
    }
  }

  /** The list with one placement replaced by its overlay, or with the overlay at the end. */
  method ApplyPlacementOverlay(placements: seq<Placement>, overlay: Placement) returns (out: seq<Placement>)
    ensures SetOf(out) == (set q | q in placements && q.id != overlay.id) + {overlay}
  {
    out := [];
    var replaced := false;
    for i := 0 to |placements|
      invariant SetOf(out) == (set q | q in placements[..i] && q.id != overlay.id)
                              + (if replaced then {overlay} else {})
    {
      var p := placements[i];
      assert placements[..i + 1] == placements[..i] + [p];
      if p.id == overlay.id {
        out := out + [overlay];
        replaced := true;
        continue;
      }
      out := out + [p];
    }
    assert placements[..|placements|] == placements;
    if !replaced { out := out + [overlay]; }
  }

  class EntryActions {
    const setup: Setup
    var store: Store
    var loaded: Option<Json>
    var overrides: Overrides
    var lastHash: Option<int>
    var file: Option<Merge.Document>

    constructor (setup: Setup, store: Store, file: Option<Merge.Document>)
      requires WellKeyed(store)
      ensures this.setup == setup && View() == Node(store, None, map[], None, file)
    {
      this.setup := setup;
      this.store, loaded, overrides, lastHash, this.file := store, None, map[], None, file;
    }

    function View(): Node
      reads this
    {
      Node(store, loaded, overrides, lastHash, file)
    }

    /** The stored placements in some order. */
    method ListPlacements() returns (s: seq<Placement>)
      ensures SetOf(s) == store.Values
    {
      s := [];
      var left := store.Keys;
      while left != {}
        invariant left <= store.Keys
        invariant forall k | k in store && k !in left :: store[k] in s
        invariant forall p | p in s :: p in store.Values
        decreases |left|
      {
        var k :| k in left;
        s := s + [store[k]];
        left := left - {k};
      }
    }

    method SelectOutbound(selector: string, target: string, reachable: bool) returns (ok: bool)
      modifies this`overrides
      ensures ok == (Accepts(View(), selector, target) && reachable)
      ensures overrides == if ok then old(overrides)[selector := target] else old(overrides)
    {
      ok := false;
      if reachable && loaded.Some? {
        ok := HasOption(loaded.value, selector, target);
      }
      if ok { overrides := overrides[selector := target]; }
    }

    /** Moves a known client by its selector, without a reload; on any obstacle it changes nothing. */
    method TrySelectorFlip(desired: Placement, env: Env) returns (flipped: bool)
      modifies this`overrides
      ensures flipped == Flips(setup, old(View()), desired, env)
      ensures View() == if flipped then Select(old(View()), desired) else old(View())
    {
      if desired.clientId == "" || desired.desired != Active { return false; }
      if !env.listOk { return false; }
      var placements := ListPlacements();
      var known := false;
      for i := 0 to |placements|
        invariant known <==> exists p | p in placements[..i] :: p.clientId == desired.clientId && p.desired == Active
      {
        var p := placements[i];
        assert placements[..i + 1] == placements[..i] + [p];
        if p.clientId == desired.clientId && p.desired == Active { known := true; }
      }
      assert placements[..|placements|] == placements;
      assert known <==> UserKnown(store, desired.clientId) by {
        assert forall p :: p in placements <==> p in SetOf(placements);
        if id :| id in store && store[id].clientId == desired.clientId && store[id].desired == Active {
          assert store[id] in store.Values;
        }
      }
      if !known { return false; }
      if desired.backendId !in Ids(setup.registry) { return false; }
      flipped := SelectOutbound(SelectorTag(desired.clientId), OutboundTag(desired.clientId, desired.backendId), env.selectOk);
    }

    method SwapRoute(plan: SwapPlan, env: Env) returns (r: Outcome)
      modifies this
      ensures SwapRouteStep(setup, old(View()), plan, env, View(), r)
    {
      if plan.desired.id == "" { return Refused("swap: plan.Desired.ID required"); }
      if plan.desired.id != plan.placementId { return Refused("swap: plan.Desired.ID != plan.PlacementID"); }
      if !env.getOk { return Refused("swap: load current placement"); }
      var version := if plan.placementId in store then store[plan.placementId].opVersion else 0;
      if plan.opVersion != 0 && version >= plan.opVersion { return Done; }
      var d := plan.desired.(applied := Applied);
      var flipped := TrySelectorFlip(d, env);
      if flipped {
        if d.id in env.putFails { return Refused("swap: persist placement"); }
        store := store[d.id := d];
        return Done;
      }
      r := Queued(d);
    }

    method SimpleApply(desired: Placement, env: Env) returns (r: Outcome)
      modifies this
      ensures SimpleApplyStep(setup, old(View()), desired, env, View(), r)
    {
      if desired.id == "" { return Refused("simple-apply: placement ID required"); }
      if desired.desired == Active && desired.backendId !in Ids(setup.registry) {
        return Refused("simple-apply: backend not in registry");
      }
      if !env.getOk { return Refused("simple-apply: load current placement"); }
      var found := desired.id in store;
      var version := if found then store[desired.id].opVersion else 0;
      if desired.opVersion != 0 && version >= desired.opVersion { return Done; }
      var d := desired.(applied := Applied);
      if found && store[d.id].clientId == d.clientId {
        var flipped := TrySelectorFlip(d, env);
        if flipped {
          if d.id in env.putFails { return Refused("simple-apply: persist after selector flip"); }
          store := store[d.id := d];
          return Done;
        }
      }
      r := Queued(d);
    }

    /** The stored placements with every overlay on top, whatever order the overlays are visited in. */
    method Overlaid(overlays: Store) returns (s: seq<Placement>)
      requires WellKeyed(store) && WellKeyed(overlays)
      ensures SetOf(s) == (store + overlays).Values
    {
      s := ListPlacements();
      var left := overlays.Keys;
      ghost var cur := store;
      while left != {}
        invariant left <= overlays.Keys && WellKeyed(cur)
        invariant cur == store + (overlays - left) && SetOf(s) == cur.Values
        decreases |left|
      {
        var id :| id in left;
        PutValues(cur, overlays[id]);
        s := ApplyPlacementOverlay(s, overlays[id]);
        assert forall q :: q in s <==> q in SetOf(s);
        left := left - {id};
        cur := cur[id := overlays[id]];
        assert cur == store + (overlays - left);
      }
      assert overlays - {} == overlays;
    }

    method Persist(overlays: Store, putFails: set<string>) returns (ok: bool)
      modifies this`store
      ensures ok <==> putFails * overlays.Keys == {}
      ensures ok ==> store == old(store) + overlays
      ensures Partly(old(store), overlays, store)
    {
      var left := overlays.Keys;
      while left != {}
        invariant left <= overlays.Keys
        invariant forall id | id in overlays && id !in left :: id !in putFails && id in store && store[id] == overlays[id]
        invariant forall id | id in left || id !in overlays ::
                    (id in store <==> id in old(store)) && (id in store ==> store[id] == old(store)[id])
        decreases |left|
      {
        var id :| id in left;
        if id in putFails {
          assert id in putFails * overlays.Keys;
          return false;
        }
        store := store[id := overlays[id]];
        left := left - {id};
      }
      assert store == old(store) + overlays;
      return true;
    }

    /** The config of the store with the overlays on top, as listed, or an error when there is none. */
    method RenderWith(overlays: Store, readOk: bool) returns (r: Result<Json>)
      requires WellKeyed(store) && WellKeyed(overlays)
      ensures exists listed :: RendersAs(setup, file, store + overlays, listed, readOk, r)
    {
      var placements := Overlaid(overlays);
      var state := NodeState(setup.top, setup.inbound, setup.registry, placements);
      if file.None? {
        r := BuildConfig(state);
      } else if !readOk {
        r := Err("read base config");
      } else {
        r := Merge.MergeBase(file.value, state);
      }
      assert RendersAs(setup, file, store + overlays, placements, readOk, r);
    }

    /** Writes and loads a config unless its hash is the remembered one, then persists. */
    method Load(cfg: Json, overlays: Store, env: Env) returns (ok: bool)
      requires WellKeyed(store) && WellKeyed(overlays)
      modifies this
      ensures WellKeyed(store) && LoadStep(setup, old(View()), cfg, overlays, env, View(), ok)
    {
      var h := setup.hash(cfg);
      if lastHash != Some(h) {
        if !env.writeOk { return false; }
        if file.Some? { file := Some(Merge.Parsed(cfg)); }
        if !env.reloadOk { return false; }
        loaded, overrides := Some(cfg), map[];
        lastHash := Some(h);
      }
      ok := Persist(overlays, env.putFails);
    }

    /** One coalesced flush: the specified step for some listing of the store, hence the same for every
        listing when each client has one placement. */
    method FlushBatch(overlays: Store, env: Env) returns (ok: bool)
      requires WellKeyed(store) && WellKeyed(overlays)
      modifies this
      ensures WellKeyed(store)
      ensures exists listed :: SetOf(listed) == (old(store) + overlays).Values
                               && FlushOf(setup, old(View()), listed, overlays, env, View(), ok)
      ensures OneOwner(old(store) + overlays) ==> FlushStep(setup, old(View()), overlays, env, View(), ok)
    {
      if !env.listOk {
        assert FlushOf(setup, old(View()), Listing(store + overlays), overlays, env, View(), false);
        return false;
      }
      var rendered := RenderWith(overlays, env.readOk);
      ghost var listed :| RendersAs(setup, file, store + overlays, listed, env.readOk, rendered);
      if OneOwner(store + overlays) { AnyRendering(setup, file, store + overlays, listed); }
      if rendered.Err? {
        assert FlushOf(setup, old(View()), listed, overlays, env, View(), false);
        return false;
      }
      ok := Load(rendered.value, overlays, env);
      assert FlushOf(setup, old(View()), listed, overlays, env, View(), ok);
    }
  }

  /** The outcome of rendering a store from this listing of it. */
  ghost predicate RendersAs(setup: Setup, file: Option<Merge.Document>, store: Store, listed: seq<Placement>,
                            readOk: bool, r: Result<Json>) {
    && SetOf(listed) == store.Values
    && var cfg := RenderingOf(setup, file, listed);
    && (r.Ok? <==> cfg.Some? && (file.Some? ==> readOk))
    && (r.Ok? ==> r.value == cfg.value)
  }
}
