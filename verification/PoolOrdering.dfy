/**
  Report ordering.  The pool means a success to undo only what its own or an older selection did to
  the key, and keeps one marker per key to tell.  The marker is overwritten, not maximised, so this
  holds exactly in the runs whose state-changing reports arrive in id order.
 */
module PoolOrdering {
  import opened Prelude
  import opened Durations
  import opened PoolModel
  import opened PoolWorld
  import opened PoolRuns
  import opened OneKeyRuns

  function Marker(w: World, fp: Fingerprint): Option<SelectionId> {
    var e := Lookup(w.pool, fp);
    if e.Some? then e.value.lastFailureBy else None
  }

  function Owner(w: World, fp: Fingerprint): Option<SelectionId> {
    var e := Lookup(w.pool, fp);
    if e.Some? then e.value.coolingBy else None
  }

  // The selection whose report or claim changes the key's failure, backoff or cooldown state here.
  function ChangedBy(policy: Policy, w: World, ev: Event, fp: Fingerprint): Option<SelectionId>
    requires Enabled(w, ev)
  {
    if !InPool(w, fp) then None
    else
      var e := Lookup(w.pool, fp).value;
      if Selects(w, ev, fp) then (if e.halfOpen then Some(w.pool.nextId) else None)
      else if ev.Reported? && ev.report.Target() == fp then
        match ev.report
        case Failed(sel, failure, jittered) =>
          if failure.NetworkFailure? || AppliesCooldown(policy, e, failure, jittered, w.now)
          then Some(sel.id) else None
        case ProactiveCooldown(_, cooldown, at) =>
          if !e.Absorbs(DeadlineAfter(at, cooldown)) then Some(w.pool.nextId) else None
        case _ => None
      else None
  }

  // What a step does to the marker: it forgets, overwrites or keeps it.
  lemma MarkerStep(policy: Policy, w: World, ev: Event, fp: Fingerprint)
    requires Enabled(w, ev)
    ensures Marker(Do(policy, w, ev), fp)
            == if Clears(w, ev, fp) || Removes(ev, fp) then None
               else if ChangedBy(policy, w, ev, fp).Some? then ChangedBy(policy, w, ev, fp)
               else Marker(w, fp)
  {
    hide Do, Lookup, Eligible;
    Projection(policy, w, ev, fp);
  }

  // A network failure that is only counted changes the marker but not the cooldown.
  predicate OnlyCounted(policy: Policy, w: World, ev: Event, fp: Fingerprint) {
    ev.Reported? && ev.report.Failed? && ev.report.failure.NetworkFailure? && ev.report.sel.fingerprint == fp
    && InPool(w, fp) && !Trips(policy, Lookup(w.pool, fp).value, w.now)
  }

  // What a step does to the owner of the cooldown.
  lemma OwnerStep(policy: Policy, w: World, ev: Event, fp: Fingerprint)
    requires Enabled(w, ev)
    ensures Owner(Do(policy, w, ev), fp)
            == if Clears(w, ev, fp) || Removes(ev, fp) then None
               else if ChangedBy(policy, w, ev, fp).Some? && !OnlyCounted(policy, w, ev, fp)
               then ChangedBy(policy, w, ev, fp)
               else Owner(w, fp)
  {
    hide Do, Lookup, Eligible;
    Projection(policy, w, ev, fp);
  }

  function MaxId(a: Option<SelectionId>, b: SelectionId): SelectionId {
    if a.Some? then Max(a.value, b) else b
  }

  // The newest selection that changed the key since it was last confirmed healthy or removed.
  function Newest(policy: Policy, ws: seq<World>, es: seq<Event>, fp: Fingerprint, k: nat): Option<SelectionId>
    requires IsRun(policy, ws, es) && k < |ws|
  {
    if k == 0 then None
    else
      var prev := Newest(policy, ws, es, fp, k - 1);
      var w, ev := ws[k - 1], es[k - 1];
      assert StepAt(policy, ws, es, k - 1);
      if Clears(w, ev, fp) || Removes(ev, fp) then None
      else
        var id := ChangedBy(policy, w, ev, fp);
        if id.Some? then Some(MaxId(prev, id.value)) else prev
  }

  // A state-changing report is out of order when its id is below the marker it overwrites.
  predicate InOrder(policy: Policy, w: World, ev: Event, fp: Fingerprint) {
    Enabled(w, ev) ==>
      var id := ChangedBy(policy, w, ev, fp);
      id.Some? && Marker(w, fp).Some? ==> Marker(w, fp).value <= id.value
  }

  lemma {:induction false} OrderedMarker(policy: Policy, ws: seq<World>, es: seq<Event>, fp: Fingerprint, k: nat)
    requires PoolRun(policy, ws, es) && k < |ws|
    requires forall i :: 0 <= i < k ==> InOrder(policy, ws[i], es[i], fp)
    ensures Marker(ws[k], fp) == Newest(policy, ws, es, fp, k)
  {
    if k == 0 {
      FreshMarker(policy, ws[0], fp);
    } else {
      OrderedMarker(policy, ws, es, fp, k - 1);
      assert StepAt(policy, ws, es, k - 1);
      assert InOrder(policy, ws[k - 1], es[k - 1], fp);
      MarkerStep(policy, ws[k - 1], es[k - 1], fp);
    }
  }

  lemma FreshMarker(policy: Policy, w: World, fp: Fingerprint)
    requires Initial(policy, w)
    ensures Marker(w, fp).None? && Owner(w, fp).None?
  {
  }

  lemma OutOfOrderMarker(policy: Policy, ws: seq<World>, es: seq<Event>, fp: Fingerprint, k: nat)
    requires PoolRun(policy, ws, es) && k < |es|
    requires Marker(ws[k], fp) == Newest(policy, ws, es, fp, k)
    requires !InOrder(policy, ws[k], es[k], fp)
    ensures Marker(ws[k + 1], fp) != Newest(policy, ws, es, fp, k + 1)
  {
    assert StepAt(policy, ws, es, k);
    MarkerStep(policy, ws[k], es[k], fp);
  }

  // The marker names the newest change in every state of a run exactly when the run is in order.
  lemma MarkerIsNewestIffOrdered(policy: Policy, ws: seq<World>, es: seq<Event>, fp: Fingerprint)
    requires PoolRun(policy, ws, es)
    ensures (forall k :: 0 <= k < |ws| ==> Marker(ws[k], fp) == Newest(policy, ws, es, fp, k))
       <==> (forall k :: 0 <= k < |es| ==> InOrder(policy, ws[k], es[k], fp))
  {
    if forall k :: 0 <= k < |es| ==> InOrder(policy, ws[k], es[k], fp) {
      forall k | 0 <= k < |ws| ensures Marker(ws[k], fp) == Newest(policy, ws, es, fp, k) {
        OrderedMarker(policy, ws, es, fp, k);
      }
    } else {
      var k :| 0 <= k < |es| && !InOrder(policy, ws[k], es[k], fp);
      if Marker(ws[k], fp) == Newest(policy, ws, es, fp, k) {
        OutOfOrderMarker(policy, ws, es, fp, k);
      }
    }
  }

  // Cooldown owners are never newer than the newest change, ordered run or not.
  lemma {:induction false} MarkerBelowNewest(policy: Policy, ws: seq<World>, es: seq<Event>, fp: Fingerprint, k: nat)
    requires PoolRun(policy, ws, es) && k < |ws|
    ensures var n := Newest(policy, ws, es, fp, k);
            (Marker(ws[k], fp).Some? <==> n.Some?) && (n.Some? ==> Marker(ws[k], fp).value <= n.value)
  {
    hide Do, Lookup, ChangedBy, Clears, Removes;
    if k == 0 {
      FreshMarker(policy, ws[0], fp);
    } else {
      MarkerBelowNewest(policy, ws, es, fp, k - 1);
      assert StepAt(policy, ws, es, k - 1);
      MarkerStep(policy, ws[k - 1], es[k - 1], fp);
    }
  }

  // No success that the pool lets through is older than the newest change of the key.
  ghost predicate StateProtected(policy: Policy, ws: seq<World>, es: seq<Event>, fp: Fingerprint, k: nat)
    requires IsRun(policy, ws, es) && k < |ws|
  {
    InPool(ws[k], fp) ==>
      forall id :: !Lookup(ws[k].pool, fp).value.Stale(id) ==>
        var n := Newest(policy, ws, es, fp, k);
        n.Some? ==> n.value <= id
  }

  lemma ProtectedIffMarkerIsNewest(policy: Policy, ws: seq<World>, es: seq<Event>, fp: Fingerprint, k: nat)
    requires PoolRun(policy, ws, es) && k < |ws|
    ensures StateProtected(policy, ws, es, fp, k) <==> Marker(ws[k], fp) == Newest(policy, ws, es, fp, k)
  {
    hide Newest, PoolRun, IsRun;
    MarkerBelowNewest(policy, ws, es, fp, k);
    if Marker(ws[k], fp).Some? {
      assert !Lookup(ws[k].pool, fp).value.Stale(Marker(ws[k], fp).value);
    }
  }

  // Nothing a newer selection did to the key can be undone by an older success, at any point of a run,
  // if and only if the changes come in order.
  lemma StateProtectedIffOrdered(policy: Policy, ws: seq<World>, es: seq<Event>, fp: Fingerprint)
    requires PoolRun(policy, ws, es)
    ensures (forall k :: 0 <= k < |ws| ==> StateProtected(policy, ws, es, fp, k))
       <==> (forall k :: 0 <= k < |es| ==> InOrder(policy, ws[k], es[k], fp))
  {
    hide Newest, StateProtected, InOrder, Marker;
    forall k | 0 <= k < |ws|
      ensures StateProtected(policy, ws, es, fp, k) <==> Marker(ws[k], fp) == Newest(policy, ws, es, fp, k)
    {
      ProtectedIffMarkerIsNewest(policy, ws, es, fp, k);
    }
    MarkerIsNewestIffOrdered(policy, ws, es, fp);
  }

  lemma {:induction false} OwnerBelowNewest(policy: Policy, ws: seq<World>, es: seq<Event>, fp: Fingerprint, k: nat)
    requires PoolRun(policy, ws, es) && k < |ws|
    ensures var n := Newest(policy, ws, es, fp, k);
            Owner(ws[k], fp).Some? ==> n.Some? && Owner(ws[k], fp).value <= n.value
  {
    if k == 0 {
      FreshMarker(policy, ws[0], fp);
    } else {
      OwnerBelowNewest(policy, ws, es, fp, k - 1);
      assert StepAt(policy, ws, es, k - 1);
      OwnerStep(policy, ws[k - 1], es[k - 1], fp);
    }
  }

  // In an ordered run, a success older than the newest change is a total no-op: it cannot undo a
  // newer cooldown, claim, counter or backoff step.
  lemma StaleSuccessIsNoOp(policy: Policy, ws: seq<World>, es: seq<Event>, fp: Fingerprint, k: nat)
    requires PoolRun(policy, ws, es) && k < |es|
    requires forall i :: 0 <= i < k ==> InOrder(policy, ws[i], es[i], fp)
    requires es[k].Reported? && es[k].report.Success? && es[k].report.sel.fingerprint == fp
    requires var n := Newest(policy, ws, es, fp, k);
             (n.Some? && n.value > es[k].report.sel.id)
             || (Owner(ws[k], fp).Some? && Owner(ws[k], fp).value > es[k].report.sel.id)
    ensures ws[k + 1] == ws[k]
  {
    assert StepAt(policy, ws, es, k);
    OrderedMarker(policy, ws, es, fp, k);
    OwnerBelowNewest(policy, ws, es, fp, k);
  }

  // ---------------------------------------------------------------------------------------------
  // The same question about cooldowns alone

  // No success can clear a cooldown owned by a newer selection.
  ghost predicate CooldownProtected(w: World, fp: Fingerprint) {
    InPool(w, fp) ==>
      var e := Lookup(w.pool, fp).value;
      forall id :: !e.Stale(id) && e.coolingBy.Some? ==> e.coolingBy.value <= id
  }

  // Protection is a comparison of the two stored ids.
  lemma ProtectedIffOwnerUnderMarker(w: World, fp: Fingerprint)
    ensures CooldownProtected(w, fp) <==>
            (Owner(w, fp).Some? && Owner(w, fp).value > 0 ==>
               Marker(w, fp).Some? && Owner(w, fp).value <= Marker(w, fp).value)
  {
    if InPool(w, fp) {
      var e := Lookup(w.pool, fp).value;
      var probe := if e.lastFailureBy.Some? then e.lastFailureBy.value else 0;
      assert !e.Stale(probe);
    }
  }

  // A merely counted network failure from a selection older than the owner of the cooldown.
  predicate Overtakes(policy: Policy, w: World, ev: Event, fp: Fingerprint) {
    OnlyCounted(policy, w, ev, fp) && Owner(w, fp).Some? && ev.report.sel.id < Owner(w, fp).value
  }

  lemma ProtectionStep(policy: Policy, w: World, ev: Event, fp: Fingerprint)
    requires Enabled(w, ev) && CooldownProtected(w, fp)
    ensures CooldownProtected(Do(policy, w, ev), fp) <==> !Overtakes(policy, w, ev, fp)
  {
    MarkerStep(policy, w, ev, fp);
    OwnerStep(policy, w, ev, fp);
    ProtectedIffOwnerUnderMarker(w, fp);
    ProtectedIffOwnerUnderMarker(Do(policy, w, ev), fp);
  }

  lemma {:induction false} ProtectedWithoutOvertaking(policy: Policy, ws: seq<World>, es: seq<Event>,
                                                      fp: Fingerprint, k: nat)
    requires PoolRun(policy, ws, es) && k < |ws|
    requires forall i :: 0 <= i < k ==> !Overtakes(policy, ws[i], es[i], fp)
    ensures CooldownProtected(ws[k], fp)
  {
    if k == 0 {
      FreshMarker(policy, ws[0], fp);
      ProtectedIffOwnerUnderMarker(ws[0], fp);
    } else {
      ProtectedWithoutOvertaking(policy, ws, es, fp, k - 1);
      assert StepAt(policy, ws, es, k - 1);
      ProtectionStep(policy, ws[k - 1], es[k - 1], fp);
    }
  }

  // Newer cooldowns are safe from older successes throughout a run exactly when no network failure
  // overtakes a cooldown.
  lemma ProtectedIffNoOvertaking(policy: Policy, ws: seq<World>, es: seq<Event>, fp: Fingerprint)
    requires PoolRun(policy, ws, es)
    ensures (forall k :: 0 <= k < |ws| ==> CooldownProtected(ws[k], fp))
       <==> (forall k :: 0 <= k < |es| ==> !Overtakes(policy, ws[k], es[k], fp))
  {
    if forall k :: 0 <= k < |es| ==> !Overtakes(policy, ws[k], es[k], fp) {
      forall k | 0 <= k < |ws| ensures CooldownProtected(ws[k], fp) {
        ProtectedWithoutOvertaking(policy, ws, es, fp, k);
      }
    } else {
      var k :| 0 <= k < |es| && Overtakes(policy, ws[k], es[k], fp);
      assert StepAt(policy, ws, es, k);
      if CooldownProtected(ws[k], fp) {
        ProtectionStep(policy, ws[k], es[k], fp);
        assert !CooldownProtected(ws[k + 1], fp);
      }
    }
  }

  // ---------------------------------------------------------------------------------------------
  // A run that is out of order

  function NthSelection(id: nat): Selection {
    Selection("a", THE_KEY, id)
  }

  // A report in a run of three selections of the one key.
  lemma ReportAmongThree(ws: seq<World>, es: seq<Event>, e: Entry, rep: Report)
    returns (ws': seq<World>, es': seq<Event>)
    requires PoolRun(WITNESS_POLICY, ws, es) && Holds(ws[|es|], e)
    requires ws[|es|] == AllSelected(WITNESS_POLICY, 3).(pool := Pool([e], 0, 3))
    requires (rep.Success? || rep.Failed?) && rep.sel.id < 3 && rep.sel == NthSelection(rep.sel.id)
    ensures PoolRun(WITNESS_POLICY, ws', es') && es' == es + [Reported(rep)] && ws' == ws + [ws'[|es'|]]
    ensures var e' := EntryAfter(WITNESS_POLICY, e, rep, 3, 0);
            Holds(ws'[|es'|], e') && ws'[|es'|] == ws[|es|].(pool := Pool([e'], 0, 3))
  {
    hide AllSelected, EntryAfter;
    AllSelectedIssued(WITNESS_POLICY, 3, rep.sel.id);
    IssuedAnyPool(AllSelected(WITNESS_POLICY, 3), ws[|es|].pool, rep.sel);
    AllSelectedClock(WITNESS_POLICY, 3);
    ReportStep(WITNESS_POLICY, ws[|es|], e, rep);
    ws', es' := Append(WITNESS_POLICY, ws, es, Reported(rep));
  }

  lemma IssuedAnyPool(w: World, pool: Pool, sel: Selection)
    ensures Issued(w.(pool := pool), sel) <==> Issued(w, sel)
  {
  }

  lemma AllSelectedClock(policy: Policy, n: nat)
    ensures AllSelected(policy, n).now == 0 && AllSelected(policy, n).pool.nextId == n
  {
  }

  // Selections 0, 1 and 2 share a key.  2 reports a usage limit, then 0 a network failure, which
  // sets the marker back; now the success of 1 clears the cooldown that 2 applied.
  lemma StaleSuccessWitness() returns (ws: seq<World>, es: seq<Event>)
    ensures PoolRun(WITNESS_POLICY, ws, es) && |es| == 9
    ensures es[8].Reported? && es[8].report.Success? && es[8].report.sel.id == 1
    ensures Owner(ws[8], "a") == Some(2) && Deadline(ws[8], "a") == Some(3600 * SECOND)
    ensures Deadline(ws[9], "a").None?
  {
    var limit := Failed(NthSelection(2), UsageLimitHit(Weekly, 3600 * SECOND), 0);
    var broken := Failed(NthSelection(0), NetworkFailure, 0);
    var ok := Success(NthSelection(1));
    var e0 := Fresh(THE_KEY);
    var e1 := EntryAfter(WITNESS_POLICY, e0, limit, 3, 0);
    var e2 := EntryAfter(WITNESS_POLICY, e1, broken, 3, 0);
    ws, es := SelectionsRun(WITNESS_POLICY, 3);
    ws, es := ReportAmongThree(ws, es, e0, limit);
    ws, es := ReportAmongThree(ws, es, e1, broken);
    FoundKey(ws[8], e2);
    ws, es := ReportAmongThree(ws, es, e2, ok);
    FoundKey(ws[9], Recovered(e2));
  }
}
