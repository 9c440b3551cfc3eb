/**
  What every run of the pool guarantees: the invariant of all reachable states, cooldowns that only
  a current success can shorten, one half-open probe at a time, and bounded waits.
 */
module PoolRuns {
  import opened Prelude
  import opened Durations
  import opened PoolModel
  import opened PoolWorld

  // Step `k` of a run: its event is enabled and leads to the next world.
  predicate StepAt(policy: Policy, ws: seq<World>, es: seq<Event>, k: nat)
    requires |ws| == |es| + 1 && k < |es|
  {
    Enabled(ws[k], es[k]) && ws[k + 1] == Do(policy, ws[k], es[k])
  }

  // `ws` are the worlds of a run whose steps are the events `es`.
  predicate IsRun(policy: Policy, ws: seq<World>, es: seq<Event>) {
    |ws| == |es| + 1 && forall k :: 0 <= k < |es| ==> StepAt(policy, ws, es, k)
  }

  // A run from a freshly built pool.
  predicate PoolRun(policy: Policy, ws: seq<World>, es: seq<Event>) {
    IsRun(policy, ws, es) && Initial(policy, ws[0])
  }

  lemma {:induction false} Reachable(policy: Policy, ws: seq<World>, es: seq<Event>, k: nat)
    requires PoolRun(policy, ws, es) && k < |ws|
    ensures WorldOk(policy, ws[k])
  {
    if k == 0 {
      InitialOk(policy, ws[0]);
    } else {
      Reachable(policy, ws, es, k - 1);
      assert StepAt(policy, ws, es, k - 1);
      StepKeepsWorld(policy, ws[k - 1], es[k - 1]);
    }
  }

  // A run can always be continued by an enabled event.
  lemma ExtendRun(policy: Policy, ws: seq<World>, es: seq<Event>, ev: Event)
    requires IsRun(policy, ws, es) && Enabled(ws[|es|], ev)
    ensures IsRun(policy, ws + [Do(policy, ws[|es|], ev)], es + [ev])
  {
    var ws', es' := ws + [Do(policy, ws[|es|], ev)], es + [ev];
    forall k | 0 <= k < |es'| ensures StepAt(policy, ws', es', k) {
      if k < |es| {
        assert StepAt(policy, ws, es, k);
      }
    }
  }

  // ---------------------------------------------------------------------------------------------
  // The cursor

  // The cursor moves only when a cooldown is applied, to the nearest usable key, or when a
  // replacement clamps it.
  lemma CursorMovesOnlyOnCooldown(policy: Policy, w: World, ev: Event)
    requires WorldOk(policy, w) && Enabled(w, ev)
    requires Do(policy, w, ev).pool.cursor != w.pool.cursor
    ensures (ev.Replace? && ev.keys != [] && w.pool.cursor > |ev.keys| - 1
             && Do(policy, w, ev).pool.cursor == |ev.keys| - 1)
         || (ev.Reported? && Lookup(w.pool, ev.report.Target()).Some?
             && MovesCursor(policy, Lookup(w.pool, ev.report.Target()).value, ev.report, w.now)
             && NearestUsable(Do(policy, w, ev).pool.entries, w.pool.cursor,
                              if ev.report.ProactiveCooldown? then ev.report.at else w.now,
                              Do(policy, w, ev).pool.cursor))
  {
    if ev.Reported? && IndexOf(w.pool.entries, ev.report.Target()).Some? {
      NextCursorNearest(Do(policy, w, ev).pool.entries, w.pool.cursor,
                        if ev.report.ProactiveCooldown? then ev.report.at else w.now);
    }
  }

  // ---------------------------------------------------------------------------------------------
  // Cooldowns

  function Deadline(w: World, fp: Fingerprint): Option<Instant> {
    var e := Lookup(w.pool, fp);
    if e.Some? then e.value.coolingUntil else None
  }

  predicate InPool(w: World, fp: Fingerprint) {
    Lookup(w.pool, fp).Some?
  }

  predicate HalfOpen(w: World, fp: Fingerprint) {
    InPool(w, fp) && Lookup(w.pool, fp).value.halfOpen
  }

  // A success that is not stale for the key: the only report that resets it.
  predicate Clears(w: World, ev: Event, fp: Fingerprint) {
    ev.Reported? && ev.report.Success? && ev.report.sel.fingerprint == fp
    && InPool(w, fp) && !Lookup(w.pool, fp).value.Stale(ev.report.sel.id)
  }

  predicate Removes(ev: Event, fp: Fingerprint) {
    ev.Replace? && ev.keys != [] && KeyOf(ev.keys, fp).None?
  }

  predicate Selects(w: World, ev: Event, fp: Fingerprint) {
    Enabled(w, ev) && Selected(w, ev).Some? && Selected(w, ev).value.fingerprint == fp
  }

  lemma EntryDeadline(policy: Policy, e: Entry, rep: Report, newId: SelectionId, now: Instant)
    ensures NotLater(e.coolingUntil, EntryAfter(policy, e, rep, newId, now).coolingUntil)
            <==> e.coolingUntil.None? || !(rep.Success? && !e.Stale(rep.sel.id))
  {
  }

  // Exactly a current success or a removal can move a cooling deadline earlier.
  lemma DeadlineStep(policy: Policy, w: World, ev: Event, fp: Fingerprint)
    requires WorldOk(policy, w) && Enabled(w, ev)
    ensures NotLater(Deadline(w, fp), Deadline(Do(policy, w, ev), fp))
            <==> Deadline(w, fp).None? || !(Clears(w, ev, fp) || Removes(ev, fp))
  {
    hide Do, Lookup, EntryOk;
    Projection(policy, w, ev, fp);
    if ev.Reported? && InPool(w, fp) {
      EntryDeadline(policy, Lookup(w.pool, fp).value, ev.report, w.pool.nextId, w.now);
    }
  }

  lemma DeadlineRunStep(policy: Policy, ws: seq<World>, es: seq<Event>, fp: Fingerprint, k: nat)
    requires PoolRun(policy, ws, es) && k < |es|
    requires !Clears(ws[k], es[k], fp) && !Removes(es[k], fp)
    ensures NotLater(Deadline(ws[k], fp), Deadline(ws[k + 1], fp))
  {
    Reachable(policy, ws, es, k);
    assert StepAt(policy, ws, es, k);
    DeadlineStep(policy, ws[k], es[k], fp);
  }

  // Over any stretch of a run, whatever else happens, the deadline of a kept key never moves earlier.
  lemma {:induction false} CooldownMonotone(policy: Policy, ws: seq<World>, es: seq<Event>,
                                            fp: Fingerprint, i: nat, j: nat)
    requires PoolRun(policy, ws, es) && i <= j < |ws|
    requires forall k :: i <= k < j ==> !Clears(ws[k], es[k], fp) && !Removes(es[k], fp)
    ensures NotLater(Deadline(ws[i], fp), Deadline(ws[j], fp))
  {
    if i < j {
      CooldownMonotone(policy, ws, es, fp, i, j - 1);
      DeadlineRunStep(policy, ws, es, fp, j - 1);
    }
  }

  // ---------------------------------------------------------------------------------------------
  // The half-open probe

  // A key leaves the half-open state exactly through a current success or its removal.
  lemma HalfOpenStep(policy: Policy, w: World, ev: Event, fp: Fingerprint)
    requires Enabled(w, ev) && HalfOpen(w, fp)
    ensures HalfOpen(Do(policy, w, ev), fp) <==> !(Clears(w, ev, fp) || Removes(ev, fp))
  {
    hide Do, Lookup, EntryOk;
    Projection(policy, w, ev, fp);
  }

  // Selecting a half-open key holds it for the whole probe.
  lemma ClaimHoldsKey(policy: Policy, w: World, ev: Event, fp: Fingerprint)
    requires WorldOk(policy, w) && Selects(w, ev, fp)
    ensures HalfOpen(w, fp) <==> HalfOpen(Do(policy, w, ev), fp)
    ensures HalfOpen(w, fp) ==> Deadline(Do(policy, w, ev), fp) == Some(w.now + policy.ProbeHold())
    ensures Deadline(w, fp).Some? ==> Deadline(w, fp).value <= w.now
  {
    Projection(policy, w, ev, fp);
  }

  lemma ClaimRunStep(policy: Policy, ws: seq<World>, es: seq<Event>, fp: Fingerprint, k: nat)
    requires PoolRun(policy, ws, es) && k < |es| && Selects(ws[k], es[k], fp)
    ensures HalfOpen(ws[k + 1], fp) ==> Deadline(ws[k + 1], fp) == Some(ws[k].now + policy.ProbeHold())
    ensures Deadline(ws[k], fp).Some? ==> Deadline(ws[k], fp).value <= ws[k].now
  {
    assert StepAt(policy, ws, es, k);
    Reachable(policy, ws, es, k);
    ClaimHoldsKey(policy, ws[k], es[k], fp);
  }

  lemma StillHalfOpen(policy: Policy, ws: seq<World>, es: seq<Event>, fp: Fingerprint, k: nat)
    requires IsRun(policy, ws, es) && k < |es|
    requires HalfOpen(ws[k], fp) && HalfOpen(ws[k + 1], fp)
    ensures !Clears(ws[k], es[k], fp) && !Removes(es[k], fp)
  {
    assert StepAt(policy, ws, es, k);
    HalfOpenStep(policy, ws[k], es[k], fp);
  }

  // Two selections of a key that stays half-open between them are a whole probe apart, under every
  // interleaving of reports, replacements, other requests and dropped probes.
  lemma SingleProbe(policy: Policy, ws: seq<World>, es: seq<Event>, fp: Fingerprint, i: nat, j: nat)
    requires PoolRun(policy, ws, es) && i < j < |es|
    requires Selects(ws[i], es[i], fp) && Selects(ws[j], es[j], fp)
    requires forall k :: i < k <= j ==> HalfOpen(ws[k], fp)
    ensures ws[j].now >= ws[i].now + policy.ProbeHold()
  {
    ClaimRunStep(policy, ws, es, fp, i);
    ClaimRunStep(policy, ws, es, fp, j);
    forall k | i + 1 <= k < j ensures !Clears(ws[k], es[k], fp) && !Removes(es[k], fp) {
      StillHalfOpen(policy, ws, es, fp, k);
    }
    CooldownMonotone(policy, ws, es, fp, i + 1, j);
  }

  // Nothing is said about the key at this step; a replacement may keep it.
  predicate Untouched(w: World, ev: Event, fp: Fingerprint) {
    !Selects(w, ev, fp) && !(ev.Reported? && ev.report.Target() == fp) && !Removes(ev, fp)
  }

  lemma UntouchedStep(policy: Policy, ws: seq<World>, es: seq<Event>, fp: Fingerprint, k: nat)
    requires IsRun(policy, ws, es) && k < |es| && Untouched(ws[k], es[k], fp)
    ensures Deadline(ws[k + 1], fp) == Deadline(ws[k], fp)
  {
    assert StepAt(policy, ws, es, k);
    Projection(policy, ws[k], es[k], fp);
  }

  lemma {:induction false} UntouchedKeepsDeadline(policy: Policy, ws: seq<World>, es: seq<Event>,
                                                  fp: Fingerprint, i: nat, j: nat)
    requires IsRun(policy, ws, es) && i <= j < |ws|
    requires forall k :: i <= k < j ==> Untouched(ws[k], es[k], fp)
    ensures Deadline(ws[j], fp) == Deadline(ws[i], fp)
  {
    if i < j {
      UntouchedKeepsDeadline(policy, ws, es, fp, i, j - 1);
      UntouchedStep(policy, ws, es, fp, j - 1);
    }
  }

  // A probe that is dropped without a report cannot wedge the key: its claim lapses by itself.
  lemma DroppedProbeLapses(policy: Policy, ws: seq<World>, es: seq<Event>, fp: Fingerprint, i: nat, j: nat)
    requires PoolRun(policy, ws, es) && i < j < |ws|
    requires Selects(ws[i], es[i], fp) && HalfOpen(ws[i], fp)
    requires forall k :: i < k < j ==> Untouched(ws[k], es[k], fp)
    ensures InPool(ws[j], fp)
         && (Lookup(ws[j].pool, fp).value.Cooling(ws[j].now) <==> ws[j].now < ws[i].now + policy.ProbeHold())
  {
    assert StepAt(policy, ws, es, i);
    Reachable(policy, ws, es, i);
    ClaimHoldsKey(policy, ws[i], es[i], fp);
    UntouchedKeepsDeadline(policy, ws, es, fp, i + 1, j);
  }

  // ---------------------------------------------------------------------------------------------
  // Waits

  // No pending recovery lies more than 90 days ahead, so the header of a wait read at the same
  // instant is between 1 and 7776000 seconds.
  lemma WaitBound(policy: Policy, w: World, req: Request)
    requires WorldOk(policy, w)
    ensures var e := EarliestRecovery(w.pool, req, w.now);
            e.Some? ==> w.now < e.value <= w.now + MAX_COOLDOWN
                        && 1 <= RetryAfterSecs(e.value - w.now) <= 7_776_000
  {
    var e := EarliestRecovery(w.pool, req, w.now);
    if e.Some? {
      var c :| c in req.candidates && PendingRecovery(w.pool, req.model, c, w.now) == e;
      var i := IndexOf(w.pool.entries, c.fingerprint).value;
      assert EntryOk(policy, w.pool.entries[i], w.pool.nextId, w.now);
      RetryAfterRange(e.value - w.now);
    }
  }

  // ---------------------------------------------------------------------------------------------
  // Liveness deadlines

  predicate LivenessNotEarlier(a: Option<Entry>, b: Option<Entry>) {
    a.Some? && b.Some? ==>
      forall m :: m in a.value.liveness ==> m in b.value.liveness && a.value.liveness[m] <= b.value.liveness[m]
  }

  lemma FoundOk(policy: Policy, w: World, fp: Fingerprint)
    requires WorldOk(policy, w) && InPool(w, fp)
    ensures EntryOk(policy, Lookup(w.pool, fp).value, w.pool.nextId, w.now)
  {
  }

  lemma LivenessStep(policy: Policy, w: World, ev: Event, fp: Fingerprint)
    requires WorldOk(policy, w) && Enabled(w, ev)
    ensures LivenessNotEarlier(Lookup(w.pool, fp), Lookup(Do(policy, w, ev).pool, fp))
  {
    Projection(policy, w, ev, fp);
    if InPool(w, fp) {
      FoundOk(policy, w, fp);
      if ev.Reported? && ev.report.Target() == fp {
        var e := Lookup(w.pool, fp).value;
        EntryAfterLiveness(policy, e, ev.report, w.pool.nextId, w.now);
      }
    }
  }

  lemma EntryAfterLiveness(policy: Policy, e: Entry, rep: Report, newId: SelectionId, now: Instant)
    ensures EntryAfter(policy, e, rep, newId, now).liveness
            == if rep.LivenessFailed? then e.liveness[rep.model := DeadlineAfter(now, policy.backoffInitial)]
               else e.liveness
  {
  }

  lemma LivenessRunStep(policy: Policy, ws: seq<World>, es: seq<Event>, fp: Fingerprint, k: nat)
    requires PoolRun(policy, ws, es) && k < |es|
    ensures LivenessNotEarlier(Lookup(ws[k].pool, fp), Lookup(ws[k + 1].pool, fp))
  {
    Reachable(policy, ws, es, k);
    assert StepAt(policy, ws, es, k);
    LivenessStep(policy, ws[k], es[k], fp);
  }

  lemma LivenessReflexive(a: Option<Entry>)
    ensures LivenessNotEarlier(a, a)
  {
  }

  lemma LivenessTransitive(a: Option<Entry>, b: Option<Entry>, c: Option<Entry>)
    requires b.Some? && LivenessNotEarlier(a, b) && LivenessNotEarlier(b, c)
    ensures LivenessNotEarlier(a, c)
  {
  }

  // While a key stays in the pool, its per-model deadlines never move earlier and never vanish,
  // not even through a success.
  lemma {:induction false} LivenessMonotone(policy: Policy, ws: seq<World>, es: seq<Event>,
                                            fp: Fingerprint, i: nat, j: nat)
    requires PoolRun(policy, ws, es) && i <= j < |ws|
    requires forall k :: i <= k <= j ==> InPool(ws[k], fp)
    ensures LivenessNotEarlier(Lookup(ws[i].pool, fp), Lookup(ws[j].pool, fp))
  {
    hide LivenessNotEarlier, Initial, StepAt;
    if i == j {
      LivenessReflexive(Lookup(ws[i].pool, fp));
    } else {
      LivenessMonotone(policy, ws, es, fp, i, j - 1);
      LivenessRunStep(policy, ws, es, fp, j - 1);
      assert InPool(ws[j - 1], fp);
      LivenessTransitive(Lookup(ws[i].pool, fp), Lookup(ws[j - 1].pool, fp), Lookup(ws[j].pool, fp));
    }
  }
}
