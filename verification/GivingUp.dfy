/**
  Giving up and sleeping, over runs of the pool.  A request that finds no key asks in a second critical
  section when one will recover; other tasks may run in between, and while it sleeps.  What they do
  decides whether a request that gives up before its deadline is right to, what a sleeping request
  misses, and how long a wait the client is told.
 */
module GivingUp {
  import opened Prelude
  import opened Durations
  import opened PoolModel
  import opened PoolWorld
  import opened PoolRuns
  import opened Attempts
  import opened OneKeyRuns

  // ---------------------------------------------------------------------------------------------
  // Why a request gives up

  predicate Usable(w: World, fp: Fingerprint, model: Option<Model>) {
    InPool(w, fp) && Lookup(w.pool, fp).value.Selectable(model, w.now)
  }

  predicate BringsIn(w: World, ev: Event, fp: Fingerprint) {
    ev.Replace? && KeyOf(ev.keys, fp).Some? && !InPool(w, fp)
  }

  // The steps that can make a key usable: the clock moves on, a current success clears it, or a
  // replacement brings it in.
  predicate Revives(w: World, ev: Event, fp: Fingerprint) {
    (ev.Tick? && ev.at > w.now) || Clears(w, ev, fp) || BringsIn(w, ev, fp)
  }

  lemma NotRemoved(policy: Policy, w: World, ev: Event, fp: Fingerprint)
    requires Enabled(w, ev) && InPool(Do(policy, w, ev), fp)
    ensures !Removes(ev, fp)
    ensures !InPool(w, fp) ==> ev.Replace? && KeyOf(ev.keys, fp).Some?
  {
    Projection(policy, w, ev, fp);
  }

  // Every other step leaves a key that is not usable as it is.
  lemma OnlyRevivalHelps(policy: Policy, w: World, ev: Event, fp: Fingerprint, model: Option<Model>)
    requires WorldOk(policy, w) && Enabled(w, ev) && !Revives(w, ev, fp)
    requires Usable(Do(policy, w, ev), fp, model)
    ensures Usable(w, fp, model)
  {
    hide WorldOk, EntryAfter, KeyFlow;
    var w' := Do(policy, w, ev);
    NotRemoved(policy, w, ev, fp);
    DeadlineStep(policy, w, ev, fp);
    LivenessStep(policy, w, ev, fp);
    assert w'.now == w.now;
  }

  lemma {:induction false} RevivedInBetween(policy: Policy, ws: seq<World>, es: seq<Event>, i: nat, j: nat,
                                            fp: Fingerprint, model: Option<Model>)
    requires PoolRun(policy, ws, es) && i <= j < |ws|
    requires !Usable(ws[i], fp, model) && Usable(ws[j], fp, model)
    ensures exists k :: i <= k < j && Revives(ws[k], es[k], fp)
    decreases j
  {
    hide Usable, Revives, WorldOk;
    if !Usable(ws[j - 1], fp, model) {
      Reachable(policy, ws, es, j - 1);
      assert StepAt(policy, ws, es, j - 1);
      if !Revives(ws[j - 1], es[j - 1], fp) {
        OnlyRevivalHelps(policy, ws[j - 1], es[j - 1], fp, model);
      }
    } else {
      RevivedInBetween(policy, ws, es, i, j - 1, fp, model);
    }
  }

  // The request attempts a selection in world `i` and asks for the next recovery in world `j` of a
  // run, both in vain.
  predicate GivesUp(policy: Policy, ws: seq<World>, es: seq<Event>, i: nat, j: nat, req: Request) {
    && PoolRun(policy, ws, es) && i <= j < |ws|
    && SelectedKey(ws[i].pool, req, ws[i].now).None?
    && EarliestRecovery(ws[j].pool, req, ws[j].now).None?
  }

  // Then each key it had left is gone, or something between attempt and query revived it.
  lemma GivesUpOnGoneOrRevived(policy: Policy, ws: seq<World>, es: seq<Event>, i: nat, j: nat, req: Request, c: Key)
    requires GivesUp(policy, ws, es, i, j, req) && c in req.candidates && c.fingerprint !in req.used
    ensures Removed(ws[j].pool, c) || exists k :: i <= k < j && Revives(ws[k], es[k], c.fingerprint)
  {
    hide Revives, PoolRun;
    GivesUpIff(req, ws[i].pool, ws[i].now, ws[j].pool, ws[j].now);
    if !Removed(ws[j].pool, c) {
      assert Eligible(ws[j].pool, req, c, ws[j].now) && !Eligible(ws[i].pool, req, c, ws[i].now);
      RevivedInBetween(policy, ws, es, i, j, c.fingerprint, req.model);
    }
  }

  // Before its deadline request `r` gives up although a key it has not tried is there and usable.
  predicate GivesUpWrongly(policy: Policy, ws: seq<World>, es: seq<Event>, i: nat, j: nat, r: nat)
    requires |ws| == |es| + 1
  {
    && i <= j < |ws| && r < |ws[i].requests| && r < |ws[j].requests|
    && ws[i].requests[r] == ws[j].requests[r] && ws[j].now < ws[j].requests[r].deadline
    && GivesUp(policy, ws, es, i, j, ws[j].requests[r])
    && SelectedKey(ws[j].pool, ws[j].requests[r], ws[j].now).Some?
  }

  // The key is cooled for a nanosecond, and the clock moves on between attempt and query.
  lemma GivesUpOnRecoveredKey() returns (ws: seq<World>, es: seq<Event>)
    ensures PoolRun(WITNESS_POLICY, ws, es) && |es| == 3 && GivesUpWrongly(WITNESS_POLICY, ws, es, 2, 3, 0)
  {
    var policy := WITNESS_POLICY;
    var rep := ProactiveCooldown("a", 1, 0);
    var e0, req := Fresh(THE_KEY), NewTracker(policy, 0);
    var e2 := EntryAfter(policy, e0, rep, 0, 0);
    RunStarts(policy, 0);
    ws, es := [FirstWorld(0)], [];
    BeginStep(policy, ws[0], e0);
    ws, es := Append(policy, ws, es, Begin(None));
    ReportStep(policy, ws[1], e0, rep);
    ws, es := Append(policy, ws, es, Reported(rep));
    ws, es := Append(policy, ws, es, Tick(1));
    OneKeyAnswers(ws[2], e2, req, 0);
    OneKeyAnswers(ws[3], e2, req, 1);
  }

  // Two requests share the key; the first reports a usage limit, a third request begins, and then the
  // second reports its success.  The clock stands still throughout.
  lemma ClearedKeyRun() returns (ws: seq<World>, es: seq<Event>, e6: Entry)
    ensures PoolRun(WITNESS_POLICY, ws, es) && |es| == 7
    ensures Holds(ws[6], e6) && e6.coolingUntil == Some(3600 * SECOND) && e6.liveness == map[]
    ensures Holds(ws[7], Recovered(e6)) && ws[6].now == ws[7].now == 0
    ensures |ws[6].requests| == |ws[7].requests| == 3
    ensures ws[6].requests[2] == ws[7].requests[2] == NewTracker(WITNESS_POLICY, 0)
  {
    var policy := WITNESS_POLICY;
    var limit := Failed(Selection("a", THE_KEY, 0), UsageLimitHit(Weekly, 3600 * SECOND), 0);
    var ok := Success(Selection("a", THE_KEY, 1));
    var e4 := Fresh(THE_KEY);
    e6 := EntryAfter(policy, e4, limit, 2, 0);
    ws, es := SelectionsRun(policy, 2);
    AllSelectedIssued(policy, 2, 0);
    AllSelectedIssued(policy, 2, 1);
    ReportStep(policy, ws[4], e4, limit);
    ws, es := Append(policy, ws, es, Reported(limit));
    BeginStep(policy, ws[5], e6);
    ws, es := Append(policy, ws, es, Begin(None));
    assert ws[6].picks == ws[4].picks;
    ReportStep(policy, ws[6], e6, ok);
    ws, es := Append(policy, ws, es, Reported(ok));
  }

  // The attempt falls before the success and the query after it.
  lemma GivesUpOnClearedKey() returns (ws: seq<World>, es: seq<Event>)
    ensures PoolRun(WITNESS_POLICY, ws, es) && |es| == 7 && GivesUpWrongly(WITNESS_POLICY, ws, es, 6, 7, 2)
    ensures ws[6].now == ws[7].now
  {
    hide PoolRun;
    var req := NewTracker(WITNESS_POLICY, 0);
    var e6;
    ws, es, e6 := ClearedKeyRun();
    RunLength(WITNESS_POLICY, ws, es);
    OneKeyAnswers(ws[6], e6, req, 0);
    OneKeyAnswers(ws[7], Recovered(e6), req, 0);
  }

  // ---------------------------------------------------------------------------------------------
  // What a sleeping request misses

  // The key is not there, or recovers no sooner than `until`.
  predicate HeldUntil(w: World, fp: Fingerprint, model: Option<Model>, until: Instant) {
    InPool(w, fp) ==>
      var r := Lookup(w.pool, fp).value.Recovery(model);
      r.Some? && r.value >= until
  }

  // The steps that make a key usable at once, whatever held it back.
  predicate Frees(w: World, ev: Event, fp: Fingerprint, model: Option<Model>) {
    BringsIn(w, ev, fp) || (Clears(w, ev, fp) && !Lookup(w.pool, fp).value.LivenessCooling(model, w.now))
  }

  lemma FreedIsUsable(policy: Policy, w: World, ev: Event, fp: Fingerprint, model: Option<Model>)
    requires Enabled(w, ev) && Frees(w, ev, fp, model)
    ensures Usable(Do(policy, w, ev), fp, model)
  {
    Projection(policy, w, ev, fp);
  }

  // A key that is held stays so, but for a success or a replacement that brings it in.
  lemma StaysHeld(policy: Policy, w: World, ev: Event, fp: Fingerprint, model: Option<Model>, until: Instant)
    requires WorldOk(policy, w) && Enabled(w, ev) && HeldUntil(w, fp, model, until)
    requires !Clears(w, ev, fp) && !BringsIn(w, ev, fp)
    ensures HeldUntil(Do(policy, w, ev), fp, model, until)
  {
    hide WorldOk, EntryAfter, KeyFlow;
    var w' := Do(policy, w, ev);
    if InPool(w', fp) {
      NotRemoved(policy, w, ev, fp);
      DeadlineStep(policy, w, ev, fp);
      LivenessStep(policy, w, ev, fp);
    }
  }

  lemma HeldIsNotUsable(w: World, fp: Fingerprint, model: Option<Model>, until: Instant)
    requires HeldUntil(w, fp, model, until) && w.now < until
    ensures !Usable(w, fp, model)
  {
    if InPool(w, fp) {
      SelectableFromRecovery(Lookup(w.pool, fp).value, model, w.now);
    }
  }

  lemma ClearedButHeldBack(policy: Policy, w: World, ev: Event, fp: Fingerprint, model: Option<Model>)
    requires Enabled(w, ev) && Clears(w, ev, fp) && Lookup(w.pool, fp).value.LivenessCooling(model, w.now)
    ensures !Usable(Do(policy, w, ev), fp, model)
  {
    Projection(policy, w, ev, fp);
  }

  // While a key is held and its time has not come, a step makes it usable if and only if it frees it.
  lemma UsableIffFreed(policy: Policy, w: World, ev: Event, fp: Fingerprint, model: Option<Model>, until: Instant)
    requires WorldOk(policy, w) && Enabled(w, ev) && HeldUntil(w, fp, model, until)
    requires Do(policy, w, ev).now < until
    ensures Usable(Do(policy, w, ev), fp, model) <==> Frees(w, ev, fp, model)
  {
    hide WorldOk, Usable, HeldUntil, Do;
    if Frees(w, ev, fp, model) {
      FreedIsUsable(policy, w, ev, fp, model);
    } else if Clears(w, ev, fp) {
      ClearedButHeldBack(policy, w, ev, fp, model);
    } else {
      StaysHeld(policy, w, ev, fp, model, until);
      HeldIsNotUsable(Do(policy, w, ev), fp, model, until);
    }
  }

  // At the query, every candidate that is not usable is held until the recovery found.
  lemma QueriedHolds(w: World, req: Request, c: Key)
    requires EarliestRecovery(w.pool, req, w.now).Some? && c in req.candidates
    requires !Usable(w, c.fingerprint, req.model)
    ensures HeldUntil(w, c.fingerprint, req.model, EarliestRecovery(w.pool, req, w.now).value)
  {
    hide EarliestOf;
    if InPool(w, c.fingerprint) {
      SelectableFromRecovery(Lookup(w.pool, c.fingerprint).value, req.model, w.now);
      assert PendingRecovery(w.pool, req.model, c, w.now).Some?;
    }
  }

  lemma {:induction false} HeldUnlessLetIn(policy: Policy, ws: seq<World>, es: seq<Event>, i: nat, j: nat,
                                           fp: Fingerprint, model: Option<Model>, until: Instant)
    requires PoolRun(policy, ws, es) && i <= j < |ws| && HeldUntil(ws[i], fp, model, until)
    requires forall k :: i <= k < j ==> !Clears(ws[k], es[k], fp) && !BringsIn(ws[k], es[k], fp)
    ensures HeldUntil(ws[j], fp, model, until)
    decreases j
  {
    hide HeldUntil, Clears, BringsIn, WorldOk;
    if i < j {
      HeldUnlessLetIn(policy, ws, es, i, j - 1, fp, model, until);
      Reachable(policy, ws, es, j - 1);
      assert StepAt(policy, ws, es, j - 1);
      StaysHeld(policy, ws[j - 1], es[j - 1], fp, model, until);
    }
  }

  // A request attempts a selection in vain in world `a`, asks in world `i` and sleeps.  Before the
  // recovery it was told of, an untried key is usable only if it was revived between attempt and query,
  // or if a success or a replacement let it in during the sleep: the clock alone never does it.
  lemma NoMissedWakeup(policy: Policy, ws: seq<World>, es: seq<Event>, a: nat, i: nat, j: nat, req: Request, c: Key)
    requires PoolRun(policy, ws, es) && a <= i <= j < |ws|
    requires SelectedKey(ws[a].pool, req, ws[a].now).None?
    requires EarliestRecovery(ws[i].pool, req, ws[i].now).Some?
    requires ws[j].now < EarliestRecovery(ws[i].pool, req, ws[i].now).value
    requires c in req.candidates && c.fingerprint !in req.used && Usable(ws[j], c.fingerprint, req.model)
    ensures || (exists k :: a <= k < i && Revives(ws[k], es[k], c.fingerprint))
            || (exists k :: i <= k < j
                            && (Clears(ws[k], es[k], c.fingerprint) || BringsIn(ws[k], es[k], c.fingerprint)))
  {
    hide PoolRun, Clears, BringsIn, Revives, HeldUntil, EarliestRecovery;
    RunLength(policy, ws, es);
    var fp, until := c.fingerprint, EarliestRecovery(ws[i].pool, req, ws[i].now).value;
    assert !Usable(ws[a], fp, req.model) by {
      assert !Eligible(ws[a].pool, req, c, ws[a].now);
    }
    if Usable(ws[i], fp, req.model) {
      RevivedInBetween(policy, ws, es, a, i, fp, req.model);
    } else if forall k :: i <= k < j ==> !Clears(ws[k], es[k], fp) && !BringsIn(ws[k], es[k], fp) {
      QueriedHolds(ws[i], req, c);
      HeldUnlessLetIn(policy, ws, es, i, j, fp, req.model, until);
      HeldIsNotUsable(ws[j], fp, req.model, until);
    }
  }

  lemma {:induction false} ClockMonotone(policy: Policy, ws: seq<World>, es: seq<Event>, i: nat, j: nat)
    requires IsRun(policy, ws, es) && i <= j < |ws|
    ensures ws[i].now <= ws[j].now
  {
    if i < j {
      ClockMonotone(policy, ws, es, i, j - 1);
      assert StepAt(policy, ws, es, j - 1);
    }
  }

  // A sleep from world `i` to world `m`, over before the recovery: a key that no liveness deadline holds
  // back is usable at some point of it if and only if a success or a replacement lets it in.
  lemma SleepMissesIff(policy: Policy, ws: seq<World>, es: seq<Event>, i: nat, m: nat, req: Request, c: Key)
    requires PoolRun(policy, ws, es) && i <= m < |ws|
    requires EarliestRecovery(ws[i].pool, req, ws[i].now).Some? && c in req.candidates
    requires ws[m].now < EarliestRecovery(ws[i].pool, req, ws[i].now).value
    requires !Usable(ws[i], c.fingerprint, req.model)
    requires forall k :: i <= k <= m && InPool(ws[k], c.fingerprint) ==>
               !Lookup(ws[k].pool, c.fingerprint).value.LivenessCooling(req.model, ws[k].now)
    ensures (exists j :: i <= j <= m && Usable(ws[j], c.fingerprint, req.model))
       <==> (exists k :: i <= k < m && (Clears(ws[k], es[k], c.fingerprint) || BringsIn(ws[k], es[k], c.fingerprint)))
  {
    hide WorldOk, HeldUntil, EarliestRecovery, Usable, BringsIn;
    var fp, until := c.fingerprint, EarliestRecovery(ws[i].pool, req, ws[i].now).value;
    QueriedHolds(ws[i], req, c);
    if exists k :: i <= k < m && (Clears(ws[k], es[k], fp) || BringsIn(ws[k], es[k], fp)) {
      var k :| i <= k < m && (Clears(ws[k], es[k], fp) || BringsIn(ws[k], es[k], fp));
      assert StepAt(policy, ws, es, k);
      FreedIsUsable(policy, ws[k], es[k], fp, req.model);
      assert Usable(ws[k + 1], fp, req.model);
    } else {
      forall j | i <= j <= m ensures !Usable(ws[j], fp, req.model) {
        HeldUnlessLetIn(policy, ws, es, i, j, fp, req.model, until);
        ClockMonotone(policy, ws, es, j, m);
        HeldIsNotUsable(ws[j], fp, req.model, until);
      }
    }
  }

  lemma UntouchedRecovery(policy: Policy, w: World, ev: Event, fp: Fingerprint, model: Option<Model>)
    requires Enabled(w, ev) && InPool(w, fp) && Untouched(w, ev, fp)
    ensures InPool(Do(policy, w, ev), fp)
    ensures Lookup(Do(policy, w, ev).pool, fp).value.Recovery(model) == Lookup(w.pool, fp).value.Recovery(model)
  {
    Projection(policy, w, ev, fp);
  }

  // And it does not sleep too long: from the instant it was told of, the key that set it is usable,
  // unless something has happened to that key meanwhile.
  lemma {:induction false} WakesOnTime(policy: Policy, ws: seq<World>, es: seq<Event>, i: nat, j: nat,
                                       fp: Fingerprint, model: Option<Model>, e: Instant)
    requires IsRun(policy, ws, es) && i <= j < |ws| && InPool(ws[i], fp)
    requires Lookup(ws[i].pool, fp).value.Recovery(model) == Some(e)
    requires forall k :: i <= k < j ==> Untouched(ws[k], es[k], fp)
    ensures InPool(ws[j], fp) && Lookup(ws[j].pool, fp).value.Recovery(model) == Some(e)
    ensures Usable(ws[j], fp, model) <==> ws[j].now >= e
    decreases j
  {
    hide Untouched;
    if i < j {
      WakesOnTime(policy, ws, es, i, j - 1, fp, model, e);
      assert StepAt(policy, ws, es, j - 1);
      UntouchedRecovery(policy, ws[j - 1], es[j - 1], fp, model);
    }
    SelectableFromRecovery(Lookup(ws[j].pool, fp).value, model, ws[j].now);
  }

  // Attempt and query fall before the success: the request is told to sleep for an hour, and its
  // deadline is half a minute away, while the key is usable at once.
  lemma SleepsOnClearedKey() returns (ws: seq<World>, es: seq<Event>)
    ensures PoolRun(WITNESS_POLICY, ws, es) && |ws| == 8
    ensures |ws[6].requests| == |ws[7].requests| == 3 && ws[6].requests[2] == ws[7].requests[2]
    ensures var req := ws[6].requests[2];
            && ws[6].now == ws[7].now < req.deadline
            && SelectedKey(ws[6].pool, req, ws[6].now).None?
            && EarliestRecovery(ws[6].pool, req, ws[6].now) == Some(3600 * SECOND)
            && SelectedKey(ws[7].pool, req, ws[7].now).Some?
  {
    hide PoolRun;
    var req := NewTracker(WITNESS_POLICY, 0);
    var e6;
    ws, es, e6 := ClearedKeyRun();
    RunLength(WITNESS_POLICY, ws, es);
    OneKeyAnswers(ws[6], e6, req, 0);
    OneKeyAnswers(ws[7], Recovered(e6), req, 0);
  }

  // ---------------------------------------------------------------------------------------------
  // How long a wait is told

  // Request `r` attempts a selection in vain in world `i`, reads the clock at `readAt`, no sooner
  // than its deadline, and tells a wait of `wait` from the recovery it finds in world `j`, at `queriedAt`.
  predicate Tells(policy: Policy, ws: seq<World>, es: seq<Event>, i: nat, j: nat, r: nat,
                  readAt: Instant, queriedAt: Instant, wait: nat)
  {
    && PoolRun(policy, ws, es) && i <= j < |ws|
    && r < |ws[i].requests| && r < |ws[j].requests| && ws[i].requests[r] == ws[j].requests[r]
    && ws[i].now <= readAt <= queriedAt == ws[j].now
    && var req := ws[j].requests[r];
       && req.deadline <= readAt && req.HasUnused() && |req.used| < req.maxAttempts
       && SelectedKey(ws[i].pool, req, ws[i].now).None?
       && EarliestRecovery(ws[j].pool, req, queriedAt) == Some(readAt + wait)
  }

  lemma TellsWithinGap(policy: Policy, ws: seq<World>, es: seq<Event>, i: nat, j: nat, r: nat,
                       readAt: Instant, queriedAt: Instant, wait: nat)
    requires Tells(policy, ws, es, i, j, r, readAt, queriedAt, wait)
    ensures 0 < wait <= MAX_COOLDOWN + (queriedAt - readAt)
  {
    hide WorldOk, EarliestRecovery;
    Reachable(policy, ws, es, j);
    PoolOfWorld(policy, ws[j]);
    WaitWithinGap(policy, ws[j].pool, ws[j].requests[r], readAt, queriedAt);
  }

  lemma PoolOfWorld(policy: Policy, w: World)
    requires WorldOk(policy, w)
    ensures PoolOk(policy, w.pool, w.now)
  {
  }

  function OutOfQuota(at: Instant): Report {
    ProactiveCooldown("a", MAX_COOLDOWN, at)
  }

  // The key cooled for 90 days by such a report.
  function CooledUntil(at: Instant, id: SelectionId): Entry {
    Fresh(THE_KEY).(coolingUntil := Some(at + MAX_COOLDOWN), coolingReason := Some(ProactiveUsage),
                    coolingBy := Some(id), lastFailureBy := Some(id))
  }

  // A request begins at instant 0; the key is observed to be out of quota at `readAt` and again at
  // `queriedAt`.
  lemma QuotaRun(policy: Policy, readAt: Instant, queriedAt: Instant) returns (ws: seq<World>, es: seq<Event>)
    requires policy.Valid() && readAt <= queriedAt
    ensures PoolRun(policy, ws, es) && |ws| == 6
    ensures ws[3] == World(Pool([CooledUntil(readAt, 0)], 0, 1), readAt, [NewTracker(policy, 0)], [])
    ensures ws[5] == World(Pool([CooledUntil(queriedAt, 1)], 0, 2), queriedAt, [NewTracker(policy, 0)], [])
  {
    hide PoolRun, NewTracker;
    var e0 := Fresh(THE_KEY);
    RunStarts(policy, 0);
    ws, es := [FirstWorld(0)], [];
    BeginStep(policy, ws[0], e0);
    ws, es := Append(policy, ws, es, Begin(None));
    ws, es := Append(policy, ws, es, Tick(readAt));
    ReportStep(policy, ws[2], e0, OutOfQuota(readAt));
    ws, es := Append(policy, ws, es, Reported(OutOfQuota(readAt)));
    ws, es := Append(policy, ws, es, Tick(queriedAt));
    ReportStep(policy, ws[4], CooledUntil(readAt, 0), OutOfQuota(queriedAt));
    ws, es := Append(policy, ws, es, Reported(OutOfQuota(queriedAt)));
  }

  // There the wait fills the gap between the readings.
  lemma TellsTheGap(policy: Policy, readAt: Instant, queriedAt: Instant) returns (ws: seq<World>, es: seq<Event>)
    requires policy.Valid() && DeadlineAfter(0, policy.waitTimeout) <= readAt <= queriedAt
    ensures Tells(policy, ws, es, 3, 5, 0, readAt, queriedAt, MAX_COOLDOWN + (queriedAt - readAt))
  {
    hide PoolRun;
    ws, es := QuotaRun(policy, readAt, queriedAt);
    OneKeyAnswers(ws[3], CooledUntil(readAt, 0), NewTracker(policy, 0), readAt);
    OneKeyAnswers(ws[5], CooledUntil(queriedAt, 1), NewTracker(policy, 0), queriedAt);
    RunLength(policy, ws, es);
    assert NewTracker(policy, 0).candidates[0] == THE_KEY;
  }

  lemma RunLength(policy: Policy, ws: seq<World>, es: seq<Event>)
    requires PoolRun(policy, ws, es)
    ensures |ws| == |es| + 1
  {
  }

  // Whatever a run does, 90 days bound the wait told at these two readings if and only if they are
  // equal.
  lemma NinetyDaysIffOneReading(policy: Policy, readAt: Instant, queriedAt: Instant)
    requires policy.Valid() && DeadlineAfter(0, policy.waitTimeout) <= readAt <= queriedAt
    ensures (forall ws, es, i: nat, j: nat, r: nat, wait: nat ::
               Tells(policy, ws, es, i, j, r, readAt, queriedAt, wait) ==> wait <= MAX_COOLDOWN)
       <==> readAt == queriedAt
  {
    hide Tells;
    if readAt == queriedAt {
      forall ws, es, i: nat, j: nat, r: nat, wait: nat | Tells(policy, ws, es, i, j, r, readAt, queriedAt, wait)
        ensures wait <= MAX_COOLDOWN
      {
        TellsWithinGap(policy, ws, es, i, j, r, readAt, queriedAt, wait);
      }
    } else {
      var ws, es := TellsTheGap(policy, readAt, queriedAt);
    }
  }

  // The same of the Retry-After header that is sent with it.
  lemma HeaderIffOneReading(policy: Policy, readAt: Instant, queriedAt: Instant)
    requires policy.Valid() && DeadlineAfter(0, policy.waitTimeout) <= readAt <= queriedAt
    ensures (forall ws, es, i: nat, j: nat, r: nat, wait: nat ::
               Tells(policy, ws, es, i, j, r, readAt, queriedAt, wait) ==> 1 <= RetryAfterSecs(wait) <= 7_776_000)
       <==> readAt == queriedAt
  {
    hide Tells;
    if readAt == queriedAt {
      forall ws, es, i: nat, j: nat, r: nat, wait: nat | Tells(policy, ws, es, i, j, r, readAt, queriedAt, wait)
        ensures 1 <= RetryAfterSecs(wait) <= 7_776_000
      {
        TellsWithinGap(policy, ws, es, i, j, r, readAt, queriedAt, wait);
        RetryAfterRange(wait);
      }
    } else {
      var ws, es := TellsTheGap(policy, readAt, queriedAt);
      assert RetryAfterSecs(MAX_COOLDOWN + (queriedAt - readAt)) > 7_776_000;
    }
  }
}
