/**
  What every step does to a key and to the cursor, written out field by field, and the breaker over
  runs: when a key becomes half-open, and that it does.
 */
module ReportEffects {
  import opened Prelude
  import opened Durations
  import opened PoolModel
  import opened PoolWorld
  import opened PoolRuns
  import opened OneKeyRuns

  // The key before and after a step that keeps it in the pool.
  predicate Turns(policy: Policy, w: World, ev: Event, fp: Fingerprint, e: Entry, e': Entry) {
    Enabled(w, ev) && Lookup(w.pool, fp) == Some(e) && Lookup(Do(policy, w, ev).pool, fp) == Some(e')
  }

  // The current cooldown ends after `until`.
  predicate Outlasts(e: Entry, until: Instant) {
    e.coolingUntil.Some? && e.coolingUntil.value > until
  }

  // The key, cooled until then by selection `id`.
  function CooledTo(e: Entry, until: Instant, reason: CoolingReason, id: SelectionId): Entry {
    Entry(e.key, Some(until), Some(reason), Some(id), e.consecutiveFailures, e.backoffStep, Some(id), e.halfOpen,
          e.liveness)
  }

  // A cooldown of length `d` from `from`, at most 90 days.
  function Ends(from: Instant, d: Duration): Instant {
    from + Min(d, MAX_COOLDOWN)
  }

  // ---------------------------------------------------------------------------------------------
  // Reports

  // A current success wipes everything but the key and its liveness deadlines; a stale one, or one for
  // a key that is gone, changes nothing at all.
  lemma SuccessStep(policy: Policy, w: World, sel: Selection)
    requires Enabled(w, Reported(Success(sel)))
    ensures var w' := Do(policy, w, Reported(Success(sel)));
            var e := Lookup(w.pool, sel.fingerprint);
            if e.Some? && !(e.value.lastFailureBy.Some? && e.value.lastFailureBy.value > sel.id) then
              Lookup(w'.pool, sel.fingerprint)
              == Some(Entry(e.value.key, None, None, None, 0, 0, None, false, e.value.liveness))
            else w' == w
  {
    Projection(policy, w, Reported(Success(sel)), sel.fingerprint);
    var i := IndexOf(w.pool.entries, sel.fingerprint);
    if i.Some? {
      assert w.pool.entries[i.value := w.pool.entries[i.value]] == w.pool.entries;
    }
  }

  // A network failure of this selection that trips the breaker: the counter reaches the threshold and
  // no deadline lies beyond the one the breaker sets.
  predicate BreakerTrips(policy: Policy, w: World, ev: Event, fp: Fingerprint) {
    && ev.Reported? && ev.report.Failed? && ev.report.failure.NetworkFailure? && ev.report.sel.fingerprint == fp
    && InPool(w, fp)
    && var e := Lookup(w.pool, fp).value;
       && e.consecutiveFailures + 1 >= policy.breakerThreshold
       && !Outlasts(e, Ends(w.now, policy.breakerCooldown))
  }

  lemma NetworkFailureStep(policy: Policy, w: World, ev: Event, fp: Fingerprint, e: Entry, e': Entry)
    requires Turns(policy, w, ev, fp, e, e')
    requires ev.Reported? && ev.report.Failed? && ev.report.failure.NetworkFailure? && ev.report.sel.fingerprint == fp
    ensures var id := ev.report.sel.id;
            e' == if BreakerTrips(policy, w, ev, fp) then
                    Entry(e.key, Some(Ends(w.now, policy.breakerCooldown)), Some(CircuitBreaker), Some(id),
                          0, e.backoffStep, Some(id), true, e.liveness)
                  else
                    Entry(e.key, e.coolingUntil, e.coolingReason, e.coolingBy,
                          e.consecutiveFailures + 1, e.backoffStep, Some(id), e.halfOpen, e.liveness)
  {
    hide NextCursor, IndexOf, Do;
    Projection(policy, w, ev, fp);
  }

  lemma UsageLimitStep(policy: Policy, w: World, ev: Event, fp: Fingerprint, e: Entry, e': Entry)
    requires Turns(policy, w, ev, fp, e, e')
    requires ev.Reported? && ev.report.Failed? && ev.report.failure.UsageLimitHit? && ev.report.sel.fingerprint == fp
    ensures var until := Ends(w.now, ev.report.failure.cooldown);
            e' == if Outlasts(e, until) then e else CooledTo(e, until, UsageLimit, ev.report.sel.id)
  {
    hide NextCursor, IndexOf, Do;
    Projection(policy, w, ev, fp);
  }

  // A rate limit or a refusal.  A positive Retry-After is honoured, not capped by the backoff ceiling,
  // and counts no step; without one the jittered backoff applies, capped, and counts a step.
  lemma ThrottledStep(policy: Policy, w: World, ev: Event, fp: Fingerprint, e: Entry, e': Entry)
    requires Turns(policy, w, ev, fp, e, e') && ev.Reported? && ev.report.Failed? && ev.report.sel.fingerprint == fp
    requires ev.report.failure.TooManyRequests? || ev.report.failure.KeyRefused?
    ensures var failure, id := ev.report.failure, ev.report.sel.id;
            var asked := failure.retryAfter.Some? && failure.retryAfter.value > 0;
            var until := Ends(w.now, if asked then failure.retryAfter.value
                                     else Min(ev.report.jittered, policy.backoffMax));
            var reason := if failure.TooManyRequests? then RateLimited else KeyUnavailable;
            e' == if Outlasts(e, until) then e
                  else CooledTo(e, until, reason, id).(backoffStep := e.backoffStep + if asked then 0 else 1)
  {
    hide NextCursor, IndexOf, Do;
    Projection(policy, w, ev, fp);
  }

  lemma ServerErrorStep(policy: Policy, w: World, ev: Event)
    requires Enabled(w, ev) && ev.Reported? && ev.report.Failed? && ev.report.failure.ServerError?
    ensures Do(policy, w, ev) == w
  {
    var i := IndexOf(w.pool.entries, ev.report.Target());
    if i.Some? {
      assert w.pool.entries[i.value := w.pool.entries[i.value]] == w.pool.entries;
    }
  }

  // Only the deadline of that model moves.
  lemma LivenessFailedStep(policy: Policy, w: World, ev: Event, fp: Fingerprint, e: Entry, e': Entry)
    requires Turns(policy, w, ev, fp, e, e') && ev.Reported? && ev.report.LivenessFailed?
    requires ev.report.sel.fingerprint == fp
    ensures e' == e.(liveness := e.liveness[ev.report.model := Ends(w.now, policy.backoffInitial)])
    ensures Do(policy, w, ev).pool.cursor == w.pool.cursor
  {
    hide NextCursor;
    Projection(policy, w, ev, fp);
  }

  lemma ProactiveStep(policy: Policy, w: World, ev: Event, fp: Fingerprint, e: Entry, e': Entry)
    requires Turns(policy, w, ev, fp, e, e') && ev.Reported? && ev.report.ProactiveCooldown?
    requires ev.report.fingerprint == fp
    ensures var until := Ends(ev.report.at, ev.report.cooldown);
            e' == if Outlasts(e, until) then e else CooledTo(e, until, ProactiveUsage, w.pool.nextId)
    ensures Do(policy, w, ev).pool.nextId == w.pool.nextId + 1
  {
    hide NextCursor;
    Projection(policy, w, ev, fp);
  }

  // ---------------------------------------------------------------------------------------------
  // Selections and replacements

  // Selecting a half-open key claims it under the selection's own id; any other key is left as it is.
  lemma ClaimStep(policy: Policy, w: World, ev: Event, fp: Fingerprint, e: Entry, e': Entry)
    requires Turns(policy, w, ev, fp, e, e') && Selects(w, ev, fp)
    ensures e' == if e.halfOpen then CooledTo(e, Ends(w.now, policy.breakerCooldown), CircuitBreaker, w.pool.nextId)
                  else e
    ensures Selected(w, ev).value.id == w.pool.nextId && Do(policy, w, ev).pool.nextId == w.pool.nextId + 1
  {
    Projection(policy, w, ev, fp);
  }

  // A replacement keeps the whole state of a key it keeps, and starts a new one from nothing.
  lemma ReplaceStep(policy: Policy, w: World, keys: seq<Key>, fp: Fingerprint)
    requires keys != []
    ensures var after := Lookup(Do(policy, w, Replace(keys)).pool, fp);
            match KeyOf(keys, fp)
            case None => after.None?
            case Some(key) =>
              after == Some(if InPool(w, fp) then Lookup(w.pool, fp).value.(key := key)
                            else Entry(key, None, None, None, 0, 0, None, false, map[]))
  {
    Projection(policy, w, Replace(keys), fp);
  }

  // Reports and selections change no key but their own.
  lemma OthersUntouched(policy: Policy, w: World, ev: Event, fp: Fingerprint)
    requires Enabled(w, ev) && !ev.Replace? && !Selects(w, ev, fp) && !(ev.Reported? && ev.report.Target() == fp)
    ensures Lookup(Do(policy, w, ev).pool, fp) == Lookup(w.pool, fp)
  {
    Projection(policy, w, ev, fp);
  }

  // ---------------------------------------------------------------------------------------------
  // The cursor

  // The step applies a cooldown to a key: it asks for one that the current one does not outlast.
  predicate AppliesTo(policy: Policy, w: World, ev: Event) {
    && ev.Reported? && InPool(w, ev.report.Target())
    && var e := Lookup(w.pool, ev.report.Target()).value;
       match ev.report
       case Success(_) => false
       case LivenessFailed(_, _) => false
       case ProactiveCooldown(_, cooldown, at) => !Outlasts(e, Ends(at, cooldown))
       case Failed(_, failure, jittered) =>
         match failure
         case ServerError => false
         case NetworkFailure => BreakerTrips(policy, w, ev, ev.report.sel.fingerprint)
         case UsageLimitHit(_, cooldown) => !Outlasts(e, Ends(w.now, cooldown))
         case TooManyRequests(ra) => !Outlasts(e, Ends(w.now, Asked(policy, ra, jittered)))
         case KeyRefused(ra) => !Outlasts(e, Ends(w.now, Asked(policy, ra, jittered)))
  }

  function Asked(policy: Policy, retryAfter: Option<Duration>, jittered: Duration): Duration {
    if retryAfter.Some? && retryAfter.value > 0 then retryAfter.value else Min(jittered, policy.backoffMax)
  }

  // Every applied cooldown moves the cursor to the nearest usable key, a replacement clamps it, and
  // nothing else touches it.
  lemma CursorStep(policy: Policy, w: World, ev: Event)
    requires WorldOk(policy, w) && Enabled(w, ev)
    ensures var w' := Do(policy, w, ev);
            if AppliesTo(policy, w, ev) then
              NearestUsable(w'.pool.entries, w.pool.cursor,
                            if ev.report.ProactiveCooldown? then ev.report.at else w.now, w'.pool.cursor)
            else if ev.Replace? && ev.keys != [] then w'.pool.cursor == Min(w.pool.cursor, |ev.keys| - 1)
            else w'.pool.cursor == w.pool.cursor
  {
    hide EntryOk, NearestUsable, NextCursor, PickedBy;
    if AppliesTo(policy, w, ev) {
      NextCursorNearest(Do(policy, w, ev).pool.entries, w.pool.cursor,
                        if ev.report.ProactiveCooldown? then ev.report.at else w.now);
    }
  }

  // ---------------------------------------------------------------------------------------------
  // The breaker

  // A key becomes half-open if and only if a network failure trips its breaker.
  lemma HalfOpensIff(policy: Policy, w: World, ev: Event, fp: Fingerprint)
    requires Enabled(w, ev) && !HalfOpen(w, fp)
    ensures HalfOpen(Do(policy, w, ev), fp) <==> BreakerTrips(policy, w, ev, fp)
  {
    Projection(policy, w, ev, fp);
  }

  function BreaksDown(id: nat): Report {
    Failed(Selection("a", THE_KEY, id), NetworkFailure, 0)
  }

  // The key after `n` network failures in a row, of selections 0 to n - 1.
  function Counted(n: nat): Entry {
    Entry(THE_KEY, None, None, None, n, 0, if n == 0 then None else Some(n - 1), false, map[])
  }

  function CountedWorld(policy: Policy, n: nat, e: Entry): World {
    AllSelected(policy, n).(pool := Pool([e], 0, n))
  }

  lemma CountedStep(policy: Policy, n: nat, e: Entry, id: nat)
    requires e.key == THE_KEY && id < n
    ensures Enabled(CountedWorld(policy, n, e), Reported(BreaksDown(id)))
    ensures Do(policy, CountedWorld(policy, n, e), Reported(BreaksDown(id)))
            == CountedWorld(policy, n, EntryAfter(policy, e, BreaksDown(id), n, 0))
  {
    hide EntryAfter;
    var w := CountedWorld(policy, n, e);
    AllSelectedIssued(policy, n, id);
    assert w.picks == AllSelected(policy, n).picks && w.now == 0;
    ReportStep(policy, w, e, BreaksDown(id));
  }

  // As many network failures as the threshold make a fresh key half-open, whatever the policy.
  lemma HalfOpenReached(policy: Policy) returns (ws: seq<World>, es: seq<Event>)
    requires policy.Valid()
    ensures PoolRun(policy, ws, es) && |es| == 3 * policy.breakerThreshold
    ensures !HalfOpen(ws[|es| - 1], "a") && HalfOpen(ws[|es|], "a")
    ensures Deadline(ws[|es|], "a") == Some(ws[|es|].now + policy.ProbeHold())
  {
    hide AllSelected, StepAt, Initial;
    var n := policy.breakerThreshold;
    ws, es := SelectionsRun(policy, n);
    AllSelectedHolds(policy, n);
    for r := 0 to n - 1
      invariant PoolRun(policy, ws, es) && |ws| == |es| + 1 && |es| == 2 * n + r
      invariant ws[|es|] == CountedWorld(policy, n, Counted(r))
    {
      CountedStep(policy, n, Counted(r), r);
      ws, es := Append(policy, ws, es, Reported(BreaksDown(r)));
    }
    var e := Counted(n - 1);
    CountedStep(policy, n, e, n - 1);
    ws, es := Append(policy, ws, es, Reported(BreaksDown(n - 1)));
    FoundKey(ws[|es| - 1], e);
    FoundKey(ws[|es|], EntryAfter(policy, e, BreaksDown(n - 1), n, 0));
  }

  lemma AllSelectedHolds(policy: Policy, n: nat)
    ensures AllSelected(policy, n) == CountedWorld(policy, n, Counted(0)) && AllSelected(policy, n).now == 0
  {
  }
}
