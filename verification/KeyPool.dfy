/**
  The key pool as an object, updated in place.  Every method is one critical section and is proved
  against the value-level functions of PoolModel.

  Between two critical sections other tasks run: `env` is what they do to the pool and the clock at
  each point where the lock is free.  It is an arbitrary function that keeps the pool in order.
 */
module KeyPools {
  import opened Prelude
  import opened Durations
  import opened PoolModel
  import opened PoolWorld

  type Environment = (nat, Pool, Instant) -> (Pool, Instant)

  // Other tasks keep the pool invariant, never turn the clock back and never return an id.
  ghost predicate Lawful(policy: Policy, env: Environment) {
    forall n: nat, p: Pool, t: Instant :: PoolOk(policy, p, t) ==>
      var after := env(n, p, t);
      PoolOk(policy, after.0, after.1) && t <= after.1 && p.nextId <= after.0.nextId
  }

  datatype PoolError = EmptyKeys | InvalidPolicy(why: PolicyError)

  class KeyPool {
    const policy: Policy
    const env: Environment
    var entries: seq<Entry>
    var cursor: nat
    var nextId: SelectionId
    var now: Instant
    var turns: nat
    // The reports made through this object, in order.
    ghost var told: seq<Report>

    function State(): Pool
      reads this
    {
      Pool(entries, cursor, nextId)
    }

    ghost predicate Valid()
      reads this
    {
      policy.Valid() && Lawful(policy, env) && PoolOk(policy, State(), now)
    }

    constructor (keys: seq<Key>, policy: Policy, env: Environment, now: Instant)
      requires policy.Valid() && keys != [] && Lawful(policy, env)
      ensures Valid() && State() == FreshPool(keys)
      ensures this.policy == policy && this.now == now && told == []
    {
      this.policy, this.env := policy, env;
      entries := seq(|keys|, i requires 0 <= i < |keys| => Fresh(keys[i]));
      cursor, nextId, turns := 0, 0, 0;
      this.now := now;
      told := [];
    }

    // The lock is free: other tasks run.
    method Yield()
      requires Valid()
      modifies this
      ensures Valid() && old(now) <= now && old(nextId) <= nextId && told == old(told)
    {
      var after := env(turns, State(), now);
      entries, cursor, nextId := after.0.entries, after.0.cursor, after.0.nextId;
      now, turns := after.1, turns + 1;
    }

    // Sleeping: other tasks run, and the clock reaches at least `until`.
    method SleepUntil(until: Instant)
      requires Valid()
      modifies this
      ensures Valid() && old(now) <= now && until <= now && old(nextId) <= nextId && told == old(told)
    {
      Yield();
      if now < until {
        forall i | 0 <= i < |entries| ensures EntryOk(policy, entries[i], nextId, until) {
          EntryOkLater(policy, entries[i], nextId, now, nextId, until);
        }
        now := until;
      }
    }

    method AdvanceCursor(at: Instant)
      requires cursor < |entries|
      modifies this`cursor
      ensures cursor == NextCursor(entries, old(cursor), at)
      ensures NearestUsable(entries, old(cursor), at, cursor)
    {
      NextCursorNearest(entries, cursor, at);
      var n := |entries|;
      var off := 1;
      while off <= n
        invariant 1 <= off <= n + 1 && cursor == old(cursor)
        invariant ScanFrom(entries, cursor, at, off) == NextCursor(entries, cursor, at)
      {
        var idx := CyclicIndex(n, cursor, off);
        if !entries[idx].Cooling(at) {
          cursor := idx;
          return;
        }
        off := off + 1;
      }
    }

    method ReplaceKeys(keys: seq<Key>) returns (error: Option<PoolError>)
      requires Valid()
      modifies this`entries, this`cursor
      ensures Valid()
      ensures error == if keys == [] then Some(EmptyKeys) else None
      ensures State() == PoolModel.ReplaceKeys(old(State()), keys)
    {
      if keys == [] {
        return Some(EmptyKeys);
      }
      ReplaceKeepsPool(policy, State(), keys, now);
      var old_ := State();
      cursor := Min(cursor, |keys| - 1);
      entries := seq(|keys|, i requires 0 <= i < |keys| => Carried(old_, keys[i]));
      error := None;
    }

    method ReportSuccess(sel: Selection)
      requires Valid() && sel.id < nextId
      modifies this`entries, this`told
      ensures Valid()
      ensures State() == ApplyReport(policy, old(State()), Success(sel), now)
      ensures told == old(told) + [Success(sel)]
    {
      told := told + [Success(sel)];
      ReportKeepsPool(policy, State(), Success(sel), now);
      var found := IndexOf(entries, sel.fingerprint);
      if found.None? {
        return;
      }
      var e := entries[found.value];
      if e.lastFailureBy.Some? && e.lastFailureBy.value > sel.id {
        assert entries[found.value := e] == entries;
        return;
      }
      e := e.(backoffStep := 0, consecutiveFailures := 0);
      e := e.(coolingUntil := None, coolingReason := None, coolingBy := None);
      e := e.(halfOpen := false, lastFailureBy := None);
      entries := entries[found.value := e];
    }

    method ReportLivenessFailure(sel: Selection, model: Model)
      requires Valid() && sel.id < nextId
      modifies this`entries, this`told
      ensures Valid()
      ensures State() == ApplyReport(policy, old(State()), LivenessFailed(sel, model), now)
      ensures told == old(told) + [LivenessFailed(sel, model)]
    {
      told := told + [LivenessFailed(sel, model)];
      ReportKeepsPool(policy, State(), LivenessFailed(sel, model), now);
      var found := IndexOf(entries, sel.fingerprint);
      if found.None? {
        return;
      }
      var e := entries[found.value];
      var deadline := DeadlineAfter(now, policy.backoffInitial);
      entries := entries[found.value := e.(liveness := e.liveness[model := deadline])];
    }

    // `at` is the instant the caller read before it got the lock.
    method ReportProactiveCooldown(fp: Fingerprint, cooldown: Duration, at: Instant)
      requires Valid() && at <= now
      modifies this`entries, this`cursor, this`nextId, this`told
      ensures Valid()
      ensures State() == ApplyReport(policy, old(State()), ProactiveCooldown(fp, cooldown, at), now)
      ensures told == old(told) + [ProactiveCooldown(fp, cooldown, at)]
    {
      hide EntryOk, Lawful;
      told := told + [ProactiveCooldown(fp, cooldown, at)];
      ReportKeepsPool(policy, State(), ProactiveCooldown(fp, cooldown, at), now);
      var deadline := DeadlineAfter(at, cooldown);
      var found := IndexOf(entries, fp);
      if found.None? {
        return;
      }
      var reportId := nextId;
      nextId := nextId + 1;
      var e := entries[found.value];
      if e.coolingUntil.Some? && e.coolingUntil.value > deadline {
        assert entries[found.value := e] == entries;
      } else {
        e := e.(coolingUntil := Some(deadline), coolingReason := Some(ProactiveUsage));
        e := e.(coolingBy := Some(reportId), lastFailureBy := Some(reportId));
        entries := entries[found.value := e];
        AdvanceCursor(at);
      }
    }

    // The jitter of the backoff this key would get now.
    function JitterFor(sel: Selection, jitter: Duration -> Duration): Duration
      reads this
    {
      var e := Lookup(State(), sel.fingerprint);
      jitter(Backoff(policy, if e.Some? then e.value.backoffStep else 0))
    }

    method ReportFailure(sel: Selection, failure: Failure, jitter: Duration -> Duration)
      requires Valid() && sel.id < nextId
      modifies this`entries, this`cursor, this`told
      ensures Valid()
      ensures State() == ApplyReport(policy, old(State()), Failed(sel, failure, old(JitterFor(sel, jitter))), now)
      ensures told == old(told) + [Failed(sel, failure, old(JitterFor(sel, jitter)))]
    {
      hide EntryOk, Lawful;
      told := told + [Failed(sel, failure, JitterFor(sel, jitter))];
      ghost var rep := Failed(sel, failure, JitterFor(sel, jitter));
      ReportKeepsPool(policy, State(), rep, now);
      var found := IndexOf(entries, sel.fingerprint);
      if found.None? {
        return;
      }
      var i := found.value;
      match failure {
        case UsageLimitHit(_, cooldown) =>
          CoolKey(i, DeadlineAfter(now, cooldown), UsageLimit, sel.id, false);
        case TooManyRequests(ra) =>
          ThrottleKey(i, RateLimited, ra, sel.id, jitter);
        case KeyRefused(ra) =>
          ThrottleKey(i, KeyUnavailable, ra, sel.id, jitter);
        case ServerError =>
          assert entries[i := entries[i]] == entries;
        case NetworkFailure =>
          CountFailure(i, sel.id);
      }
    }

    // The same with the generator of the production jitter, which is asked only when the key is there
    // and the backoff decides.
    method ReportWithJitter(sel: Selection, failure: Failure, source: UniformJitter)
      requires Valid() && sel.id < nextId && source.rng != 0
      modifies this`entries, this`cursor, this`told, source
      ensures Valid() && source.rng != 0
      ensures var e := Lookup(old(State()), sel.fingerprint);
              var step := if e.Some? then e.value.backoffStep else 0;
              var rep := Failed(sel, failure, Spread(Backoff(policy, step), source.rng));
              && told == old(told) + [rep] && State() == ApplyReport(policy, old(State()), rep, now)
              && source.rng == if e.Some? && BacksOff(failure) then XorShift(old(source.rng)) else old(source.rng)
      ensures var e := Lookup(old(State()), sel.fingerprint);
              var after := Lookup(State(), sel.fingerprint);
              e.Some? && BacksOff(failure) ==>
                && after.Some? && after.value.coolingUntil.Some?
                && (after.value == e.value
                    || WithinBackoff(policy, e.value.backoffStep, now, after.value.coolingUntil.value))
    {
      hide EntryOk, Lawful, Spread, XorShift, ApplyReport, Backoff;
      var found := IndexOf(entries, sel.fingerprint);
      if found.Some? && BacksOff(failure) {
        var drawn := source.Jitter(Backoff(policy, entries[found.value].backoffStep));
        JitteredBackoff(policy, State(), sel, failure, source.rng, now);
      }
      var word := source.rng;
      ReportFailure(sel, failure, (base: Duration) => Spread(base, word));
    }

    // A rate limit or refusal: a positive Retry-After is honoured, otherwise the jittered backoff.
    method ThrottleKey(i: nat, reason: CoolingReason, retryAfter: Option<Duration>, id: SelectionId,
                       jitter: Duration -> Duration)
      requires cursor < |entries| && i < |entries|
      modifies this`entries, this`cursor
      ensures var jittered := jitter(Backoff(policy, old(entries[i].backoffStep)));
              var deadline := DeadlineAfter(now, RequestedCooldown(policy, retryAfter, jittered));
              && entries == old(entries)[i := Throttle(policy, old(entries[i]), reason, retryAfter, jittered, id, now)]
              && cursor == if old(entries[i]).Absorbs(deadline) then old(cursor)
                           else NextCursor(entries, old(cursor), now)
    {
      if retryAfter.Some? && retryAfter.value > 0 {
        CoolKey(i, DeadlineAfter(now, retryAfter.value), reason, id, false);
      } else {
        var base := BackoffAt(policy, entries[i].backoffStep);
        CoolKey(i, DeadlineAfter(now, Min(jitter(base), policy.backoffMax)), reason, id, true);
      }
    }

    // A cooldown that is not absorbed by a longer one: it counts a backoff step when it came from
    // the backoff, and moves the cursor on.
    method CoolKey(i: nat, deadline: Instant, reason: CoolingReason, id: SelectionId, backedOff: bool)
      requires cursor < |entries| && i < |entries|
      modifies this`entries, this`cursor
      ensures entries == old(entries[i := if entries[i].Absorbs(deadline) then entries[i]
                                          else Cool(entries[i], deadline, reason, id)
                                               .(backoffStep := entries[i].backoffStep + if backedOff then 1 else 0)])
      ensures cursor == if old(entries[i].Absorbs(deadline)) then old(cursor)
                        else NextCursor(entries, old(cursor), now)
    {
      var e := entries[i];
      if !(e.coolingUntil.Some? && e.coolingUntil.value > deadline) {
        if backedOff {
          e := e.(backoffStep := e.backoffStep + 1);
        }
        e := e.(coolingUntil := Some(deadline), coolingReason := Some(reason));
        e := e.(coolingBy := Some(id), lastFailureBy := Some(id));
        entries := entries[i := e];
        AdvanceCursor(now);
      }
    }

    // A network failure: counted always, and a breaker trip at the threshold.
    method CountFailure(i: nat, id: SelectionId)
      requires cursor < |entries| && i < |entries|
      modifies this`entries, this`cursor
      ensures entries == old(entries[i := CountNetworkFailure(policy, entries[i], id, now)])
      ensures cursor == if old(Trips(policy, entries[i], now)) then NextCursor(entries, old(cursor), now)
                        else old(cursor)
    {
      var e := entries[i];
      e := e.(consecutiveFailures := e.consecutiveFailures + 1, lastFailureBy := Some(id));
      entries := entries[i := e];
      if e.consecutiveFailures >= policy.breakerThreshold {
        var deadline := DeadlineAfter(now, policy.breakerCooldown);
        if !(e.coolingUntil.Some? && e.coolingUntil.value > deadline) {
          e := e.(coolingUntil := Some(deadline), coolingReason := Some(CircuitBreaker));
          e := e.(coolingBy := Some(id), consecutiveFailures := 0, halfOpen := true);
          entries := entries[i := e];
          AdvanceCursor(now);
        }
      }
    }
  }

  // Building a pool: the policy is checked first, then the keys.
  method BuildPool(keys: seq<Key>, policy: Policy, env: Environment, now: Instant)
    returns (pool: KeyPool?, error: Option<PoolError>)
    requires Lawful(policy, env)
    ensures error == if !policy.Valid() then Some(InvalidPolicy(policy.Validate().value))
                     else if keys == [] then Some(EmptyKeys) else None
    ensures pool == null <==> error.Some?
    ensures pool != null ==> fresh(pool) && pool.Valid() && pool.State() == FreshPool(keys)
  {
    var bad := policy.Validate();
    if bad.Some? {
      return null, Some(InvalidPolicy(bad.value));
    }
    if keys == [] {
      return null, Some(EmptyKeys);
    }
    pool := new KeyPool(keys, policy, env, now);
    error := None;
  }
}
