/**
  What the outcome of an attempt does to its key: the failover loop's reports, followed to the entry
  of the key in the pool, and its audit ledger beside them.
 */
module Verdicts {
  import opened Prelude
  import opened Durations
  import opened PoolModel
  import opened PoolWorld
  import opened ReportEffects
  import opened Failover

  // The attempt failed before a status came: no response headers, no connection, or a body that broke
  // before its first event.
  predicate BrokeDown(u: Upstream) {
    u.HeaderTimeout? || u.SendFailed? || (u.NotPrepared? && u.why.NetworkError?)
  }

  // The body went silent or ended before its first event.
  predicate WentSilent(u: Upstream) {
    u.NotPrepared? && (u.why.NoFirstEvent? || u.why.EndBeforeFirstEvent?)
  }

  // The usage limit that an error body names, if it was read in full and does.
  function NamedLimit(u: Upstream, classify: Classifier): Option<Duration> {
    if u.Status429? && u.body.Some? && u.body.value.Buffered? && classify(u.body.value.text).Some?
    then Some(classify(u.body.value.text).value.1) else None
  }

  // The cooldown asked for a key is in force unless the one it had ends later.
  predicate CooledFor(e: Entry, e': Entry, until: Instant, reason: CoolingReason, id: SelectionId) {
    if Outlasts(e, until) then e' == e
    else
      && e'.coolingUntil == Some(until) && e'.coolingReason == Some(reason)
      && e'.coolingBy == e'.lastFailureBy == Some(id)
      && e'.key == e.key && e'.consecutiveFailures == e.consecutiveFailures && e'.halfOpen == e.halfOpen
      && e'.liveness == e.liveness
  }

  predicate IsPositive(d: Option<Duration>) {
    d.Some? && d.value > 0
  }

  // What the key of an attempt looks like after the report on it.  A 5xx leaves the whole pool alone; a
  // breakdown counts towards the breaker; silence before the first event holds back only this model; a
  // usage limit, a rate limit and a refusal cool the key, each under its own reason.
  lemma OutcomeEffect(policy: Policy, pool: Pool, now: Instant, sel: Selection, u: Upstream, classify: Classifier,
                      model: Model, rep: Report, e: Entry, e': Entry)
    requires Conveys(rep, sel, VerdictOf(u, classify), model)
    requires Lookup(pool, sel.fingerprint) == Some(e)
    requires Lookup(ApplyReport(policy, pool, rep, now), sel.fingerprint) == Some(e')
    ensures u.Status5xx? ==> ApplyReport(policy, pool, rep, now) == pool
    ensures BrokeDown(u) ==>
              && e'.lastFailureBy == Some(sel.id) && e'.backoffStep == e.backoffStep && e'.liveness == e.liveness
              && if e.consecutiveFailures + 1 >= policy.breakerThreshold
                    && !Outlasts(e, Ends(now, policy.breakerCooldown))
                 then e'.halfOpen && e'.consecutiveFailures == 0
                      && e'.coolingUntil == Some(Ends(now, policy.breakerCooldown))
                 else e'.halfOpen == e.halfOpen && e'.consecutiveFailures == e.consecutiveFailures + 1
                      && e'.coolingUntil == e.coolingUntil
    ensures WentSilent(u) ==> e' == e.(liveness := e.liveness[model := Ends(now, policy.backoffInitial)])
    ensures u.Status429? && NamedLimit(u, classify).Some? ==>
              CooledFor(e, e', Ends(now, NamedLimit(u, classify).value), UsageLimit, sel.id)
    ensures u.Status429? && NamedLimit(u, classify).None? && IsPositive(u.retryAfter) ==>
              CooledFor(e, e', Ends(now, u.retryAfter.value), RateLimited, sel.id)
    ensures u.Status429? && NamedLimit(u, classify).None? && !IsPositive(u.retryAfter) ==>
              CooledFor(e, e', Ends(now, Min(rep.jittered, policy.backoffMax)), RateLimited, sel.id)
    ensures u.StatusAuth? ==>
              CooledFor(e, e', Ends(now, if IsPositive(u.retryAfter) then u.retryAfter.value
                                         else Min(rep.jittered, policy.backoffMax)), KeyUnavailable, sel.id)
  {
    hide Lookup, ApplyReport;
    // the report as a step of a world that has issued the selection
    var w := World(pool, now, [], [Pick(0, sel, now)]);
    var ev := Reported(rep);
    assert Issued(w, sel) by {
      assert w.picks[0].sel == sel;
    }
    AsStep(policy, w, rep);
    if u.Status5xx? {
      ServerErrorStep(policy, w, ev);
    } else if BrokeDown(u) {
      NetworkFailureStep(policy, w, ev, sel.fingerprint, e, e');
    } else if WentSilent(u) {
      LivenessFailedStep(policy, w, ev, sel.fingerprint, e, e');
    } else if NamedLimit(u, classify).Some? {
      UsageLimitStep(policy, w, ev, sel.fingerprint, e, e');
    } else {
      ThrottledStep(policy, w, ev, sel.fingerprint, e, e');
    }
  }

  lemma AsStep(policy: Policy, w: World, rep: Report)
    requires Enabled(w, Reported(rep))
    ensures Do(policy, w, Reported(rep)) == w.(pool := ApplyReport(policy, w.pool, rep, w.now))
  {
  }

  // The ledger's reason for an attempt and the report on it agree: nothing is reported exactly for a
  // forwarded attempt, a network failure exactly for the reasons that name one, a liveness failure
  // exactly for a body that went silent; every other report stands beside a retryable response.
  lemma ReasonsMatchReports(u: Upstream, classify: Classifier)
    ensures ReasonOf(u).Forwarded? <==> VerdictOf(u, classify).Nothing?
    ensures ReasonOf(u).TimedOutOnHeaders? || ReasonOf(u).NetworkError?
            || (ReasonOf(u).FailedPrefetch? && ReasonOf(u).why.NetworkError?)
       <==> VerdictOf(u, classify).Fails? && VerdictOf(u, classify).failure.NetworkFailure?
    ensures ReasonOf(u).FailedPrefetch? && !ReasonOf(u).why.NetworkError? <==> VerdictOf(u, classify).NotLively?
    ensures ReasonOf(u).Retryable? <==> u.Status429? || u.StatusAuth? || u.Status5xx?
    ensures u.IsConsumed() ==> ReasonOf(u).Retryable?
  {
  }

  // The error response kept for the client is the last one that was read in full.
  lemma {:induction false} LatestConsumedIs(sels: seq<Selection>, upstream: nat -> Upstream, i: nat)
    requires i < |sels| && upstream(i).IsConsumed()
    requires forall j :: i < j < |sels| ==> !upstream(j).IsConsumed()
    ensures LatestConsumed(sels, upstream) == Some((upstream(i), sels[i].fingerprint))
  {
    if i < |sels| - 1 {
      LatestConsumedIs(sels[..|sels| - 1], upstream, i);
    }
  }

  lemma {:induction false} NoneConsumed(sels: seq<Selection>, upstream: nat -> Upstream)
    requires forall j :: 0 <= j < |sels| ==> !upstream(j).IsConsumed()
    ensures LatestConsumed(sels, upstream).None?
  {
    if sels != [] {
      NoneConsumed(sels[..|sels| - 1], upstream);
    }
  }
}
