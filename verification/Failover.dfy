/**
  The failover loop of a proxied request: which keys it tries, what it tells the pool about each of
  them, what the audit ledger says, and how it ends.
 */
module Failover {
  import opened Prelude
  import opened Durations
  import opened PoolModel
  import opened KeyPools
  import opened Attempts
  import opened Sse
  import Pump

  const MAX_AUDIT_ATTEMPTS: nat := 2

  // An upstream error body after the bounded read: complete, or larger than the cap.
  datatype ErrorBody = Buffered(text: string) | Oversized

  // What one attempt runs into.  A `body` of None is a body that stalled or broke while being read.
  datatype Upstream =
    | HeaderTimeout
    | SendFailed
    | Status429(retryAfter: Option<Duration>, body: Option<ErrorBody>)
    | StatusAuth(retryAfter: Option<Duration>, body: Option<ErrorBody>)
    | Status5xx(body: Option<ErrorBody>)
    | NotPrepared(why: Pump.PrefetchReason)
    | Prepared
  {
    // An error response received in full, which the client may be given.
    predicate IsConsumed() {
      (Status429? || StatusAuth? || Status5xx?) && body.Some?
    }
  }

  type Classifier = string -> Option<(UsageDimension, Duration)>

  // What the pool must be told about an attempt.
  datatype Verdict = Fails(failure: Failure) | NotLively | Nothing

  function VerdictOf(u: Upstream, classify: Classifier): Verdict {
    match u
    case HeaderTimeout => Fails(NetworkFailure)
    case SendFailed => Fails(NetworkFailure)
    case Status429(ra, body) =>
      if body.Some? && body.value.Buffered? && classify(body.value.text).Some? then
        var limit := classify(body.value.text).value;
        Fails(UsageLimitHit(limit.0, limit.1))
      else Fails(TooManyRequests(ra))
    case StatusAuth(ra, _) => Fails(KeyRefused(ra))
    case Status5xx(_) => Fails(ServerError)
    case NotPrepared(why) => if why.NetworkError? then Fails(NetworkFailure) else NotLively
    case Prepared => Nothing
  }

  lemma NothingOnlyIfPrepared(u: Upstream, classify: Classifier)
    ensures VerdictOf(u, classify).Nothing? <==> u.Prepared?
  {
  }

  // The report says the verdict about the selection.
  predicate Conveys(rep: Report, sel: Selection, v: Verdict, model: Model) {
    match v
    case Fails(failure) => rep.Failed? && rep.sel == sel && rep.failure == failure
    case NotLively => rep == LivenessFailed(sel, model)
    case Nothing => false
  }

  datatype Reason = TimedOutOnHeaders | NetworkError | Retryable | FailedPrefetch(why: Pump.PrefetchReason) | Forwarded

  // An entry of the audit ledger.
  datatype Summary = Summary(
    number: nat, fingerprint: Fingerprint, precommit: bool, committed: bool, reason: Reason,
    failoverTarget: Option<Fingerprint>)

  function ReasonOf(u: Upstream): Reason {
    match u
    case HeaderTimeout => TimedOutOnHeaders
    case SendFailed => NetworkError
    case NotPrepared(why) => FailedPrefetch(why)
    case Prepared => Forwarded
    case _ => Retryable
  }

  datatype FinalOutcome =
    | AllCooling(retryAfter: nat)
    | LastResponse(response: Option<(Upstream, Fingerprint)>)
    | Forward(sel: Selection)
    | Abandoned(inFlight: bool)

  // The handler may be dropped by its client at a point where it waits: for a key, or for the upstream.
  datatype Patience = Stays | LeavesWaiting | LeavesInFlight

  // The latest consumed error among the first attempts, with the key that gave it.
  function LatestConsumed(sels: seq<Selection>, upstream: nat -> Upstream): Option<(Upstream, Fingerprint)> {
    if sels == [] then None
    else
      var last := |sels| - 1;
      if upstream(last).IsConsumed() then Some((upstream(last), sels[last].fingerprint))
      else LatestConsumed(sels[..last], upstream)
  }

  // The summary the ledger must hold for attempt `i`: it names its successor, if there is one.
  function SummaryOf(sels: seq<Selection>, upstream: nat -> Upstream, i: nat): Summary
    requires i < |sels|
  {
    Summary(i + 1, sels[i].fingerprint, !upstream(i).Prepared?, upstream(i).Prepared?, ReasonOf(upstream(i)),
            if i + 1 < |sels| then Some(sels[i + 1].fingerprint) else None)
  }

  // The ledger lists exactly the selections, in order.
  predicate LedgerOf(ledger: seq<Summary>, sels: seq<Selection>, upstream: nat -> Upstream) {
    |ledger| == |sels| && forall i :: 0 <= i < |sels| ==> ledger[i] == SummaryOf(sels, upstream, i)
  }

  // Selections that are answered by exactly one report each, in order.
  predicate ReportedOnce(reports: seq<Report>, sels: seq<Selection>, upstream: nat -> Upstream,
                         classify: Classifier, model: Model)
  {
    |reports| == |sels|
    && forall i :: 0 <= i < |sels| ==> Conveys(reports[i], sels[i], VerdictOf(upstream(i), classify), model)
  }

  // Selections of one request: distinct ids in the order they were drawn, distinct keys.
  predicate InDrawOrder(sels: seq<Selection>, nextId: SelectionId) {
    (forall i :: 0 <= i < |sels| ==> sels[i].id < nextId)
    && forall i, j :: 0 <= i < j < |sels| ==> sels[i].id < sels[j].id
  }

  function Fingerprints(sels: seq<Selection>): seq<Fingerprint> {
    seq(|sels|, i requires 0 <= i < |sels| => sels[i].fingerprint)
  }

  // The ledger keeps at most two summaries; a third would be dropped silently.
  function Push(ledger: seq<Summary>, s: Summary): seq<Summary> {
    if |ledger| < MAX_AUDIT_ATTEMPTS then ledger + [s] else ledger
  }

  // Before a new attempt, the previous one is told where the request went next.
  function Redirect(ledger: seq<Summary>, fp: Fingerprint): seq<Summary> {
    if ledger == [] then ledger
    else
      var last := |ledger| - 1;
      if ledger[last].precommit && ledger[last].failoverTarget.None?
      then ledger[last := ledger[last].(failoverTarget := Some(fp))] else ledger
  }

  // The ledger with one more attempt.
  function Recorded(ledger: seq<Summary>, sel: Selection, u: Upstream): seq<Summary> {
    var redirected := Redirect(ledger, sel.fingerprint);
    Push(redirected, Summary(|redirected| + 1, sel.fingerprint, !u.Prepared?, u.Prepared?, ReasonOf(u), None))
  }

  lemma LedgerGrows(ledger: seq<Summary>, sels: seq<Selection>, upstream: nat -> Upstream, sel: Selection)
    requires LedgerOf(ledger, sels, upstream) && |sels| < MAX_AUDIT_ATTEMPTS
    requires forall i :: 0 <= i < |sels| ==> !upstream(i).Prepared?
    ensures LedgerOf(Recorded(ledger, sel, upstream(|sels|)), sels + [sel], upstream)
  {
    var more, sels' := Recorded(ledger, sel, upstream(|sels|)), sels + [sel];
    forall i | 0 <= i < |sels'| ensures more[i] == SummaryOf(sels', upstream, i) {
      if i < |sels| {
        assert ledger[i] == SummaryOf(sels, upstream, i);
      }
    }
  }

  lemma ConsumedGrows(sels: seq<Selection>, upstream: nat -> Upstream, sel: Selection)
    ensures LatestConsumed(sels + [sel], upstream)
            == if upstream(|sels|).IsConsumed() then Some((upstream(|sels|), sel.fingerprint))
               else LatestConsumed(sels, upstream)
  {
    assert (sels + [sel])[..|sels|] == sels;
  }

  lemma ReportsGrow(reports: seq<Report>, sels: seq<Selection>, upstream: nat -> Upstream, classify: Classifier,
                    model: Model, rep: Report, sel: Selection)
    requires ReportedOnce(reports, sels, upstream, classify, model)
    requires Conveys(rep, sel, VerdictOf(upstream(|sels|), classify), model)
    ensures ReportedOnce(reports + [rep], sels + [sel], upstream, classify, model)
  {
  }

  // Tells the pool the verdict on one attempt.
  method TellPool(pool: KeyPool, sel: Selection, v: Verdict, model: Model, jitter: Duration -> Duration)
    requires pool.Valid() && sel.id < pool.nextId && !v.Nothing?
    modifies pool
    ensures pool.Valid() && pool.nextId == old(pool.nextId) && pool.now == old(pool.now)
    ensures |pool.told| == |old(pool.told)| + 1 && pool.told[..|old(pool.told)|] == old(pool.told)
    ensures Conveys(pool.told[|old(pool.told)|], sel, v, model)
  {
    match v {
      case Fails(failure) => pool.ReportFailure(sel, failure, jitter);
      case NotLively => pool.ReportLivenessFailure(sel, model);
    }
  }

  // What an answer of the tracker says about the pool at its last selection attempt: a key was found, or
  // none was and the request could not or may not wait any longer.
  predicate AnswerOk(result: AttemptResult, mayWait: bool, req: Request, tried: Pool, triedAt: Instant) {
    var spent, found := |req.used| >= req.maxAttempts, SelectedKey(tried, req, triedAt);
    match result
    case Selected(sel) => !spent && found == Some(sel)
    case Unavailable(_) => mayWait && !spent && req.HasUnused() && found.None?
    case Exhausted => spent || (found.None? && (!mayWait || !req.HasUnused()))
  }

  // The wait told, `wait`, is the one to the next recovery as of the clock reading `readAt`; before the
  // deadline there is none.
  predicate TellsWait(wait: nat, req: Request, pool: Pool, now: Instant, readAt: Instant) {
    var e := EarliestRecovery(pool, req, now);
    && readAt <= now && (readAt < req.deadline ==> e.None?)
    && readAt + wait == (if e.Some? then e.value else readAt)
  }

  lemma NothingUnused(req: Request, pool: Pool, now: Instant)
    requires !req.HasUnused()
    ensures SelectedKey(pool, req, now).None?
  {
  }

  // Acquires a key: waiting is allowed only while no error response has been received.
  method Acquire(attempts: RequestAttempts, mayWait: bool)
    returns (result: AttemptResult, ghost tried: Pool, ghost triedAt: Instant, ghost readAt: Instant)
    requires attempts.Valid()
    modifies attempts`used, attempts.pool
    ensures attempts.Valid() && old(attempts.pool.nextId) <= attempts.pool.nextId
    ensures attempts.pool.told == old(attempts.pool.told)
    ensures AnswerOk(result, mayWait, old(attempts.View()), tried, triedAt) && (!mayWait ==> !result.Unavailable?)
    ensures result.Unavailable? ==>
              TellsWait(result.retryAfter, attempts.View(), attempts.pool.State(), attempts.pool.now, readAt)
    ensures result.Selected? ==>
              && attempts.View() == old(attempts.View()).(used := old(attempts.used) + [result.sel.fingerprint])
              && old(attempts.pool.nextId) <= result.sel.id < attempts.pool.nextId
    ensures !result.Selected? ==> attempts.View() == old(attempts.View())
  {
    hide Eligible, FirstEligible, EarliestOf, Lawful;
    readAt := attempts.pool.now;
    if mayWait {
      ghost var naps;
      result, tried, triedAt, readAt, naps := attempts.Next();
      if !old(attempts.View()).HasUnused() {
        NothingUnused(old(attempts.View()), tried, triedAt);
      }
    } else {
      attempts.pool.Yield();
      tried, triedAt := attempts.pool.State(), attempts.pool.now;
      result := attempts.NextImmediate();
    }
  }

  // The loop's own books, apart from the pool: ledger, selections, reports and the last error.
  ghost predicate Books(ledger: seq<Summary>, sels: seq<Selection>, reports: seq<Report>,
                        lastResponse: Option<(Upstream, Fingerprint)>, upstream: nat -> Upstream,
                        classify: Classifier, model: Model)
  {
    LedgerOf(ledger, sels, upstream) && ReportedOnce(reports, sels, upstream, classify, model)
    && lastResponse == LatestConsumed(sels, upstream)
    && forall i :: 0 <= i < |sels| ==> !upstream(i).Prepared?
  }

  lemma BooksGrow(ledger: seq<Summary>, sels: seq<Selection>, reports: seq<Report>,
                  lastResponse: Option<(Upstream, Fingerprint)>, upstream: nat -> Upstream,
                  classify: Classifier, model: Model, sel: Selection, rep: Report)
    requires Books(ledger, sels, reports, lastResponse, upstream, classify, model)
    requires |sels| < MAX_AUDIT_ATTEMPTS && !upstream(|sels|).Prepared?
    requires Conveys(rep, sel, VerdictOf(upstream(|sels|), classify), model)
    ensures var u := upstream(|sels|);
            Books(Recorded(ledger, sel, u), sels + [sel], reports + [rep],
                  if u.IsConsumed() then Some((u, sel.fingerprint)) else lastResponse,
                  upstream, classify, model)
  {
    LedgerGrows(ledger, sels, upstream, sel);
    ConsumedGrows(sels, upstream, sel);
    ReportsGrow(reports, sels, upstream, classify, model, rep, sel);
  }

  lemma BooksSay(ledger: seq<Summary>, sels: seq<Selection>, reports: seq<Report>,
                 lastResponse: Option<(Upstream, Fingerprint)>, upstream: nat -> Upstream,
                 classify: Classifier, model: Model)
    requires Books(ledger, sels, reports, lastResponse, upstream, classify, model)
    ensures LedgerOf(ledger, sels, upstream) && ReportedOnce(reports, sels, upstream, classify, model)
    ensures lastResponse == LatestConsumed(sels, upstream)
    ensures forall i :: 0 <= i < |sels| ==> !upstream(i).Prepared?
  {
  }

  lemma NothingTried(attempts: RequestAttempts)
    requires attempts.Valid() && attempts.used == []
    ensures Tracked(attempts, [])
  {
  }

  lemma NothingBooked(upstream: nat -> Upstream, classify: Classifier, model: Model)
    ensures Books([], [], [], None, upstream, classify, model)
  {
  }

  // The selections made so far are the tracker's.
  ghost predicate Tracked(attempts: RequestAttempts, sels: seq<Selection>)
    reads attempts, attempts.pool
  {
    attempts.Valid() && Fingerprints(sels) == attempts.used && InDrawOrder(sels, attempts.pool.nextId)
  }

  // One more key, or none.
  method AcquireNext(attempts: RequestAttempts, sels: seq<Selection>, mayWait: bool)
    returns (result: AttemptResult, more: seq<Selection>, ghost tried: Pool, ghost triedAt: Instant,
             ghost readAt: Instant)
    requires Tracked(attempts, sels)
    modifies attempts`used, attempts.pool
    ensures Tracked(attempts, more) && attempts.pool.told == old(attempts.pool.told)
    ensures AnswerOk(result, mayWait, old(attempts.View()), tried, triedAt) && (!mayWait ==> !result.Unavailable?)
    ensures result.Unavailable? ==>
              TellsWait(result.retryAfter, attempts.View(), attempts.pool.State(), attempts.pool.now, readAt)
    ensures !result.Selected? ==> attempts.View() == old(attempts.View())
    ensures if result.Selected? then more == sels + [result.sel] && |sels| < attempts.maxAttempts <= MAX_AUDIT_ATTEMPTS
            else more == sels
  {
    hide SelectedKey, EarliestRecovery;
    result, tried, triedAt, readAt := Acquire(attempts, mayWait);
    more := sels;
    if result.Selected? {
      more := sels + [result.sel];
      assert Fingerprints(more) == Fingerprints(sels) + [result.sel.fingerprint];
    }
  }

  method SettleAttempt(attempts: RequestAttempts, sels: seq<Selection>, sel: Selection, v: Verdict, model: Model,
                       jitter: Duration -> Duration) returns (ghost rep: Report)
    requires Tracked(attempts, sels) && sel in sels && !v.Nothing?
    modifies attempts.pool
    ensures Tracked(attempts, sels)
    ensures attempts.pool.told == old(attempts.pool.told) + [rep] && Conveys(rep, sel, v, model)
  {
    attempts.pool.Yield();
    TellPool(attempts.pool, sel, v, model, jitter);
    rep := attempts.pool.told[|attempts.pool.told| - 1];
  }

  // The selections the loop has told the pool about: not the forwarded one, and not one that was
  // abandoned in flight.
  function Answered(outcome: FinalOutcome, sels: seq<Selection>): seq<Selection> {
    if sels != [] && (outcome.Forward? || (outcome.Abandoned? && outcome.inFlight)) then sels[..|sels| - 1] else sels
  }

  method Run(attempts: RequestAttempts, upstream: nat -> Upstream, patience: nat -> Patience, classify: Classifier,
             model: Model, jitter: Duration -> Duration)
    returns (outcome: FinalOutcome, ledger: seq<Summary>, sels: seq<Selection>,
             ghost tried: Pool, ghost triedAt: Instant, ghost readAt: Instant)
    requires Tracked(attempts, [])
    modifies attempts`used, attempts.pool
    // the keys tried are exactly the keys the tracker gave out, at most two of them
    ensures Tracked(attempts, sels) && |sels| <= 2
    // the ledger misses none of them
    ensures !outcome.Abandoned? ==> LedgerOf(ledger, sels, upstream)
    // only the last attempt can be forwarded
    ensures forall i :: 0 <= i < |sels| - 1 ==> !upstream(i).Prepared?
    ensures !outcome.Abandoned? ==> (outcome.Forward? <==> sels != [] && upstream(|sels| - 1).Prepared?)
    ensures outcome.Forward? ==> outcome.sel == sels[|sels| - 1]
    // every other attempt is reported to the pool exactly once, the forwarded one not yet
    ensures old(attempts.pool.told) <= attempts.pool.told
    ensures ReportedOnce(attempts.pool.told[|old(attempts.pool.told)|..], Answered(outcome, sels), upstream, classify,
                         model)
    // an error response, once received, can only give way to a later one or to a forwarded response
    ensures !outcome.Forward? && !outcome.Abandoned? && LatestConsumed(sels, upstream).Some? ==>
              outcome == LastResponse(LatestConsumed(sels, upstream))
    ensures outcome.LastResponse? ==> outcome.response == LatestConsumed(sels, upstream)
    // the loop goes on as long as the tracker has a key to give: without a forwarded response it ends
    // only when the budget is spent, no key is untried, or, with an error held, none was usable
    ensures outcome.LastResponse? ==>
              AnswerOk(Exhausted, LatestConsumed(sels, upstream).None?, attempts.View(), tried, triedAt)
    ensures outcome.AllCooling? ==>
              && AnswerOk(Unavailable(outcome.retryAfter), LatestConsumed(sels, upstream).None?, attempts.View(),
                          tried, triedAt)
              && TellsWait(outcome.retryAfter, attempts.View(), attempts.pool.State(), attempts.pool.now, readAt)
    // the handler is abandoned exactly where its client leaves, in flight only with a selection made
    ensures outcome.Abandoned? ==> if outcome.inFlight then sels != [] && patience(|sels| - 1).LeavesInFlight?
                                   else patience(|sels|).LeavesWaiting?
    ensures forall i :: 0 <= i < |sels| && patience(i).LeavesInFlight? ==>
              i == |sels| - 1 && outcome == Abandoned(true)
  {
    hide Tracked, Books, LedgerOf, ReportedOnce, LatestConsumed, AnswerOk, TellsWait, SelectedKey, EarliestRecovery;
    hide VerdictOf, Conveys, Recorded, Lawful;
    tried, triedAt, readAt := attempts.pool.State(), attempts.pool.now, attempts.pool.now;
    var lastResponse: Option<(Upstream, Fingerprint)> := None;
    ledger, sels := [], [];
    ghost var reports: seq<Report> := [];
    NothingBooked(upstream, classify, model);
    while true
      invariant Tracked(attempts, sels)
      invariant Books(ledger, sels, reports, lastResponse, upstream, classify, model)
      invariant attempts.pool.told == old(attempts.pool.told) + reports
      invariant |sels| <= MAX_AUDIT_ATTEMPTS
      invariant forall i :: 0 <= i < |sels| ==> !patience(i).LeavesInFlight?
      decreases MAX_AUDIT_ATTEMPTS - |sels|
    {
      BooksSay(ledger, sels, reports, lastResponse, upstream, classify, model);
      if patience(|sels|).LeavesWaiting? && lastResponse.None? {
        outcome := Abandoned(false);
        break;
      }
      var next, more;
      next, more, tried, triedAt, readAt := AcquireNext(attempts, sels, lastResponse.None?);
      if next.Unavailable? {
        outcome := AllCooling(next.retryAfter);
        break;
      } else if next.Exhausted? {
        outcome := LastResponse(lastResponse);
        break;
      }
      var sel, u := next.sel, upstream(|sels|);
      assert more[..|sels|] == sels;
      if patience(|sels|).LeavesInFlight? {
        outcome, sels := Abandoned(true), more;
        break;
      }
      if u.Prepared? {
        LedgerGrows(ledger, sels, upstream, sel);
        outcome, ledger, sels := Forward(sel), Recorded(ledger, sel, u), more;
        break;
      }
      NothingOnlyIfPrepared(u, classify);
      ghost var rep := SettleAttempt(attempts, more, sel, VerdictOf(u, classify), model, jitter);
      BooksGrow(ledger, sels, reports, lastResponse, upstream, classify, model, sel, rep);
      ledger, sels, reports := Recorded(ledger, sel, u), more, reports + [rep];
      if u.IsConsumed() {
        lastResponse := Some((u, sel.fingerprint));
      }
    }
    assert attempts.pool.told[|old(attempts.pool.told)|..] == reports;
  }

  // What becomes of the forwarded attempt: no slot is left for its stream, or the pump ran.
  datatype StreamEnd = NoSlot | Pumped(outcome: Pump.PumpOutcome)

  predicate GoesUnreported(end: StreamEnd) {
    end.NoSlot? || end.outcome.ClientCancel?
  }

  // The one report the end of the stream calls for.
  predicate ReportsEnd(rep: Report, sel: Selection, end: StreamEnd, model: Model) {
    match end
    case NoSlot => false
    case Pumped(outcome) =>
      match outcome
      case Completed => rep == Success(sel)
      case UpstreamError => rep.Failed? && rep.sel == sel && rep.failure == NetworkFailure
      case ClientCancel => false
      case EventIdleTimeout => rep == LivenessFailed(sel, model)
  }

  method FeedBack(attempts: RequestAttempts, sels: seq<Selection>, sel: Selection, end: StreamEnd, model: Model,
                  jitter: Duration -> Duration) returns (ghost reports: seq<Report>)
    requires Tracked(attempts, sels) && sel in sels
    modifies attempts.pool
    ensures Tracked(attempts, sels) && attempts.pool.told == old(attempts.pool.told) + reports
    ensures if GoesUnreported(end) then reports == [] else |reports| == 1 && ReportsEnd(reports[0], sel, end, model)
  {
    attempts.pool.Yield();
    reports := [];
    if end.NoSlot? {
      return;
    }
    match end.outcome {
      case Completed =>
        attempts.pool.ReportSuccess(sel);
        reports := [Success(sel)];
      case UpstreamError =>
        TellPool(attempts.pool, sel, Fails(NetworkFailure), model, jitter);
        reports := [attempts.pool.told[|attempts.pool.told| - 1]];
      case ClientCancel =>
      case EventIdleTimeout =>
        attempts.pool.ReportLivenessFailure(sel, model);
        reports := [LivenessFailed(sel, model)];
    }
  }

  // One report for each of the selections, in their order, and about none of them a second.
  predicate OneEach(reports: seq<Report>, sels: seq<Selection>) {
    |reports| == |sels|
    && forall i :: 0 <= i < |sels| ==> !reports[i].ProactiveCooldown? && reports[i].sel == sels[i]
  }

  lemma ReportedOnceIsOneEach(reports: seq<Report>, sels: seq<Selection>, upstream: nat -> Upstream,
                              classify: Classifier, model: Model)
    requires ReportedOnce(reports, sels, upstream, classify, model)
    ensures OneEach(reports, sels)
  {
    forall i | 0 <= i < |sels| ensures !reports[i].ProactiveCooldown? && reports[i].sel == sels[i] {
      assert Conveys(reports[i], sels[i], VerdictOf(upstream(i), classify), model);
    }
  }

  // What the attempts' response bodies deliver, and how far a stream may go.
  datatype Body = Body(items: seq<Pump.Item>, streaming: bool, firstEventBy: Instant)

  // The outcome of an attempt that got a response is that of the prefetch of its body.
  ghost predicate Fits(u: Upstream, body: Body, eventCap: nat) {
    && (u.Prepared? ==> Pump.PrefetchEnds(body.items, body.streaming, body.firstEventBy, eventCap, None))
    && (u.NotPrepared? ==> Pump.PrefetchEnds(body.items, body.streaming, body.firstEventBy, eventCap, Some(u.why)))
  }

  // The limits and callbacks of forwarding one body.
  datatype Relay<!U> = Relay(
    idle: Duration, eventCap: nat, jsonCap: nat,
    usageOf: seq<Byte> -> Option<U>, extract: seq<Byte> -> Option<U>, sends: nat -> Pump.Send)

  // The whole request: every selection is reported exactly once, but for one in flight when the client
  // left and for a forwarded one that ended with the client or for want of a stream slot; and the
  // report on a forwarded one says how the pump really ended.  `slot` is whether a stream slot is
  // free, `gone` when the client of a forwarded response vanishes.
  method Serve<U>(attempts: RequestAttempts, upstream: nat -> Upstream, patience: nat -> Patience, bodies: nat -> Body,
                  classify: Classifier, model: Model, jitter: Duration -> Duration, relay: Relay<U>, slot: bool,
                  gone: Option<nat>)
    returns (outcome: FinalOutcome, sels: seq<Selection>, end: StreamEnd, sent: seq<seq<Byte>>,
             ghost plan: Pump.Plan)
    requires attempts.Valid() && attempts.used == []
    requires forall i: nat :: Fits(upstream(i), bodies(i), relay.eventCap)
    modifies attempts`used, attempts.pool
    ensures Tracked(attempts, sels) && old(attempts.pool.told) <= attempts.pool.told
    ensures outcome.Forward? ==> sels != [] && outcome.sel == sels[|sels| - 1]
    ensures var reports := attempts.pool.told[|old(attempts.pool.told)|..];
            if outcome.Forward? && !GoesUnreported(end)
            then OneEach(reports, sels) && ReportsEnd(reports[|sels| - 1], outcome.sel, end, model)
            else OneEach(reports, Answered(outcome, sels))
    // the client gets a prefix of the winning body, and all of it if success is reported
    ensures outcome.Forward? ==> sent <= Pump.DataPrefix(bodies(|sels| - 1).items)
    ensures outcome.Forward? && end == Pumped(Pump.Completed) ==> sent == Pump.DataPrefix(bodies(|sels| - 1).items)
    ensures !outcome.Forward? || end.NoSlot? ==> sent == []
    ensures outcome.Forward? ==> (end.NoSlot? <==> bodies(|sels| - 1).streaming && !slot)
    // success is reported exactly if the relay of the winning body goes well and the client stays
    ensures outcome.Forward? && end.Pumped? ==> WinnerEnds(bodies(|sels| - 1), relay, gone, plan, end)
  {
    hide Tracked, LedgerOf, ReportedOnce, LatestConsumed, Pump.DataPrefix, Pump.PrefetchEnds, Conveys, ReportsEnd;
    hide WinnerEnds, AnswerOk, TellsWait;
    var ledger;
    ghost var tried, triedAt, readAt;
    NothingTried(attempts);
    outcome, ledger, sels, tried, triedAt, readAt := Run(attempts, upstream, patience, classify, model, jitter);
    end, sent := NoSlot, [];
    plan := Pump.Plan(false, 0, 0, [], [], relay.sends, 0);
    ghost var before := old(attempts.pool.told);
    ghost var reports := attempts.pool.told[|before|..];
    ReportedOnceIsOneEach(reports, Answered(outcome, sels), upstream, classify, model);
    if outcome.Forward? {
      var last := |sels| - 1;
      assert Fits(upstream(last), bodies(last), relay.eventCap);
      if slot || !bodies(last).streaming {
        end, sent, plan := ForwardWinner(bodies(last), relay, attempts.pool.now, gone);
      }
      ghost var more := FeedBack(attempts, sels, outcome.sel, end, model, jitter);
      assert attempts.pool.told[|before|..] == reports + more;
      ReportsJoin(reports, more, sels, end, model);
    }
  }

  lemma ReportsJoin(reports: seq<Report>, more: seq<Report>, sels: seq<Selection>, end: StreamEnd, model: Model)
    requires sels != [] && OneEach(reports, sels[..|sels| - 1])
    requires if GoesUnreported(end) then more == []
             else |more| == 1 && ReportsEnd(more[0], sels[|sels| - 1], end, model)
    ensures if GoesUnreported(end) then reports + more == reports
            else OneEach(reports + more, sels)
                 && ReportsEnd((reports + more)[|sels| - 1], sels[|sels| - 1], end, model)
  {
    assert sels == sels[..|sels| - 1] + [sels[|sels| - 1]];
  }

  // How the relay of the winning body ended: as its plan says, unless the client vanished.
  ghost predicate WinnerEnds<U>(body: Body, relay: Relay<U>, gone: Option<nat>, plan: Pump.Plan, end: StreamEnd) {
    && end.Pumped?
    && Pump.PlanFor(plan, body.items, body.streaming, body.firstEventBy, relay.idle, relay.eventCap, relay.sends,
                    plan.start)
    && (gone.Some? ==> end.outcome.ClientCancel?)
    && (gone.None? ==>
          && (exists read :: Pump.PumpEnds(plan, read, end.outcome))
          && (end.outcome.Completed? <==> Pump.Healthy(plan)))
  }

  // The body of the winning attempt, whose prefetch has succeeded.
  method ForwardWinner<U>(body: Body, relay: Relay<U>, now: Instant, gone: Option<nat>)
    returns (end: StreamEnd, sent: seq<seq<Byte>>, ghost plan: Pump.Plan)
    requires Pump.PrefetchEnds(body.items, body.streaming, body.firstEventBy, relay.eventCap, None)
    ensures end.Pumped? && sent <= Pump.DataPrefix(body.items)
    ensures end.outcome.Completed? ==> sent == Pump.DataPrefix(body.items)
    ensures WinnerEnds(body, relay, gone, plan, end)
  {
    hide Pump.DataPrefix, Pump.PrefetchEnds, Pump.PumpEnds, Pump.Healthy, Pump.IsPrefetch;
    var result;
    result, sent, plan :=
      Pump.ForwardBody(body.items, body.streaming, body.firstEventBy, relay.idle, relay.eventCap, relay.jsonCap,
                       relay.usageOf, relay.extract, relay.sends, now, gone);
    ghost var failure := if result.NotCommitted? then Some(result.reason) else None;
    Pump.PrefetchEndsOneWay(body.items, body.streaming, body.firstEventBy, relay.eventCap, failure, None);
    end := Pumped(result.outcome);
  }
}
