/**
  Model non-interference: liveness cooldowns of one model never influence requests of another.
 */
module PoolModels {
  import opened Prelude
  import opened Durations
  import opened PoolModel
  import opened PoolWorld
  import opened PoolRuns

  // Equal but for the liveness deadlines of `m`.
  predicate EntryTwin(m: Model, e: Entry, f: Entry) {
    e.(liveness := f.liveness) == f && e.liveness - {m} == f.liveness - {m}
  }

  predicate PoolTwin(m: Model, p: Pool, q: Pool) {
    p.cursor == q.cursor && p.nextId == q.nextId && |p.entries| == |q.entries|
    && forall i :: 0 <= i < |p.entries| ==> EntryTwin(m, p.entries[i], q.entries[i])
  }

  predicate Twin(m: Model, w: World, v: World) {
    w.now == v.now && w.requests == v.requests && w.picks == v.picks && PoolTwin(m, w.pool, v.pool)
  }

  lemma SameIndex(m: Model, p: Pool, q: Pool, fp: Fingerprint)
    requires PoolTwin(m, p, q)
    ensures IndexOf(p.entries, fp) == IndexOf(q.entries, fp)
  {
    var i, j := IndexOf(p.entries, fp), IndexOf(q.entries, fp);
    if i.Some? {
      assert EntryTwin(m, p.entries[i.value], q.entries[i.value]);
    }
    if j.Some? {
      assert EntryTwin(m, p.entries[j.value], q.entries[j.value]);
    }
  }

  lemma SameLiveness(m: Model, e: Entry, f: Entry, n: Model)
    requires EntryTwin(m, e, f) && n != m
    ensures n in e.liveness <==> n in f.liveness
    ensures n in e.liveness ==> e.liveness[n] == f.liveness[n]
  {
    assert n in e.liveness - {m} <==> n in f.liveness - {m};
    if n in e.liveness - {m} {
      assert (e.liveness - {m})[n] == (f.liveness - {m})[n];
    }
  }

  lemma SameEligibility(m: Model, p: Pool, q: Pool, req: Request, c: Key, now: Instant)
    requires PoolTwin(m, p, q) && req.model != Some(m)
    ensures Eligible(p, req, c, now) <==> Eligible(q, req, c, now)
    ensures PendingRecovery(p, req.model, c, now) == PendingRecovery(q, req.model, c, now)
  {
    SameIndex(m, p, q, c.fingerprint);
    var i := IndexOf(p.entries, c.fingerprint);
    if i.Some? && req.model.Some? {
      SameLiveness(m, p.entries[i.value], q.entries[i.value], req.model.value);
    }
  }

  // Twin pools make the same selection.
  lemma SameSelection(m: Model, p: Pool, q: Pool, req: Request, now: Instant)
    requires PoolTwin(m, p, q) && req.model != Some(m)
    ensures SelectedKey(p, req, now) == SelectedKey(q, req, now)
  {
    var i, j := FirstEligible(p, req, now, 0), FirstEligible(q, req, now, 0);
    forall c ensures Eligible(p, req, c, now) <==> Eligible(q, req, c, now) {
      SameEligibility(m, p, q, req, c, now);
    }
    if i.Some? && j.Some? {
      assert !(i.value < j.value) && !(j.value < i.value);
    }
  }

  lemma {:induction false} SameEarliest(m: Model, p: Pool, q: Pool, req: Request, candidates: seq<Key>, now: Instant)
    requires PoolTwin(m, p, q) && req.model != Some(m)
    ensures EarliestOf(p, req.model, candidates, now) == EarliestOf(q, req.model, candidates, now)
  {
    if candidates != [] {
      SameEligibility(m, p, q, req, candidates[0], now);
      SameEarliest(m, p, q, req, candidates[1..], now);
    }
  }

  // Twin pools recover at the same instant.
  lemma SameWait(m: Model, p: Pool, q: Pool, req: Request, now: Instant)
    requires PoolTwin(m, p, q) && req.model != Some(m)
    ensures EarliestRecovery(p, req, now) == EarliestRecovery(q, req, now)
  {
    SameEarliest(m, p, q, req, req.candidates, now);
  }

  lemma {:induction false} SameScan(m: Model, p: Pool, q: Pool, cursor: nat, now: Instant, off: nat)
    requires PoolTwin(m, p, q) && 1 <= off
    ensures ScanFrom(p.entries, cursor, now, off) == ScanFrom(q.entries, cursor, now, off)
    decreases |p.entries| + 1 - off
  {
    if off <= |p.entries| {
      var i := CyclicIndex(|p.entries|, cursor, off);
      assert EntryTwin(m, p.entries[i], q.entries[i]);
      SameScan(m, p, q, cursor, now, off + 1);
    }
  }

  // Failures neither read nor write liveness deadlines.
  lemma FailureIgnoresLiveness(policy: Policy, e: Entry, l: map<Model, Instant>, id: SelectionId,
                               failure: Failure, jittered: Duration, now: Instant)
    ensures AfterFailure(policy, e.(liveness := l), id, failure, jittered, now)
            == AfterFailure(policy, e, id, failure, jittered, now).(liveness := l)
    ensures AppliesCooldown(policy, e.(liveness := l), failure, jittered, now)
            == AppliesCooldown(policy, e, failure, jittered, now)
    ensures AfterFailure(policy, e, id, failure, jittered, now).liveness == e.liveness
  {
    match failure
    case UsageLimitHit(_, _) =>
    case TooManyRequests(_) =>
    case KeyRefused(_) =>
    case ServerError =>
    case NetworkFailure =>
  }

  lemma TwinLiveness(m: Model, a: map<Model, Instant>, b: map<Model, Instant>, n: Model, d: Instant)
    requires a - {m} == b - {m}
    ensures a[n := d] - {m} == b[n := d] - {m}
  {
    if n == m {
      assert a[n := d] - {m} == a - {m};
      assert b[n := d] - {m} == b - {m};
    } else {
      assert a[n := d] - {m} == (a - {m})[n := d];
      assert b[n := d] - {m} == (b - {m})[n := d];
    }
  }

  lemma TwinReport(m: Model, policy: Policy, e: Entry, f: Entry, rep: Report, newId: SelectionId, now: Instant)
    requires EntryTwin(m, e, f)
    ensures EntryTwin(m, EntryAfter(policy, e, rep, newId, now), EntryAfter(policy, f, rep, newId, now))
    ensures MovesCursor(policy, e, rep, now) == MovesCursor(policy, f, rep, now)
  {
    match rep
    case Success(_) =>
    case Failed(sel, failure, jittered) =>
      FailureIgnoresLiveness(policy, e, f.liveness, sel.id, failure, jittered, now);
    case LivenessFailed(_, n) =>
      TwinLiveness(m, e.liveness, f.liveness, n, DeadlineAfter(now, policy.backoffInitial));
    case ProactiveCooldown(_, _, _) =>
  }

  lemma TwinAfterReport(m: Model, policy: Policy, p: Pool, q: Pool, rep: Report, now: Instant)
    requires PoolTwin(m, p, q)
    ensures PoolTwin(m, ApplyReport(policy, p, rep, now), ApplyReport(policy, q, rep, now))
  {
    SameIndex(m, p, q, rep.Target());
    var i := IndexOf(p.entries, rep.Target());
    if i.Some? {
      TwinReport(m, policy, p.entries[i.value], q.entries[i.value], rep, p.nextId, now);
      var p', q' := ApplyReport(policy, p, rep, now), ApplyReport(policy, q, rep, now);
      var cursorless, cursorless' := p'.(cursor := p.cursor), q'.(cursor := p.cursor);
      assert PoolTwin(m, cursorless, cursorless');
      SameScan(m, cursorless, cursorless', p.cursor, if rep.ProactiveCooldown? then rep.at else now, 1);
    }
  }

  lemma TwinAfterSelect(m: Model, policy: Policy, p: Pool, q: Pool, req: Request, now: Instant)
    requires PoolTwin(m, p, q) && req.model != Some(m)
    ensures PoolTwin(m, PoolAfterSelect(policy, p, req, now), PoolAfterSelect(policy, q, req, now))
  {
    SameSelection(m, p, q, req, now);
    var sel := SelectedKey(p, req, now);
    if sel.Some? {
      SameIndex(m, p, q, sel.value.fingerprint);
      var i := IndexOf(p.entries, sel.value.fingerprint).value;
      assert EntryTwin(m, p.entries[i], q.entries[i]);
    }
  }

  lemma TwinAfterReplace(m: Model, p: Pool, q: Pool, keys: seq<Key>)
    requires PoolTwin(m, p, q)
    ensures PoolTwin(m, ReplaceKeys(p, keys), ReplaceKeys(q, keys))
  {
    forall key ensures EntryTwin(m, Carried(p, key), Carried(q, key)) {
      SameIndex(m, p, q, key.fingerprint);
    }
  }

  lemma TwinCandidates(m: Model, p: Pool, q: Pool)
    requires PoolTwin(m, p, q)
    ensures CyclicKeys(p) == CyclicKeys(q)
  {
  }

  // No request of model `m` is alive or started.
  predicate Avoids(w: World, ev: Event, m: Model) {
    (forall r :: 0 <= r < |w.requests| ==> w.requests[r].model != Some(m))
    && (ev.Begin? ==> ev.forModel != Some(m)) && (ev.SetModel? ==> ev.model != m)
  }

  // The same event takes twins to twins.
  lemma TwinStep(m: Model, policy: Policy, w: World, v: World, ev: Event)
    requires Twin(m, w, v) && Enabled(w, ev) && Avoids(w, ev, m)
    ensures Enabled(v, ev) && Selected(w, ev) == Selected(v, ev)
    ensures Twin(m, Do(policy, w, ev), Do(policy, v, ev))
  {
    match ev {
      case Tick(_) =>
      case Begin(_) => TwinCandidates(m, w.pool, v.pool);
      case SetModel(_, _) =>
      case Select(r) =>
        SameSelection(m, w.pool, v.pool, w.requests[r], w.now);
        TwinAfterSelect(m, policy, w.pool, v.pool, w.requests[r], w.now);
      case Reported(rep) => TwinAfterReport(m, policy, w.pool, v.pool, rep, w.now);
      case Replace(keys) => TwinAfterReplace(m, w.pool, v.pool, keys);
    }
  }

  predicate LivenessOf(ev: Event, m: Model) {
    ev.Reported? && ev.report.LivenessFailed? && ev.report.model == m
  }

  // A liveness report for `m` leaves a twin behind.
  lemma LivenessTwin(m: Model, policy: Policy, w: World, v: World, ev: Event)
    requires Twin(m, w, v) && Enabled(w, ev) && LivenessOf(ev, m)
    ensures Twin(m, Do(policy, w, ev), v)
  {
    var i := IndexOf(w.pool.entries, ev.report.Target());
    if i.Some? {
      var e := w.pool.entries[i.value];
      var d := DeadlineAfter(w.now, policy.backoffInitial);
      assert EntryTwin(m, e, v.pool.entries[i.value]);
      assert e.liveness[m := d] - {m} == e.liveness - {m};
    }
  }

  // The events without the liveness reports for `m`.
  function Purge(es: seq<Event>, m: Model): seq<Event> {
    if es == [] then []
    else
      var last := es[|es| - 1];
      Purge(es[..|es| - 1], m) + if LivenessOf(last, m) then [] else [last]
  }

  // Two worlds that differ only in liveness deadlines of `m`, and a run from one of them without
  // requests of `m`: from the other, the run without the liveness reports for `m` exists, with the
  // same clock, the same requests, the same selections at the same instants with the same ids, and
  // the same cursor.
  lemma {:induction false} NonInterference(m: Model, policy: Policy, ws: seq<World>, es: seq<Event>, v0: World)
    returns (vs: seq<World>)
    requires IsRun(policy, ws, es) && Twin(m, ws[0], v0)
    requires forall k :: 0 <= k < |es| ==> Avoids(ws[k], es[k], m)
    ensures IsRun(policy, vs, Purge(es, m)) && vs[0] == v0
    ensures Twin(m, ws[|es|], vs[|vs| - 1])
  {
    if es == [] {
      vs := [v0];
    } else {
      var n := |es| - 1;
      var ws0, es0 := ws[..n + 1], es[..n];
      forall k | 0 <= k < n ensures StepAt(policy, ws0, es0, k) {
        assert StepAt(policy, ws, es, k);
      }
      vs := NonInterference(m, policy, ws0, es0, v0);
      assert StepAt(policy, ws, es, n);
      var v := vs[|vs| - 1];
      if LivenessOf(es[n], m) {
        assert Purge(es, m) == Purge(es0, m);
        LivenessTwin(m, policy, ws[n], v, es[n]);
      } else {
        TwinStep(m, policy, ws[n], v, es[n]);
        ExtendRun(policy, vs, Purge(es0, m), es[n]);
        vs := vs + [Do(policy, v, es[n])];
      }
    }
  }
}
