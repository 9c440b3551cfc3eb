/**
  The request-scoped attempt tracker: selecting a key now, waiting for one, and what an
  `Unavailable` answer means.
 */
module Attempts {
  import opened Prelude
  import opened Durations
  import opened PoolModel
  import opened PoolWorld
  import opened KeyPools

  datatype AttemptResult = Selected(sel: Selection) | Unavailable(retryAfter: nat) | Exhausted

  // ---------------------------------------------------------------------------------------------
  // Waiting and giving up

  predicate Removed(pool: Pool, c: Key) {
    Lookup(pool, c.fingerprint).None?
  }

  // A present candidate is selectable at `t` exactly when its recovery instant is not after `t`.
  lemma SelectableFromRecovery(e: Entry, model: Option<Model>, t: Instant)
    ensures e.Selectable(model, t) <==> (e.Recovery(model).Some? ==> e.Recovery(model).value <= t)
  {
  }

  // No candidate, used or not, has a recovery after `t`.
  predicate NothingPending(pool: Pool, req: Request, t: Instant) {
    forall c :: c in req.candidates ==> PendingRecovery(pool, req.model, c, t).None?
  }

  lemma EarliestIffPending(pool: Pool, req: Request, t: Instant)
    ensures EarliestRecovery(pool, req, t).None? <==> NothingPending(pool, req, t)
  {
  }

  // Every candidate not tried yet has left the pool.
  predicate AllRemoved(pool: Pool, req: Request) {
    forall c :: c in req.candidates && c.fingerprint !in req.used ==> Removed(pool, c)
  }

  // Giving up before the deadline takes a selection attempt that found nothing, on pool `p1` at `t1`,
  // and a recovery query that found nothing, on pool `p2` at `t2`.  The lock is free in between.
  // This is exactly: nothing is pending at the query, and every untried candidate was not eligible
  // at the attempt and is either gone or eligible at the query.
  lemma GivesUpIff(req: Request, p1: Pool, t1: Instant, p2: Pool, t2: Instant)
    ensures SelectedKey(p1, req, t1).None? && EarliestRecovery(p2, req, t2).None?
       <==> NothingPending(p2, req, t2)
            && forall c :: c in req.candidates && c.fingerprint !in req.used ==>
                 !Eligible(p1, req, c, t1) && (Removed(p2, c) || Eligible(p2, req, c, t2))
  {
    EarliestIffPending(p2, req, t2);
    if SelectedKey(p1, req, t1).None? && EarliestRecovery(p2, req, t2).None? {
      forall c | c in req.candidates && c.fingerprint !in req.used && !Removed(p2, c)
        ensures Eligible(p2, req, c, t2)
      {
        SelectableFromRecovery(Lookup(p2, c.fingerprint).value, req.model, t2);
      }
    }
  }

  // A request that gives up does so because its keys are gone if and only if a second attempt, at the
  // moment of the query, would have found nothing either.
  lemma GivesUpOnRemovalIff(req: Request, p1: Pool, t1: Instant, p2: Pool, t2: Instant)
    requires SelectedKey(p1, req, t1).None? && EarliestRecovery(p2, req, t2).None?
    ensures AllRemoved(p2, req) <==> SelectedKey(p2, req, t2).None?
  {
    GivesUpIff(req, p1, t1, p2, t2);
    if SelectedKey(p2, req, t2).None? {
      GivesUpIff(req, p2, t2, p2, t2);
    }
  }

  // ---------------------------------------------------------------------------------------------
  // Bound on waits

  // A wait measured from `readAt` to a recovery queried at `queriedAt` exceeds 90 days by at most
  // the time between the two clock reads.
  lemma WaitWithinGap(policy: Policy, pool: Pool, req: Request, readAt: Instant, queriedAt: Instant)
    requires PoolOk(policy, pool, queriedAt) && readAt <= queriedAt
    ensures var e := EarliestRecovery(pool, req, queriedAt);
            e.Some? ==> readAt < e.value <= readAt + MAX_COOLDOWN + (queriedAt - readAt)
  {
    var e := EarliestRecovery(pool, req, queriedAt);
    if e.Some? {
      var c :| c in req.candidates && PendingRecovery(pool, req.model, c, queriedAt) == e;
      var i := IndexOf(pool.entries, c.fingerprint).value;
      assert EntryOk(policy, pool.entries[i], pool.nextId, queriedAt);
    }
  }

  // ---------------------------------------------------------------------------------------------
  // The tracker

  // One sleep: an attempt on pool `tried` found nothing, a query on pool `queried` named a recovery,
  // and the request sleeps until `wake`, with the lock free.
  datatype Nap = Nap(tried: Pool, triedAt: Instant, queried: Pool, queriedAt: Instant, wake: Instant, wokeAt: Instant)

  // It sleeps exactly until the earliest recovery it was told of or its deadline.
  predicate NapOk(n: Nap, req: Request) {
    && SelectedKey(n.tried, req, n.triedAt).None?
    && n.triedAt <= n.queriedAt && n.wake <= n.wokeAt
    && var e := EarliestRecovery(n.queried, req, n.queriedAt);
       e.Some? && n.wake == Min(e.value, req.deadline)
  }

  class RequestAttempts {
    const pool: KeyPool
    const candidates: seq<Key>
    const maxAttempts: nat
    const deadline: Instant
    var used: seq<Fingerprint>
    var model: Option<Model>

    function View(): Request
      reads this
    {
      Request(candidates, used, maxAttempts, deadline, model)
    }

    ghost predicate Valid()
      reads this, pool
    {
      pool.Valid() && RequestOk(pool.policy, View(), pool.now)
    }

    // Captures the keys in cyclic order from the cursor.
    constructor (pool: KeyPool, model: Option<Model>)
      requires pool.Valid()
      ensures Valid() && this.pool == pool
      ensures View() == NewRequest(pool.policy, pool.State(), model, pool.now)
    {
      var n := |pool.entries|;
      var captured := [];
      var off := 0;
      while off < n
        invariant 0 <= off <= n && captured == CyclicKeys(pool.State())[..off]
      {
        captured := captured + [pool.entries[CyclicIndex(n, pool.cursor, off)].key];
        off := off + 1;
      }
      this.pool, this.model := pool, model;
      candidates, used := captured, [];
      maxAttempts := pool.policy.maxAttempts;
      deadline := DeadlineAfter(pool.now, pool.policy.waitTimeout);
    }

    method SetModel(m: Model)
      requires Valid()
      modifies this`model
      ensures Valid() && View() == old(View()).(model := Some(m))
    {
      model := Some(m);
    }

    // One critical section: picks the first eligible candidate and claims it if it is half-open.
    method TrySelectUnused() returns (sel: Option<Selection>)
      requires Valid()
      modifies pool`entries, pool`nextId
      ensures pool.Valid()
      ensures sel == SelectedKey(old(pool.State()), View(), pool.now)
      ensures pool.State() == PoolAfterSelect(pool.policy, old(pool.State()), View(), pool.now)
    {
      SelectKeepsPool(pool.policy, pool.State(), View(), pool.now);
      var i := FirstEligible(pool.State(), View(), pool.now, 0);
      if i.None? {
        return None;
      }
      var c := candidates[i.value];
      var id := pool.nextId;
      pool.nextId := id + 1;
      var found := IndexOf(pool.entries, c.fingerprint);
      var e := pool.entries[found.value];
      if e.halfOpen {
        e := e.(coolingUntil := Some(DeadlineAfter(pool.now, pool.policy.breakerCooldown)));
        e := e.(coolingReason := Some(CircuitBreaker), coolingBy := Some(id), lastFailureBy := Some(id));
        pool.entries := pool.entries[found.value := e];
      } else {
        assert pool.entries[found.value := e] == pool.entries;
      }
      sel := Some(Selection(c.fingerprint, c, id));
    }

    // Selects another key only if one is usable now; never waits.
    method NextImmediate() returns (result: AttemptResult)
      requires Valid()
      modifies this`used, pool`entries, pool`nextId
      ensures Valid() && !result.Unavailable?
      ensures var sel := SelectedKey(old(pool.State()), old(View()), pool.now);
              if |old(used)| >= maxAttempts || sel.None? then
                result == Exhausted && View() == old(View()) && pool.State() == old(pool.State())
              else
                result == Selected(sel.value) && View() == old(View()).(used := old(used) + [sel.value.fingerprint])
                && pool.State() == PoolAfterSelect(pool.policy, old(pool.State()), old(View()), pool.now)
    {
      if |used| >= maxAttempts {
        return Exhausted;
      }
      SelectKeepsRequest(pool.policy, pool.State(), View(), pool.now);
      var sel := TrySelectUnused();
      if sel.Some? {
        used := used + [sel.value.fingerprint];
        result := Selected(sel.value);
      } else {
        result := Exhausted;
      }
    }

    // After a fruitless selection attempt: reads the clock, then asks for the earliest recovery.
    // Either the request gives up and waits no more, or it may sleep until `wake`.
    method QueryRecovery() returns (giveUp: Option<nat>, wake: Instant, readAt: Instant)
      requires Valid()
      modifies pool
      ensures Valid() && old(pool.now) <= readAt <= pool.now && old(pool.nextId) <= pool.nextId
      ensures pool.told == old(pool.told)
      ensures var e := EarliestRecovery(pool.State(), View(), pool.now);
              && (giveUp.Some? <==> readAt >= deadline || e.None?)
              && (giveUp.Some? ==> giveUp.value == (if e.Some? then e.value - readAt else 0)
                                   && giveUp.value <= MAX_COOLDOWN + (pool.now - readAt))
      ensures giveUp.None? ==>
                var e := EarliestRecovery(pool.State(), View(), pool.now);
                e.Some? && readAt < wake == Min(e.value, deadline)
    {
      pool.Yield();
      readAt := pool.now;
      pool.Yield();
      WaitWithinGap(pool.policy, pool.State(), View(), readAt, pool.now);
      var earliest := EarliestRecovery(pool.State(), View(), pool.now);
      giveUp, wake := None, deadline;
      if readAt >= deadline {
        giveUp := Some(if earliest.Some? then earliest.value - readAt else 0);
      } else if earliest.None? {
        giveUp := Some(0);
      } else {
        // The recovery found lies after the clock read of its own query, so the guard
        // `earliest <= now`, which would retry at once, never fires.
        assert earliest.value > readAt;
        wake := Min(earliest.value, deadline);
      }
    }

    // Selects the next distinct key, waiting for a recovering one until the request's deadline,
    // while other tasks run at every point where the lock is free.  `tried` and `triedAt` are the
    // pool and the clock at the last selection attempt, `readAt` the clock as read before the
    // recovery query that ends a fruitless wait, `naps` the sleeps before that.
    method Next()
      returns (result: AttemptResult, ghost tried: Pool, ghost triedAt: Instant, ghost readAt: Instant,
               ghost naps: seq<Nap>)
      requires Valid()
      modifies this`used, pool
      ensures Valid() && old(pool.nextId) <= tried.nextId <= pool.nextId && pool.told == old(pool.told)
      ensures PoolOk(pool.policy, tried, triedAt) && old(pool.now) <= triedAt <= pool.now
      ensures result.Selected? ==>
                |old(used)| < maxAttempts && triedAt == pool.now
                && SelectedKey(tried, old(View()), pool.now) == Some(result.sel)
                && pool.State() == PoolAfterSelect(pool.policy, tried, old(View()), pool.now)
                && View() == old(View()).(used := old(used) + [result.sel.fingerprint])
      ensures !result.Selected? ==> View() == old(View())
      ensures forall n :: n in naps ==> NapOk(n, old(View())) && n.wokeAt <= triedAt
      ensures result.Exhausted? <==> |old(used)| >= maxAttempts
                                     || (!result.Selected? && !old(View()).HasUnused())
      ensures result.Unavailable? ==>
                var e := EarliestRecovery(pool.State(), View(), pool.now);
                && triedAt <= readAt <= pool.now
                && SelectedKey(tried, View(), triedAt).None?
                && (readAt < deadline ==>
                      e.None? && (AllRemoved(pool.State(), View())
                                  <==> SelectedKey(pool.State(), View(), pool.now).None?))
                && result.retryAfter == (if e.Some? then e.value - readAt else 0)
                && result.retryAfter <= MAX_COOLDOWN + (pool.now - readAt)
    {
      hide PoolOk, Lawful, Eligible, EarliestRecovery, Distinct, AllRemoved;
      tried, triedAt, readAt, naps := pool.State(), pool.now, pool.now, [];
      if |used| >= maxAttempts {
        result := Exhausted;
        return;
      }
      while true
        invariant Valid() && View() == old(View()) && |used| < maxAttempts
        invariant old(pool.now) <= pool.now && old(pool.nextId) <= pool.nextId && pool.told == old(pool.told)
        invariant forall n :: n in naps ==> NapOk(n, View()) && n.wokeAt <= pool.now
        decreases deadline - pool.now
      {
        pool.Yield();
        tried, triedAt := pool.State(), pool.now;
        SelectKeepsRequest(pool.policy, tried, View(), pool.now);
        var sel := TrySelectUnused();
        if sel.Some? {
          used := used + [sel.value.fingerprint];
          result := Selected(sel.value);
          return;
        }
        if !HasUnused(candidates, used) {
          result := Exhausted;
          return;
        }
        var giveUp, wake, read := QueryRecovery();
        if giveUp.Some? {
          if read < deadline {
            GivesUpOnRemovalIff(View(), tried, triedAt, pool.State(), pool.now);
          }
          result, readAt := Unavailable(giveUp.value), read;
          return;
        }
        ghost var queried, queriedAt := pool.State(), pool.now;
        pool.SleepUntil(wake);
        naps := naps + [Nap(tried, triedAt, queried, queriedAt, wake, pool.now)];
      }
    }
  }

  function HasUnused(candidates: seq<Key>, used: seq<Fingerprint>): (b: bool)
    ensures b <==> exists i :: 0 <= i < |candidates| && candidates[i].fingerprint !in used
  {
    if candidates == [] then false
    else
      var b := candidates[0].fingerprint !in used || HasUnused(candidates[1..], used);
      assert forall i :: 1 <= i < |candidates| ==> candidates[i] == candidates[1..][i - 1];
      assert candidates[1..] == candidates[1..|candidates|];
      b
  }
}
