/**
  What one request can select: distinct keys of the generation it started with, each usable at the
  instant it is selected, in the cyclic order captured at its start.
 */
module PoolRequests {
  import opened Durations
  import opened PoolModel
  import opened PoolWorld
  import opened PoolRuns

  lemma RingIndex(n: nat, cursor: nat, off: nat)
    requires cursor < n && off < n
    ensures CyclicIndex(n, cursor, off) == if cursor + off < n then cursor + off else cursor + off - n
  {
    if cursor + off >= n {
      WrapOnce(n, cursor + off - n);
      assert cursor + off == n + (cursor + off - n);
    }
  }

  // The captured candidates are the pool's keys, rotated to start at the cursor.
  lemma CandidatesAreRotation(pool: Pool)
    requires pool.cursor < |pool.entries|
    ensures CyclicKeys(pool) == Keys(pool)[pool.cursor..] + Keys(pool)[..pool.cursor]
  {
    forall off | 0 <= off < |pool.entries|
      ensures CyclicKeys(pool)[off] == (Keys(pool)[pool.cursor..] + Keys(pool)[..pool.cursor])[off]
    {
      RingIndex(|pool.entries|, pool.cursor, off);
    }
  }

  // Candidates and wait deadline of a request never change, whatever happens to the pool.
  lemma {:induction false} RequestPinned(policy: Policy, ws: seq<World>, es: seq<Event>, c: nat, k: nat)
    requires IsRun(policy, ws, es) && c < k < |ws|
    requires es[c].Begin?
    ensures |ws[c].requests| < |ws[k].requests|
    ensures var req := ws[k].requests[|ws[c].requests|];
            req.candidates == CyclicKeys(ws[c].pool)
            && req.deadline == DeadlineAfter(ws[c].now, policy.waitTimeout)
            && req.maxAttempts == policy.maxAttempts
  {
    assert StepAt(policy, ws, es, k - 1);
    if k > c + 1 {
      RequestPinned(policy, ws, es, c, k - 1);
    }
  }

  // Every selection on record was made by a step at which its key was an unused candidate, present
  // in the live pool and cooling neither globally nor for the request's model, and no earlier
  // candidate was.
  lemma {:induction false} PickOrigin(policy: Policy, ws: seq<World>, es: seq<Event>, k: nat, i: nat) returns (j: nat)
    requires PoolRun(policy, ws, es) && k < |ws| && i < |ws[k].picks|
    ensures j < k && es[j] == Select(ws[k].picks[i].request) && Enabled(ws[j], es[j])
    ensures var p := ws[k].picks[i];
            var req := ws[j].requests[p.request];
            p.at == ws[j].now && p.sel.id == ws[j].pool.nextId
            && exists n: nat :: FirstChoice(ws[j].pool, req, ws[j].now, n) && req.candidates[n] == p.sel.key
  {
    assert StepAt(policy, ws, es, k - 1);
    if i < |ws[k - 1].picks| {
      j := PickOrigin(policy, ws, es, k - 1, i);
    } else {
      j := k - 1;
      var req := ws[j].requests[es[j].request];
      var n := FirstEligible(ws[j].pool, req, ws[j].now, 0).value;
      assert FirstChoice(ws[j].pool, req, ws[j].now, n);
    }
  }

  predicate FirstChoice(pool: Pool, req: Request, now: Instant, n: nat) {
    n < |req.candidates| && Eligible(pool, req, req.candidates[n], now)
    && forall m :: 0 <= m < n ==> !Eligible(pool, req, req.candidates[m], now)
  }

  lemma FingerprintOfCandidate(candidates: seq<Key>, pool: Pool, fp: Fingerprint)
    requires candidates == CyclicKeys(pool)
    requires exists i :: 0 <= i < |candidates| && candidates[i].fingerprint == fp
    ensures Lookup(pool, fp).Some?
  {
    var i :| 0 <= i < |candidates| && candidates[i].fingerprint == fp;
    assert pool.entries[CyclicIndex(|pool.entries|, pool.cursor, i)].key.fingerprint == fp;
  }

  // A request created at step `c` selects at most `maxAttempts` pairwise distinct keys, all of them
  // from the pool as it was then.
  lemma RequestSelections(policy: Policy, ws: seq<World>, es: seq<Event>, c: nat, k: nat)
    requires PoolRun(policy, ws, es) && c < k < |ws|
    requires es[c].Begin?
    ensures var mine := PickedBy(ws[k].picks, |ws[c].requests|);
            |mine| <= policy.maxAttempts && Distinct(mine)
            && forall fp :: fp in mine ==> InPool(ws[c], fp)
  {
    RequestPinned(policy, ws, es, c, k);
    Reachable(policy, ws, es, k);
    var r := |ws[c].requests|;
    var req := ws[k].requests[r];
    assert RequestOk(policy, req, ws[k].now);
    assert PickedBy(ws[k].picks, r) == req.used;
    forall fp | fp in req.used ensures InPool(ws[c], fp) {
      FingerprintOfCandidate(req.candidates, ws[c].pool, fp);
    }
  }
}
