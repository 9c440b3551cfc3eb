/**
  Runs of a pool with a single key, step by step: the building blocks of the concrete runs that show
  where the pool does less than one would expect.
 */
module OneKeyRuns {
  import opened Prelude
  import opened Durations
  import opened PoolModel
  import opened PoolWorld
  import opened PoolRuns

  const THE_KEY: Key := Key("secret", "a")
  const WITNESS_POLICY: Policy := Policy(SECOND, 10 * SECOND, 5, 60 * SECOND, 30 * SECOND, 1)

  // The pool holds the one key, in state `e`.
  predicate Holds(w: World, e: Entry) {
    w.pool.entries == [e] && w.pool.cursor == 0 && e.key == THE_KEY
  }

  function FirstWorld(now: Instant): World {
    World(Pool([Fresh(THE_KEY)], 0, 0), now, [], [])
  }

  // The run that has not taken a step yet.
  lemma RunStarts(policy: Policy, now: Instant)
    requires policy.Valid()
    ensures PoolRun(policy, [FirstWorld(now)], [])
  {
    assert FirstWorld(now).pool == FreshPool([THE_KEY]) && Keys(FirstWorld(now).pool) == [THE_KEY];
  }

  // One more step of a run.
  lemma Append(policy: Policy, ws: seq<World>, es: seq<Event>, ev: Event) returns (ws': seq<World>, es': seq<Event>)
    requires PoolRun(policy, ws, es) && Enabled(ws[|es|], ev)
    ensures PoolRun(policy, ws', es')
    ensures ws' == ws + [Do(policy, ws[|es|], ev)] && es' == es + [ev]
  {
    ExtendRun(policy, ws, es, ev);
    ws', es' := ws + [Do(policy, ws[|es|], ev)], es + [ev];
  }

  lemma FoundKey(w: World, e: Entry)
    requires Holds(w, e)
    ensures IndexOf(w.pool.entries, "a") == Some(0) && Lookup(w.pool, "a") == Some(e)
  {
  }

  // A new request: one candidate, nothing used.
  function NewTracker(policy: Policy, now: Instant): Request {
    Request([THE_KEY], [], policy.maxAttempts, DeadlineAfter(now, policy.waitTimeout), None)
  }

  lemma BeginStep(policy: Policy, w: World, e: Entry)
    requires Holds(w, e)
    ensures Do(policy, w, Begin(None)) == w.(requests := w.requests + [NewTracker(policy, w.now)])
  {
    assert CyclicKeys(w.pool) == [THE_KEY];
  }

  function PickOf(r: nat, id: SelectionId, now: Instant): Pick {
    Pick(r, Selection("a", THE_KEY, id), now)
  }

  // What a request for the one key finds at an instant.
  lemma OneKeyAnswers(w: World, e: Entry, req: Request, t: Instant)
    requires Holds(w, e) && req.candidates == [THE_KEY] && req.used == []
    ensures SelectedKey(w.pool, req, t)
            == if e.Selectable(req.model, t) then Some(Selection("a", THE_KEY, w.pool.nextId)) else None
    ensures EarliestRecovery(w.pool, req, t)
            == if e.Recovery(req.model).Some? && e.Recovery(req.model).value > t then e.Recovery(req.model) else None
  {
    FoundKey(w, e);
    assert req.candidates[0] == THE_KEY;
    assert Eligible(w.pool, req, THE_KEY, t) <==> e.Selectable(req.model, t);
    assert req.candidates[1..] == [];
  }

  lemma SelectStep(policy: Policy, w: World, e: Entry, r: nat)
    requires policy.Valid() && Holds(w, e) && !e.halfOpen && e.Selectable(None, w.now)
    requires r < |w.requests| && w.requests[r].candidates == [THE_KEY] && w.requests[r].used == []
    requires w.requests[r].model.None? && w.requests[r].maxAttempts > 0
    ensures Enabled(w, Select(r))
    ensures Do(policy, w, Select(r))
            == World(w.pool.(nextId := w.pool.nextId + 1), w.now,
                     w.requests[r := w.requests[r].(used := ["a"])],
                     w.picks + [PickOf(r, w.pool.nextId, w.now)])
  {
    FoundKey(w, e);
    OneKeyAnswers(w, e, w.requests[r], w.now);
    assert w.pool.entries[0 := e] == w.pool.entries;
    assert [] + ["a"] == ["a"];
  }

  lemma ReportStep(policy: Policy, w: World, e: Entry, rep: Report)
    requires Holds(w, e) && rep.Target() == "a" && Enabled(w, Reported(rep))
    ensures var e' := EntryAfter(policy, e, rep, w.pool.nextId, w.now);
            && e'.key == THE_KEY
            && Do(policy, w, Reported(rep))
               == w.(pool := Pool([e'], 0, if rep.ProactiveCooldown? then w.pool.nextId + 1 else w.pool.nextId))
  {
    FoundKey(w, e);
    var e' := EntryAfter(policy, e, rep, w.pool.nextId, w.now);
    assert w.pool.entries[0 := e'] == [e'];
    NextCursorNearest([e'], 0, if rep.ProactiveCooldown? then rep.at else w.now);
  }

  // One request after the other begins at instant 0, and then one after the other selects the key.
  function AllSelected(policy: Policy, n: nat): World {
    World(Pool([Fresh(THE_KEY)], 0, n), 0, seq(n, _ => NewTracker(policy, 0).(used := ["a"])),
          seq(n, i requires i >= 0 => PickOf(i, i, 0)))
  }

  lemma SelectionsRun(policy: Policy, n: nat) returns (ws: seq<World>, es: seq<Event>)
    requires policy.Valid()
    ensures PoolRun(policy, ws, es) && |es| == 2 * n && ws[2 * n] == AllSelected(policy, n)
  {
    var w, e := FirstWorld(0), Fresh(THE_KEY);
    RunStarts(policy, 0);
    ws, es := [w], [];
    for r := 0 to n
      invariant PoolRun(policy, ws, es) && |es| == r
      invariant ws[r] == w.(requests := seq(r, _ => NewTracker(policy, 0)))
    {
      BeginStep(policy, ws[r], e);
      ws, es := Append(policy, ws, es, Begin(None));
    }
    for r := 0 to n
      invariant PoolRun(policy, ws, es) && |es| == n + r
      invariant ws[n + r] == FirstSelected(policy, n, r)
    {
      SelectStep(policy, ws[n + r], e, r);
      FirstSelectedNext(policy, n, r);
      ws, es := Append(policy, ws, es, Select(r));
    }
  }

  // The first `r` of `n` requests have selected.
  function FirstSelected(policy: Policy, n: nat, r: nat): World
    requires r <= n
  {
    World(Pool([Fresh(THE_KEY)], 0, r), 0,
          seq(n, i => if i < r then NewTracker(policy, 0).(used := ["a"]) else NewTracker(policy, 0)),
          seq(r, i requires i >= 0 => PickOf(i, i, 0)))
  }

  lemma FirstSelectedNext(policy: Policy, n: nat, r: nat)
    requires r < n
    ensures var w := FirstSelected(policy, n, r);
            FirstSelected(policy, n, r + 1)
            == World(w.pool.(nextId := r + 1), 0, w.requests[r := NewTracker(policy, 0).(used := ["a"])],
                     w.picks + [PickOf(r, r, 0)])
  {
  }

  lemma AllSelectedIssued(policy: Policy, n: nat, id: nat)
    requires id < n
    ensures Issued(AllSelected(policy, n), Selection("a", THE_KEY, id))
  {
    assert AllSelected(policy, n).picks[id] == PickOf(id, id, 0);
  }
}
