/**
  The pool among its users: a clock, any number of requests, and every interleaving of clock ticks,
  new requests, selections, reports and key replacements, each an atomic step under the pool lock.
 */
module PoolWorld {
  import opened Prelude
  import opened Durations
  import opened PoolModel

  // A selection, the request that made it and the instant at which it was made.
  datatype Pick = Pick(request: nat, sel: Selection, at: Instant)

  datatype World = World(pool: Pool, now: Instant, requests: seq<Request>, picks: seq<Pick>)

  datatype Event =
    | Tick(at: Instant)
    | Begin(forModel: Option<Model>)
    | SetModel(request: nat, model: Model)
    | Select(request: nat)
    | Reported(report: Report)
    | Replace(keys: seq<Key>)

  // Selections are only made by requests, so a caller can only report one that was issued.
  predicate Issued(w: World, sel: Selection) {
    exists i :: 0 <= i < |w.picks| && w.picks[i].sel == sel
  }

  predicate Enabled(w: World, ev: Event) {
    match ev
    case Tick(at) => at >= w.now
    case Begin(_) => true
    case SetModel(r, _) => r < |w.requests|
    case Select(r) => r < |w.requests| && |w.requests[r].used| < w.requests[r].maxAttempts
    case Reported(rep) => if rep.ProactiveCooldown? then rep.at <= w.now else Issued(w, rep.sel)
    case Replace(_) => true
  }

  function Selected(w: World, ev: Event): Option<Selection>
    requires Enabled(w, ev)
  {
    if ev.Select? then SelectedKey(w.pool, w.requests[ev.request], w.now) else None
  }

  function Do(policy: Policy, w: World, ev: Event): World
    requires Enabled(w, ev)
  {
    match ev
    case Tick(at) => w.(now := at)
    case Begin(model) => w.(requests := w.requests + [NewRequest(policy, w.pool, model, w.now)])
    case SetModel(r, model) => w.(requests := w.requests[r := w.requests[r].(model := Some(model))])
    case Select(r) =>
      var req := w.requests[r];
      var sel := SelectedKey(w.pool, req, w.now);
      World(PoolAfterSelect(policy, w.pool, req, w.now), w.now,
            w.requests[r := RequestAfterSelect(w.pool, req, w.now)],
            if sel.Some? then w.picks + [Pick(r, sel.value, w.now)] else w.picks)
    case Reported(rep) => w.(pool := ApplyReport(policy, w.pool, rep, w.now))
    case Replace(keys) => w.(pool := ReplaceKeys(w.pool, keys))
  }

  predicate Initial(policy: Policy, w: World) {
    policy.Valid() && w.pool.entries != [] && w.pool == FreshPool(Keys(w.pool))
    && w.requests == [] && w.picks == []
  }

  // ---------------------------------------------------------------------------------------------
  // One key at a time

  function KeyOf(keys: seq<Key>, fp: Fingerprint): (r: Option<Key>)
    ensures r.Some? ==> r.value in keys && r.value.fingerprint == fp
    ensures r.None? ==> forall k :: k in keys ==> k.fingerprint != fp
  {
    if keys == [] then None
    else if keys[0].fingerprint == fp then Some(keys[0])
    else KeyOf(keys[1..], fp)
  }

  // The evolution of one key's entry, ignoring all the others.
  function KeyFlow(policy: Policy, w: World, ev: Event, fp: Fingerprint, e: Option<Entry>): Option<Entry>
    requires Enabled(w, ev)
  {
    match ev
    case Select(_) =>
      var sel := Selected(w, ev);
      if e.Some? && sel.Some? && sel.value.fingerprint == fp
      then Some(Claimed(policy, e.value, w.pool.nextId, w.now)) else e
    case Reported(rep) =>
      if e.Some? && rep.Target() == fp
      then Some(EntryAfter(policy, e.value, rep, w.pool.nextId, w.now)) else e
    case Replace(keys) =>
      if keys == [] then e
      else
        var k := KeyOf(keys, fp);
        if k.None? then None
        else if e.None? then Some(Fresh(k.value))
        else Some(e.value.(key := k.value))
    case _ => e
  }

  lemma EntryAfterKeepsKey(policy: Policy, e: Entry, rep: Report, newId: SelectionId, now: Instant)
    ensures EntryAfter(policy, e, rep, newId, now).key == e.key
  {
  }

  lemma {:induction false} LookupInBuilt(entries: seq<Entry>, keys: seq<Key>, fp: Fingerprint)
    requires |entries| == |keys|
    requires forall i :: 0 <= i < |keys| ==> entries[i].key == keys[i]
    ensures KeyOf(keys, fp).Some? <==> IndexOf(entries, fp).Some?
    ensures IndexOf(entries, fp).Some? ==> Some(entries[IndexOf(entries, fp).value].key) == KeyOf(keys, fp)
  {
    if keys != [] && keys[0].fingerprint != fp {
      LookupInBuilt(entries[1..], keys[1..], fp);
    }
  }

  // The pool acts on each key separately: looking a key up after a step is its own flow.
  lemma Projection(policy: Policy, w: World, ev: Event, fp: Fingerprint)
    requires Enabled(w, ev)
    ensures Lookup(Do(policy, w, ev).pool, fp) == KeyFlow(policy, w, ev, fp, Lookup(w.pool, fp))
  {
    match ev {
      case Select(r) =>
        var sel := Selected(w, ev);
        if sel.Some? {
          var i := IndexOf(w.pool.entries, sel.value.fingerprint).value;
          LookupAfterUpdate(w.pool.entries, i, Claimed(policy, w.pool.entries[i], w.pool.nextId, w.now), fp);
        }
      case Reported(rep) =>
        var found := IndexOf(w.pool.entries, rep.Target());
        if found.Some? {
          var e := w.pool.entries[found.value];
          EntryAfterKeepsKey(policy, e, rep, w.pool.nextId, w.now);
          LookupAfterUpdate(w.pool.entries, found.value, EntryAfter(policy, e, rep, w.pool.nextId, w.now), fp);
        }
      case Replace(keys) =>
        if keys != [] {
          LookupInBuilt(Do(policy, w, ev).pool.entries, keys, fp);
        }
      case _ =>
    }
  }

  // ---------------------------------------------------------------------------------------------
  // The invariant

  // An id that has been handed out.
  predicate Drawn(id: Option<SelectionId>, nextId: SelectionId) {
    id.Some? ==> id.value < nextId
  }

  predicate EntryOk(policy: Policy, e: Entry, nextId: SelectionId, now: Instant) {
    // deadline, reason and owner of a cooldown come and go together
    && (e.coolingUntil.Some? <==> e.coolingReason.Some?)
    && (e.coolingUntil.Some? <==> e.coolingBy.Some?)
    // without a marker the key is pristine
    && (e.lastFailureBy.None? ==>
          e.coolingUntil.None? && e.consecutiveFailures == 0 && e.backoffStep == 0 && !e.halfOpen)
    && (e.halfOpen ==> e.coolingUntil.Some?)
    && (e.consecutiveFailures >= policy.breakerThreshold ==> e.coolingUntil.Some?)
    // ids come from the counter
    && Drawn(e.coolingBy, nextId) && Drawn(e.lastFailureBy, nextId)
    // no deadline lies beyond the ceiling
    && (e.coolingUntil.Some? ==> e.coolingUntil.value <= now + MAX_COOLDOWN)
    && (forall m :: m in e.liveness ==> e.liveness[m] <= DeadlineAfter(now, policy.backoffInitial))
  }

  predicate PoolOk(policy: Policy, pool: Pool, now: Instant) {
    && pool.cursor < |pool.entries|
    && forall i :: 0 <= i < |pool.entries| ==> EntryOk(policy, pool.entries[i], pool.nextId, now)
  }

  lemma EntryOkLater(policy: Policy, e: Entry, nextId: SelectionId, now: Instant, nextId': SelectionId, now': Instant)
    requires EntryOk(policy, e, nextId, now) && nextId <= nextId' && now <= now'
    ensures EntryOk(policy, e, nextId', now')
  {
  }

  lemma CoolOk(policy: Policy, e: Entry, deadline: Instant, reason: CoolingReason, id: SelectionId,
               nextId: SelectionId, now: Instant)
    requires EntryOk(policy, e, nextId, now) && id < nextId && deadline <= now + MAX_COOLDOWN
    ensures EntryOk(policy, Cool(e, deadline, reason, id), nextId, now)
  {
  }

  lemma AfterFailureOk(policy: Policy, e: Entry, id: SelectionId, failure: Failure, jittered: Duration,
                       nextId: SelectionId, now: Instant)
    requires policy.Valid() && EntryOk(policy, e, nextId, now) && id < nextId
    ensures EntryOk(policy, AfterFailure(policy, e, id, failure, jittered, now), nextId, now)
  {
    match failure
    case UsageLimitHit(_, cooldown) =>
      CoolOk(policy, e, DeadlineAfter(now, cooldown), UsageLimit, id, nextId, now);
    case TooManyRequests(ra) =>
      CoolOk(policy, e, DeadlineAfter(now, RequestedCooldown(policy, ra, jittered)), RateLimited, id, nextId, now);
    case KeyRefused(ra) =>
      CoolOk(policy, e, DeadlineAfter(now, RequestedCooldown(policy, ra, jittered)), KeyUnavailable, id, nextId, now);
    case ServerError =>
    case NetworkFailure =>
  }

  lemma EntryAfterOk(policy: Policy, e: Entry, rep: Report, nextId: SelectionId, now: Instant)
    requires policy.Valid() && EntryOk(policy, e, nextId, now)
    requires if rep.ProactiveCooldown? then rep.at <= now else rep.sel.id < nextId
    ensures EntryOk(policy, EntryAfter(policy, e, rep, nextId, now),
                    if rep.ProactiveCooldown? then nextId + 1 else nextId, now)
  {
    match rep
    case Success(_) =>
    case Failed(sel, failure, jittered) =>
      AfterFailureOk(policy, e, sel.id, failure, jittered, nextId, now);
    case LivenessFailed(_, _) =>
    case ProactiveCooldown(_, cooldown, at) =>
      EntryOkLater(policy, e, nextId, now, nextId + 1, now);
      CoolOk(policy, e, DeadlineAfter(at, cooldown), ProactiveUsage, nextId, nextId + 1, now);
  }

  lemma ReportKeepsPool(policy: Policy, pool: Pool, rep: Report, now: Instant)
    requires policy.Valid() && PoolOk(policy, pool, now)
    requires if rep.ProactiveCooldown? then rep.at <= now else rep.sel.id < pool.nextId
    ensures PoolOk(policy, ApplyReport(policy, pool, rep, now), now)
    ensures Keys(ApplyReport(policy, pool, rep, now)) == Keys(pool)
    ensures pool.nextId <= ApplyReport(policy, pool, rep, now).nextId <= pool.nextId + 1
  {
    var found := IndexOf(pool.entries, rep.Target());
    if found.Some? {
      var e := pool.entries[found.value];
      EntryAfterKeepsKey(policy, e, rep, pool.nextId, now);
      EntryAfterOk(policy, e, rep, pool.nextId, now);
      var after := ApplyReport(policy, pool, rep, now);
      NextCursorNearest(after.entries, pool.cursor, if rep.ProactiveCooldown? then rep.at else now);
      forall i | 0 <= i < |after.entries| ensures EntryOk(policy, after.entries[i], after.nextId, now) {
        if i != found.value {
          EntryOkLater(policy, pool.entries[i], pool.nextId, now, after.nextId, now);
        }
      }
    }
  }

  lemma SelectKeepsPool(policy: Policy, pool: Pool, req: Request, now: Instant)
    requires PoolOk(policy, pool, now)
    ensures PoolOk(policy, PoolAfterSelect(policy, pool, req, now), now)
    ensures Keys(PoolAfterSelect(policy, pool, req, now)) == Keys(pool)
    ensures pool.nextId <= PoolAfterSelect(policy, pool, req, now).nextId
  {
    var after := PoolAfterSelect(policy, pool, req, now);
    forall i | 0 <= i < |after.entries| ensures EntryOk(policy, after.entries[i], after.nextId, now) {
      EntryOkLater(policy, pool.entries[i], pool.nextId, now, after.nextId, now);
    }
  }

  lemma ReplaceKeepsPool(policy: Policy, pool: Pool, keys: seq<Key>, now: Instant)
    requires policy.Valid() && PoolOk(policy, pool, now)
    ensures PoolOk(policy, ReplaceKeys(pool, keys), now)
    ensures Keys(ReplaceKeys(pool, keys)) == if keys == [] then Keys(pool) else keys
  {
    forall key ensures EntryOk(policy, Carried(pool, key), pool.nextId, now) {
      var found := IndexOf(pool.entries, key.fingerprint);
      if found.Some? {
        assert EntryOk(policy, pool.entries[found.value], pool.nextId, now);
      }
    }
  }

  // The fingerprints a request has picked so far, in order.
  function PickedBy(picks: seq<Pick>, r: nat): seq<Fingerprint> {
    if picks == [] then []
    else
      var last := picks[|picks| - 1];
      PickedBy(picks[..|picks| - 1], r) + if last.request == r then [last.sel.fingerprint] else []
  }

  predicate Distinct(s: seq<Fingerprint>) {
    forall i, j :: 0 <= i < j < |s| ==> s[i] != s[j]
  }

  predicate RequestOk(policy: Policy, req: Request, now: Instant) {
    && req.maxAttempts == policy.maxAttempts
    && |req.used| <= req.maxAttempts
    && Distinct(req.used)
    && (forall fp :: fp in req.used ==> exists i :: 0 <= i < |req.candidates| && req.candidates[i].fingerprint == fp)
    && req.deadline <= DeadlineAfter(now, policy.waitTimeout)
  }

  predicate PickOk(w: World, p: Pick) {
    p.sel.id < w.pool.nextId && p.sel.fingerprint == p.sel.key.fingerprint
    && p.at <= w.now && p.request < |w.requests|
  }

  predicate WorldOk(policy: Policy, w: World) {
    && policy.Valid()
    && PoolOk(policy, w.pool, w.now)
    && (forall r :: 0 <= r < |w.requests| ==> RequestOk(policy, w.requests[r], w.now))
    && (forall r :: 0 <= r < |w.requests| ==> PickedBy(w.picks, r) == w.requests[r].used)
    && (forall i :: 0 <= i < |w.picks| ==> PickOk(w, w.picks[i]))
    && (forall i, j :: 0 <= i < j < |w.picks| ==> w.picks[i].sel.id < w.picks[j].sel.id)
  }

  lemma InitialOk(policy: Policy, w: World)
    requires Initial(policy, w)
    ensures WorldOk(policy, w)
  {
  }

  lemma {:induction false} NotPickedYet(picks: seq<Pick>, r: nat)
    requires forall i :: 0 <= i < |picks| ==> picks[i].request < r
    ensures PickedBy(picks, r) == []
  {
    if picks != [] {
      NotPickedYet(picks[..|picks| - 1], r);
    }
  }

  lemma SelectKeepsRequest(policy: Policy, pool: Pool, req: Request, now: Instant)
    requires RequestOk(policy, req, now) && |req.used| < req.maxAttempts
    ensures RequestOk(policy, RequestAfterSelect(pool, req, now), now)
  {
    var sel := SelectedKey(pool, req, now);
    if sel.Some? {
      var i :| 0 <= i < |req.candidates| && req.candidates[i] == sel.value.key;
      assert req.candidates[i].fingerprint == sel.value.fingerprint;
    }
  }

  lemma SelectKeepsWorld(policy: Policy, w: World, r: nat)
    requires WorldOk(policy, w) && Enabled(w, Select(r))
    ensures WorldOk(policy, Do(policy, w, Select(r)))
  {
    hide PoolOk, RequestOk, Eligible;
    var req := w.requests[r];
    SelectKeepsPool(policy, w.pool, req, w.now);
    SelectKeepsRequest(policy, w.pool, req, w.now);
    var w' := Do(policy, w, Select(r));
    if SelectedKey(w.pool, req, w.now).Some? {
      assert w'.picks[..|w'.picks| - 1] == w.picks;
    }
  }

  lemma TickKeepsWorld(policy: Policy, w: World, at: Instant)
    requires WorldOk(policy, w) && Enabled(w, Tick(at))
    ensures WorldOk(policy, Do(policy, w, Tick(at)))
  {
    hide EntryOk;
    forall i | 0 <= i < |w.pool.entries| ensures EntryOk(policy, w.pool.entries[i], w.pool.nextId, at) {
      EntryOkLater(policy, w.pool.entries[i], w.pool.nextId, w.now, w.pool.nextId, at);
    }
  }

  lemma BeginKeepsWorld(policy: Policy, w: World, model: Option<Model>)
    requires WorldOk(policy, w)
    ensures WorldOk(policy, Do(policy, w, Begin(model)))
  {
    hide PoolOk, CyclicKeys;
    NotPickedYet(w.picks, |w.requests|);
  }

  // Every step keeps the invariant, the clock never runs back and ids are never drawn twice.
  lemma StepKeepsWorld(policy: Policy, w: World, ev: Event)
    requires WorldOk(policy, w) && Enabled(w, ev)
    ensures WorldOk(policy, Do(policy, w, ev))
    ensures w.now <= Do(policy, w, ev).now && w.pool.nextId <= Do(policy, w, ev).pool.nextId
  {
    hide PoolOk;
    match ev {
      case Tick(at) => TickKeepsWorld(policy, w, at);
      case Begin(model) => BeginKeepsWorld(policy, w, model);
      case SetModel(_, _) =>
      case Select(r) =>
        SelectKeepsPool(policy, w.pool, w.requests[r], w.now);
        SelectKeepsWorld(policy, w, r);
      case Reported(rep) => ReportKeepsPool(policy, w.pool, rep, w.now);
      case Replace(keys) => ReplaceKeepsPool(policy, w.pool, keys, w.now);
    }
  }
}
