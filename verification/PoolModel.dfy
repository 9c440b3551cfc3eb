/**
  The key pool as a value: its entries, the state change of every report, of a selection with its
  half-open claim, and of a key replacement.  Each function is one critical section of the pool.
 */
module PoolModel {
  import opened Prelude
  import opened Durations

  type Fingerprint = string
  type Model = string
  type SelectionId = nat

  // A key and its fingerprint, the identity by which the pool looks it up.
  datatype Key = Key(secret: string, fingerprint: Fingerprint)

  datatype CoolingReason = ProactiveUsage | UsageLimit | RateLimited | KeyUnavailable | CircuitBreaker

  datatype Entry = Entry(
    key: Key,
    coolingUntil: Option<Instant>,
    coolingReason: Option<CoolingReason>,
    coolingBy: Option<SelectionId>,
    consecutiveFailures: nat,
    backoffStep: nat,
    lastFailureBy: Option<SelectionId>,
    halfOpen: bool,
    liveness: map<Model, Instant>)
  {
    predicate Cooling(now: Instant) {
      coolingUntil.Some? && coolingUntil.value > now
    }

    predicate LivenessCooling(model: Option<Model>, now: Instant) {
      model.Some? && model.value in liveness && liveness[model.value] > now
    }

    predicate Selectable(model: Option<Model>, now: Instant) {
      !Cooling(now) && !LivenessCooling(model, now)
    }

    // A cooldown that outlasts `deadline` absorbs a report asking for `deadline`.
    predicate Absorbs(deadline: Instant) {
      coolingUntil.Some? && coolingUntil.value > deadline
    }

    // A success of selection `id` is stale: a newer selection left the marker.
    predicate Stale(id: SelectionId) {
      lastFailureBy.Some? && lastFailureBy.value > id
    }

    // The instant at which the key recovers for `model`, if it has any deadline at all.
    function Recovery(model: Option<Model>): Option<Instant> {
      if model.Some? && model.value in liveness then
        Some(Later(coolingUntil, liveness[model.value]))
      else
        coolingUntil
    }
  }

  datatype Pool = Pool(entries: seq<Entry>, cursor: nat, nextId: SelectionId)

  datatype Selection = Selection(fingerprint: Fingerprint, key: Key, id: SelectionId)

  datatype UsageDimension = Weekly | Monthly | FiveHour

  datatype Failure =
    | UsageLimitHit(dimension: UsageDimension, cooldown: Duration)
    | TooManyRequests(retryAfter: Option<Duration>)
    | KeyRefused(retryAfter: Option<Duration>)
    | ServerError
    | NetworkFailure

  // A request-scoped attempt tracker.
  datatype Request = Request(
    candidates: seq<Key>,
    used: seq<Fingerprint>,
    maxAttempts: nat,
    deadline: Instant,
    model: Option<Model>)
  {
    predicate HasUnused() {
      exists i :: 0 <= i < |candidates| && candidates[i].fingerprint !in used
    }
  }

  // What callers tell the pool about a key.  `jittered` is the value the jitter seam returned,
  // `at` the instant at which a proactive observation read the clock, before taking the lock.
  datatype Report =
    | Success(sel: Selection)
    | Failed(sel: Selection, failure: Failure, jittered: Duration)
    | LivenessFailed(sel: Selection, model: Model)
    | ProactiveCooldown(fingerprint: Fingerprint, cooldown: Duration, at: Instant)
  {
    function Target(): Fingerprint {
      if ProactiveCooldown? then fingerprint else sel.fingerprint
    }
  }

  // ---------------------------------------------------------------------------------------------
  // Lookup

  function IndexOf(entries: seq<Entry>, fp: Fingerprint): (r: Option<nat>)
    ensures r.Some? ==> r.value < |entries| && entries[r.value].key.fingerprint == fp
    ensures r.Some? ==> forall j :: 0 <= j < r.value ==> entries[j].key.fingerprint != fp
    ensures r.None? ==> forall j :: 0 <= j < |entries| ==> entries[j].key.fingerprint != fp
  {
    if entries == [] then None
    else if entries[0].key.fingerprint == fp then Some(0)
    else
      var rest := IndexOf(entries[1..], fp);
      assert forall j :: 1 <= j < |entries| ==> entries[j] == entries[1..][j - 1];
      if rest.None? then None else Some(rest.value + 1)
  }

  function Lookup(pool: Pool, fp: Fingerprint): Option<Entry> {
    var i := IndexOf(pool.entries, fp);
    if i.Some? then Some(pool.entries[i.value]) else None
  }

  function Keys(pool: Pool): seq<Key> {
    seq(|pool.entries|, i requires 0 <= i < |pool.entries| => pool.entries[i].key)
  }

  // Replacing the found entry by one with the same key changes that lookup and no other.
  lemma LookupAfterUpdate(entries: seq<Entry>, i: nat, e: Entry, fp: Fingerprint)
    requires i < |entries| && IndexOf(entries, entries[i].key.fingerprint) == Some(i)
    requires e.key == entries[i].key
    ensures IndexOf(entries[i := e], fp) == IndexOf(entries, fp)
    ensures fp != e.key.fingerprint && IndexOf(entries, fp).Some? ==> IndexOf(entries, fp).value != i
  {
    var updated := entries[i := e];
    assert forall j :: 0 <= j < |entries| ==> updated[j].key == entries[j].key;
    var a, b := IndexOf(entries, fp), IndexOf(updated, fp);
    if a.Some? && b.Some? {
      assert !(a.value < b.value) && !(b.value < a.value);
    }
  }

  // ---------------------------------------------------------------------------------------------
  // The cursor

  // The position `off` places after `cursor` in a ring of `n`.
  function CyclicIndex(n: nat, cursor: nat, off: nat): (i: nat)
    requires n > 0
    ensures i < n
  {
    (cursor + off) % n
  }

  // The first key that is not cooling, scanning cyclically from `cursor + off`; the cursor itself
  // when every key is cooling.
  function ScanFrom(entries: seq<Entry>, cursor: nat, now: Instant, off: nat): nat
    requires 1 <= off
    decreases |entries| + 1 - off
  {
    if off > |entries| then cursor
    else
      var idx := CyclicIndex(|entries|, cursor, off);
      if !entries[idx].Cooling(now) then idx else ScanFrom(entries, cursor, now, off + 1)
  }

  function NextCursor(entries: seq<Entry>, cursor: nat, now: Instant): nat {
    ScanFrom(entries, cursor, now, 1)
  }

  // `c` is where the cursor must go: the nearest usable key after `cursor` in cyclic order.
  ghost predicate NearestUsable(entries: seq<Entry>, cursor: nat, now: Instant, c: nat) {
    if forall i :: 0 <= i < |entries| ==> entries[i].Cooling(now) then
      c == cursor
    else
      exists off :: StopsAt(entries, cursor, now, off, c)
  }

  ghost predicate StopsAt(entries: seq<Entry>, cursor: nat, now: Instant, off: nat, c: nat) {
    1 <= off <= |entries| && c == CyclicIndex(|entries|, cursor, off) && !entries[c].Cooling(now)
    && forall k :: 1 <= k < off ==> CyclicCooling(entries, cursor, k, now)
  }

  ghost predicate CyclicCooling(entries: seq<Entry>, cursor: nat, off: nat, now: Instant) {
    entries != [] && entries[CyclicIndex(|entries|, cursor, off)].Cooling(now)
  }

  lemma WrapOnce(n: nat, r: nat)
    requires r < n
    ensures (n + r) % n == r
  {
  }

  lemma CyclicIndexOnto(n: nat, cursor: nat, i: nat) returns (off: nat)
    requires i < n && cursor < n
    ensures 1 <= off <= n && CyclicIndex(n, cursor, off) == i
  {
    off := if i > cursor then i - cursor else n + i - cursor;
    if i <= cursor {
      assert cursor + off == n + i;
      WrapOnce(n, i);
    }
  }

  lemma {:induction false} ScanFromNearest(entries: seq<Entry>, cursor: nat, now: Instant, off: nat)
    requires cursor < |entries| && 1 <= off <= |entries| + 1
    requires forall k :: 1 <= k < off ==> CyclicCooling(entries, cursor, k, now)
    ensures NearestUsable(entries, cursor, now, ScanFrom(entries, cursor, now, off))
    decreases |entries| + 1 - off
  {
    var n := |entries|;
    if off > n {
      forall i | 0 <= i < n ensures entries[i].Cooling(now) {
        var k := CyclicIndexOnto(n, cursor, i);
        assert CyclicCooling(entries, cursor, k, now);
      }
    } else {
      var idx := CyclicIndex(n, cursor, off);
      if entries[idx].Cooling(now) {
        assert CyclicCooling(entries, cursor, off, now);
        ScanFromNearest(entries, cursor, now, off + 1);
      } else {
        assert StopsAt(entries, cursor, now, off, idx);
      }
    }
  }

  // The cursor lands on the nearest usable key, or stays when there is none.
  lemma NextCursorNearest(entries: seq<Entry>, cursor: nat, now: Instant)
    requires cursor < |entries|
    ensures NearestUsable(entries, cursor, now, NextCursor(entries, cursor, now))
    ensures NextCursor(entries, cursor, now) < |entries|
  {
    ScanFromNearest(entries, cursor, now, 1);
  }

  // ---------------------------------------------------------------------------------------------
  // Entry-level state changes

  // A cooldown asked for by selection `id`.  It never shortens the current one.
  function Cool(e: Entry, deadline: Instant, reason: CoolingReason, id: SelectionId): (r: Entry)
    ensures r.coolingUntil == Some(Later(e.coolingUntil, deadline))
    ensures !e.Absorbs(deadline) ==> r.coolingBy == Some(id) && r.lastFailureBy == Some(id)
    ensures e.Absorbs(deadline) ==> r == e
  {
    if e.Absorbs(deadline) then e
    else e.(coolingUntil := Some(deadline), coolingReason := Some(reason),
            coolingBy := Some(id), lastFailureBy := Some(id))
  }

  // The requested cooldown of a rate limit or refusal, and whether it came from the backoff.
  function BackedOff(retryAfter: Option<Duration>): bool {
    !(retryAfter.Some? && retryAfter.value > 0)
  }

  function RequestedCooldown(policy: Policy, retryAfter: Option<Duration>, jittered: Duration): Duration {
    if BackedOff(retryAfter) then Min(jittered, policy.backoffMax) else retryAfter.value
  }

  function Throttle(policy: Policy, e: Entry, reason: CoolingReason, retryAfter: Option<Duration>,
                    jittered: Duration, id: SelectionId, now: Instant): Entry
  {
    var deadline := DeadlineAfter(now, RequestedCooldown(policy, retryAfter, jittered));
    var cooled := Cool(e, deadline, reason, id);
    if BackedOff(retryAfter) && !e.Absorbs(deadline) then cooled.(backoffStep := e.backoffStep + 1)
    else cooled
  }

  // A network failure trips the breaker when it reaches the threshold and is not absorbed.
  predicate Trips(policy: Policy, e: Entry, now: Instant) {
    e.consecutiveFailures + 1 >= policy.breakerThreshold
    && !e.Absorbs(DeadlineAfter(now, policy.breakerCooldown))
  }

  function CountNetworkFailure(policy: Policy, e: Entry, id: SelectionId, now: Instant): Entry {
    var counted := e.(consecutiveFailures := e.consecutiveFailures + 1, lastFailureBy := Some(id));
    if Trips(policy, e, now) then
      Cool(counted, DeadlineAfter(now, policy.breakerCooldown), CircuitBreaker, id)
        .(consecutiveFailures := 0, halfOpen := true)
    else counted
  }

  function AfterFailure(policy: Policy, e: Entry, id: SelectionId, failure: Failure,
                        jittered: Duration, now: Instant): Entry
  {
    match failure
    case UsageLimitHit(_, cooldown) => Cool(e, DeadlineAfter(now, cooldown), UsageLimit, id)
    case TooManyRequests(ra) => Throttle(policy, e, RateLimited, ra, jittered, id, now)
    case KeyRefused(ra) => Throttle(policy, e, KeyUnavailable, ra, jittered, id, now)
    case ServerError => e
    case NetworkFailure => CountNetworkFailure(policy, e, id, now)
  }

  // Whether the report applies a cooldown, which is what moves the cursor.
  predicate AppliesCooldown(policy: Policy, e: Entry, failure: Failure, jittered: Duration, now: Instant) {
    match failure
    case UsageLimitHit(_, cooldown) => !e.Absorbs(DeadlineAfter(now, cooldown))
    case TooManyRequests(ra) => !e.Absorbs(DeadlineAfter(now, RequestedCooldown(policy, ra, jittered)))
    case KeyRefused(ra) => !e.Absorbs(DeadlineAfter(now, RequestedCooldown(policy, ra, jittered)))
    case ServerError => false
    case NetworkFailure => Trips(policy, e, now)
  }

  // A key confirmed healthy.
  function Recovered(e: Entry): Entry {
    e.(coolingUntil := None, coolingReason := None, coolingBy := None, consecutiveFailures := 0,
       backoffStep := 0, lastFailureBy := None, halfOpen := false)
  }

  // The claim a selection leaves on a key recovering from a breaker trip.
  function Claimed(policy: Policy, e: Entry, id: SelectionId, now: Instant): Entry {
    if e.halfOpen then
      e.(coolingUntil := Some(DeadlineAfter(now, policy.breakerCooldown)),
         coolingReason := Some(CircuitBreaker), coolingBy := Some(id), lastFailureBy := Some(id))
    else e
  }

  // The entry a report leaves behind; `newId` is the id a proactive report would be given.
  function EntryAfter(policy: Policy, e: Entry, rep: Report, newId: SelectionId, now: Instant): Entry {
    match rep
    case Success(sel) => if e.Stale(sel.id) then e else Recovered(e)
    case Failed(sel, failure, jittered) => AfterFailure(policy, e, sel.id, failure, jittered, now)
    case LivenessFailed(_, model) =>
      e.(liveness := e.liveness[model := DeadlineAfter(now, policy.backoffInitial)])
    case ProactiveCooldown(_, cooldown, at) => Cool(e, DeadlineAfter(at, cooldown), ProactiveUsage, newId)
  }

  predicate MovesCursor(policy: Policy, e: Entry, rep: Report, now: Instant) {
    match rep
    case Success(_) => false
    case Failed(_, failure, jittered) => AppliesCooldown(policy, e, failure, jittered, now)
    case LivenessFailed(_, _) => false
    case ProactiveCooldown(_, cooldown, at) => !e.Absorbs(DeadlineAfter(at, cooldown))
  }

  // ---------------------------------------------------------------------------------------------
  // Pool-level critical sections

  function Fresh(key: Key): Entry {
    Entry(key, None, None, None, 0, 0, None, false, map[])
  }

  function FreshPool(keys: seq<Key>): Pool {
    Pool(seq(|keys|, i requires 0 <= i < |keys| => Fresh(keys[i])), 0, 0)
  }

  function ApplyReport(policy: Policy, pool: Pool, rep: Report, now: Instant): Pool {
    var i := IndexOf(pool.entries, rep.Target());
    if i.None? then pool
    else
      var e := pool.entries[i.value];
      var entries := pool.entries[i.value := EntryAfter(policy, e, rep, pool.nextId, now)];
      // A proactive report scans with the instant it read before taking the lock.
      var scanAt := if rep.ProactiveCooldown? then rep.at else now;
      Pool(entries,
           if MovesCursor(policy, e, rep, now) then NextCursor(entries, pool.cursor, scanAt) else pool.cursor,
           if rep.ProactiveCooldown? then pool.nextId + 1 else pool.nextId)
  }

  // A rate limit or refusal that names no waiting time of its own.
  predicate BacksOff(failure: Failure) {
    (failure.TooManyRequests? || failure.KeyRefused?) && BackedOff(failure.retryAfter)
  }

  // Where a backed-off cooldown may end: at least the backoff of the key's step from now, at most half
  // of it more, capped like every backoff and like every cooldown.
  predicate WithinBackoff(policy: Policy, step: nat, now: Instant, deadline: Instant) {
    var b := Backoff(policy, step);
    now + Min(b, MAX_COOLDOWN) <= deadline <= now + Min(Min(b + b / 2, policy.backoffMax), MAX_COOLDOWN)
  }

  // Whatever the generator draws, such a report cools the key within these bounds and counts a step,
  // unless a cooldown that ends later absorbs it.
  lemma JitteredBackoff(policy: Policy, pool: Pool, sel: Selection, failure: Failure, word: bv64, now: Instant)
    requires Lookup(pool, sel.fingerprint).Some? && BacksOff(failure)
    ensures var e := Lookup(pool, sel.fingerprint).value;
            var drawn := Spread(Backoff(policy, e.backoffStep), word);
            var after := Lookup(ApplyReport(policy, pool, Failed(sel, failure, drawn), now), sel.fingerprint);
            && after.Some? && after.value.coolingUntil.Some?
            && if e.Absorbs(DeadlineAfter(now, Min(drawn, policy.backoffMax))) then after.value == e
               else WithinBackoff(policy, e.backoffStep, now, after.value.coolingUntil.value)
                    && after.value.backoffStep == e.backoffStep + 1 && after.value.coolingBy == Some(sel.id)
  {
    hide Backoff, Spread, NextCursor;
    var i := IndexOf(pool.entries, sel.fingerprint).value;
    var e := pool.entries[i];
    var b := Backoff(policy, e.backoffStep);
    assert b <= policy.backoffMax by { BackoffMonotone(policy, e.backoffStep, e.backoffStep); }
    var rep := Failed(sel, failure, Spread(b, word));
    LookupAfterUpdate(pool.entries, i, EntryAfter(policy, e, rep, pool.nextId, now), sel.fingerprint);
  }

  // What a replacement carries over for one key.
  function Carried(pool: Pool, key: Key): Entry {
    var prev := Lookup(pool, key.fingerprint);
    if prev.None? then Fresh(key) else prev.value.(key := key)
  }

  // A replacement by no keys is refused and changes nothing.
  function ReplaceKeys(pool: Pool, keys: seq<Key>): Pool {
    if keys == [] then pool
    else Pool(seq(|keys|, i requires 0 <= i < |keys| => Carried(pool, keys[i])),
              Min(pool.cursor, |keys| - 1), pool.nextId)
  }

  // The keys in cyclic order from the cursor: the candidates of a new request.
  function CyclicKeys(pool: Pool): seq<Key>
  {
    var n := |pool.entries|;
    seq(n, off requires 0 <= off < n => pool.entries[CyclicIndex(n, pool.cursor, off)].key)
  }

  function NewRequest(policy: Policy, pool: Pool, model: Option<Model>, now: Instant): Request {
    Request(CyclicKeys(pool), [], policy.maxAttempts, DeadlineAfter(now, policy.waitTimeout), model)
  }

  predicate Eligible(pool: Pool, req: Request, c: Key, now: Instant) {
    c.fingerprint !in req.used
    && var e := Lookup(pool, c.fingerprint);
       e.Some? && e.value.Selectable(req.model, now)
  }

  // The position of the first eligible candidate.
  function FirstEligible(pool: Pool, req: Request, now: Instant, from: nat): (r: Option<nat>)
    requires from <= |req.candidates|
    ensures r.Some? ==> from <= r.value < |req.candidates|
                        && Eligible(pool, req, req.candidates[r.value], now)
                        && (forall j :: from <= j < r.value ==> !Eligible(pool, req, req.candidates[j], now))
    ensures r.None? ==> forall j :: from <= j < |req.candidates| ==> !Eligible(pool, req, req.candidates[j], now)
    decreases |req.candidates| - from
  {
    if from == |req.candidates| then None
    else if Eligible(pool, req, req.candidates[from], now) then Some(from)
    else FirstEligible(pool, req, now, from + 1)
  }

  function SelectedKey(pool: Pool, req: Request, now: Instant): (r: Option<Selection>)
    ensures r.Some? ==> r.value.id == pool.nextId && r.value.fingerprint == r.value.key.fingerprint
                        && r.value.key in req.candidates && Eligible(pool, req, r.value.key, now)
    ensures r.None? ==> forall c :: c in req.candidates ==> !Eligible(pool, req, c, now)
  {
    var i := FirstEligible(pool, req, now, 0);
    if i.None? then None
    else
      var c := req.candidates[i.value];
      Some(Selection(c.fingerprint, c, pool.nextId))
  }

  // The pool after a selection attempt: an id is drawn and a half-open key is claimed.
  function PoolAfterSelect(policy: Policy, pool: Pool, req: Request, now: Instant): Pool {
    var sel := SelectedKey(pool, req, now);
    if sel.None? then pool
    else
      var i := IndexOf(pool.entries, sel.value.fingerprint);
      Pool(pool.entries[i.value := Claimed(policy, pool.entries[i.value], pool.nextId, now)],
           pool.cursor, pool.nextId + 1)
  }

  function RequestAfterSelect(pool: Pool, req: Request, now: Instant): Request {
    var sel := SelectedKey(pool, req, now);
    if sel.None? then req else req.(used := req.used + [sel.value.fingerprint])
  }

  // ---------------------------------------------------------------------------------------------
  // Recovery instants

  // The recovery instant of a candidate that lies after `now`.
  function PendingRecovery(pool: Pool, model: Option<Model>, c: Key, now: Instant): Option<Instant> {
    var e := Lookup(pool, c.fingerprint);
    if e.None? then None
    else
      var r := e.value.Recovery(model);
      if r.Some? && r.value > now then r else None
  }

  // The earliest pending recovery over every candidate, used ones included.
  function EarliestOf(pool: Pool, model: Option<Model>, candidates: seq<Key>, now: Instant): (r: Option<Instant>)
    ensures r.Some? ==> r.value > now
                        && (exists c :: c in candidates && PendingRecovery(pool, model, c, now) == r)
    ensures forall c :: c in candidates && PendingRecovery(pool, model, c, now).Some? ==>
              r.Some? && r.value <= PendingRecovery(pool, model, c, now).value
  {
    if candidates == [] then None
    else
      var rest := EarliestOf(pool, model, candidates[1..], now);
      var first := PendingRecovery(pool, model, candidates[0], now);
      assert forall c :: c in candidates <==> c == candidates[0] || c in candidates[1..];
      if first.None? then rest
      else if rest.None? then first
      else Some(Min(first.value, rest.value))
  }

  function EarliestRecovery(pool: Pool, req: Request, now: Instant): Option<Instant> {
    EarliestOf(pool, req.model, req.candidates, now)
  }
}
