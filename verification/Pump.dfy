/**
  Forwarding a streamed response: the bounded prefetch up to the first complete event, and the pump
  that relays the body to the client while the side-band parser watches.
 */
module Pump {
  import opened Prelude
  import opened Durations
  import opened Sse

  // What the upstream body stream yields, and when.  A script that runs out falls silent forever.
  datatype Item = Data(bytes: seq<Byte>, at: Instant) | Broken(at: Instant) | End(at: Instant)

  // The k-th send to the client: how long it takes, and whether the client takes the chunk.
  datatype Send = Send(taken: bool, delay: nat)

  // `got` are the first items, all of them data.
  predicate Delivered(items: seq<Item>, got: seq<seq<Byte>>) {
    |got| <= |items| && forall k :: 0 <= k < |got| ==> items[k].Data? && items[k].bytes == got[k]
  }

  // The chunks the upstream delivers before its body ends or breaks.
  function DataPrefix(items: seq<Item>): seq<seq<Byte>> {
    if items == [] || !items[0].Data? then [] else [items[0].bytes] + DataPrefix(items[1..])
  }

  lemma {:induction false} DeliveredIsPrefix(items: seq<Item>, got: seq<seq<Byte>>)
    requires Delivered(items, got)
    ensures got <= DataPrefix(items)
    ensures |got| == |items| || !items[|got|].Data? ==> got == DataPrefix(items)
  {
    if got != [] {
      var rest := items[1..];
      assert forall k :: 1 <= k < |got| ==> items[k] == rest[k - 1];
      assert |got| < |items| ==> items[|got|] == rest[|got| - 1];
      DeliveredIsPrefix(rest, got[1..]);
      assert got == [got[0]] + got[1..];
    }
  }

  // No item, or one that comes after `deadline`.
  predicate Late(items: seq<Item>, i: nat, deadline: Instant) {
    i >= |items| || items[i].at > deadline
  }

  // ---------------------------------------------------------------------------------------------
  // Prefetch

  datatype PrefetchReason = NetworkError | NoFirstEvent | EndBeforeFirstEvent

  predicate InTime(items: seq<Item>, n: nat, deadline: Instant) {
    n <= |items| && forall k :: 0 <= k < n ==> items[k].at <= deadline
  }

  // They fit the buffer and hold no event yet.
  predicate NoEventYet(got: seq<seq<Byte>>, cap: nat) {
    |Concat(got)| <= cap && EventsIn(Concat(got), cap) == 0
  }

  // Why a prefetch that has got this far fails at the next item.
  predicate FailsAt(items: seq<Item>, got: seq<seq<Byte>>, deadline: Instant, cap: nat, reason: PrefetchReason) {
    var n := |got|;
    match reason
    case NoFirstEvent => Late(items, n, deadline)
    case NetworkError => !Late(items, n, deadline) && items[n].Broken?
    case EndBeforeFirstEvent =>
      !Late(items, n, deadline)
      && (items[n].End? || (items[n].Data? && |Concat(got)| + |items[n].bytes| > cap))
  }

  // A buffer within the cap was never discarded from.
  // What a prefetch may come back with.  Success: the event is complete with the last chunk and not
  // before, and nothing was discarded.  Failure: no event yet, and the next item is the cause.
  predicate IsPrefetch(items: seq<Item>, deadline: Instant, cap: nat, failure: Option<PrefetchReason>,
                       prefetched: seq<seq<Byte>>)
  {
    && Delivered(items, prefetched) && InTime(items, |prefetched|, deadline)
    && if failure.None? then
         && prefetched != [] && NoEventYet(prefetched[..|prefetched| - 1], cap)
         && |Concat(prefetched)| <= cap && EventsIn(Concat(prefetched), cap) > 0
         && |Pending(Concat(prefetched))| <= cap
       else
         NoEventYet(prefetched, cap) && FailsAt(items, prefetched, deadline, cap, failure.value)
  }

  // Reads until the first complete event, within the deadline and the buffer.
  method Prefetch<U>(items: seq<Item>, deadline: Instant, cap: nat, usageOf: seq<Byte> -> Option<U>)
    returns (failure: Option<PrefetchReason>, prefetched: seq<seq<Byte>>)
    ensures IsPrefetch(items, deadline, cap, failure, prefetched)
  {
    hide Detects, EventsIn, Concat, Pending;
    var detector := NewDetector(cap, usageOf);
    prefetched := [];
    NothingParsed(cap);
    var total := 0;
    while true
      invariant Delivered(items, prefetched) && InTime(items, |prefetched|, deadline) && NoEventYet(prefetched, cap)
      invariant Detects(detector, prefetched, cap) && fresh(detector) && fresh(detector.tail)
      invariant total == |Concat(prefetched)|
      decreases |items| - |prefetched|
    {
      var i := |prefetched|;
      if Late(items, i, deadline) {
        return Some(NoFirstEvent), prefetched;
      } else if items[i].Broken? {
        return Some(NetworkError), prefetched;
      } else if items[i].End? {
        return Some(EndBeforeFirstEvent), prefetched;
      }
      var bytes := items[i].bytes;
      total := total + |bytes|;
      if total > cap {
        return Some(EndBeforeFirstEvent), prefetched;
      }
      var events := Detect(detector, bytes, cap, prefetched);
      var more := prefetched + [bytes];
      assert more[..i] == prefetched && Delivered(items, more);
      prefetched := more;
      if events > 0 {
        PendingEndsLikeStream(Concat(prefetched));
        return None, prefetched;
      }
    }
  }

  lemma {:induction false} EventsMonotone(s: seq<Byte>, n: nat, cap: nat)
    requires n <= |s|
    ensures EventsIn(s[..n], cap) <= EventsIn(s, cap)
    decreases |s|
  {
    hide EventsIn, Pending, HasData, EndsEvent, UsageIn;
    if n == |s| {
      assert s[..n] == s;
    } else {
      var init, b := s[..|s| - 1], s[|s| - 1];
      assert s == init + [b] && init[..n] == s[..n];
      EventsMonotone(init, n, cap);
      ByteCounts<bool>(cap, _ => None, init, b);
    }
  }

  // More chunks hold at least as many bytes and events.
  lemma MoreChunks(got: seq<seq<Byte>>, n: nat, cap: nat)
    requires n <= |got|
    ensures |Concat(got[..n])| <= |Concat(got)| && EventsIn(Concat(got[..n]), cap) <= EventsIn(Concat(got), cap)
  {
    hide Concat, EventsIn;
    assert got == got[..n] + got[n..];
    ConcatAppend(got[..n], got[n..]);
    EventsMonotone(Concat(got), |Concat(got[..n])|, cap);
    assert Concat(got)[..|Concat(got[..n])|] == Concat(got[..n]);
  }

  // A prefetch that came back cannot be cut short by another.
  lemma NoEarlierPrefetch(items: seq<Item>, deadline: Instant, cap: nat,
                          f: Option<PrefetchReason>, short: seq<seq<Byte>>,
                          g: Option<PrefetchReason>, long: seq<seq<Byte>>)
    requires IsPrefetch(items, deadline, cap, f, short) && IsPrefetch(items, deadline, cap, g, long)
    ensures |short| >= |long|
  {
    hide Concat, EventsIn, Pending;
    var n := |short|;
    if n < |long| {
      assert long[..n] == short;
      var before := long[..|long| - 1];
      assert before[..n] == short;
      MoreChunks(before, n, cap);
      MoreChunks(long, n, cap);
      MoreChunks(long, n + 1, cap);
      ConcatTake(long, n);
      assert false;
    }
  }

  // The body and the deadline determine what a prefetch comes back with.
  lemma PrefetchUnique(items: seq<Item>, deadline: Instant, cap: nat, f: Option<PrefetchReason>, a: seq<seq<Byte>>,
                       g: Option<PrefetchReason>, b: seq<seq<Byte>>)
    requires IsPrefetch(items, deadline, cap, f, a) && IsPrefetch(items, deadline, cap, g, b)
    ensures f == g && a == b
  {
    hide Concat, EventsIn, Pending;
    NoEarlierPrefetch(items, deadline, cap, f, a, g, b);
    NoEarlierPrefetch(items, deadline, cap, g, b, f, a);
    assert forall k :: 0 <= k < |a| ==> a[k] == items[k].bytes == b[k];
    assert a == b;
  }

  // The detector has seen exactly the chunks `got`.
  ghost predicate Detects<U>(d: SseUsageParser<U>, got: seq<seq<Byte>>, cap: nat)
    reads d, d.tail
  {
    d.Valid() && d.cap == cap && d.seen == Concat(got)
  }

  method NewDetector<U>(cap: nat, usageOf: seq<Byte> -> Option<U>) returns (d: SseUsageParser<U>)
    ensures fresh(d) && fresh(d.tail) && Detects(d, [], cap)
  {
    d := new SseUsageParser(cap, usageOf);
  }

  method Detect<U>(d: SseUsageParser<U>, bytes: seq<Byte>, cap: nat, ghost got: seq<seq<Byte>>) returns (events: nat)
    requires Detects(d, got, cap)
    modifies d, d.tail
    ensures Detects(d, got + [bytes], cap)
    ensures |Concat(got + [bytes])| == |Concat(got)| + |bytes|
    ensures EventsIn(Concat(got), cap) + events == EventsIn(Concat(got + [bytes]), cap)
  {
    ConcatSnoc(got, bytes);
    events := d.Push(bytes);
  }

  // ---------------------------------------------------------------------------------------------
  // The parsers behind the pump

  // Usage of a plain JSON body, extracted only when the whole body fits the cap.
  class JsonUsageParser<U> {
    const cap: nat
    const extract: seq<Byte> -> Option<U>
    var buf: seq<Byte>
    var overflowed: bool
    ghost var seen: seq<Byte>

    ghost predicate Valid()
      reads this
    {
      overflowed == (|seen| > cap) && buf == if overflowed then [] else seen
    }

    constructor (cap: nat, extract: seq<Byte> -> Option<U>)
      ensures Valid() && seen == [] && this.cap == cap && this.extract == extract
    {
      this.cap, this.extract := cap, extract;
      buf, overflowed, seen := [], false, [];
    }

    method Push(chunk: seq<Byte>)
      requires Valid()
      modifies this
      ensures Valid() && seen == old(seen) + chunk
    {
      seen := seen + chunk;
      if overflowed {
        return;
      }
      var remaining := cap - |buf|;
      if |chunk| <= remaining {
        buf := buf + chunk;
      } else {
        buf, overflowed := [], true;
      }
    }

    function Usage(): Option<U>
      requires Valid()
      reads this
      ensures Usage() == if |seen| <= cap then extract(seen) else None
    {
      if overflowed then None else extract(buf)
    }
  }

  // One of the two, watching the body as it passes.
  datatype Watcher<U> = EventWatcher(sse: SseUsageParser<U>) | JsonWatcher(json: JsonUsageParser<U>) {
    function Objects(): set<object> {
      if EventWatcher? then {sse, sse.tail} else {json}
    }

    ghost predicate Valid()
      reads Objects()
    {
      if EventWatcher? then sse.Valid() else json.Valid()
    }

    ghost function Seen(): seq<Byte>
      reads Objects()
    {
      if EventWatcher? then sse.seen else json.seen
    }

    // The events the watcher counts in a stream: none in a plain body.
    function Events(stream: seq<Byte>): nat {
      if EventWatcher? then EventsIn(stream, sse.cap) else 0
    }

    method Push(chunk: seq<Byte>) returns (events: nat)
      requires Valid()
      modifies Objects()
      ensures Valid() && Seen() == old(Seen()) + chunk
      ensures events == Events(Seen()) - Events(old(Seen()))
    {
      match this {
        case EventWatcher(p) => events := p.Push(chunk);
        case JsonWatcher(p) =>
          p.Push(chunk);
          events := 0;
      }
    }
  }

  // ---------------------------------------------------------------------------------------------
  // The pump

  datatype PumpOutcome = Completed | UpstreamError | ClientCancel | EventIdleTimeout

  datatype Metrics = Metrics(bytes: nat, chunks: nat, events: nat)

  // The watcher has seen, and the metrics count, exactly the chunks read.
  ghost predicate Tracks<U>(w: Watcher<U>, read: seq<seq<Byte>>, m: Metrics)
    reads w.Objects()
  {
    w.Valid() && w.Seen() == Concat(read)
    && m == Metrics(|Concat(read)|, |read|, w.Events(Concat(read)))
  }

  // Shows one chunk to the watcher.
  method Watch<U>(w: Watcher<U>, bytes: seq<Byte>, m: Metrics, ghost read: seq<seq<Byte>>)
    returns (m': Metrics, events: nat)
    requires Tracks(w, read, m)
    modifies w.Objects()
    ensures Tracks(w, read + [bytes], m')
    ensures events == w.Events(Concat(read + [bytes])) - w.Events(Concat(read))
  {
    hide Concat, Keeps, Pending, EventsIn, UsageIn;
    ConcatSnoc(read, bytes);
    events := w.Push(bytes);
    m' := Metrics(m.bytes + |bytes|, m.chunks + 1, m.events + events);
  }

  // A committed response to relay: the chunks prefetched, what the live body yields, the idle budget,
  // what becomes of each send, and when the pump starts.
  datatype Plan = Plan(
    streaming: bool, cap: nat, idle: Duration, prefetched: seq<seq<Byte>>, live: seq<Item>, sends: nat -> Send,
    start: Instant)
  {
    // The send of live chunk `n`.
    function LiveSend(n: nat): Send {
      sends(|prefetched| + n)
    }
  }

  // The client takes the first `n` chunks.
  predicate TakenUpTo(p: Plan, n: nat) {
    forall k :: 0 <= k < n ==> p.sends(k).taken
  }

  // When the first `n` prefetched chunks have been handed over.
  function Handed(p: Plan, n: nat): Instant {
    if n == 0 then p.start else Handed(p, n - 1) + p.sends(n - 1).delay
  }

  // When the pump turns to item `n` of the live body: after it took the items before and handed
  // them on.
  function Clock(p: Plan, n: nat): Instant
    requires n <= |p.live|
    decreases n, 0
  {
    if n == 0 then Handed(p, |p.prefetched|) else Taken(p, n - 1) + p.LiveSend(n - 1).delay
  }

  function Taken(p: Plan, n: nat): Instant
    requires n < |p.live|
    decreases n, 1
  {
    var now := Clock(p, n);
    if p.live[n].at > now then p.live[n].at else now
  }

  // When the last of the live chunks `got` that completed an event was taken.
  function LastEvent(p: Plan, got: seq<seq<Byte>>): Instant
    requires |got| <= |p.live|
  {
    if got == [] then Handed(p, |p.prefetched|)
    else
      var n := |got| - 1;
      if EventsIn(Concat(p.prefetched + got), p.cap) > EventsIn(Concat(p.prefetched + got[..n]), p.cap)
      then Taken(p, n) else LastEvent(p, got[..n])
  }

  // An event stream stalls when its next item is not there an idle budget after the last event; one
  // that is already there is taken even if the budget ran out meanwhile. A plain body has the budget
  // anew for each read.
  predicate Stalls(p: Plan, got: seq<seq<Byte>>)
    requires |got| <= |p.live|
  {
    var now := Clock(p, |got|);
    Late(p.live, |got|, if p.streaming then Max(now, LastEvent(p, got) + p.idle) else now + p.idle)
  }

  // A client that takes chunks without delay and items that come one after the other, none before the
  // pump turns to the live body.
  ghost predicate Smooth(p: Plan) {
    && (forall k: nat :: p.LiveSend(k).delay == 0)
    && (forall k :: 0 <= k < |p.live| ==> Handed(p, |p.prefetched|) <= p.live[k].at)
    && (forall j, k :: 0 <= j < k < |p.live| ==> p.live[j].at <= p.live[k].at)
  }

  lemma {:induction false} SmoothClock(p: Plan, n: nat)
    requires Smooth(p) && n <= |p.live|
    ensures Clock(p, n) == if n == 0 then Handed(p, |p.prefetched|) else p.live[n - 1].at
    ensures n < |p.live| ==> Taken(p, n) == p.live[n].at
  {
    if n > 0 {
      SmoothClock(p, n - 1);
      assert p.LiveSend(n - 1).delay == 0;
    }
  }

  // Then a plain body stalls exactly if an item comes more than the idle budget after the one before,
  // and an event stream exactly if one comes more than the budget after the last completed event.
  lemma StallMeans(p: Plan, got: seq<seq<Byte>>)
    requires Smooth(p) && 0 < |got| <= |p.live|
    ensures !p.streaming ==> (Stalls(p, got) <==> Late(p.live, |got|, p.live[|got| - 1].at + p.idle))
    ensures p.streaming && EventsIn(Concat(p.prefetched + got), p.cap)
                           > EventsIn(Concat(p.prefetched + got[..|got| - 1]), p.cap) ==>
              (Stalls(p, got) <==> Late(p.live, |got|, p.live[|got| - 1].at + p.idle))
    ensures p.streaming && EventsIn(Concat(p.prefetched + got), p.cap)
                           <= EventsIn(Concat(p.prefetched + got[..|got| - 1]), p.cap) ==>
              (Stalls(p, got)
               <==> Late(p.live, |got|, Max(p.live[|got| - 1].at, LastEvent(p, got[..|got| - 1]) + p.idle)))
  {
    hide EventsIn, Concat, Clock, Taken, Smooth;
    SmoothClock(p, |got|);
    SmoothClock(p, |got| - 1);
  }

  // The live chunks `got` were read, each in time, and all before the last were taken by the client;
  // then the pump ends as it must.
  predicate LiveEnds(p: Plan, got: seq<seq<Byte>>, outcome: PumpOutcome) {
    && Delivered(p.live, got)
    && (forall k :: 0 <= k < |got| ==> !Stalls(p, got[..k]))
    && (forall k :: 0 <= k < |got| - 1 ==> p.LiveSend(k).taken)
    && outcome == (if got != [] && !p.LiveSend(|got| - 1).taken then ClientCancel
                   else if Stalls(p, got) then (if p.streaming then EventIdleTimeout else UpstreamError)
                   else if p.live[|got|].End? then Completed else UpstreamError)
    && (outcome.ClientCancel? || Stalls(p, got) || !p.live[|got|].Data?)
  }

  // How the pump of a plan ends, having read `read`: at the first chunk the client does not take, or
  // with the live body.
  predicate PumpEnds(p: Plan, read: seq<seq<Byte>>, outcome: PumpOutcome) {
    var n := |p.prefetched|;
    || (&& 0 < |read| <= n && read == p.prefetched[..|read|] && outcome.ClientCancel?
        && !p.sends(|read| - 1).taken && TakenUpTo(p, |read| - 1))
    || (p.prefetched <= read && LiveEnds(p, read[n..], outcome) && TakenUpTo(p, n))
  }

  lemma NoEarlierEnd(p: Plan, short: seq<seq<Byte>>, o: PumpOutcome, long: seq<seq<Byte>>, q: PumpOutcome)
    requires PumpEnds(p, short, o) && PumpEnds(p, long, q)
    ensures |short| >= |long|
  {
    hide Stalls;
    SliceOfPrefix(short, long, |p.prefetched|);
    if |short| < |long| {
      assert false;
    }
  }

  lemma SliceOfPrefix(a: seq<seq<Byte>>, b: seq<seq<Byte>>, n: nat)
    ensures n <= |a| <= |b| && (forall k :: n <= k < |a| ==> a[k] == b[k]) ==> b[n..][..|a| - n] == a[n..]
  {
  }

  lemma StillComing(p: Plan, got: seq<seq<Byte>>)
    requires |got| <= |p.live| && !Stalls(p, got)
    ensures |got| < |p.live|
  {
  }

  // A plan determines what is read and how it ends.
  lemma PumpEndsOneWay(p: Plan, read: seq<seq<Byte>>, o: PumpOutcome, read': seq<seq<Byte>>, o': PumpOutcome)
    requires PumpEnds(p, read, o) && PumpEnds(p, read', o')
    ensures read == read' && o == o'
  {
    hide Stalls;
    NoEarlierEnd(p, read, o, read', o');
    NoEarlierEnd(p, read', o', read, o);
    var n := |p.prefetched|;
    forall k | 0 <= k < |read| ensures read[k] == read'[k] {
      if k >= n {
        assert read[k] == read[n..][k - n] && read'[k] == read'[n..][k - n];
      }
    }
    assert read == read';
  }

  // Everything goes well: the body comes to its end, in time, and the client takes every chunk.
  predicate Healthy(p: Plan) {
    var body := DataPrefix(p.live);
    var d := |body|;
    && d < |p.live| && p.live[d].End?
    && TakenUpTo(p, |p.prefetched| + d)
    && (forall k :: 0 <= k <= d ==> !Stalls(p, body[..k]))
  }

  lemma {:induction false} DataPrefixDelivered(items: seq<Item>)
    ensures Delivered(items, DataPrefix(items))
    ensures |DataPrefix(items)| < |items| ==> !items[|DataPrefix(items)|].Data?
  {
    if items != [] && items[0].Data? {
      DataPrefixDelivered(items[1..]);
      var rest := DataPrefix(items[1..]);
      assert forall k :: 0 <= k < |rest| ==> items[1..][k] == items[k + 1];
    }
  }

  // The pump completes if and only if everything goes well.
  lemma CompletesIffHealthy(p: Plan, read: seq<seq<Byte>>, outcome: PumpOutcome)
    requires PumpEnds(p, read, outcome)
    ensures outcome.Completed? <==> Healthy(p)
  {
    hide Stalls, DataPrefix;
    var n, body := |p.prefetched|, DataPrefix(p.live);
    DataPrefixDelivered(p.live);
    if Healthy(p) {
      assert (p.prefetched + body)[n..] == body;
      assert body[..|body|] == body;
      assert LiveEnds(p, body, Completed);
      PumpEndsOneWay(p, read, outcome, p.prefetched + body, Completed);
    }
    if outcome.Completed? {
      var got := read[n..];
      DeliveredIsPrefix(p.live, got);
      assert got == body && got[..|got|] == got;
      assert got != [] ==> p.LiveSend(|got| - 1).taken;
      StillComing(p, got);
      forall k | 0 <= k < n + |body| ensures p.sends(k).taken {
        if k >= n {
          assert p.LiveSend(k - n) == p.sends(k) && p.LiveSend(k - n).taken;
        }
      }
      forall k | 0 <= k <= |body| ensures !Stalls(p, body[..k]) {
        assert k < |got| ==> !Stalls(p, got[..k]);
      }
    }
  }

  // Everything read was sent, or all but the last chunk, which the client did not take.
  predicate Relayed(outcome: PumpOutcome, read: seq<seq<Byte>>, sent: seq<seq<Byte>>) {
    if outcome.ClientCancel? then read != [] && sent == read[..|read| - 1] else sent == read
  }

  // The watcher is the one for this plan.
  predicate Suits<U>(w: Watcher<U>, p: Plan) {
    w.EventWatcher? == p.streaming && (w.EventWatcher? ==> w.sse.cap == p.cap)
  }

  // Replays the prefetched chunks.  The first `n` are read; all of them are taken by the client, or
  // all but the last when it cancels.
  method RelayPrefetched<U>(w: Watcher<U>, p: Plan)
    returns (cancelled: bool, n: nat, sent: seq<seq<Byte>>, m: Metrics, now: Instant)
    requires w.Valid() && w.Seen() == []
    modifies w.Objects()
    ensures n <= |p.prefetched| && Tracks(w, p.prefetched[..n], m) && now == Handed(p, n)
    ensures if cancelled then n > 0 && TakenUpTo(p, n - 1) && !p.sends(n - 1).taken && sent == p.prefetched[..n - 1]
            else n == |p.prefetched| && TakenUpTo(p, n) && sent == p.prefetched
  {
    hide Tracks, Handed, Concat, EventsIn, Keeps, Pending, UsageIn;
    HandedStarts(p);
    cancelled, n, sent, m, now := false, 0, [], Metrics(0, 0, 0), p.start;
    assert p.prefetched[..0] == [];
    NothingTracked(w);
    while n < |p.prefetched|
      invariant n <= |p.prefetched| && Tracks(w, p.prefetched[..n], m) && now == Handed(p, n)
      invariant sent == p.prefetched[..n] && TakenUpTo(p, n)
    {
      var events;
      assert p.prefetched[..n + 1] == p.prefetched[..n] + [p.prefetched[n]];
      m, events := Watch(w, p.prefetched[n], m, p.prefetched[..n]);
      var send := p.sends(n);
      HandedStep(p, n);
      n, now := n + 1, now + send.delay;
      if !send.taken {
        cancelled := true;
        return;
      }
      sent := sent + [p.prefetched[n - 1]];
    }
    assert p.prefetched[..|p.prefetched|] == p.prefetched;
  }

  lemma HandedStarts(p: Plan)
    ensures Handed(p, 0) == p.start
  {
  }

  lemma HandedStep(p: Plan, n: nat)
    ensures Handed(p, n + 1) == Handed(p, n) + p.sends(n).delay
  {
  }

  lemma NothingTracked<U>(w: Watcher<U>)
    requires w.Valid() && w.Seen() == []
    ensures Tracks(w, [], Metrics(0, 0, 0))
  {
    NothingParsed(if w.EventWatcher? then w.sse.cap else 0);
  }

  lemma ClockSteps(p: Plan, n: nat)
    requires n < |p.live|
    ensures Taken(p, n) == Max(Clock(p, n), p.live[n].at)
    ensures Clock(p, n + 1) == Taken(p, n) + p.LiveSend(n).delay
  {
  }

  lemma ClockStarts(p: Plan)
    ensures Clock(p, 0) == LastEvent(p, []) == Handed(p, |p.prefetched|)
  {
  }

  lemma LastEventSnoc<U>(w: Watcher<U>, p: Plan, got: seq<seq<Byte>>, bytes: seq<Byte>)
    requires |got| < |p.live| && Suits(w, p) && p.streaming
    ensures LastEvent(p, got + [bytes])
            == if w.Events(Concat((p.prefetched + got) + [bytes])) > w.Events(Concat(p.prefetched + got))
               then Taken(p, |got|) else LastEvent(p, got)
  {
    hide Concat, Taken, EventsIn;
    assert (got + [bytes])[..|got|] == got;
    assert p.prefetched + (got + [bytes]) == (p.prefetched + got) + [bytes];
  }

  // Relays the live body after the prefetched chunks; `got` are the live chunks read.
  method RelayLive<U>(w: Watcher<U>, p: Plan, start: Instant, m0: Metrics)
    returns (outcome: PumpOutcome, got: seq<seq<Byte>>, sent: seq<seq<Byte>>, m: Metrics)
    requires Tracks(w, p.prefetched, m0) && Suits(w, p) && start == Handed(p, |p.prefetched|)
    modifies w.Objects()
    ensures Tracks(w, p.prefetched + got, m) && LiveEnds(p, got, outcome) && Relayed(outcome, got, sent)
  {
    hide Tracks, Concat, Clock, Taken, LastEvent, EventsIn, Handed;
    ghost var all := p.prefetched;
    got, sent, m := [], [], m0;
    ClockStarts(p);
    assert all == p.prefetched + got;
    var now := start;
    var eventDeadline := if p.streaming then Some(start + p.idle) else None;
    while true
      invariant Tracks(w, all, m) && all == p.prefetched + got
      invariant Delivered(p.live, got) && sent == got
      invariant now == Clock(p, |got|)
      invariant eventDeadline == if p.streaming then Some(LastEvent(p, got) + p.idle) else None
      invariant forall k :: 0 <= k < |got| ==> !Stalls(p, got[..k]) && p.LiveSend(k).taken
      decreases |p.live| - |got|
    {
      var n := |got|;
      var until := if eventDeadline.Some? then Max(now, eventDeadline.value) else now + p.idle;
      if Late(p.live, n, until) {
        outcome := if eventDeadline.Some? then EventIdleTimeout else UpstreamError;
        return;
      }
      assert !Stalls(p, got);
      ClockSteps(p, n);
      now := Max(now, p.live[n].at);
      if !p.live[n].Data? {
        outcome := if p.live[n].End? then Completed else UpstreamError;
        return;
      }
      var bytes, events := p.live[n].bytes, 0;
      m, events := Watch(w, bytes, m, all);
      if p.streaming {
        LastEventSnoc(w, p, got, bytes);
      }
      if events > 0 {
        eventDeadline := Some(now + p.idle);
      }
      var more := got + [bytes];
      OneMoreInTime(p, got, bytes);
      got, all := more, all + [bytes];
      assert all == p.prefetched + got;
      var send := p.LiveSend(n);
      now := now + send.delay;
      if !send.taken {
        outcome := ClientCancel;
        return;
      }
      sent := sent + [bytes];
    }
  }

  lemma OneMoreInTime(p: Plan, got: seq<seq<Byte>>, bytes: seq<Byte>)
    requires |got| < |p.live| && !Stalls(p, got) && forall k :: 0 <= k < |got| ==> !Stalls(p, got[..k])
    ensures forall k :: 0 <= k <= |got| ==> !Stalls(p, (got + [bytes])[..k])
  {
    hide Stalls;
    forall k | 0 <= k <= |got| ensures !Stalls(p, (got + [bytes])[..k]) {
      assert (got + [bytes])[..k] == got[..k];
      assert got[..|got|] == got;
    }
  }

  // ---------------------------------------------------------------------------------------------
  // From the upstream to the client

  datatype Forwarding<U> =
    | NotCommitted(reason: PrefetchReason)
    | Committed(outcome: PumpOutcome, metrics: Metrics, usage: Option<U>)

  // A fresh watcher for the body.
  method NewWatcher<U>(streaming: bool, eventCap: nat, jsonCap: nat, usageOf: seq<Byte> -> Option<U>,
                       extract: seq<Byte> -> Option<U>)
    returns (w: Watcher<U>)
    ensures fresh(w.Objects()) && w.Valid() && w.Seen() == [] && w.EventWatcher? == streaming
    ensures WatcherFor(w, eventCap, jsonCap, usageOf, extract)
  {
    if streaming {
      var p := new SseUsageParser(eventCap, usageOf);
      w := EventWatcher(p);
    } else {
      var p := new JsonUsageParser(jsonCap, extract);
      w := JsonWatcher(p);
    }
  }

  ghost predicate WatcherFor<U>(w: Watcher<U>, eventCap: nat, jsonCap: nat, usageOf: seq<Byte> -> Option<U>,
                                extract: seq<Byte> -> Option<U>)
  {
    match w
    case EventWatcher(p) => p.cap == eventCap && p.usageOf == usageOf
    case JsonWatcher(p) => p.cap == jsonCap && p.extract == extract
  }

  // The events and the usage of a whole body.
  function BodyEvents(streaming: bool, body: seq<Byte>, eventCap: nat): nat {
    if streaming then EventsIn(body, eventCap) else 0
  }

  function BodyUsage<U>(streaming: bool, body: seq<Byte>, eventCap: nat, jsonCap: nat,
                        usageOf: seq<Byte> -> Option<U>, extract: seq<Byte> -> Option<U>): Option<U>
  {
    if streaming then UsageIn(body, eventCap, usageOf)
    else if |body| <= jsonCap then extract(body) else None
  }

  method ReadUsage<U>(w: Watcher<U>, eventCap: nat, jsonCap: nat, usageOf: seq<Byte> -> Option<U>,
                      extract: seq<Byte> -> Option<U>)
    returns (usage: Option<U>)
    requires w.Valid() && WatcherFor(w, eventCap, jsonCap, usageOf, extract)
    ensures usage == BodyUsage(w.EventWatcher?, w.Seen(), eventCap, jsonCap, usageOf, extract)
  {
    match w {
      case EventWatcher(p) => usage := p.usage;
      case JsonWatcher(p) => usage := p.Usage();
    }
  }

  // Relays a committed response: the prefetched chunks, then the live body.  `read` is everything
  // that was read from the upstream.
  method PumpUpstream<U>(w: Watcher<U>, p: Plan)
    returns (outcome: PumpOutcome, read: seq<seq<Byte>>, sent: seq<seq<Byte>>, m: Metrics)
    requires w.Valid() && w.Seen() == [] && Suits(w, p)
    modifies w.Objects()
    ensures Tracks(w, read, m) && PumpEnds(p, read, outcome) && Relayed(outcome, read, sent)
  {
    hide Tracks, LiveEnds, Handed, Concat, PumpEnds, TakenUpTo, Relayed, Keeps, Pending, EventsIn, UsageIn;
    var cancelled, n, now;
    cancelled, n, sent, m, now := RelayPrefetched(w, p);
    if cancelled {
      EndsEarly(p, n);
      outcome, read := ClientCancel, p.prefetched[..n];
      return;
    }
    assert p.prefetched[..n] == p.prefetched;
    var got, sentLive;
    outcome, got, sentLive, m := RelayLive(w, p, now, m);
    EndsLive(p, got, sentLive, outcome);
    read, sent := p.prefetched + got, sent + sentLive;
  }

  lemma EndsEarly(p: Plan, n: nat)
    requires 0 < n <= |p.prefetched| && !p.sends(n - 1).taken && TakenUpTo(p, n - 1)
    ensures PumpEnds(p, p.prefetched[..n], ClientCancel)
    ensures Relayed(ClientCancel, p.prefetched[..n], p.prefetched[..n - 1])
  {
    hide LiveEnds;
    assert p.prefetched[..n][..n - 1] == p.prefetched[..n - 1];
  }

  lemma EndsLive(p: Plan, got: seq<seq<Byte>>, sent: seq<seq<Byte>>, outcome: PumpOutcome)
    requires LiveEnds(p, got, outcome) && Relayed(outcome, got, sent) && TakenUpTo(p, |p.prefetched|)
    ensures PumpEnds(p, p.prefetched + got, outcome) && Relayed(outcome, p.prefetched + got, p.prefetched + sent)
  {
    hide LiveEnds;
    assert (p.prefetched + got)[|p.prefetched|..] == got;
  }

  // What was read and when it is complete, as far as the upstream is concerned.
  lemma EndsRead(p: Plan, read: seq<seq<Byte>>, outcome: PumpOutcome)
    requires PumpEnds(p, read, outcome)
    ensures read <= p.prefetched || (p.prefetched <= read && Delivered(p.live, read[|p.prefetched|..]))
    ensures outcome.Completed? ==>
              p.prefetched <= read && |read| - |p.prefetched| < |p.live| && p.live[|read| - |p.prefetched|].End?
  {
    hide Clock, LastEvent;
  }

  lemma ReadIsPrefix(items: seq<Item>, prefetched: seq<seq<Byte>>, read: seq<seq<Byte>>)
    requires Delivered(items, prefetched)
    requires read <= prefetched
             || (prefetched <= read && Delivered(items[|prefetched|..], read[|prefetched|..]))
    ensures Delivered(items, read) && read <= DataPrefix(items)
    ensures |prefetched| <= |read| < |items| && !items[|read|].Data? ==> read == DataPrefix(items)
  {
    var n := |prefetched|;
    if |read| > n {
      forall k | 0 <= k < |read| ensures k < |items| && items[k].Data? && items[k].bytes == read[k] {
        if k < n {
          assert prefetched[k] == read[k];
        } else {
          assert items[n..][k - n] == items[k] && read[n..][k - n] == read[k];
        }
      }
    }
    DeliveredIsPrefix(items, read);
  }

  function BodyMetrics(streaming: bool, read: seq<seq<Byte>>, eventCap: nat): Metrics {
    Metrics(|Concat(read)|, |read|, BodyEvents(streaming, Concat(read), eventCap))
  }

  const NO_METRICS: Metrics := Metrics(0, 0, 0)

  // A committed response with its own fresh watcher.  The client may vanish while the pump waits for
  // something: `gone` is then how many chunks it may have been handed, and what the pump has counted
  // is dropped with it.
  method ForwardCommitted<U>(p: Plan, jsonCap: nat, usageOf: seq<Byte> -> Option<U>, extract: seq<Byte> -> Option<U>,
                             gone: Option<nat>)
    returns (outcome: PumpOutcome, read: seq<seq<Byte>>, sent: seq<seq<Byte>>, m: Metrics, usage: Option<U>)
    ensures read <= p.prefetched || (p.prefetched <= read && Delivered(p.live, read[|p.prefetched|..]))
    ensures gone.Some? ==> outcome.ClientCancel? && m == NO_METRICS && sent <= read && |sent| <= gone.value
    ensures gone.None? ==>
              PumpEnds(p, read, outcome) && m == BodyMetrics(p.streaming, read, p.cap) && Relayed(outcome, read, sent)
    ensures usage == if outcome.Completed? then BodyUsage(p.streaming, Concat(read), p.cap, jsonCap, usageOf, extract)
                     else None
  {
    hide EventsIn, UsageIn, Concat, Delivered, PumpEnds;
    var w := NewWatcher(p.streaming, p.cap, jsonCap, usageOf, extract);
    outcome, read, sent, m := PumpUpstream(w, p);
    EndsRead(p, read, outcome);
    usage := None;
    if gone.Some? {
      outcome, m, sent := ClientCancel, NO_METRICS, sent[..Min(gone.value, |sent|)];
    } else if outcome.Completed? {
      usage := ReadUsage(w, p.cap, jsonCap, usageOf, extract);
    }
  }

  // How the prefetch of a body ended; a plain body has none.
  ghost predicate PrefetchEnds(items: seq<Item>, streaming: bool, deadline: Instant, cap: nat,
                               failure: Option<PrefetchReason>)
  {
    if streaming then exists prefetched :: IsPrefetch(items, deadline, cap, failure, prefetched) else failure.None?
  }

  lemma PrefetchEndsOneWay(items: seq<Item>, streaming: bool, deadline: Instant, cap: nat,
                           f: Option<PrefetchReason>, g: Option<PrefetchReason>)
    requires PrefetchEnds(items, streaming, deadline, cap, f) && PrefetchEnds(items, streaming, deadline, cap, g)
    ensures f == g
  {
    hide IsPrefetch;
    if streaming {
      var a :| IsPrefetch(items, deadline, cap, f, a);
      var b :| IsPrefetch(items, deadline, cap, g, b);
      PrefetchUnique(items, deadline, cap, f, a, g, b);
    }
  }

  // The plan that a body gives once its prefetch has succeeded.
  ghost predicate PlanFor(p: Plan, items: seq<Item>, streaming: bool, firstEventDeadline: Instant, idle: Duration,
                          eventCap: nat, sends: nat -> Send, start: Instant)
  {
    && p.streaming == streaming && p.cap == eventCap && p.idle == idle && p.start == start && p.sends == sends
    && |p.prefetched| <= |items| && p.live == items[|p.prefetched|..]
    && if streaming then IsPrefetch(items, firstEventDeadline, eventCap, None, p.prefetched) else p.prefetched == []
  }

  // A whole response body.  Nothing reaches the client before the prefetch succeeds; after that the
  // client is sent a prefix of the upstream's chunks, all of them when the pump completes, and the
  // metrics and the usage describe prefetched and live bytes together.
  method ForwardBody<U>(items: seq<Item>, streaming: bool, firstEventDeadline: Instant, idle: Duration,
                        eventCap: nat, jsonCap: nat, usageOf: seq<Byte> -> Option<U>,
                        extract: seq<Byte> -> Option<U>, sends: nat -> Send, start: Instant, gone: Option<nat>)
    returns (result: Forwarding<U>, sent: seq<seq<Byte>>, ghost plan: Plan)
    ensures PrefetchEnds(items, streaming, firstEventDeadline, eventCap,
                         if result.NotCommitted? then Some(result.reason) else None)
    ensures result.NotCommitted? ==> streaming && sent == []
    ensures sent <= DataPrefix(items)
    ensures result.Committed? ==>
              PlanFor(plan, items, streaming, firstEventDeadline, idle, eventCap, sends, start)
    // how it ends, and exactly when it completes
    ensures result.Committed? && gone.Some? ==> result.outcome.ClientCancel? && result.metrics == NO_METRICS
    ensures result.Committed? && gone.None? ==>
              && (exists read :: PumpEnds(plan, read, result.outcome))
              && (result.outcome.Completed? <==> Healthy(plan))
    ensures result.Committed? && gone.None? ==>
              var n := |sent| + if result.outcome.ClientCancel? then 1 else 0;
              n <= |DataPrefix(items)| && result.metrics == BodyMetrics(streaming, DataPrefix(items)[..n], eventCap)
    ensures result.Committed? && result.outcome.Completed? ==>
              && sent == DataPrefix(items)
              && result.usage == BodyUsage(streaming, Concat(sent), eventCap, jsonCap, usageOf, extract)
    ensures result.Committed? && !result.outcome.Completed? ==> result.usage.None?
  {
    hide BodyMetrics, BodyUsage, EventsIn, Concat, DataPrefix, Pending, NoEventYet, FailsAt, PumpEnds, Healthy;
    var failure: Option<PrefetchReason>, prefetched: seq<seq<Byte>> := None, [];
    if streaming {
      failure, prefetched := Prefetch(items, firstEventDeadline, eventCap, usageOf);
    }
    var p := Plan(streaming, eventCap, idle, prefetched, items[|prefetched|..], sends, start);
    plan := p;
    if failure.Some? {
      result, sent := NotCommitted(failure.value), [];
      return;
    }
    var outcome, read, m, usage;
    outcome, read, sent, m, usage := ForwardCommitted(p, jsonCap, usageOf, extract, gone);
    ReadIsPrefix(items, prefetched, read);
    assert read == DataPrefix(items)[..|read|];
    if gone.None? {
      EndsRead(p, read, outcome);
      CompletesIffHealthy(p, read, outcome);
    }
    result := Committed(outcome, m, usage);
  }
}
