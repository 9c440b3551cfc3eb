/**
 * The capacity gate of the mock upstream: at most `limit` leases are out at a time, later calls
 * wait in a bounded queue with a timer and an abort signal, and giving a lease back hands the slot
 * to the first waiter whose signal has not been aborted.
 *
 * Each `acquire` call draws a ticket, so tickets are numbered in order of arrival; the lease it may
 * come to hold carries the same number. `held` are the leases whose `released` flag is still unset.
 */
module CapacityGate {
  import opened Prelude

  type Ticket = nat
  type Signal = nat

  datatype Waiter = Waiter(ticket: Ticket, signal: Option<Signal>)

  datatype Settlement = Granted | Refused | TimedOut | Aborted

  // The gauges, counters and queue of the gate, and below them what has become of every call.
  datatype Gate = Gate(
    limit: nat,
    maxWaiting: nat,
    active: int,
    waiting: int,
    limitHits: nat,
    rejected: nat,
    queue: seq<Waiter>,
    timers: set<Ticket>,
    aborted: set<Signal>,
    held: set<Ticket>,
    next: Ticket,
    // history
    settled: map<Ticket, Settlement>,
    grants: seq<Ticket>,
    deadOnArrival: set<Ticket>,
    stranded: set<Ticket>,
    late: set<Ticket>,
    // what the rejection counter stood at when it was reset, all resets together
    forgiven: nat)

  predicate Dead(w: Waiter, aborted: set<Signal>) {
    w.signal.Some? && w.signal.value in aborted
  }

  function Tickets(queue: seq<Waiter>): set<Ticket> {
    set w | w in queue :: w.ticket
  }

  // How many waiters at the head are dead.
  function DeadPrefix(queue: seq<Waiter>, aborted: set<Signal>): (n: nat)
    ensures n <= |queue|
    ensures forall i :: 0 <= i < n ==> Dead(queue[i], aborted)
    ensures n < |queue| ==> !Dead(queue[n], aborted)
  {
    if queue == [] || !Dead(queue[0], aborted) then 0 else 1 + DeadPrefix(queue[1..], aborted)
  }

  // The waiters that satisfy `keep`, in their order.
  function Filter(queue: seq<Waiter>, keep: Waiter -> bool): (r: seq<Waiter>)
    ensures |r| <= |queue|
  {
    if queue == [] then [] else
      var n := |queue| - 1;
      Filter(queue[..n], keep) + (if keep(queue[n]) then [queue[n]] else [])
  }

  // A promise settles once: later attempts to reject it do nothing.
  function Settle(settled: map<Ticket, Settlement>, t: Ticket, how: Settlement): map<Ticket, Settlement> {
    if t in settled then settled else settled[t := how]
  }

  function SettleAll(settled: map<Ticket, Settlement>, ts: set<Ticket>, how: Settlement): map<Ticket, Settlement> {
    map t | t in settled.Keys + ts :: if t in settled then settled[t] else how
  }

  function AtOnce(g: Gate): Gate {
    g.(next := g.next + 1, active := g.active + 1, held := g.held + {g.next},
       settled := g.settled[g.next := Granted], grants := g.grants + [g.next])
  }

  function TurnAway(g: Gate): Gate {
    g.(next := g.next + 1, limitHits := g.limitHits + 1, rejected := g.rejected + 1,
       settled := g.settled[g.next := Refused])
  }

  function PutInQueue(g: Gate, w: Waiter): Gate {
    g.(next := g.next + 1, limitHits := g.limitHits + 1, waiting := g.waiting + 1,
       queue := g.queue + [w], timers := g.timers + {g.next},
       deadOnArrival := if Dead(w, g.aborted) then g.deadOnArrival + {g.next} else g.deadOnArrival)
  }

  function AfterAcquire(g: Gate, signal: Option<Signal>): Gate {
    if g.active < g.limit then AtOnce(g)
    else if |g.queue| >= g.maxWaiting then TurnAway(g)
    else PutInQueue(g, Waiter(g.next, signal))
  }

  // The lease is given back; the dead at the head leave the queue unsettled.
  function AfterReturn(g: Gate, lease: Ticket, n: nat): Gate
    requires n <= |g.queue|
  {
    g.(active := g.active - 1, held := g.held - {lease}, waiting := g.waiting - n,
       queue := g.queue[n..], timers := g.timers - Tickets(g.queue[..n]),
       stranded := g.stranded + Tickets(g.queue[..n]))
  }

  function AfterGrant(g: Gate): Gate
    requires g.queue != []
  {
    var t := g.queue[0].ticket;
    g.(active := g.active + 1, held := g.held + {t}, waiting := g.waiting - 1,
       queue := g.queue[1..], timers := g.timers - {t},
       settled := Settle(g.settled, t, Granted), grants := g.grants + [t])
  }

  function AfterRelease(g: Gate, lease: Ticket): Gate {
    if lease !in g.held then g
    else
      var h := AfterReturn(g, lease, DeadPrefix(g.queue, g.aborted));
      if h.queue == [] then h else AfterGrant(h)
  }

  function AfterTimer(g: Gate, t: Ticket): Gate {
    var queue := Filter(g.queue, (w: Waiter) => w.ticket != t);
    g.(rejected := g.rejected + 1, timers := g.timers - {t},
       queue := queue, waiting := g.waiting - (|g.queue| - |queue|),
       settled := Settle(g.settled, t, TimedOut), late := if t in g.settled then g.late + {t} else g.late)
  }

  // The abort listeners of the waiters with this signal run; their timers stay armed.
  function AfterAbort(g: Gate, signal: Signal): Gate {
    var queue := Filter(g.queue, (w: Waiter) => w.signal != Some(signal));
    g.(aborted := g.aborted + {signal}, queue := queue, waiting := g.waiting - (|g.queue| - |queue|),
       settled := SettleAll(g.settled, Tickets(g.queue) - Tickets(queue), Aborted))
  }

  // The counters go back to zero; the gauges stay.
  function AfterReset(g: Gate): Gate {
    g.(limitHits := 0, rejected := 0, forgiven := g.forgiven + g.rejected)
  }

  datatype Event =
    | Acquire(signal: Option<Signal>)
    | Release(lease: Ticket)
    | TimerFires(ticket: Ticket)
    | Abort(cause: Signal)
    | Reset

  // A caller has only leases it was granted; a timer fires once; a signal aborts once.
  predicate Enabled(g: Gate, e: Event) {
    match e
    case Acquire(_) => true
    case Release(lease) => lease in g.grants
    case TimerFires(t) => t in g.timers
    case Abort(signal) => signal !in g.aborted
    case Reset => true
  }

  function Do(g: Gate, e: Event): Gate {
    match e
    case Acquire(signal) => AfterAcquire(g, signal)
    case Release(lease) => AfterRelease(g, lease)
    case TimerFires(t) => AfterTimer(g, t)
    case Abort(signal) => AfterAbort(g, signal)
    case Reset => AfterReset(g)
  }

  predicate Starts(g: Gate) {
    g == Gate(g.limit, g.maxWaiting, 0, 0, 0, 0, [], {}, g.aborted, {}, 0, map[], [], {}, {}, {}, 0)
  }

  // ---------------------------------------------------------------------------------------------
  // The invariant

  // The gauges are what they say, and no slot is free while anyone waits.
  predicate GaugesOk(g: Gate) {
    && g.active == |g.held| <= g.limit
    && g.waiting == |g.queue| <= g.maxWaiting
    && (g.queue != [] ==> g.active == g.limit)
  }

  predicate InOrder(queue: seq<Waiter>) {
    forall i, j :: 0 <= i < j < |queue| ==> queue[i].ticket < queue[j].ticket
  }

  predicate Increasing(grants: seq<Ticket>) {
    forall i, j :: 0 <= i < j < |grants| ==> grants[i] < grants[j]
  }

  // Everyone granted arrived before everyone waiting, and both in order of arrival.
  predicate OrderOk(queue: seq<Waiter>, grants: seq<Ticket>, next: Ticket) {
    && InOrder(queue) && Increasing(grants)
    && (forall w, t :: w in queue && t in grants ==> t < w.ticket)
    && (forall w :: w in queue ==> w.ticket < next)
    && (forall t :: t in grants ==> t < next)
  }

  // Each call is settled, stranded or waiting, and only one of these.
  ghost predicate CallsOk(settled: set<Ticket>, stranded: set<Ticket>, waiting: set<Ticket>, next: Ticket) {
    && settled !! stranded && settled !! waiting && stranded !! waiting
    && forall t: Ticket :: t < next <==> t in settled || t in stranded || t in waiting
  }

  // Leases are out only to calls that were granted.
  ghost predicate LeasesOk(held: set<Ticket>, grants: seq<Ticket>, settled: map<Ticket, Settlement>) {
    && (forall t :: t in held ==> t in grants)
    && (forall t: Ticket :: t in grants <==> t in settled && settled[t].Granted?)
  }

  // Only a waiter whose signal was aborted before it came is ever dead in the queue, or stranded.
  predicate DeadOk(queue: seq<Waiter>, aborted: set<Signal>, deadOnArrival: set<Ticket>, stranded: set<Ticket>,
                   next: Ticket) {
    && (forall w :: w in queue ==> (Dead(w, aborted) <==> w.ticket in deadOnArrival))
    && stranded <= deadOnArrival
    && (forall t :: t in deadOnArrival ==> t < next)
  }

  predicate TurnedAway(how: Settlement) {
    how.Refused? || how.TimedOut?
  }

  function Rejections(settled: map<Ticket, Settlement>): set<Ticket> {
    set t | t in settled && TurnedAway(settled[t])
  }

  predicate IsAborted(settled: map<Ticket, Settlement>, t: Ticket) {
    t in settled && settled[t].Aborted?
  }

  // Every waiter has its timer; the other timers still armed are of waiters that were aborted.
  predicate TimersOk(waiting: set<Ticket>, timers: set<Ticket>, settled: map<Ticket, Settlement>, late: set<Ticket>) {
    && waiting <= timers
    && (forall t :: t in timers ==> t in waiting || IsAborted(settled, t))
    && (forall t :: t in late ==> IsAborted(settled, t) && t !in timers)
  }

  ghost predicate GateOk(g: Gate) {
    && GaugesOk(g)
    && OrderOk(g.queue, g.grants, g.next)
    && CallsOk(g.settled.Keys, g.stranded, Tickets(g.queue), g.next)
    && LeasesOk(g.held, g.grants, g.settled)
    && DeadOk(g.queue, g.aborted, g.deadOnArrival, g.stranded, g.next)
    && TimersOk(Tickets(g.queue), g.timers, g.settled, g.late)
    && g.rejected + g.forgiven == |Rejections(g.settled)| + |g.late|
  }

  // ---------------------------------------------------------------------------------------------
  // Every step keeps it

  // A queue that has lost some of its waiters.
  predicate Thinned(r: seq<Waiter>, queue: seq<Waiter>) {
    && |r| <= |queue| && InOrder(r)
    && (forall w :: w in r ==> w in queue)
  }

  lemma {:induction false} FilterMembers(queue: seq<Waiter>, keep: Waiter -> bool)
    ensures forall w :: w in Filter(queue, keep) <==> w in queue && keep(w)
  {
    if queue != [] {
      var n := |queue| - 1;
      FilterMembers(queue[..n], keep);
      assert queue == queue[..n] + [queue[n]];
    }
  }

  lemma {:induction false} FilterThins(queue: seq<Waiter>, keep: Waiter -> bool)
    requires InOrder(queue)
    ensures Thinned(Filter(queue, keep), queue)
  {
    if queue != [] {
      var n := |queue| - 1;
      var init := queue[..n];
      FilterThins(init, keep);
      FilterMembers(init, keep);
      var r := Filter(init, keep);
      forall i | 0 <= i < |r| ensures r[i].ticket < queue[n].ticket {
        assert r[i] in init;
        var k :| 0 <= k < n && init[k] == r[i];
        assert queue[k] == r[i];
      }
    }
  }

  lemma OrderThinned(queue: seq<Waiter>, r: seq<Waiter>, grants: seq<Ticket>, next: Ticket)
    requires OrderOk(queue, grants, next) && Thinned(r, queue)
    ensures OrderOk(r, grants, next)
  {
  }

  lemma TicketsSnoc(queue: seq<Waiter>, w: Waiter)
    ensures Tickets(queue + [w]) == Tickets(queue) + {w.ticket}
  {
  }

  lemma TicketsSplit(queue: seq<Waiter>, n: nat)
    requires InOrder(queue) && n <= |queue|
    ensures Tickets(queue) == Tickets(queue[..n]) + Tickets(queue[n..])
    ensures Tickets(queue[..n]) !! Tickets(queue[n..])
    ensures Thinned(queue[n..], queue)
  {
    assert queue == queue[..n] + queue[n..];
    forall v, w | v in queue[..n] && w in queue[n..] ensures v.ticket < w.ticket {
      var i :| 0 <= i < n && queue[i] == v;
      var j :| n <= j < |queue| && queue[j] == w;
    }
  }

  lemma TicketsThinned(queue: seq<Waiter>, r: seq<Waiter>)
    requires Thinned(r, queue)
    ensures Tickets(r) <= Tickets(queue)
  {
  }

  lemma RejectionsAfterSettle(settled: map<Ticket, Settlement>, t: Ticket, how: Settlement)
    requires t !in settled
    ensures Rejections(settled[t := how]) == if TurnedAway(how) then Rejections(settled) + {t} else Rejections(settled)
    ensures t !in Rejections(settled)
  {
  }

  lemma RejectionsAfterAbort(settled: map<Ticket, Settlement>, ts: set<Ticket>)
    ensures Rejections(SettleAll(settled, ts, Aborted)) == Rejections(settled)
  {
  }

  // The newcomer that finds a slot free also finds the queue empty.
  lemma OrderGrantNext(grants: seq<Ticket>, next: Ticket)
    requires OrderOk([], grants, next)
    ensures OrderOk([], grants + [next], next + 1)
  {
    assert forall i :: 0 <= i < |grants| ==> grants[i] in grants;
  }

  lemma OrderWait(queue: seq<Waiter>, grants: seq<Ticket>, w: Waiter)
    requires OrderOk(queue, grants, w.ticket)
    ensures OrderOk(queue + [w], grants, w.ticket + 1)
  {
    assert forall i :: 0 <= i < |queue| ==> queue[i] in queue;
  }

  lemma OrderGrantHead(queue: seq<Waiter>, grants: seq<Ticket>, next: Ticket)
    requires queue != [] && OrderOk(queue, grants, next)
    ensures OrderOk(queue[1..], grants + [queue[0].ticket], next)
  {
    var t := queue[0].ticket;
    assert queue[0] in queue;
    forall w | w in queue[1..] ensures t < w.ticket && w in queue {
      var j :| 1 <= j < |queue| && queue[j] == w;
    }
    assert forall i :: 0 <= i < |grants| ==> grants[i] in grants;
  }

  lemma DeadWait(queue: seq<Waiter>, aborted: set<Signal>, doa: set<Ticket>, stranded: set<Ticket>, w: Waiter)
    requires DeadOk(queue, aborted, doa, stranded, w.ticket)
    requires forall v :: v in queue ==> v.ticket < w.ticket
    ensures DeadOk(queue + [w], aborted, if Dead(w, aborted) then doa + {w.ticket} else doa, stranded, w.ticket + 1)
  {
  }

  lemma LeasesGrant(held: set<Ticket>, grants: seq<Ticket>, settled: map<Ticket, Settlement>, t: Ticket)
    requires LeasesOk(held, grants, settled) && t !in settled
    ensures t !in held && LeasesOk(held + {t}, grants + [t], settled[t := Granted])
  {
  }

  lemma CallsNewSettled(settled: map<Ticket, Settlement>, stranded: set<Ticket>, waiting: set<Ticket>, next: Ticket,
                        how: Settlement)
    requires CallsOk(settled.Keys, stranded, waiting, next)
    ensures next !in settled && next !in waiting
    ensures CallsOk(settled[next := how].Keys, stranded, waiting, next + 1)
  {
  }

  lemma CallsNewWaiting(settled: set<Ticket>, stranded: set<Ticket>, waiting: set<Ticket>, next: Ticket)
    requires CallsOk(settled, stranded, waiting, next)
    ensures next !in settled
    ensures CallsOk(settled, stranded, waiting + {next}, next + 1)
  {
  }

  lemma CallsApart(settled: set<Ticket>, stranded: set<Ticket>, waiting: set<Ticket>, next: Ticket)
    requires CallsOk(settled, stranded, waiting, next)
    ensures waiting !! settled
  {
  }

  lemma CallsSettled(settled: set<Ticket>, stranded: set<Ticket>, waiting: set<Ticket>, next: Ticket, t: Ticket)
    requires CallsOk(settled, stranded, waiting, next) && t in waiting
    ensures t !in settled && CallsOk(settled + {t}, stranded, waiting - {t}, next)
  {
  }

  lemma TimersNew(waiting: set<Ticket>, timers: set<Ticket>, settled: map<Ticket, Settlement>, late: set<Ticket>,
                  t: Ticket, how: Settlement)
    requires TimersOk(waiting, timers, settled, late) && t !in settled
    ensures TimersOk(waiting - {t}, timers - {t}, settled[t := how], late)
    ensures t !in waiting ==> TimersOk(waiting, timers, settled[t := how], late)
    ensures TimersOk(waiting + {t}, timers + {t}, settled, late)
  {
  }

  lemma DeadThinned(queue: seq<Waiter>, r: seq<Waiter>, aborted: set<Signal>, doa: set<Ticket>,
                    stranded: set<Ticket>, next: Ticket)
    requires DeadOk(queue, aborted, doa, stranded, next) && forall w :: w in r ==> w in queue
    ensures DeadOk(r, aborted, doa, stranded, next)
  {
    hide Dead;
  }

  lemma DeadNext(queue: seq<Waiter>, aborted: set<Signal>, doa: set<Ticket>, stranded: set<Ticket>, next: Ticket)
    requires DeadOk(queue, aborted, doa, stranded, next)
    ensures DeadOk(queue, aborted, doa, stranded, next + 1)
  {
    hide Dead;
  }

  lemma AtOnceKeeps(g: Gate)
    requires GateOk(g) && g.active < g.limit
    ensures GateOk(AtOnce(g))
  {
    hide Tickets, Rejections, Dead, OrderOk, LeasesOk, CallsOk, DeadOk, TimersOk;
    CallsNewSettled(g.settled, g.stranded, Tickets(g.queue), g.next, Granted);
    LeasesGrant(g.held, g.grants, g.settled, g.next);
    OrderGrantNext(g.grants, g.next);
    DeadNext(g.queue, g.aborted, g.deadOnArrival, g.stranded, g.next);
    TimersNew(Tickets(g.queue), g.timers, g.settled, g.late, g.next, Granted);
    RejectionsAfterSettle(g.settled, g.next, Granted);
  }

  lemma LeasesRefuse(held: set<Ticket>, grants: seq<Ticket>, settled: map<Ticket, Settlement>, t: Ticket)
    requires LeasesOk(held, grants, settled) && t !in settled
    ensures LeasesOk(held, grants, settled[t := Refused]) && LeasesOk(held, grants, settled[t := TimedOut])
  {
  }

  lemma OrderNext(queue: seq<Waiter>, grants: seq<Ticket>, next: Ticket)
    requires OrderOk(queue, grants, next)
    ensures OrderOk(queue, grants, next + 1)
  {
  }

  lemma TurnAwayKeeps(g: Gate)
    requires GateOk(g)
    ensures GateOk(TurnAway(g))
  {
    hide Tickets, Rejections, Dead, OrderOk, LeasesOk, CallsOk, DeadOk, TimersOk;
    CallsNewSettled(g.settled, g.stranded, Tickets(g.queue), g.next, Refused);
    LeasesRefuse(g.held, g.grants, g.settled, g.next);
    OrderNext(g.queue, g.grants, g.next);
    DeadNext(g.queue, g.aborted, g.deadOnArrival, g.stranded, g.next);
    TimersNew(Tickets(g.queue), g.timers, g.settled, g.late, g.next, Refused);
    RejectionsAfterSettle(g.settled, g.next, Refused);
  }

  lemma PutInQueueKeeps(g: Gate, w: Waiter)
    requires GateOk(g) && g.active >= g.limit && |g.queue| < g.maxWaiting && w.ticket == g.next
    ensures GateOk(PutInQueue(g, w))
  {
    hide Tickets, Rejections, Dead, OrderOk, LeasesOk, CallsOk, DeadOk, TimersOk;
    TicketsSnoc(g.queue, w);
    OrderWait(g.queue, g.grants, w);
    CallsNewWaiting(g.settled.Keys, g.stranded, Tickets(g.queue), g.next);
    OrderTickets(g.queue, g.grants, g.next);
    DeadWait(g.queue, g.aborted, g.deadOnArrival, g.stranded, w);
    TimersNew(Tickets(g.queue), g.timers, g.settled, g.late, g.next, Refused);
  }

  lemma OrderTickets(queue: seq<Waiter>, grants: seq<Ticket>, next: Ticket)
    requires OrderOk(queue, grants, next)
    ensures InOrder(queue) && forall v :: v in queue ==> v.ticket < next
  {
  }

  lemma AcquireKeeps(g: Gate, signal: Option<Signal>)
    requires GateOk(g)
    ensures GateOk(AfterAcquire(g, signal))
  {
    hide GateOk, AtOnce, TurnAway, PutInQueue;
    if g.active < g.limit {
      AtOnceKeeps(g);
    } else if |g.queue| >= g.maxWaiting {
      TurnAwayKeeps(g);
    } else {
      PutInQueueKeeps(g, Waiter(g.next, signal));
    }
  }

  lemma TimerTickets(queue: seq<Waiter>, t: Ticket)
    ensures Tickets(Filter(queue, (w: Waiter) => w.ticket != t)) == Tickets(queue) - {t}
  {
    hide Filter;
    FilterMembers(queue, (w: Waiter) => w.ticket != t);
  }

  lemma TimersLate(waiting: set<Ticket>, timers: set<Ticket>, settled: map<Ticket, Settlement>, late: set<Ticket>,
                   t: Ticket)
    requires TimersOk(waiting, timers, settled, late) && t in timers && waiting !! settled.Keys
    ensures t !in late && (t in waiting <==> t !in settled)
    ensures t in settled ==> TimersOk(waiting - {t}, timers - {t}, settled, late + {t})
  {
  }

  lemma TimerKeeps(g: Gate, t: Ticket)
    requires GateOk(g) && t in g.timers
    ensures GateOk(AfterTimer(g, t))
  {
    hide Tickets, Rejections, Dead, Filter, OrderOk, LeasesOk, DeadOk, TimersOk, CallsOk;
    var keep := (w: Waiter) => w.ticket != t;
    var r := Filter(g.queue, keep);
    OrderTickets(g.queue, g.grants, g.next);
    FilterThins(g.queue, keep);
    OrderThinned(g.queue, r, g.grants, g.next);
    DeadThinned(g.queue, r, g.aborted, g.deadOnArrival, g.stranded, g.next);
    TimerTickets(g.queue, t);
    CallsApart(g.settled.Keys, g.stranded, Tickets(g.queue), g.next);
    TimersLate(Tickets(g.queue), g.timers, g.settled, g.late, t);
    if t in g.settled {
      assert Tickets(g.queue) - {t} == Tickets(g.queue);
    } else {
      TimersNew(Tickets(g.queue), g.timers, g.settled, g.late, t, TimedOut);
      LeasesRefuse(g.held, g.grants, g.settled, t);
      RejectionsAfterSettle(g.settled, t, TimedOut);
      CallsSettled(g.settled.Keys, g.stranded, Tickets(g.queue), g.next, t);
      assert AfterTimer(g, t).settled.Keys == g.settled.Keys + {t};
    }
  }

  lemma AbortKeeps(g: Gate, signal: Signal)
    requires GateOk(g) && signal !in g.aborted
    ensures GateOk(AfterAbort(g, signal))
  {
    hide Tickets, Rejections, Filter;
    var keep := (w: Waiter) => w.signal != Some(signal);
    var r := Filter(g.queue, keep);
    FilterThins(g.queue, keep);
    FilterMembers(g.queue, keep);
    OrderThinned(g.queue, r, g.grants, g.next);
    TicketsThinned(g.queue, r);
    RejectionsAfterAbort(g.settled, Tickets(g.queue) - Tickets(r));
  }

  // The invariant without the claim that no slot is free while anyone waits: it holds between
  // taking the dead off the head of the queue and handing the slot on.
  ghost predicate Between(g: Gate) {
    && g.active == |g.held| && g.waiting == |g.queue| <= g.maxWaiting
    && OrderOk(g.queue, g.grants, g.next)
    && CallsOk(g.settled.Keys, g.stranded, Tickets(g.queue), g.next)
    && LeasesOk(g.held, g.grants, g.settled)
    && DeadOk(g.queue, g.aborted, g.deadOnArrival, g.stranded, g.next)
    && TimersOk(Tickets(g.queue), g.timers, g.settled, g.late)
    && g.rejected + g.forgiven == |Rejections(g.settled)| + |g.late|
  }

  lemma ReturnKeeps(g: Gate, lease: Ticket, n: nat)
    requires GateOk(g) && lease in g.held && n == DeadPrefix(g.queue, g.aborted)
    ensures Between(AfterReturn(g, lease, n)) && AfterReturn(g, lease, n).active == g.active - 1
  {
    hide Tickets, Rejections, Dead, OrderOk, DeadOk, CallsOk, TimersOk;
    OrderTickets(g.queue, g.grants, g.next);
    TicketsSplit(g.queue, n);
    OrderThinned(g.queue, g.queue[n..], g.grants, g.next);
    CallsStranded(g.settled.Keys, g.stranded, Tickets(g.queue[..n]), Tickets(g.queue[n..]), g.next);
    DeadReturn(g.queue, g.aborted, g.deadOnArrival, g.stranded, g.next);
    TimersCleared(Tickets(g.queue[..n]), Tickets(g.queue[n..]), g.timers, g.settled, g.late);
  }

  lemma CallsStranded(settled: set<Ticket>, stranded: set<Ticket>, gone: set<Ticket>, rest: set<Ticket>, next: Ticket)
    requires CallsOk(settled, stranded, gone + rest, next) && gone !! rest
    ensures CallsOk(settled, stranded + gone, rest, next)
  {
  }

  lemma TimersCleared(gone: set<Ticket>, rest: set<Ticket>, timers: set<Ticket>, settled: map<Ticket, Settlement>,
                      late: set<Ticket>)
    requires TimersOk(gone + rest, timers, settled, late) && gone !! rest
    ensures TimersOk(rest, timers - gone, settled, late)
  {
  }

  lemma DeadReturn(queue: seq<Waiter>, aborted: set<Signal>, doa: set<Ticket>, stranded: set<Ticket>, next: Ticket)
    requires DeadOk(queue, aborted, doa, stranded, next)
    ensures var n := DeadPrefix(queue, aborted);
            DeadOk(queue[n..], aborted, doa, stranded + Tickets(queue[..n]), next)
  {
    hide Dead;
    var n := DeadPrefix(queue, aborted);
    forall w | w in queue[..n] ensures w.ticket in doa {
      var i :| 0 <= i < n && queue[i] == w;
      assert w in queue && Dead(w, aborted);
    }
  }

  lemma TicketsTail(queue: seq<Waiter>)
    requires queue != [] && InOrder(queue)
    ensures queue[0].ticket in Tickets(queue)
    ensures Tickets(queue[1..]) == Tickets(queue) - {queue[0].ticket}
    ensures Thinned(queue[1..], queue)
  {
    TicketsSplit(queue, 1);
    assert queue[..1] == [queue[0]];
    assert Tickets([queue[0]]) == {queue[0].ticket};
  }

  lemma GrantKeeps(g: Gate)
    requires Between(g) && g.queue != [] && g.active == g.limit - 1
    ensures GateOk(AfterGrant(g))
  {
    hide Tickets, Rejections, Dead, OrderOk, LeasesOk, CallsOk, DeadOk, TimersOk;
    var t := g.queue[0].ticket;
    OrderTickets(g.queue, g.grants, g.next);
    TicketsTail(g.queue);
    CallsSettled(g.settled.Keys, g.stranded, Tickets(g.queue), g.next, t);
    LeasesGrant(g.held, g.grants, g.settled, t);
    OrderGrantHead(g.queue, g.grants, g.next);
    DeadThinned(g.queue, g.queue[1..], g.aborted, g.deadOnArrival, g.stranded, g.next);
    TimersNew(Tickets(g.queue), g.timers, g.settled, g.late, t, Granted);
    RejectionsAfterSettle(g.settled, t, Granted);
    assert AfterGrant(g).settled.Keys == g.settled.Keys + {t};
  }

  lemma ReleaseKeeps(g: Gate, lease: Ticket)
    requires GateOk(g)
    ensures GateOk(AfterRelease(g, lease))
  {
    hide Tickets, Rejections, Dead, OrderOk, LeasesOk, DeadOk, CallsOk, TimersOk;
    if lease in g.held {
      var n := DeadPrefix(g.queue, g.aborted);
      ReturnKeeps(g, lease, n);
      var h := AfterReturn(g, lease, n);
      if h.queue != [] {
        GrantKeeps(h);
      }
    }
  }

  // ---------------------------------------------------------------------------------------------
  // Runs

  predicate StepAt(gs: seq<Gate>, es: seq<Event>, k: nat)
    requires k < |es| && |gs| == |es| + 1
  {
    Enabled(gs[k], es[k]) && gs[k + 1] == Do(gs[k], es[k])
  }

  predicate IsRun(gs: seq<Gate>, es: seq<Event>) {
    |gs| == |es| + 1 && Starts(gs[0]) && forall k :: 0 <= k < |es| ==> StepAt(gs, es, k)
  }

  lemma StartOk(g: Gate)
    requires Starts(g)
    ensures GateOk(g)
  {
  }

  lemma ResetKeeps(g: Gate)
    requires GateOk(g)
    ensures GateOk(AfterReset(g))
  {
    hide OrderOk, CallsOk, LeasesOk, DeadOk, TimersOk, Rejections, Tickets;
  }

  lemma StepKeeps(g: Gate, e: Event)
    requires GateOk(g) && Enabled(g, e)
    ensures GateOk(Do(g, e))
  {
    hide GateOk, AfterAcquire, AfterRelease, AfterTimer, AfterAbort;
    match e
    case Acquire(signal) => AcquireKeeps(g, signal);
    case Release(lease) => ReleaseKeeps(g, lease);
    case TimerFires(t) => TimerKeeps(g, t);
    case Abort(signal) => AbortKeeps(g, signal);
    case Reset => ResetKeeps(g);
  }

  lemma {:induction false} RunOk(gs: seq<Gate>, es: seq<Event>, k: nat)
    requires IsRun(gs, es) && k < |gs|
    ensures GateOk(gs[k])
  {
    hide GateOk, Do;
    if k == 0 {
      StartOk(gs[0]);
    } else {
      RunOk(gs, es, k - 1);
      assert StepAt(gs, es, k - 1);
      StepKeeps(gs[k - 1], es[k - 1]);
    }
  }

  // Never more leases out than the limit, the gauges exact, and no slot idle while anyone waits.
  lemma LimitHolds(gs: seq<Gate>, es: seq<Event>, k: nat)
    requires IsRun(gs, es) && k < |gs|
    ensures var g := gs[k];
            && g.active == |g.held| <= g.limit
            && g.waiting == |g.queue| <= g.maxWaiting
            && (g.queue != [] ==> g.active == g.limit)
  {
    hide OrderOk, CallsOk, LeasesOk, DeadOk, TimersOk, Rejections, Tickets;
    RunOk(gs, es, k);
  }

  // Slots are handed out strictly in order of arrival, whichever way they are handed out.
  lemma GrantsFollowArrival(gs: seq<Gate>, es: seq<Event>, k: nat)
    requires IsRun(gs, es) && k < |gs|
    ensures Increasing(gs[k].grants)
  {
    hide CallsOk, LeasesOk, DeadOk, TimersOk, Rejections, Tickets;
    RunOk(gs, es, k);
  }

  // A call that gets its slot at once overtakes nobody: every call before it is settled or was
  // stranded.
  lemma NewcomerOvertakesNobody(gs: seq<Gate>, es: seq<Event>, k: nat, t: Ticket)
    requires IsRun(gs, es) && k < |es| && es[k].Acquire? && gs[k].next in gs[k + 1].held
    requires t < gs[k].next
    ensures gs[k].queue == [] && (t in gs[k].settled || t in gs[k].stranded)
  {
    hide OrderOk, DeadOk, TimersOk, Rejections;
    RunOk(gs, es, k);
    assert StepAt(gs, es, k);
    assert gs[k].next !in gs[k].held;
  }

  // What a call meets: a free slot, a place in the queue, or neither.
  lemma CallMeets(gs: seq<Gate>, es: seq<Event>, k: nat)
    requires IsRun(gs, es) && k < |es| && es[k].Acquire?
    ensures var g, g', t := gs[k], gs[k + 1], gs[k].next;
            && (t in g'.settled && g'.settled[t].Granted? <==> |g.held| < g.limit)
            && (t in g'.settled && g'.settled[t].Refused? <==> |g.held| >= g.limit && |g.queue| >= g.maxWaiting)
            && (t in Tickets(g'.queue) <==> |g.held| >= g.limit && |g.queue| < g.maxWaiting)
            && g'.limitHits == g.limitHits + (if |g.held| >= g.limit then 1 else 0)
            && g'.next == t + 1 && g.queue <= g'.queue
  {
    hide OrderOk, LeasesOk, DeadOk, TimersOk, Rejections, Dead, Tickets;
    RunOk(gs, es, k);
    assert StepAt(gs, es, k);
    var g := gs[k];
    CallsNewWaiting(g.settled.Keys, g.stranded, Tickets(g.queue), g.next);
    CallsNewSettled(g.settled, g.stranded, Tickets(g.queue), g.next, Granted);
    TicketsSnoc(g.queue, Waiter(g.next, es[k].signal));
  }

  // The waiters that stay keep their order, and those that leave are answered in this way.
  ghost predicate Leave(g: Gate, g': Gate, leaving: Waiter -> bool, how: Settlement) {
    && InOrder(g'.queue)
    && (forall w :: w in g'.queue <==> w in g.queue && !leaving(w))
    && (forall w :: w in g.queue && leaving(w) ==> w.ticket in g'.settled && g'.settled[w.ticket] == how)
    && g'.grants == g.grants && g'.held == g.held
  }

  lemma AnsweredNow(g: Gate, w: Waiter)
    requires CallsOk(g.settled.Keys, g.stranded, Tickets(g.queue), g.next) && w in g.queue
    ensures w.ticket !in g.settled
  {
    assert w.ticket in Tickets(g.queue);
  }

  // A timer that fires turns its waiter away, if it still waits, and nobody else.
  lemma TimerTurnsAway(gs: seq<Gate>, es: seq<Event>, k: nat)
    requires IsRun(gs, es) && k < |es| && es[k].TimerFires?
    ensures Leave(gs[k], gs[k + 1], (w: Waiter) => w.ticket == es[k].ticket, TimedOut)
    ensures gs[k + 1].rejected == gs[k].rejected + 1
  {
    hide OrderOk, LeasesOk, DeadOk, TimersOk, Rejections, Dead, Filter, Tickets, CallsOk;
    RunOk(gs, es, k);
    assert StepAt(gs, es, k);
    var g, keep := gs[k], (w: Waiter) => w.ticket != es[k].ticket;
    OrderTickets(g.queue, g.grants, g.next);
    FilterThins(g.queue, keep);
    FilterMembers(g.queue, keep);
    forall w | w in g.queue ensures w.ticket !in g.settled {
      AnsweredNow(g, w);
    }
  }

  lemma TicketGone(queue: seq<Waiter>, r: seq<Waiter>, w: Waiter)
    requires InOrder(queue) && (forall v :: v in r ==> v in queue) && w in queue && w !in r
    ensures w.ticket in Tickets(queue) - Tickets(r)
  {
  }

  // A signal that aborts settles the waiters that carry it, and nobody else.
  lemma AbortSettles(gs: seq<Gate>, es: seq<Event>, k: nat)
    requires IsRun(gs, es) && k < |es| && es[k].Abort?
    ensures Leave(gs[k], gs[k + 1], (w: Waiter) => w.signal == Some(es[k].cause), Aborted)
    ensures gs[k + 1].rejected == gs[k].rejected && gs[k + 1].timers == gs[k].timers
  {
    hide OrderOk, LeasesOk, DeadOk, TimersOk, Rejections, Dead, Filter, Tickets, CallsOk;
    RunOk(gs, es, k);
    assert StepAt(gs, es, k);
    var g, keep := gs[k], (w: Waiter) => w.signal != Some(es[k].cause);
    OrderTickets(g.queue, g.grants, g.next);
    FilterThins(g.queue, keep);
    FilterMembers(g.queue, keep);
    forall w | w in g.queue && !keep(w)
      ensures w.ticket !in g.settled && w.ticket in Tickets(g.queue) - Tickets(gs[k + 1].queue)
    {
      AnsweredNow(g, w);
      TicketGone(g.queue, gs[k + 1].queue, w);
    }
  }

  lemma LiveBeyondDead(queue: seq<Waiter>, aborted: set<Signal>, w: Waiter)
    requires InOrder(queue) && w in queue && !Dead(w, aborted)
    ensures var n := DeadPrefix(queue, aborted); n < |queue| && queue[n].ticket <= w.ticket
  {
    hide Dead;
    var i :| 0 <= i < |queue| && queue[i] == w;
    var n := DeadPrefix(queue, aborted);
    assert !(i < n);
  }

  // The waiter has waited longest among those not aborted.
  predicate LongestWaiting(g: Gate, w: Waiter) {
    && w in g.queue && !Dead(w, g.aborted)
    && forall v :: v in g.queue && !Dead(v, g.aborted) ==> w.ticket <= v.ticket
  }

  predicate AllDead(g: Gate) {
    forall v :: v in g.queue ==> Dead(v, g.aborted)
  }

  // A lease given back goes to the waiter that has waited longest among those not aborted, and to
  // nobody exactly if there is none.
  lemma SlotGoesToLongestWaiting(gs: seq<Gate>, es: seq<Event>, k: nat)
    requires IsRun(gs, es) && k < |es| && es[k].Release? && es[k].lease in gs[k].held
    ensures gs[k + 1].grants == gs[k].grants <==> AllDead(gs[k])
    ensures !AllDead(gs[k]) ==>
              var n := DeadPrefix(gs[k].queue, gs[k].aborted);
              && n < |gs[k].queue| && LongestWaiting(gs[k], gs[k].queue[n])
              && gs[k + 1].grants == gs[k].grants + [gs[k].queue[n].ticket]
              && gs[k].queue[n].ticket in gs[k + 1].held
  {
    hide CallsOk, LeasesOk, DeadOk, TimersOk, Rejections, Dead, Tickets;
    RunOk(gs, es, k);
    assert StepAt(gs, es, k);
    var g, n := gs[k], DeadPrefix(gs[k].queue, gs[k].aborted);
    if n < |g.queue| {
      assert g.queue[n..][0] == g.queue[n] && g.queue[n] in g.queue;
      forall v | v in g.queue && !Dead(v, g.aborted) ensures g.queue[n].ticket <= v.ticket {
        LiveBeyondDead(g.queue, g.aborted, v);
      }
    }
  }

  lemma ReturnedStep(g: Gate, e: Event, lease: Ticket)
    requires GateOk(g) && Enabled(g, e) && lease in g.grants && lease !in g.held
    ensures lease in Do(g, e).grants && lease !in Do(g, e).held
  {
    hide DeadOk, TimersOk, Rejections, OrderOk, Filter, Dead, Tickets;
    assert lease in g.settled.Keys && lease != g.next;
    if e.Release? && e.lease in g.held {
      var n := DeadPrefix(g.queue, g.aborted);
      if n < |g.queue| {
        assert g.queue[n..][0] == g.queue[n];
        TicketWaiting(g.queue, n);
      }
    }
  }

  lemma TicketWaiting(queue: seq<Waiter>, n: nat)
    requires n < |queue|
    ensures queue[n].ticket in Tickets(queue)
  {
    assert queue[n] in queue;
  }

  // A lease is good for one slot: once given back it is never out again, and giving it back again,
  // at any later time, changes nothing.
  lemma {:induction false} LeaseFreesOneSlot(gs: seq<Gate>, es: seq<Event>, j: nat, k: nat, lease: Ticket)
    requires IsRun(gs, es) && j <= k < |gs|
    requires lease in gs[j].grants && lease !in gs[j].held
    ensures lease in gs[k].grants && lease !in gs[k].held
    ensures k < |es| && es[k] == Release(lease) ==> gs[k + 1] == gs[k]
    decreases k
  {
    hide GateOk;
    if j < k {
      LeaseFreesOneSlot(gs, es, j, k - 1, lease);
      RunOk(gs, es, k - 1);
      assert StepAt(gs, es, k - 1);
      ReturnedStep(gs[k - 1], es[k - 1], lease);
    }
    assert k < |es| ==> StepAt(gs, es, k);
  }

  // Every call is answered or still waiting, except those that came with their signal already
  // aborted: such a call may be dropped from the queue without an answer.
  lemma OnlyAbortedArrivalsAreStranded(gs: seq<Gate>, es: seq<Event>, k: nat, t: Ticket)
    requires IsRun(gs, es) && k < |gs| && t < gs[k].next
    ensures t in gs[k].settled || t in Tickets(gs[k].queue) || t in gs[k].stranded
    ensures t in gs[k].stranded ==> t in gs[k].deadOnArrival && t !in gs[k].settled && t !in Tickets(gs[k].queue)
  {
    hide OrderOk, LeasesOk, TimersOk, Rejections, Tickets, Dead;
    RunOk(gs, es, k);
  }

  lemma {:induction false} StrandedForGood(gs: seq<Gate>, es: seq<Event>, j: nat, k: nat, t: Ticket)
    requires IsRun(gs, es) && j <= k < |gs| && t in gs[j].stranded
    ensures t in gs[k].stranded && t !in gs[k].settled
    decreases k
  {
    hide OrderOk, LeasesOk, DeadOk, TimersOk, Rejections, Tickets, Dead, Filter;
    if j < k {
      StrandedForGood(gs, es, j, k - 1, t);
      assert StepAt(gs, es, k - 1);
    }
    RunOk(gs, es, k);
  }

  lemma {:induction false} BetweenResets(gs: seq<Gate>, es: seq<Event>, j: nat, k: nat)
    requires IsRun(gs, es) && j <= k < |gs| && forall i :: j <= i < k ==> !es[i].Reset?
    ensures gs[k].forgiven == gs[j].forgiven && gs[j].late <= gs[k].late
    decreases k
  {
    hide Filter, Tickets, Dead, DeadPrefix, Starts;
    if j < k {
      BetweenResets(gs, es, j, k - 1);
      assert StepAt(gs, es, k - 1);
    }
  }

  lemma SubsetSize(a: set<Ticket>, b: set<Ticket>)
    requires a <= b
    ensures |a| <= |b| && (|a| == |b| <==> a == b)
  {
    assert b == a + (b - a);
  }

  // Between two resets, the rejection counter grows by the calls turned away and by the timers of
  // aborted waiters that fired; so it counts the calls turned away exactly if no such timer has fired.
  lemma RejectedCountsTurnedAway(gs: seq<Gate>, es: seq<Event>, j: nat, k: nat)
    requires IsRun(gs, es) && j <= k < |gs| && forall i :: j <= i < k ==> !es[i].Reset?
    ensures var turnedAway := |Rejections(gs[k].settled)| - |Rejections(gs[j].settled)|;
            && gs[k].rejected - gs[j].rejected >= turnedAway
            && (gs[k].rejected - gs[j].rejected == turnedAway <==> gs[k].late == gs[j].late)
    ensures forall t :: t in gs[k].late ==> IsAborted(gs[k].settled, t)
  {
    hide OrderOk, CallsOk, LeasesOk, DeadOk, Rejections, Tickets;
    RunOk(gs, es, j);
    RunOk(gs, es, k);
    BetweenResets(gs, es, j, k);
    SubsetSize(gs[j].late, gs[k].late);
  }

  // Giving a lease back drops a waiter unanswered exactly if it and all ahead of it had come with
  // an aborted signal.
  lemma DroppedIffDeadOnArrival(gs: seq<Gate>, es: seq<Event>, k: nat, i: nat)
    requires IsRun(gs, es) && k < |es| && es[k].Release? && es[k].lease in gs[k].held && i < |gs[k].queue|
    ensures gs[k].queue[i].ticket in gs[k + 1].stranded <==>
              forall j :: 0 <= j <= i ==> gs[k].queue[j].ticket in gs[k].deadOnArrival
  {
    hide LeasesOk, TimersOk, Rejections, Dead, OrderOk, Tickets;
    RunOk(gs, es, k);
    assert StepAt(gs, es, k);
    var g, n := gs[k], DeadPrefix(gs[k].queue, gs[k].aborted);
    OrderTickets(g.queue, g.grants, g.next);
    TicketsSplit(g.queue, n);
    TicketWaiting(g.queue, i);
    assert forall j :: 0 <= j < |g.queue| ==> g.queue[j] in g.queue;
    if i < n {
      TicketWaiting(g.queue[..n], i);
    } else {
      TicketWaiting(g.queue[n..], i - n);
    }
  }

  lemma DeadPrefixOne(w: Waiter, aborted: set<Signal>)
    requires Dead(w, aborted)
    ensures DeadPrefix([w], aborted) == 1
  {
  }

  // One slot, taken by call 0, and room for one waiter, taken by call 1.
  lemma OneInOneWaiting(aborted: set<Signal>, signal: Signal) returns (g0: Gate, g1: Gate, g2: Gate)
    ensures Starts(g0) && g0.aborted == aborted
    ensures g1 == AfterAcquire(g0, None) && g2 == AfterAcquire(g1, Some(signal))
    ensures g2.queue == [Waiter(1, Some(signal))] && g2.aborted == aborted && g2.rejected == 0
    ensures 0 in g2.held && 0 in g2.grants && 1 in g2.timers
    ensures g2.settled == map[0 := Granted]
  {
    g0 := Gate(1, 1, 0, 0, 0, 0, [], {}, aborted, {}, 0, map[], [], {}, {}, {}, 0);
    g1 := AfterAcquire(g0, None);
    g2 := AfterAcquire(g1, Some(signal));
  }

  lemma StrandedCall() returns (gs: seq<Gate>, es: seq<Event>)
    ensures |gs| == 4 && IsRun(gs, es) && 1 in gs[3].stranded
  {
    hide Tickets, DeadPrefix, AfterAcquire, Starts;
    var w := Waiter(1, Some(7));
    var g0, g1, g2 := OneInOneWaiting({7}, 7);
    var g3 := AfterRelease(g2, 0);
    DeadPrefixOne(w, {7});
    TicketsSnoc([], w);
    assert [w][..1] == [] + [w];
    assert 1 in g3.stranded;
    es := [Acquire(None), Acquire(Some(7)), Release(0)];
    gs := [g0, g1, g2, g3];
    assert StepAt(gs, es, 0) && StepAt(gs, es, 1) && StepAt(gs, es, 2);
  }

  lemma LateTimerCounts() returns (gs: seq<Gate>, es: seq<Event>)
    ensures |gs| == 5 && IsRun(gs, es) && gs[4].rejected == 1 && Rejections(gs[4].settled) == {}
  {
    hide Filter, Tickets, AfterAcquire, Starts;
    var w := Waiter(1, Some(7));
    var g0, g1, g2 := OneInOneWaiting({}, 7);
    var g3 := AfterAbort(g2, 7);
    FilterOne([w], 0, (v: Waiter) => v.signal != Some(7));
    TicketsSnoc([], w);
    TicketsOfNone();
    assert [w] == [] + [w];
    assert g3.settled == map[0 := Granted, 1 := Aborted];
    var g4 := AfterTimer(g3, 1);
    es := [Acquire(None), Acquire(Some(7)), Abort(7), TimerFires(1)];
    gs := [g0, g1, g2, g3, g4];
    assert StepAt(gs, es, 0) && StepAt(gs, es, 1) && StepAt(gs, es, 2) && StepAt(gs, es, 3);
  }

  // ---------------------------------------------------------------------------------------------
  // The gate itself

  datatype Reply = Lease(ticket: Ticket) | Waiting(ticket: Ticket) | Rejected

  lemma {:induction false} FilterAll(queue: seq<Waiter>, keep: Waiter -> bool)
    requires forall w :: w in queue ==> keep(w)
    ensures Filter(queue, keep) == queue
  {
    if queue != [] {
      var n := |queue| - 1;
      FilterAll(queue[..n], keep);
      assert queue[..n] + [queue[n]] == queue;
    }
  }

  lemma FilterSnoc(queue: seq<Waiter>, w: Waiter, keep: Waiter -> bool)
    ensures Filter(queue + [w], keep) == Filter(queue, keep) + (if keep(w) then [w] else [])
  {
    assert (queue + [w])[..|queue|] == queue;
  }

  lemma {:induction false} FilterAppend(a: seq<Waiter>, b: seq<Waiter>, keep: Waiter -> bool)
    ensures Filter(a + b, keep) == Filter(a, keep) + Filter(b, keep)
  {
    if b == [] {
      assert a + b == a;
    } else {
      var n := |b| - 1;
      FilterAppend(a, b[..n], keep);
      FilterSnoc(a + b[..n], b[n], keep);
      FilterSnoc(b[..n], b[n], keep);
      assert a + b == (a + b[..n]) + [b[n]] && b == b[..n] + [b[n]];
    }
  }

  // One turn of a loop that filters in place: `queue[..i]` is done, the rest is still `all[j..]`.
  lemma FilterStep(queue: seq<Waiter>, i: nat, all: seq<Waiter>, j: nat, keep: Waiter -> bool)
    requires i < |queue| && j <= |all|
    requires queue[..i] == Filter(all[..j], keep) && queue[i..] == all[j..]
    ensures j < |all|
    ensures !keep(queue[i]) ==>
              var q := queue[..i] + queue[i + 1..];
              q[..i] == Filter(all[..j + 1], keep) && q[i..] == all[j + 1..]
    ensures keep(queue[i]) ==> queue[..i + 1] == Filter(all[..j + 1], keep) && queue[i + 1..] == all[j + 1..]
  {
    hide Filter;
    assert queue[i] == queue[i..][0] == all[j..][0] == all[j];
    assert queue[i + 1..] == queue[i..][1..] == all[j..][1..] == all[j + 1..];
    FilterSnoc(all[..j], all[j], keep);
    assert all[..j + 1] == all[..j] + [all[j]];
  }

  // Taking out the one waiter that is not to be kept.
  lemma FilterOne(queue: seq<Waiter>, i: nat, keep: Waiter -> bool)
    requires i < |queue| && !keep(queue[i])
    requires forall j :: 0 <= j < |queue| && j != i ==> keep(queue[j])
    ensures Filter(queue, keep) == queue[..i] + queue[i + 1..]
  {
    hide Filter;
    var left, right := queue[..i], queue[i + 1..];
    assert queue == (left + [queue[i]]) + right;
    FilterAppend(left + [queue[i]], right, keep);
    FilterSnoc(left, queue[i], keep);
    FilterAll(left, keep);
    FilterAll(right, keep);
  }

  class Capacity {
    const limit: nat
    const maxWaiting: nat
    var active: int
    var waiting: int
    var limitHits: nat
    var rejected: nat
    var queue: seq<Waiter>
    var timers: set<Ticket>
    var aborted: set<Signal>
    var held: set<Ticket>
    var next: Ticket
    ghost var settled: map<Ticket, Settlement>
    ghost var grants: seq<Ticket>
    ghost var deadOnArrival: set<Ticket>
    ghost var stranded: set<Ticket>
    ghost var late: set<Ticket>
    ghost var forgiven: nat

    ghost function State(): Gate
      reads this
    {
      Gate(limit, maxWaiting, active, waiting, limitHits, rejected, queue, timers, aborted, held, next,
           settled, grants, deadOnArrival, stranded, late, forgiven)
    }

    ghost predicate Valid()
      reads this
    {
      GateOk(State())
    }

    constructor (limit: nat, maxWaiting: nat, aborted: set<Signal>)
      ensures Starts(State()) && Valid()
      ensures this.limit == limit && this.maxWaiting == maxWaiting && this.aborted == aborted
    {
      this.limit, this.maxWaiting, this.aborted := limit, maxWaiting, aborted;
      active, waiting, limitHits, rejected, queue := 0, 0, 0, 0, [];
      timers, held, next := {}, {}, 0;
      settled, grants, deadOnArrival, stranded, late, forgiven := map[], [], {}, {}, {}, 0;
      new;
      StartOk(State());
    }

    method Acquire(signal: Option<Signal>) returns (reply: Reply)
      requires Valid()
      modifies this
      ensures Valid() && State() == AfterAcquire(old(State()), signal)
      ensures reply.Lease? <==> reply == Lease(old(next)) && held == old(held) + {old(next)}
      ensures reply.Lease? ==> old(queue) == []
      ensures reply.Rejected? <==> rejected == old(rejected) + 1
      ensures reply.Waiting? ==> queue == old(queue) + [Waiter(reply.ticket, signal)]
    {
      hide GateOk;
      AcquireKeeps(State(), signal);
      NewcomerFresh(State());
      var ticket := next;
      next := next + 1;
      if active < limit {
        Enter(ticket);
        return Lease(ticket);
      }
      limitHits := limitHits + 1;
      if |queue| >= maxWaiting {
        rejected := rejected + 1;
        settled := settled[ticket := Refused];
        return Rejected;
      }
      Enlist(Waiter(ticket, signal));
      return Waiting(ticket);
    }

    // The caller joins the queue, and its timer is armed.
    method Enlist(entry: Waiter)
      modifies this
      ensures State() == old(State()).(waiting := old(waiting) + 1, queue := old(queue) + [entry],
                                       timers := old(timers) + {entry.ticket},
                                       deadOnArrival := if Dead(entry, aborted) then old(deadOnArrival) + {entry.ticket}
                                                        else old(deadOnArrival))
    {
      waiting := waiting + 1;
      queue := queue + [entry];
      timers := timers + {entry.ticket};
      if Dead(entry, aborted) {
        deadOnArrival := deadOnArrival + {entry.ticket};
      }
    }

    // A slot is taken and its lease made.
    method Enter(ticket: Ticket)
      modifies this
      ensures State() == old(State()).(active := old(active) + 1, held := old(held) + {ticket},
                                       settled := Settle(old(settled), ticket, Granted),
                                       grants := old(grants) + [ticket])
    {
      active := active + 1;
      held := held + {ticket};
      settled, grants := Settle(settled, ticket, Granted), grants + [ticket];
    }

    // The head of the queue leaves it.
    method Shift() returns (entry: Waiter)
      requires queue != []
      modifies this
      ensures entry == old(queue)[0]
      ensures State() == old(State()).(queue := old(queue)[1..], timers := old(timers) - {entry.ticket},
                                       waiting := old(waiting) - 1)
    {
      entry := queue[0];
      queue := queue[1..];
      timers := timers - {entry.ticket};
      waiting := waiting - 1;
    }

    method Release(lease: Ticket)
      requires Valid()
      modifies this
      ensures Valid() && State() == AfterRelease(old(State()), lease)
    {
      hide GateOk, Tickets, AfterReturn, DeadPrefix, Dead, Settle;
      ReleaseKeeps(State(), lease);
      if lease !in held {
        return;
      }
      ghost var g, n := State(), DeadPrefix(queue, aborted);
      held := held - {lease};
      active := active - 1;
      ghost var i := 0;
      ReturnNone(g, lease);
      while queue != []
        invariant 0 <= i <= n
        invariant State() == AfterReturn(g, lease, i) && queue == g.queue[i..] && aborted == g.aborted
        decreases |queue|
      {
        ReturnOneMore(g, lease, i);
        var entry := Shift();
        if !Dead(entry, aborted) {
          Enter(entry.ticket);
          return;
        }
        stranded := stranded + {entry.ticket};
        i := i + 1;
      }
    }

    method IndexOf(ticket: Ticket) returns (index: int)
      ensures -1 <= index < |queue|
      ensures index >= 0 ==> queue[index].ticket == ticket
      ensures index == -1 <==> forall w :: w in queue ==> w.ticket != ticket
    {
      index := 0;
      while index < |queue|
        invariant 0 <= index <= |queue|
        invariant forall j :: 0 <= j < index ==> queue[j].ticket != ticket
      {
        if queue[index].ticket == ticket {
          assert queue[index] in queue;
          return;
        }
        index := index + 1;
      }
      index := -1;
    }

    method Splice(index: nat)
      requires index < |queue|
      modifies this
      ensures State() == old(State()).(queue := old(queue)[..index] + old(queue)[index + 1..],
                                       waiting := old(waiting) - 1)
    {
      queue := queue[..index] + queue[index + 1..];
      waiting := waiting - 1;
    }

    method TimerFires(ticket: Ticket)
      requires Valid() && ticket in timers
      modifies this
      ensures Valid() && State() == AfterTimer(old(State()), ticket)
    {
      hide GateOk, Filter;
      TimerKeeps(State(), ticket);
      QueueInOrder(State());
      timers := timers - {ticket};
      rejected := rejected + 1;
      var index := IndexOf(ticket);
      ghost var keep := (w: Waiter) => w.ticket != ticket;
      if index != -1 {
        FilterOne(queue, index, keep);
        Splice(index);
      } else {
        FilterAll(queue, keep);
      }
      if ticket in settled {
        late := late + {ticket};
      }
      settled := Settle(settled, ticket, TimedOut);
    }

    method ResetMetrics()
      requires Valid()
      modifies this
      ensures Valid() && State() == AfterReset(old(State()))
    {
      hide GateOk;
      ResetKeeps(State());
      forgiven := forgiven + rejected;
      limitHits, rejected := 0, 0;
    }

    // The listeners of the signal run in the order in which their waiters came.
    method AbortFires(signal: Signal)
      requires Valid() && signal !in aborted
      modifies this
      ensures Valid() && State() == AfterAbort(old(State()), signal)
    {
      hide GateOk, Filter;
      AbortKeeps(State(), signal);
      aborted := aborted + {signal};
      ghost var keep := (w: Waiter) => w.signal != Some(signal);
      ghost var all, j := queue, 0;
      var i := 0;
      FilterAll([], keep);
      assert queue[..0] == [] == all[..0];
      while i < |queue|
        invariant 0 <= i <= |queue| && 0 <= j <= |all|
        invariant queue[..i] == Filter(all[..j], keep) && queue[i..] == all[j..]
        invariant waiting == old(waiting) - (|all| - |queue|)
        invariant State() == old(State()).(aborted := aborted, queue := queue, waiting := waiting)
        invariant aborted == old(aborted) + {signal}
        decreases |queue| - i
      {
        FilterStep(queue, i, all, j, keep);
        if queue[i].signal == Some(signal) {
          Splice(i);
        } else {
          i := i + 1;
        }
        j := j + 1;
      }
      assert all[..j] == all && queue[..i] == queue;
      settled := SettleAll(settled, Tickets(all) - Tickets(queue), Aborted);
    }
  }

  lemma NewcomerFresh(g: Gate)
    requires GateOk(g)
    ensures g.next !in g.settled && g.next !in g.held
    ensures g.active < g.limit ==> g.queue == []
  {
    hide OrderOk, DeadOk, TimersOk, Rejections;
  }

  lemma QueueInOrder(g: Gate)
    requires GateOk(g)
    ensures forall i, j :: 0 <= i < |g.queue| && 0 <= j < |g.queue| && i != j ==> g.queue[i].ticket != g.queue[j].ticket
  {
    hide CallsOk, LeasesOk, DeadOk, TimersOk, Rejections;
    forall i, j | 0 <= i < |g.queue| && 0 <= j < |g.queue| && i != j ensures g.queue[i].ticket != g.queue[j].ticket {
      if i < j {
        assert g.queue[i].ticket < g.queue[j].ticket;
      } else {
        assert g.queue[j].ticket < g.queue[i].ticket;
      }
    }
  }

  lemma TicketsOfNone()
    ensures Tickets([]) == {}
  {
  }

  lemma ReturnNone(g: Gate, lease: Ticket)
    ensures AfterReturn(g, lease, 0) == g.(active := g.active - 1, held := g.held - {lease})
  {
    hide Tickets;
    TicketsOfNone();
  }

  lemma ReturnOneMore(g: Gate, lease: Ticket, i: nat)
    requires i < |g.queue|
    ensures AfterReturn(g, lease, i).queue == g.queue[i..] && g.queue[i..][1..] == g.queue[i + 1..]
    ensures AfterReturn(g, lease, i + 1) ==
              var h := AfterReturn(g, lease, i);
              h.(waiting := h.waiting - 1, queue := h.queue[1..], timers := h.timers - {g.queue[i].ticket},
                 stranded := h.stranded + {g.queue[i].ticket})
  {
    hide Tickets;
    assert g.queue[..i + 1] == g.queue[..i] + [g.queue[i]];
    TicketsSnoc(g.queue[..i], g.queue[i]);
    assert g.queue[i..][1..] == g.queue[i + 1..];
  }
}
