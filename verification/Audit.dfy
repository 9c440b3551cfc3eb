/**
 * The audit writer: callers offer records and reopen requests to a bounded queue without ever
 * blocking, and one background thread drains the queue in order, appending each record to the
 * sink it currently has open.
 *
 * What the disk answers to each command is its fate. The specification speaks of the commands
 * accepted so far and of their fates, by position: which sink was current at a position, which
 * positions were written, which failure came first.
 */
module Audit {
  import opened Prelude

  type Path = string
  type Text = string
  type IoError = string

  datatype Command = Record(text: Text) | Reopen(path: Path)

  datatype Fate =
    | Unserializable(error: IoError)
    | WriteFailed(error: IoError)
    | Written
    | OpenFailed(error: IoError)
    | Opened

  datatype Sink = Initial | File(path: Path)

  // One line as it reached a sink.
  datatype Line = Line(sink: Sink, text: Text)

  datatype Result = Ok | Failed(error: IoError)

  predicate Answers(f: Fate, c: Command) {
    c.Reopen? <==> f.Opened? || f.OpenFailed?
  }

  predicate Answered(cs: seq<Command>, fs: seq<Fate>) {
    |cs| == |fs| && forall i :: 0 <= i < |cs| ==> Answers(fs[i], cs[i])
  }

  // A failed reopen is the caller's to hear of: it is no failure of the writer.
  predicate Fails(f: Fate) {
    f.Unserializable? || f.WriteFailed?
  }

  // ---------------------------------------------------------------------------------------------
  // Specification over positions

  predicate LatestReopen(fs: seq<Fate>, j: int) {
    0 <= j < |fs| && fs[j].Opened? && forall k :: j < k < |fs| ==> !fs[k].Opened?
  }

  // The sink in force after these commands: that of the latest successful reopen among them.
  ghost predicate IsSinkAfter(cs: seq<Command>, fs: seq<Fate>, sink: Sink)
    requires Answered(cs, fs)
  {
    match sink
    case Initial => forall j :: 0 <= j < |fs| ==> !fs[j].Opened?
    case File(path) => exists j :: LatestReopen(fs, j) && cs[j].path == path
  }

  function SinkAfter(cs: seq<Command>, fs: seq<Fate>): (sink: Sink)
    requires Answered(cs, fs)
    ensures IsSinkAfter(cs, fs, sink)
  {
    var n := |cs| - 1;
    if cs == [] then Initial
    else if fs[n].Opened? then
      assert LatestReopen(fs, n);
      File(cs[n].path)
    else
      var sink := SinkAfter(cs[..n], fs[..n]);
      assert forall j :: LatestReopen(fs[..n], j) ==> LatestReopen(fs, j);
      sink
  }

  lemma SinkAfterUnique(cs: seq<Command>, fs: seq<Fate>, sink: Sink)
    requires Answered(cs, fs) && IsSinkAfter(cs, fs, sink)
    ensures sink == SinkAfter(cs, fs)
  {
    var other := SinkAfter(cs, fs);
    if sink.File? {
      var j :| LatestReopen(fs, j) && cs[j].path == sink.path;
      if other.File? {
        var k :| LatestReopen(fs, k) && cs[k].path == other.path;
        assert !(j < k) && !(k < j);
      }
    }
  }

  // The positions whose fate has property `p`, in order.
  function Where(fs: seq<Fate>, p: Fate -> bool): (at: seq<nat>)
    ensures forall a :: 0 <= a < |at| ==> at[a] < |fs| && p(fs[at[a]])
    ensures forall i :: 0 <= i < |fs| && p(fs[i]) ==> i in at
    ensures forall a, b :: 0 <= a < b < |at| ==> at[a] < at[b]
  {
    if fs == [] then [] else
      var n := |fs| - 1;
      Where(fs[..n], p) + (if p(fs[n]) then [n] else [])
  }

  lemma WhereSnoc(fs: seq<Fate>, f: Fate, p: Fate -> bool)
    ensures Where(fs + [f], p) == Where(fs, p) + (if p(f) then [|fs|] else [])
  {
    assert (fs + [f])[..|fs|] == fs;
  }

  predicate IsWritten(f: Fate) { f.Written? }

  predicate IsWriteFailure(f: Fate) { f.WriteFailed? }

  // The line that a record written at position `i` gives.
  function LineAt(cs: seq<Command>, fs: seq<Fate>, i: nat): Line
    requires Answered(cs, fs) && i < |fs| && fs[i].Written?
  {
    assert Answers(fs[i], cs[i]);
    Line(SinkAfter(cs[..i], fs[..i]), cs[i].text)
  }

  // The lines are the written records, once each and in order, each on the sink of its position.
  predicate IsLog(cs: seq<Command>, fs: seq<Fate>, log: seq<Line>)
    requires Answered(cs, fs)
  {
    var at := Where(fs, IsWritten);
    && |log| == |at|
    && forall k :: 0 <= k < |log| ==> log[k] == LineAt(cs, fs, at[k])
  }

  predicate NoFailure(fs: seq<Fate>) {
    forall j :: 0 <= j < |fs| ==> !fs[j].Unserializable? && !fs[j].WriteFailed?
  }

  predicate FirstFailureAt(fs: seq<Fate>, j: int) {
    0 <= j < |fs| && Fails(fs[j]) && forall k :: 0 <= k < j ==> !Fails(fs[k])
  }

  ghost predicate IsFirstError(fs: seq<Fate>, e: Option<IoError>) {
    match e
    case None => NoFailure(fs)
    case Some(error) => exists j :: FirstFailureAt(fs, j) && fs[j].error == error
  }

  // ---------------------------------------------------------------------------------------------
  // The background thread

  datatype Worker = Worker(sink: Sink, firstError: Option<IoError>, writeFailures: nat, log: seq<Line>)

  const IDLE_WORKER := Worker(Initial, None, 0, [])

  function OrElse(e: Option<IoError>, error: IoError): Option<IoError> {
    if e.Some? then e else Some(error)
  }

  function Handle(w: Worker, c: Command, f: Fate): Worker
    requires Answers(f, c)
  {
    match f
    case Unserializable(e) => w.(firstError := OrElse(w.firstError, e))
    case WriteFailed(e) => w.(firstError := OrElse(w.firstError, e), writeFailures := w.writeFailures + 1)
    case Written => w.(log := w.log + [Line(w.sink, c.text)])
    case OpenFailed(_) => w
    case Opened => w.(sink := File(c.path))
  }

  function ResultOf(firstError: Option<IoError>, flush: Option<IoError>): Result {
    if firstError.Some? then Failed(firstError.value)
    else if flush.Some? then Failed(flush.value)
    else Ok
  }

  ghost predicate Handled(w: Worker, cs: seq<Command>, fs: seq<Fate>) {
    && Answered(cs, fs)
    && w.sink == SinkAfter(cs, fs)
    && IsLog(cs, fs, w.log)
    && IsFirstError(fs, w.firstError)
    && w.writeFailures == |Where(fs, IsWriteFailure)|
  }

  lemma LineAtSnoc(cs: seq<Command>, fs: seq<Fate>, c: Command, f: Fate, i: nat)
    requires Answered(cs, fs) && Answers(f, c) && i < |fs| && fs[i].Written?
    ensures Answered(cs + [c], fs + [f])
    ensures LineAt(cs + [c], fs + [f], i) == LineAt(cs, fs, i)
  {
    hide SinkAfter;
    assert (cs + [c])[..i] == cs[..i] && (fs + [f])[..i] == fs[..i];
  }

  lemma LogSnoc(cs: seq<Command>, fs: seq<Fate>, log: seq<Line>, c: Command, f: Fate)
    requires Answered(cs, fs) && IsLog(cs, fs, log) && Answers(f, c)
    ensures Answered(cs + [c], fs + [f])
    ensures IsLog(cs + [c], fs + [f],
                  if f.Written? then log + [Line(SinkAfter(cs, fs), c.text)] else log)
  {
    hide LineAt, SinkAfter, Where;
    WhereSnoc(fs, f, IsWritten);
    var at := Where(fs, IsWritten);
    forall k | 0 <= k < |log| ensures log[k] == LineAt(cs + [c], fs + [f], at[k]) {
      LineAtSnoc(cs, fs, c, f, at[k]);
    }
    if f.Written? { LineAtEnd(cs, fs, c); }
  }

  lemma LineAtEnd(cs: seq<Command>, fs: seq<Fate>, c: Command)
    requires Answered(cs, fs) && c.Record?
    ensures LineAt(cs + [c], fs + [Written], |fs|) == Line(SinkAfter(cs, fs), c.text)
  {
    hide SinkAfter;
    assert (cs + [c])[..|fs|] == cs && (fs + [Written])[..|fs|] == fs;
  }

  lemma FirstErrorSnoc(fs: seq<Fate>, e: Option<IoError>, f: Fate)
    requires IsFirstError(fs, e)
    ensures IsFirstError(fs + [f], if Fails(f) then OrElse(e, f.error) else e)
  {
    var fs' := fs + [f];
    if e.Some? {
      var j :| FirstFailureAt(fs, j) && fs[j].error == e.value;
      assert FirstFailureAt(fs', j);
    } else if Fails(f) {
      assert FirstFailureAt(fs', |fs|);
    }
  }

  lemma SinkSnoc(cs: seq<Command>, fs: seq<Fate>, c: Command, f: Fate)
    requires Answered(cs, fs) && Answers(f, c)
    ensures Answered(cs + [c], fs + [f])
    ensures SinkAfter(cs + [c], fs + [f]) == if f.Opened? then File(c.path) else SinkAfter(cs, fs)
  {
    assert (cs + [c])[..|cs|] == cs && (fs + [f])[..|fs|] == fs;
  }

  lemma HandleKeeps(w: Worker, cs: seq<Command>, fs: seq<Fate>, c: Command, f: Fate)
    requires Handled(w, cs, fs) && Answers(f, c)
    ensures Handled(Handle(w, c, f), cs + [c], fs + [f])
  {
    hide SinkAfter, Where, IsLog, IsFirstError;
    SinkSnoc(cs, fs, c, f);
    LogSnoc(cs, fs, w.log, c, f);
    FirstErrorSnoc(fs, w.firstError, f);
    WhereSnoc(fs, f, IsWriteFailure);
  }

  lemma IdleHandled()
    ensures Handled(IDLE_WORKER, [], [])
  {
  }

  lemma ResultMeaning(fs: seq<Fate>, firstError: Option<IoError>, flush: Option<IoError>)
    requires IsFirstError(fs, firstError)
    ensures ResultOf(firstError, flush) == Ok <==> flush.None? && NoFailure(fs)
    ensures NoFailure(fs) && flush.Some? ==> ResultOf(firstError, flush) == Failed(flush.value)
    ensures forall j :: FirstFailureAt(fs, j) ==> ResultOf(firstError, flush) == Failed(fs[j].error)
  {
    if firstError.Some? {
      var i :| FirstFailureAt(fs, i) && fs[i].error == firstError.value;
      forall j | FirstFailureAt(fs, j) ensures j == i {
        assert !(j < i) && !(i < j);
      }
    }
  }

  // The draining loop, over all the commands the channel yields until it is closed and empty.
  method WriteLoop(commands: seq<Command>, fates: seq<Fate>, flush: Option<IoError>)
    returns (result: Result, log: seq<Line>, writeFailures: nat)
    requires Answered(commands, fates)
    ensures IsLog(commands, fates, log)
    ensures result == Ok <==> flush.None? && NoFailure(fates)
    ensures forall j :: FirstFailureAt(fates, j) ==> result == Failed(fates[j].error)
    ensures NoFailure(fates) && flush.Some? ==> result == Failed(flush.value)
    ensures writeFailures == |Where(fates, IsWriteFailure)| + (if flush.Some? then 1 else 0)
  {
    hide SinkAfter, Where, IsLog, IsFirstError;
    var sink, firstError := Initial, None;
    log, writeFailures := [], 0;
    IdleHandled();
    var i := 0;
    while i < |commands|
      invariant 0 <= i <= |commands|
      invariant Handled(Worker(sink, firstError, writeFailures, log), commands[..i], fates[..i])
    {
      var command, fate := commands[i], fates[i];
      HandleKeeps(Worker(sink, firstError, writeFailures, log), commands[..i], fates[..i], command, fate);
      assert commands[..i + 1] == commands[..i] + [command] && fates[..i + 1] == fates[..i] + [fate];
      match fate {
        case Unserializable(e) =>
          if firstError.None? { firstError := Some(e); }
        case WriteFailed(e) =>
          writeFailures := writeFailures + 1;
          if firstError.None? { firstError := Some(e); }
        case Written =>
          log := log + [Line(sink, command.text)];
        case OpenFailed(_) =>
        case Opened =>
          sink := File(command.path);
      }
      i := i + 1;
    }
    assert commands[..i] == commands && fates[..i] == fates;
    ResultMeaning(fates, firstError, flush);
    if flush.Some? {
      writeFailures := writeFailures + 1;
      if firstError.None? { firstError := flush; }
    }
    result := if firstError.Some? then Failed(firstError.value) else Ok;
  }

  // ---------------------------------------------------------------------------------------------
  // The front: what callers share

  datatype Front = Front(capacity: nat, open: bool, queue: seq<Command>, offered: nat, dropped: nat)
  {
    predicate HasRoom() {
      open && |queue| < capacity
    }
  }

  function Enqueue(f: Front, c: Command): Front {
    if f.HasRoom() then f.(queue := f.queue + [c]) else f
  }

  function Offer(f: Front, text: Text): Front {
    var g := Enqueue(f, Record(text));
    g.(offered := f.offered + 1, dropped := f.dropped + if f.HasRoom() then 0 else 1)
  }

  datatype Outcome = Accepted | Dropped

  datatype ReopenError = ReopenQueueFull | WriterGone

  class AuditWriter {
    const capacity: nat
    var open: bool
    var queue: seq<Command>
    var dropped: nat
    ghost var offered: nat

    ghost function State(): Front
      reads this
    {
      Front(capacity, open, queue, offered, dropped)
    }

    constructor (capacity: nat)
      ensures State() == Front(capacity, true, [], 0, 0)
    {
      this.capacity, open, queue, dropped, offered := capacity, true, [], 0, 0;
    }

    method TryRecord(text: Text) returns (outcome: Outcome)
      modifies this
      ensures State() == Offer(old(State()), text)
      ensures outcome == Accepted <==> old(open) && |old(queue)| < capacity
      ensures outcome == Accepted <==> queue == old(queue) + [Record(text)]
      ensures outcome == Dropped <==> dropped == old(dropped) + 1
    {
      offered := offered + 1;
      if !open {
        dropped := dropped + 1;
        return Dropped;
      }
      if |queue| < capacity {
        queue := queue + [Record(text)];
        return Accepted;
      }
      dropped := dropped + 1;
      return Dropped;
    }

    // The part of `reopen` that runs before the reply is awaited.
    method EnqueueReopen(path: Path) returns (refusal: Option<ReopenError>)
      modifies this
      ensures State() == Enqueue(old(State()), Reopen(path))
      ensures refusal.None? <==> old(open) && |old(queue)| < capacity
      ensures refusal.None? <==> queue == old(queue) + [Reopen(path)]
      ensures refusal == Some(WriterGone) <==> !open
    {
      if !open {
        return Some(WriterGone);
      }
      if |queue| < capacity {
        queue := queue + [Reopen(path)];
        return None;
      }
      return Some(ReopenQueueFull);
    }

    method Close()
      modifies this
      ensures State() == old(State()).(open := false)
    {
      open := false;
    }
  }

  // A queue that holds nothing is refused.
  method Start(capacity: nat) returns (w: Option<AuditWriter>)
    ensures w.None? <==> capacity == 0
    ensures w.Some? ==> fresh(w.value) && w.value.State() == Front(capacity, true, [], 0, 0)
  {
    if capacity == 0 {
      return None;
    }
    var writer := new AuditWriter(capacity);
    return Some(writer);
  }

  // ---------------------------------------------------------------------------------------------
  // Runs of callers and thread together

  // `accepted` and `fates` are the history: the commands the queue took, and what became of those
  // the thread has handled.
  datatype State = State(front: Front, worker: Worker, accepted: seq<Command>, fates: seq<Fate>,
                         result: Option<Result>)

  datatype Event =
    | OfferRecord(text: Text)
    | AskReopen(path: Path)
    | Process(fate: Fate)
    | CloseQueue
    | Finish(flush: Option<IoError>)

  predicate Enabled(s: State, e: Event) {
    match e
    case Process(fate) => s.front.queue != [] && Answers(fate, s.front.queue[0])
    case Finish(_) => s.front.queue == [] && !s.front.open && s.result.None?
    case _ => true
  }

  function TakenIn(s: State, c: Command): seq<Command> {
    if s.front.HasRoom() then s.accepted + [c] else s.accepted
  }

  function Do(s: State, e: Event): State
    requires Enabled(s, e)
  {
    match e
    case OfferRecord(text) => s.(front := Offer(s.front, text), accepted := TakenIn(s, Record(text)))
    case AskReopen(path) => s.(front := Enqueue(s.front, Reopen(path)), accepted := TakenIn(s, Reopen(path)))
    case Process(fate) =>
      s.(front := s.front.(queue := s.front.queue[1..]),
         worker := Handle(s.worker, s.front.queue[0], fate), fates := s.fates + [fate])
    case CloseQueue => s.(front := s.front.(open := false))
    case Finish(flush) =>
      s.(result := Some(ResultOf(s.worker.firstError, flush)),
         worker := s.worker.(writeFailures := s.worker.writeFailures + if flush.Some? then 1 else 0))
  }

  predicate Starts(s: State) {
    && s.front.capacity > 0 && s.front == Front(s.front.capacity, true, [], 0, 0)
    && s.worker == IDLE_WORKER && s.accepted == [] && s.fates == [] && s.result.None?
  }

  function Records(cs: seq<Command>): nat {
    if cs == [] then 0 else Records(cs[..|cs| - 1]) + if cs[|cs| - 1].Record? then 1 else 0
  }

  lemma RecordsSnoc(cs: seq<Command>, c: Command)
    ensures Records(cs + [c]) == Records(cs) + if c.Record? then 1 else 0
  {
    assert (cs + [c])[..|cs|] == cs;
  }

  // The commands the thread has handled.
  function Processed(s: State): seq<Command>
    requires |s.fates| <= |s.accepted|
  {
    s.accepted[..|s.fates|]
  }

  predicate FrontOk(s: State) {
    && |s.fates| <= |s.accepted|
    && s.accepted[|s.fates|..] == s.front.queue
    && |s.front.queue| <= s.front.capacity
    && s.front.offered == Records(s.accepted) + s.front.dropped
  }

  // Once finished, the flush failure is the one write failure that belongs to no command.
  ghost predicate WorkerOk(s: State)
    requires |s.fates| <= |s.accepted|
  {
    if s.result.None? then Handled(s.worker, Processed(s), s.fates)
    else
      && !s.front.open && s.front.queue == []
      && Answered(Processed(s), s.fates)
      && IsLog(Processed(s), s.fates, s.worker.log)
      && IsFirstError(s.fates, s.worker.firstError)
      && exists flush :: FinishedWith(s, flush)
  }

  predicate FinishedWith(s: State, flush: Option<IoError>) {
    && s.result == Some(ResultOf(s.worker.firstError, flush))
    && s.worker.writeFailures == |Where(s.fates, IsWriteFailure)| + if flush.Some? then 1 else 0
  }

  ghost predicate StateOk(s: State) {
    FrontOk(s) && WorkerOk(s)
  }

  lemma StartOk(s: State)
    requires Starts(s)
    ensures StateOk(s)
  {
  }

  lemma FrontKept(s: State, e: Event)
    requires FrontOk(s) && Enabled(s, e)
    ensures FrontOk(Do(s, e))
  {
    hide Handle, ResultOf, Records;
    var n := |s.fates|;
    assert forall c :: (s.accepted + [c])[n..] == s.front.queue + [c];
    assert e.Process? ==> s.accepted[n + 1..] == s.front.queue[1..];
    if e.OfferRecord? && s.front.HasRoom() { RecordsSnoc(s.accepted, Record(e.text)); }
    if e.AskReopen? && s.front.HasRoom() { RecordsSnoc(s.accepted, Reopen(e.path)); }
  }

  lemma WorkerKept(s: State, e: Event)
    requires StateOk(s) && Enabled(s, e) && FrontOk(Do(s, e))
    ensures WorkerOk(Do(s, e))
  {
    hide SinkAfter, Where, IsLog, IsFirstError, Records, Handle, ResultOf;
    var s' := Do(s, e);
    if e.Process? {
      assert s.front.queue[0] == s.accepted[|s.fates|];
      assert Processed(s') == Processed(s) + [s.front.queue[0]];
      HandleKeeps(s.worker, Processed(s), s.fates, s.front.queue[0], e.fate);
    } else {
      assert Processed(s') == Processed(s);
      if e.Finish? {
        assert FinishedWith(s', e.flush);
      } else if s.result.Some? {
        var flush :| FinishedWith(s, flush);
        assert FinishedWith(s', flush);
      }
    }
  }

  predicate StepAt(ss: seq<State>, es: seq<Event>, k: nat)
    requires k < |es| && |ss| == |es| + 1
  {
    Enabled(ss[k], es[k]) && ss[k + 1] == Do(ss[k], es[k])
  }

  predicate IsRun(ss: seq<State>, es: seq<Event>) {
    |ss| == |es| + 1 && Starts(ss[0]) && forall k :: 0 <= k < |es| ==> StepAt(ss, es, k)
  }

  lemma {:induction false} RunOk(ss: seq<State>, es: seq<Event>, k: nat)
    requires IsRun(ss, es) && k < |ss|
    ensures StateOk(ss[k])
  {
    hide WorkerOk, FrontOk, Do;
    if k == 0 {
      StartOk(ss[0]);
    } else {
      RunOk(ss, es, k - 1);
      assert StepAt(ss, es, k - 1);
      FrontKept(ss[k - 1], es[k - 1]);
      WorkerKept(ss[k - 1], es[k - 1]);
    }
  }

  lemma {:induction false} HistoryGrows(ss: seq<State>, es: seq<Event>, j: nat, k: nat)
    requires IsRun(ss, es) && j <= k < |ss|
    ensures ss[j].accepted <= ss[k].accepted && ss[j].fates <= ss[k].fates
    decreases k
  {
    hide Handle, ResultOf, Offer;
    if j < k {
      HistoryGrows(ss, es, j, k - 1);
      assert StepAt(ss, es, k - 1);
    }
  }

  // Nothing offered is lost without being counted, and the queue hands over in order.
  lemma OffersConserved(ss: seq<State>, es: seq<Event>, k: nat)
    requires IsRun(ss, es) && k < |ss|
    ensures var s := ss[k];
            && s.front.offered == Records(s.accepted) + s.front.dropped
            && |s.front.queue| <= s.front.capacity
            && |s.fates| <= |s.accepted| && s.accepted == Processed(s) + s.front.queue
  {
    RunOk(ss, es, k);
  }

  function Asks(e: Event): Option<Command> {
    match e
    case OfferRecord(text) => Some(Record(text))
    case AskReopen(path) => Some(Reopen(path))
    case _ => None
  }

  // In any run, an offer or a reopen request is taken in if and only if the queue is open and fewer than
  // its capacity wait in it, and nothing else is ever taken in; an offer that is not is counted.
  lemma TakenInIff(ss: seq<State>, es: seq<Event>, k: nat)
    requires IsRun(ss, es) && k < |es|
    ensures |ss[k].fates| <= |ss[k].accepted|
    ensures var room := ss[k].front.open && |ss[k].accepted| - |ss[k].fates| < ss[k].front.capacity;
            var asked := Asks(es[k]);
            && ss[k + 1].accepted == (if asked.Some? && room then ss[k].accepted + [asked.value] else ss[k].accepted)
            && ss[k + 1].front.dropped - ss[k].front.dropped == (if es[k].OfferRecord? && !room then 1 else 0)
            && ss[k + 1].front.offered - ss[k].front.offered == (if es[k].OfferRecord? then 1 else 0)
  {
    hide WorkerOk, Records, Handle, ResultOf;
    RunOk(ss, es, k);
    assert StepAt(ss, es, k);
    assert |ss[k].accepted[|ss[k].fates|..]| == |ss[k].accepted| - |ss[k].fates|;
  }

  // Only closing closes the queue, and no step changes its capacity.
  lemma StaysOpen(ss: seq<State>, es: seq<Event>, k: nat)
    requires IsRun(ss, es) && k < |es|
    ensures ss[k + 1].front.open <==> ss[k].front.open && !es[k].CloseQueue?
    ensures ss[k + 1].front.capacity == ss[k].front.capacity
  {
    hide Handle, ResultOf;
    assert StepAt(ss, es, k);
  }

  // The log of any run lists the written records once each, in the order they were accepted, each
  // on the sink of the latest successful reopen accepted before it.
  lemma LogFollowsAcceptance(ss: seq<State>, es: seq<Event>, k: nat)
    requires IsRun(ss, es) && k < |ss|
    ensures |ss[k].fates| <= |ss[k].accepted| && Answered(Processed(ss[k]), ss[k].fates)
    ensures IsLog(Processed(ss[k]), ss[k].fates, ss[k].worker.log)
  {
    hide Where, SinkAfter, IsLog, IsFirstError, Records;
    RunOk(ss, es, k);
  }

  // What a finished writer reports, and that nothing accepted was left behind.
  lemma FinishedRun(ss: seq<State>, es: seq<Event>, k: nat)
    requires IsRun(ss, es) && k < |es| && es[k].Finish?
    ensures |ss[k + 1].fates| == |ss[k + 1].accepted|
    ensures ss[k + 1].result == Some(Ok) <==> es[k].flush.None? && NoFailure(ss[k + 1].fates)
    ensures var fates := ss[k + 1].fates;
            forall j :: FirstFailureAt(fates, j) ==> ss[k + 1].result == Some(Failed(fates[j].error))
    ensures NoFailure(ss[k + 1].fates) && es[k].flush.Some? ==> ss[k + 1].result == Some(Failed(es[k].flush.value))
  {
    hide Where, SinkAfter, IsLog, Records;
    RunOk(ss, es, k);
    assert StepAt(ss, es, k);
    ResultMeaning(ss[k].fates, ss[k].worker.firstError, es[k].flush);
  }

  // A finished writer takes in nothing more, so its result stands for the rest of the run.
  lemma {:induction false} FinishedForGood(ss: seq<State>, es: seq<Event>, j: nat, k: nat)
    requires IsRun(ss, es) && j <= k < |ss| && ss[j].result.Some?
    ensures ss[k].result == ss[j].result && ss[k].accepted == ss[j].accepted
    ensures ss[k].worker == ss[j].worker
    decreases k
  {
    hide Where, SinkAfter, IsLog, Records, IsFirstError, Handle, ResultOf, FinishedWith;
    if j < k {
      FinishedForGood(ss, es, j, k - 1);
      RunOk(ss, es, k - 1);
      assert StepAt(ss, es, k - 1);
    }
  }

  // Once a reopen has succeeded, a record offered afterwards goes to its file, unless a later
  // reopen that was accepted before the record succeeded as well.
  lemma ReopenTakesEffect(ss: seq<State>, es: seq<Event>, j: nat, r: nat, k: nat, i: nat)
    requires IsRun(ss, es) && j <= k < |ss|
    requires r < |ss[j].fates| && ss[j].fates[r].Opened?
    requires |ss[j].accepted| <= i < |ss[k].fates|
    requires forall q :: r < q < i ==> !ss[k].fates[q].Opened?
    ensures |ss[k].fates| <= |ss[k].accepted| && Answered(Processed(ss[k]), ss[k].fates)
    ensures r < i && Processed(ss[k])[r].Reopen?
    ensures SinkAfter(Processed(ss[k])[..i], ss[k].fates[..i]) == File(Processed(ss[k])[r].path)
  {
    hide Where, SinkAfter, IsLog, Records, IsFirstError, WorkerOk, IsSinkAfter;
    LogFollowsAcceptance(ss, es, k);
    OffersConserved(ss, es, j);
    HistoryGrows(ss, es, j, k);
    var cs, fs := Processed(ss[k]), ss[k].fates;
    assert Answers(fs[r], cs[r]);
    assert LatestReopen(fs[..i], r);
    SinkOfLatest(cs[..i], fs[..i], r);
  }

  lemma SinkOfLatest(cs: seq<Command>, fs: seq<Fate>, r: nat)
    requires Answered(cs, fs) && LatestReopen(fs, r)
    ensures cs[r].Reopen? && SinkAfter(cs, fs) == File(cs[r].path)
  {
    assert Answers(fs[r], cs[r]);
    SinkAfterUnique(cs, fs, File(cs[r].path));
  }
}
