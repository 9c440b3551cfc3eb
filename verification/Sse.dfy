/**
  Server-sent events, twice: the gateway's byte-at-a-time side-band parser with its four-byte tail
  window, event cap and discard mode, and the declarative segmentation of the whole stream that it
  must agree with, whatever the chunks.

  The gateway ends an event at LF LF or CR LF CR LF only, so this is not the full event-stream
  format of section 9.2.6 of the WHATWG HTML Living Standard.
 */
module Sse {
  import opened Prelude

  type Byte = b: int | 0 <= b < 256

  const LF: Byte := 10
  const CR: Byte := 13
  const DATA: seq<Byte> := [100, 97, 116, 97, 58]  // "data:"

  // ---------------------------------------------------------------------------------------------
  // Lines

  // The complete lines of a text, each without its LF.
  function Lines(s: seq<Byte>): seq<seq<Byte>> {
    if s == [] then []
    else
      var n := |s| - 1;
      if s[n] == LF then Lines(s[..n]) + [Partial(s[..n])] else Lines(s[..n])
  }

  // The text after the last LF.
  function Partial(s: seq<Byte>): seq<Byte> {
    if s == [] then []
    else
      var n := |s| - 1;
      if s[n] == LF then [] else Partial(s[..n]) + [s[n]]
  }

  lemma LinesSnoc(s: seq<Byte>, b: Byte)
    ensures Lines(s + [b]) == if b == LF then Lines(s) + [Partial(s)] else Lines(s)
    ensures Partial(s + [b]) == if b == LF then [] else Partial(s) + [b]
  {
    assert (s + [b])[..|s|] == s;
  }

  predicate IsData(line: seq<Byte>) {
    DATA <= line
  }

  // Some line of an event body, complete or not, starts with "data:".
  predicate HasData(body: seq<Byte>) {
    (exists l :: l in Lines(body) && IsData(l)) || IsData(Partial(body))
  }

  // ---------------------------------------------------------------------------------------------
  // Segmentation

  predicate EndsEvent(s: seq<Byte>) {
    var n := |s|;
    || (n >= 2 && s[n - 2] == LF && s[n - 1] == LF)
    || (n >= 4 && s[n - 4] == CR && s[n - 3] == LF && s[n - 2] == CR && s[n - 1] == LF)
  }

  // The bytes since the last delimiter.
  function Pending(s: seq<Byte>): seq<Byte> {
    if s == [] then []
    else
      var p := Pending(s[..|s| - 1]) + [s[|s| - 1]];
      if EndsEvent(p) then [] else p
  }

  // The delimited segments of a stream, delimiters included.
  function Segments(s: seq<Byte>): seq<seq<Byte>> {
    if s == [] then []
    else
      var init := s[..|s| - 1];
      var p := Pending(init) + [s[|s| - 1]];
      if EndsEvent(p) then Segments(init) + [p] else Segments(init)
  }

  lemma SegmentsSnoc(s: seq<Byte>, b: Byte)
    ensures Pending(s + [b]) == if EndsEvent(Pending(s) + [b]) then [] else Pending(s) + [b]
    ensures Segments(s + [b]) == if EndsEvent(Pending(s) + [b]) then Segments(s) + [Pending(s) + [b]] else Segments(s)
  {
    assert (s + [b])[..|s|] == s;
  }

  // The pending bytes are the end of the stream.
  lemma {:induction false} PendingEndsLikeStream(s: seq<Byte>)
    ensures |Pending(s)| <= |s| && Pending(s) == s[|s| - |Pending(s)|..]
    ensures Pending(s) == [] && s != [] ==> s[|s| - 1] == LF
  {
    if s != [] {
      PendingEndsLikeStream(s[..|s| - 1]);
    }
  }

  // No delimiter ends inside or at the end of `s`.
  predicate Unbroken(s: seq<Byte>) {
    forall n :: 0 <= n <= |s| ==> !EndsEvent(s[..n])
  }

  // A segment: it ends at its first delimiter.
  predicate IsSegment(s: seq<Byte>) {
    s != [] && EndsEvent(s) && Unbroken(s[..|s| - 1])
  }

  // A stream cut at every first delimiter since the previous cut.
  predicate IsSegmentation(s: seq<Byte>, segs: seq<seq<Byte>>, rest: seq<Byte>) {
    s == Concat(segs) + rest && Unbroken(rest) && forall i :: 0 <= i < |segs| ==> IsSegment(segs[i])
  }

  lemma UnbrokenNothing()
    ensures Unbroken([])
  {
  }

  lemma UnbrokenSnoc(s: seq<Byte>, b: Byte)
    ensures Unbroken(s + [b]) <==> Unbroken(s) && !EndsEvent(s + [b])
  {
    var t := s + [b];
    assert t[..|t|] == t;
    forall n | 0 <= n <= |s| ensures t[..n] == s[..n] {
    }
    if Unbroken(s) && !EndsEvent(t) {
      forall n | 0 <= n <= |t| ensures !EndsEvent(t[..n]) {
        if n <= |s| {
          assert t[..n] == s[..n];
        }
      }
    }
    if Unbroken(t) {
      forall n | 0 <= n <= |s| ensures !EndsEvent(s[..n]) {
        assert t[..n] == s[..n];
      }
    }
  }

  // Nothing is lost: the segments and the pending bytes are the stream.
  lemma {:induction false} SegmentsCutTheStream(s: seq<Byte>)
    ensures IsSegmentation(s, Segments(s), Pending(s))
  {
    hide EndsEvent, Unbroken;
    UnbrokenNothing();
    if s != [] {
      var init, b := s[..|s| - 1], s[|s| - 1];
      SegmentsCutTheStream(init);
      var p := Pending(init) + [b];
      UnbrokenSnoc(Pending(init), b);
      assert s == init + [b];
      if EndsEvent(p) {
        assert p[..|p| - 1] == Pending(init);
        ConcatSnoc(Segments(init), p);
      }
    }
  }

  // There is only one way to cut a stream.
  lemma {:induction false} SegmentationUnique(s: seq<Byte>, segs: seq<seq<Byte>>, rest: seq<Byte>)
    requires IsSegmentation(s, segs, rest)
    ensures segs == Segments(s) && rest == Pending(s)
    decreases |s|
  {
    hide EndsEvent;
    if rest != [] {
      var init, b := rest[..|rest| - 1], rest[|rest| - 1];
      assert rest == init + [b];
      UnbrokenSnoc(init, b);
      assert s[..|s| - 1] == Concat(segs) + init;
      SegmentationUnique(s[..|s| - 1], segs, init);
      assert s[|s| - 1] == b;
      assert Unbroken(rest) && rest[..|rest|] == rest;
    } else if segs != [] {
      var front, last := segs[..|segs| - 1], segs[|segs| - 1];
      assert IsSegment(last);
      var init, b := last[..|last| - 1], last[|last| - 1];
      assert last == init + [b];
      assert s == Concat(front) + last;
      assert s[..|s| - 1] == Concat(front) + init;
      SegmentationUnique(s[..|s| - 1], front, init);
      assert s[|s| - 1] == b;
    }
  }

  // ---------------------------------------------------------------------------------------------
  // Events

  // The part of a segment that is buffered: all but the byte that completes the delimiter.
  function Body(seg: seq<Byte>): seq<Byte> {
    if seg == [] then [] else seg[..|seg| - 1]
  }

  // A segment counts as an event when its body fits the cap and holds a data line.
  predicate Qualifies(seg: seq<Byte>, cap: nat) {
    |Body(seg)| <= cap && HasData(Body(seg))
  }

  function EventCount(segs: seq<seq<Byte>>, cap: nat): nat {
    if segs == [] then 0
    else
      var n := |segs| - 1;
      EventCount(segs[..n], cap) + if Qualifies(segs[n], cap) then 1 else 0
  }

  // Data segments that are missed because they exceed the cap.
  function OversizedCount(segs: seq<seq<Byte>>, cap: nat): nat {
    if segs == [] then 0
    else
      var n := |segs| - 1;
      OversizedCount(segs[..n], cap) + if HasData(Body(segs[n])) && |Body(segs[n])| > cap then 1 else 0
  }

  function EventsIn(stream: seq<Byte>, cap: nat): nat {
    EventCount(Segments(stream), cap)
  }

  // The usage of the last qualifying segment that carries one.
  function LastUsage<U>(segs: seq<seq<Byte>>, cap: nat, usageOf: seq<Byte> -> Option<U>): Option<U> {
    if segs == [] then None
    else
      var n := |segs| - 1;
      if Qualifies(segs[n], cap) && usageOf(Body(segs[n])).Some? then usageOf(Body(segs[n]))
      else LastUsage(segs[..n], cap, usageOf)
  }

  function UsageIn<U>(stream: seq<Byte>, cap: nat, usageOf: seq<Byte> -> Option<U>): Option<U> {
    LastUsage(Segments(stream), cap, usageOf)
  }

  lemma CountSnoc<U>(segs: seq<seq<Byte>>, seg: seq<Byte>, cap: nat, usageOf: seq<Byte> -> Option<U>)
    ensures EventCount(segs + [seg], cap) == EventCount(segs, cap) + if Qualifies(seg, cap) then 1 else 0
    ensures OversizedCount(segs + [seg], cap)
            == OversizedCount(segs, cap) + if HasData(Body(seg)) && |Body(seg)| > cap then 1 else 0
    ensures LastUsage(segs + [seg], cap, usageOf)
            == if Qualifies(seg, cap) && usageOf(Body(seg)).Some? then usageOf(Body(seg))
               else LastUsage(segs, cap, usageOf)
  {
    assert (segs + [seg])[..|segs|] == segs;
  }

  // ---------------------------------------------------------------------------------------------
  // The parser

  // Whether a suffix window of the pending bytes shows a delimiter; four bytes are enough.
  lemma WindowShowsDelimiter(p: seq<Byte>, w: seq<Byte>)
    requires |w| == Min(|p|, 4) && w == p[|p| - |w|..]
    ensures EndsEvent(w) <==> EndsEvent(p)
  {
  }

  // What the parser keeps of the pending bytes `p`: the last four, those up to the cap, and whether
  // they overflowed it.
  predicate Keeps(cap: nat, p: seq<Byte>, window: seq<Byte>, buf: seq<Byte>, discarding: bool) {
    && |window| == Min(|p|, 4) && window == p[|p| - |window|..]
    && buf == p[..Min(|p|, cap)]
    && discarding == (|p| > cap)
  }

  function SlideIn(window: seq<Byte>, b: Byte): seq<Byte> {
    if |window| == 4 then window[1..] + [b] else window + [b]
  }

  lemma SlideInShowsDelimiter(p: seq<Byte>, window: seq<Byte>, b: Byte)
    requires |window| == Min(|p|, 4) && window == p[|p| - |window|..]
    ensures EndsEvent(SlideIn(window, b)) <==> EndsEvent(p + [b])
  {
    var q := p + [b];
    var w := SlideIn(window, b);
    assert w == q[|q| - |w|..];
    WindowShowsDelimiter(q, w);
  }

  lemma KeepsOneMore(cap: nat, p: seq<Byte>, window: seq<Byte>, buf: seq<Byte>, discarding: bool, b: Byte)
    requires Keeps(cap, p, window, buf, discarding)
    ensures var full := discarding || |buf| >= cap;
            Keeps(cap, p + [b], SlideIn(window, b), if full then buf else buf + [b], full)
  {
    var q, w := p + [b], SlideIn(window, b);
    assert w == q[|q| - |w|..];
    assert q[..Min(|p|, cap)] == p[..Min(|p|, cap)];
    assert |p| < cap ==> q[..|q|] == p[..|p|] + [b];
  }

  // What a byte adds to the finished events: nothing, unless it completes a delimiter.
  lemma ByteCounts<U>(cap: nat, usageOf: seq<Byte> -> Option<U>, seen: seq<Byte>, b: Byte)
    ensures var p := Pending(seen);
            var ends, counts := EndsEvent(p + [b]), |p| <= cap && HasData(p);
            && Pending(seen + [b]) == (if ends then [] else p + [b])
            && EventsIn(seen + [b], cap) == EventsIn(seen, cap) + (if ends && counts then 1 else 0)
            && UsageIn(seen + [b], cap, usageOf)
               == (if ends && counts && usageOf(p).Some? then usageOf(p) else UsageIn(seen, cap, usageOf))
  {
    var p := Pending(seen);
    SegmentsSnoc(seen, b);
    CountSnoc(Segments(seen), p + [b], cap, usageOf);
    assert Body(p + [b]) == p;
  }

  // `usageOf` stands for the JSON validation and usage extraction on an event's data payload.
  class SseUsageParser<U> {
    const cap: nat
    const usageOf: seq<Byte> -> Option<U>
    const tail: array<Byte>
    var eventBuf: seq<Byte>
    var tailLen: nat
    var discarding: bool
    var usage: Option<U>
    var eventCount: nat
    ghost var seen: seq<Byte>

    // The parser's memory is the declarative view of everything it has seen.
    ghost predicate Valid()
      reads this, tail
    {
      tail.Length == 4 && tailLen <= 4
      && Keeps(cap, Pending(seen), tail[..tailLen], eventBuf, discarding)
      && eventCount == EventsIn(seen, cap) && usage == UsageIn(seen, cap, usageOf)
    }

    constructor (cap: nat, usageOf: seq<Byte> -> Option<U>)
      ensures Valid() && fresh(tail) && seen == [] && this.cap == cap && this.usageOf == usageOf
    {
      this.cap, this.usageOf := cap, usageOf;
      tail := new Byte[4](_ => 0);
      eventBuf, tailLen, discarding, usage, eventCount := [], 0, false, None, 0;
      seen := [];
    }

    // Slides one byte into the tail window.
    method Slide(b: Byte)
      requires tail.Length == 4 && tailLen <= 4
      modifies tail, this`tailLen
      ensures tailLen <= 4 && tail[..tailLen] == SlideIn(old(tail[..tailLen]), b)
    {
      if tailLen == 4 {
        tail[0] := tail[1];
        tail[1] := tail[2];
        tail[2] := tail[3];
        tail[3] := b;
      } else {
        tail[tailLen] := b;
        tailLen := tailLen + 1;
      }
    }

    method ConsumeEvent(event: seq<Byte>) returns (counted: bool)
      modifies this`usage
      ensures counted == HasData(event)
      ensures usage == if HasData(event) && usageOf(event).Some? then usageOf(event) else old(usage)
    {
      if !HasData(event) {
        return false;
      }
      var found := usageOf(event);
      if found.Some? {
        usage := found;
      }
      counted := true;
    }

    // The byte that completes a delimiter is not buffered; it closes the event.
    method CloseEvent(ghost p: seq<Byte>)
      requires eventBuf == p[..Min(|p|, cap)] && discarding == (|p| > cap)
      modifies this`eventBuf, this`tailLen, this`discarding, this`usage, this`eventCount
      ensures eventBuf == [] && !discarding && tailLen == 0
      ensures eventCount == old(eventCount) + (if |p| <= cap && HasData(p) then 1 else 0)
      ensures usage == if |p| <= cap && HasData(p) && usageOf(p).Some? then usageOf(p) else old(usage)
    {
      var event := eventBuf;
      eventBuf := [];
      if !discarding {
        assert event == p;
        var counted := ConsumeEvent(event);
        if counted {
          eventCount := eventCount + 1;
        }
      }
      discarding := false;
      tailLen := 0;
    }

    method BufferByte(b: Byte)
      modifies this`eventBuf, this`discarding
      ensures discarding == (old(discarding) || |old(eventBuf)| >= cap)
      ensures eventBuf == if discarding then old(eventBuf) else old(eventBuf) + [b]
    {
      if !discarding {
        if |eventBuf| < cap {
          eventBuf := eventBuf + [b];
        } else {
          discarding := true;
        }
      }
    }

    // One byte of input, told in terms of the pending bytes `p` alone.
    method Absorb(b: Byte, ghost p: seq<Byte>)
      requires tail.Length == 4 && tailLen <= 4
      requires Keeps(cap, p, tail[..tailLen], eventBuf, discarding)
      modifies this`eventBuf, this`tailLen, this`discarding, this`usage, this`eventCount, tail
      ensures tailLen <= 4
      ensures var ends, counts := EndsEvent(p + [b]), |p| <= cap && HasData(p);
              && (ends ==> Keeps(cap, [], tail[..tailLen], eventBuf, discarding))
              && (!ends ==> Keeps(cap, p + [b], tail[..tailLen], eventBuf, discarding))
              && eventCount == old(eventCount) + (if ends && counts then 1 else 0)
              && usage == if ends && counts && usageOf(p).Some? then usageOf(p) else old(usage)
    {
      hide HasData, SlideIn, EndsEvent;
      SlideInShowsDelimiter(p, tail[..tailLen], b);
      KeepsOneMore(cap, p, tail[..tailLen], eventBuf, discarding, b);
      Slide(b);
      if EndsEvent(tail[..tailLen]) {
        CloseEvent(p);
        assert tail[..tailLen] == [];
        assert Keeps(cap, [], tail[..tailLen], eventBuf, discarding);
      } else {
        BufferByte(b);
        assert Keeps(cap, p + [b], tail[..tailLen], eventBuf, discarding);
      }
    }

    method PushByte(b: Byte)
      requires Valid()
      modifies this`eventBuf, this`tailLen, this`discarding, this`usage, this`eventCount, this`seen, tail
      ensures Valid() && seen == old(seen) + [b] && old(eventCount) <= eventCount
    {
      hide Pending, EventsIn, UsageIn, HasData, EndsEvent, Keeps;
      ghost var p, more := Pending(seen), seen + [b];
      ByteCounts(cap, usageOf, seen, b);
      Absorb(b, p);
      assert Keeps(cap, Pending(more), tail[..tailLen], eventBuf, discarding);
      assert eventCount == EventsIn(more, cap);
      assert usage == UsageIn(more, cap, usageOf);
      seen := more;
    }

    // Any chunk: the parser reports the events its bytes complete, and never buffers over the cap.
    method Push(chunk: seq<Byte>) returns (events: nat)
      requires Valid()
      modifies this`eventBuf, this`tailLen, this`discarding, this`usage, this`eventCount, this`seen, tail
      ensures Valid() && seen == old(seen) + chunk
      ensures EventsIn(old(seen), cap) + events == EventsIn(seen, cap)
      ensures |eventBuf| <= cap
    {
      hide EventsIn, UsageIn, Pending;
      var before := eventCount;
      var i := 0;
      while i < |chunk|
        invariant 0 <= i <= |chunk| && Valid() && seen == old(seen) + chunk[..i]
        invariant before <= eventCount
      {
        PushByte(chunk[i]);
        i := i + 1;
      }
      assert chunk[..|chunk|] == chunk;
      events := eventCount - before;
    }
  }

  // However the stream is chunked, the parser ends with the count and usage of the whole stream.
  method ParseChunks<U>(chunks: seq<seq<Byte>>, cap: nat, usageOf: seq<Byte> -> Option<U>)
    returns (events: nat, usage: Option<U>)
    ensures events == EventsIn(Concat(chunks), cap)
    ensures usage == UsageIn(Concat(chunks), cap, usageOf)
  {
    hide EventsIn, UsageIn, Concat, Pending, Keeps;
    NothingParsed(cap);
    var parser := new SseUsageParser(cap, usageOf);
    events := 0;
    var i := 0;
    while i < |chunks|
      invariant 0 <= i <= |chunks| && parser.Valid() && fresh(parser) && fresh(parser.tail)
      invariant parser.cap == cap && parser.usageOf == usageOf
      invariant parser.seen == Concat(chunks[..i]) && events == EventsIn(parser.seen, cap)
    {
      var more := parser.Push(chunks[i]);
      ConcatTake(chunks, i);
      events := events + more;
      i := i + 1;
    }
    assert chunks[..|chunks|] == chunks;
    usage := parser.usage;
  }

  lemma NothingParsed(cap: nat)
    ensures EventsIn([], cap) == 0
    ensures var none: seq<seq<Byte>> := []; Concat(none) == []
  {
    var none: seq<seq<Byte>> := [];
    assert Concat(none) == [] && Segments([]) == [];
  }
}
