/**
  The load generator's line-based event decoder, and the exact condition under which it agrees with the
  gateway's parser.
 */
module SseDecoding {
  import opened Prelude
  import opened Sse

  const COLON: Byte := 58
  const SPACE: Byte := 32

  // A line without the CR of a CR LF ending.
  function StripCr(line: seq<Byte>): seq<Byte> {
    if line != [] && line[|line| - 1] == CR then line[..|line| - 1] else line
  }

  predicate IsBlank(line: seq<Byte>) {
    StripCr(line) == []
  }

  predicate IsDataLine(line: seq<Byte>) {
    IsData(StripCr(line))
  }

  // The value of a data line: one leading space is dropped.
  function DataValue(line: seq<Byte>): seq<Byte>
    requires IsDataLine(line)
  {
    var v := StripCr(line)[|DATA|..];
    if v != [] && v[0] == SPACE then v[1..] else v
  }

  // The data values collected since the last blank line.
  function OpenData(lines: seq<seq<Byte>>): seq<seq<Byte>> {
    if lines == [] then []
    else
      var n := |lines| - 1;
      if IsBlank(lines[n]) then []
      else if IsDataLine(lines[n]) then OpenData(lines[..n]) + [DataValue(lines[n])]
      else OpenData(lines[..n])
  }

  // The events: the data groups that a blank line closes.
  function Dispatched(lines: seq<seq<Byte>>): seq<seq<seq<Byte>>> {
    if lines == [] then []
    else
      var n := |lines| - 1;
      if IsBlank(lines[n]) && OpenData(lines[..n]) != [] then Dispatched(lines[..n]) + [OpenData(lines[..n])]
      else Dispatched(lines[..n])
  }

  lemma DispatchSnoc(lines: seq<seq<Byte>>, line: seq<Byte>)
    ensures OpenData(lines + [line]) == if IsBlank(line) then []
                                        else if IsDataLine(line) then OpenData(lines) + [DataValue(line)]
                                        else OpenData(lines)
    ensures Dispatched(lines + [line]) == if IsBlank(line) && OpenData(lines) != []
                                          then Dispatched(lines) + [OpenData(lines)] else Dispatched(lines)
  {
    assert (lines + [line])[..|lines|] == lines;
  }

  predicate AllText(lines: seq<seq<Byte>>, utf8: seq<Byte> -> bool) {
    forall l :: l in lines ==> utf8(StripCr(l))
  }

  lemma {:induction false} NoLfNoLines(s: seq<Byte>, t: seq<Byte>)
    requires LF !in t
    ensures Lines(s + t) == Lines(s) && Partial(s + t) == Partial(s) + t
  {
    hide Lines, Partial;
    if t == [] {
      assert s + t == s;
    } else {
      var init, b := t[..|t| - 1], t[|t| - 1];
      NoLfNoLines(s, init);
      assert s + t == (s + init) + [b];
      LinesSnoc(s + init, b);
    }
  }

  predicate IsFirstLf(s: seq<Byte>, pos: Option<nat>) {
    if pos.None? then LF !in s
    else pos.value < |s| && s[pos.value] == LF && LF !in s[..pos.value]
  }

  datatype Decoded = Events(events: seq<seq<seq<Byte>>>) | NotUtf8

  // `utf8` is the text validation applied to each line.  An event is the list of its data values.
  class Decoder {
    const utf8: seq<Byte> -> bool
    var buffer: seq<Byte>
    var data: seq<seq<Byte>>
    // Everything pushed, and every event returned.
    ghost var seen: seq<Byte>
    ghost var out: seq<seq<seq<Byte>>>

    ghost predicate Valid()
      reads this
    {
      buffer == Partial(seen) && Holds(Lines(seen))
    }

    // The decoder has taken exactly `lines`.
    ghost predicate Holds(lines: seq<seq<Byte>>)
      reads this
    {
      data == OpenData(lines) && out == Dispatched(lines) && AllText(lines, utf8)
    }

    constructor (utf8: seq<Byte> -> bool)
      ensures Valid() && seen == [] && out == [] && this.utf8 == utf8
    {
      this.utf8 := utf8;
      buffer, data, seen, out := [], [], [], [];
    }

    // Position of the first LF in the buffer.
    method FindLf() returns (pos: Option<nat>)
      ensures IsFirstLf(buffer, pos)
    {
      var i := 0;
      while i < |buffer|
        invariant 0 <= i <= |buffer| && LF !in buffer[..i]
      {
        if buffer[i] == LF {
          return Some(i);
        }
        i := i + 1;
      }
      pos := None;
    }

    // One complete line of text.
    method TakeLine(line: seq<Byte>, ghost lines: seq<seq<Byte>>) returns (events: seq<seq<seq<Byte>>>)
      requires Holds(lines) && utf8(StripCr(line))
      modifies this`data, this`out
      ensures Holds(lines + [line]) && out == old(out) + events
    {
      DispatchSnoc(lines, line);
      AllTextSnoc(lines, line, utf8);
      events := [];
      var text := StripCr(line);
      if text == [] {
        if data != [] {
          events := [data];
          data := [];
        }
      } else if text[0] != COLON {
        if DATA <= text {
          var v := text[|DATA|..];
          data := data + [if v != [] && v[0] == SPACE then v[1..] else v];
        }
      }
      out := out + events;
    }

    // Drains the first line of the buffer, up to its LF at `pos`.
    method DrainLine(pos: nat, ghost lines: seq<seq<Byte>>) returns (text: bool, events: seq<seq<seq<Byte>>>)
      requires IsFirstLf(buffer, Some(pos)) && Holds(lines)
      modifies this`buffer, this`data, this`out
      ensures buffer == old(buffer)[pos + 1..]
      ensures text == utf8(StripCr(old(buffer)[..pos]))
      ensures text ==> Holds(lines + [old(buffer)[..pos]]) && out == old(out) + events
    {
      var line := buffer[..pos];
      buffer := buffer[pos + 1..];
      text, events := utf8(StripCr(line)), [];
      if text {
        events := TakeLine(line, lines);
      }
    }

    // Drains every complete line of the buffer.  `before` is the text the buffer continues, `lines`
    // what was drained by the end, the offending line included.
    method DrainLines(ghost before: seq<seq<Byte>>) returns (r: Decoded, ghost lines: seq<seq<Byte>>)
      requires Holds(before) && NoLf(before)
      modifies this`buffer, this`data, this`out
      ensures Unlines(lines) + buffer == Unlines(before) + old(buffer)
      ensures NoLf(lines)
      ensures r.NotUtf8? ==> !AllText(lines, utf8)
      ensures r.Events? ==> LF !in buffer && Holds(lines) && out == old(out) + r.events
    {
      hide OpenData, Dispatched, AllText, Unlines;
      lines := before;
      var events := [];
      var pos := FindLf();
      while pos.Some?
        invariant IsFirstLf(buffer, pos) && Holds(lines) && out == old(out) + events
        invariant Unlines(lines) + buffer == Unlines(before) + old(buffer)
        invariant NoLf(lines)
        decreases |buffer|
      {
        ghost var line, longer := buffer[..pos.value], lines + [buffer[..pos.value]];
        UnlinesSnoc(lines, line, buffer, pos.value);
        assert NoLf(longer);
        var text, more := DrainLine(pos.value, lines);
        AllTextSnoc(lines, line, utf8);
        lines := longer;
        if !text {
          return NotUtf8, lines;
        }
        assert old(out) + (events + more) == (old(out) + events) + more;
        events := events + more;
        pos := FindLf();
      }
      r := Events(events);
    }

    // Consumes a chunk; fails exactly when a line it completes is not text.
    method Push(bytes: seq<Byte>) returns (r: Decoded)
      requires Valid()
      modifies this
      ensures seen == old(seen) + bytes
      ensures r.Events? <==> AllText(Lines(seen), utf8)
      ensures r.Events? ==> Valid() && out == old(out) + r.events
    {
      ghost var before := Lines(seen);
      UnlinesLines(seen);
      assert seen + bytes == Unlines(before) + (buffer + bytes);
      seen := seen + bytes;
      buffer := buffer + bytes;
      ghost var lines;
      r, lines := DrainLines(before);
      LinesUnlines(lines, buffer);
      if r.NotUtf8? {
        BadLineRemains(lines, Lines(seen), utf8);
      }
    }
  }

  // The text of complete lines.
  function Unlines(lines: seq<seq<Byte>>): seq<Byte> {
    if lines == [] then [] else Unlines(lines[..|lines| - 1]) + lines[|lines| - 1] + [LF]
  }

  lemma UnlinesSnoc(lines: seq<seq<Byte>>, line: seq<Byte>, buf: seq<Byte>, pos: nat)
    requires pos < |buf| && buf[pos] == LF && line == buf[..pos]
    ensures Unlines(lines + [line]) + buf[pos + 1..] == Unlines(lines) + buf
  {
    assert (lines + [line])[..|lines|] == lines;
    assert buf == line + [LF] + buf[pos + 1..];
  }

  predicate NoLf(lines: seq<seq<Byte>>) {
    forall l :: l in lines ==> LF !in l
  }

  // A text is its complete lines followed by its unfinished one.
  lemma {:induction false} UnlinesLines(s: seq<Byte>)
    ensures s == Unlines(Lines(s)) + Partial(s) && NoLf(Lines(s)) && LF !in Partial(s)
  {
    if s != [] {
      var init, b := s[..|s| - 1], s[|s| - 1];
      UnlinesLines(init);
      assert s == init + [b];
      if b == LF {
        var ls := Lines(init) + [Partial(init)];
        assert ls[..|ls| - 1] == Lines(init);
      }
    }
  }

  lemma AllTextSnoc(lines: seq<seq<Byte>>, line: seq<Byte>, utf8: seq<Byte> -> bool)
    ensures AllText(lines + [line], utf8) <==> AllText(lines, utf8) && utf8(StripCr(line))
  {
    assert line in lines + [line];
    assert forall l :: l in lines ==> l in lines + [line];
  }

  lemma BadLineRemains(some: seq<seq<Byte>>, all: seq<seq<Byte>>, utf8: seq<Byte> -> bool)
    requires some <= all && !AllText(some, utf8)
    ensures !AllText(all, utf8)
  {
    assert forall l :: l in some ==> l in all;
  }

  lemma NoLines()
    ensures Lines([]) == [] && Partial([]) == []
  {
  }

  lemma {:induction false} LinesOfUnlines(lines: seq<seq<Byte>>)
    requires NoLf(lines)
    ensures Lines(Unlines(lines)) == lines && Partial(Unlines(lines)) == []
  {
    hide Lines, Partial;
    NoLines();
    if lines != [] {
      var front, line := lines[..|lines| - 1], lines[|lines| - 1];
      assert lines == front + [line];
      LinesOfUnlines(front);
      NoLfNoLines(Unlines(front), line);
      assert [] + line == line;
      LinesSnoc(Unlines(front) + line, LF);
    }
  }

  // Splitting a text that starts with complete lines gives these lines back.
  lemma LinesUnlines(lines: seq<seq<Byte>>, buf: seq<Byte>)
    requires NoLf(lines)
    ensures lines <= Lines(Unlines(lines) + buf)
    ensures LF !in buf ==> Lines(Unlines(lines) + buf) == lines && Partial(Unlines(lines) + buf) == buf
  {
    var head := Unlines(lines);
    LinesOfUnlines(lines);
    assert (head + buf)[..|head|] == head;
    LinesOfPrefix(head + buf, |head|);
    if LF !in buf {
      NoLfNoLines(head, buf);
      assert [] + buf == buf;
    }
  }

  lemma {:induction false} LinesOfPrefix(s: seq<Byte>, n: nat)
    requires n <= |s|
    ensures Lines(s[..n]) <= Lines(s)
    decreases |s|
  {
    if n == |s| {
      assert s[..n] == s;
    } else {
      var init := s[..|s| - 1];
      assert init[..n] == s[..n];
      LinesOfPrefix(init, n);
    }
  }

  // ---------------------------------------------------------------------------------------------
  // Agreement

  // Segments that carry data, whatever their size.
  function DataSegments(segs: seq<seq<Byte>>): nat {
    if segs == [] then 0
    else
      var n := |segs| - 1;
      DataSegments(segs[..n]) + if HasData(Body(segs[n])) then 1 else 0
  }

  lemma DataSegmentsSnoc(segs: seq<seq<Byte>>, seg: seq<Byte>)
    ensures DataSegments(segs + [seg]) == DataSegments(segs) + if HasData(Body(seg)) then 1 else 0
  {
    assert (segs + [seg])[..|segs|] == segs;
  }

  lemma {:induction false} DataSegmentsSplit(segs: seq<seq<Byte>>, cap: nat)
    ensures DataSegments(segs) == EventCount(segs, cap) + OversizedCount(segs, cap)
  {
    if segs != [] {
      DataSegmentsSplit(segs[..|segs| - 1], cap);
    }
  }

  // Some finished line is a data line.
  predicate FinishedData(s: seq<Byte>) {
    exists l :: l in Lines(s) && IsDataLine(l)
  }

  // The decoder and the segmentation are in step after the bytes `s`.
  ghost predicate InStep(s: seq<Byte>) {
    var p := Pending(s);
    && Partial(s) == Partial(p)
    && (OpenData(Lines(s)) != [] <==> FinishedData(p))
    && |Dispatched(Lines(s))| == DataSegments(Segments(s))
  }

  lemma DataLineIffData(line: seq<Byte>)
    ensures IsDataLine(line) <==> IsData(line)
  {
    if IsData(line) && |line| > |DATA| {
      assert DATA <= line[..|line| - 1];
    }
  }

  lemma FinishedDataSnoc(p: seq<Byte>, b: Byte)
    ensures FinishedData(p + [b]) <==> FinishedData(p) || (b == LF && IsDataLine(Partial(p)))
  {
    LinesSnoc(p, b);
    if b == LF && IsDataLine(Partial(p)) {
      assert Partial(p) in Lines(p + [b]);
    }
    if FinishedData(p) {
      var l :| l in Lines(p) && IsDataLine(l);
      assert l in Lines(p + [b]);
    }
  }

  // An ordinary byte, or the end of a line that is not blank.
  lemma StepWithinSegment(s: seq<Byte>, b: Byte)
    requires InStep(s) && !EndsEvent(Pending(s) + [b])
    requires b == LF && IsBlank(Partial(s)) ==> OpenData(Lines(s)) == []
    ensures InStep(s + [b])
  {
    var p := Pending(s);
    LinesSnoc(s, b);
    LinesSnoc(p, b);
    SegmentsSnoc(s, b);
    FinishedDataSnoc(p, b);
    if b == LF {
      DispatchSnoc(Lines(s), Partial(s));
    }
  }

  // The end of a segment, where the decoder sees a blank line.
  lemma StepAtDelimiter(s: seq<Byte>)
    requires InStep(s) && EndsEvent(Pending(s) + [LF]) && IsBlank(Partial(s))
    requires !IsData(Partial(Pending(s)))
    ensures InStep(s + [LF])
  {
    var p := Pending(s);
    LinesSnoc(s, LF);
    SegmentsSnoc(s, LF);
    DispatchSnoc(Lines(s), Partial(s));
    DataSegmentsSnoc(Segments(s), p + [LF]);
    assert Body(p + [LF]) == p;
    forall l ensures IsDataLine(l) <==> IsData(l) {
      DataLineIffData(l);
    }
    assert HasData(p) <==> FinishedData(p);
  }

  lemma {:induction false} EmptyPartial(p: seq<Byte>)
    ensures Partial(p) == [] <==> p == [] || p[|p| - 1] == LF
    ensures Partial(p) == [CR] <==> p != [] && p[|p| - 1] == CR && (|p| == 1 || p[|p| - 2] == LF)
  {
    if p != [] {
      var init, b := p[..|p| - 1], p[|p| - 1];
      EmptyPartial(init);
      assert b != LF ==> Partial(p) == Partial(init) + [b];
      if Partial(p) == [CR] {
        assert |Partial(p)| == |Partial(init)| + 1 && Partial(p)[|Partial(init)|] == b;
      }
    }
  }

  // At a delimiter the decoder sees a blank line: nothing, or a lone CR.
  lemma DelimiterIsBlank(p: seq<Byte>)
    requires EndsEvent(p + [LF])
    ensures IsBlank(Partial(p)) && !IsData(Partial(p))
  {
    EmptyPartial(p);
    assert StripCr([CR]) == [];
  }

  // A blank line inside a segment: at its very start, or a lone CR.
  lemma BlankInside(p: seq<Byte>)
    requires !EndsEvent(p + [LF]) && IsBlank(Partial(p))
    ensures p == [] || Partial(p) == [CR]
  {
    EmptyPartial(p);
  }

  // The byte at which the two part: the LF of a CR LF line that is blank to the decoder and closes
  // an event with data there, while it is no delimiter to the gateway, which wants CR LF before it.
  predicate Slips(s: seq<Byte>, b: Byte) {
    var p := Pending(s);
    b == LF && Partial(p) == [CR] && !EndsEvent(p + [LF]) && FinishedData(p)
  }

  lemma OnlyLfEnds(p: seq<Byte>, b: Byte)
    ensures EndsEvent(p + [b]) ==> b == LF
  {
  }

  lemma NothingFinished()
    ensures !FinishedData([])
  {
  }

  // At a slip the decoder counts one event more than there are segments with data.
  lemma SlipCounts(s: seq<Byte>)
    requires InStep(s) && Slips(s, LF)
    ensures |Dispatched(Lines(s + [LF]))| == DataSegments(Segments(s + [LF])) + 1
  {
    hide EndsEvent, FinishedData, Pending, Segments;
    LinesSnoc(s, LF);
    SegmentsSnoc(s, LF);
    DispatchSnoc(Lines(s), Partial(s));
    assert StripCr([CR]) == [];
  }

  // One byte: the two stay in step if and only if it is not a slip.
  lemma InStepIffNoSlip(s: seq<Byte>, b: Byte)
    requires InStep(s)
    ensures InStep(s + [b]) <==> !Slips(s, b)
    ensures Slips(s, b) ==> |Dispatched(Lines(s + [b]))| != DataSegments(Segments(s + [b]))
  {
    hide EndsEvent, Segments, Dispatched, OpenData, FinishedData, Lines, Pending, Partial;
    var p := Pending(s);
    OnlyLfEnds(p, b);
    if Slips(s, b) {
      SlipCounts(s);
    } else if EndsEvent(p + [b]) {
      DelimiterIsBlank(p);
      StepAtDelimiter(s);
    } else {
      if b == LF && IsBlank(Partial(s)) {
        BlankInside(p);
        NothingFinished();
      }
      StepWithinSegment(s, b);
    }
  }

  // The decoder has dispatched as many events as there are segments with data.
  predicate CountsAgree(s: seq<Byte>) {
    |Dispatched(Lines(s))| == DataSegments(Segments(s))
  }

  predicate SlipAt(s: seq<Byte>, n: nat)
    requires n < |s|
  {
    Slips(s[..n], s[n])
  }

  predicate NeverSlips(s: seq<Byte>) {
    forall n :: 0 <= n < |s| ==> !SlipAt(s, n)
  }

  lemma InStepAtStart()
    ensures InStep([])
  {
  }

  lemma {:induction false} InStepThroughout(s: seq<Byte>, n: nat)
    requires n <= |s| && forall k :: 0 <= k < n ==> !SlipAt(s, k)
    ensures InStep(s[..n])
  {
    hide InStep, Slips;
    if n == 0 {
      InStepAtStart();
      assert s[..0] == [];
    } else {
      InStepThroughout(s, n - 1);
      assert !SlipAt(s, n - 1);
      InStepIffNoSlip(s[..n - 1], s[n - 1]);
      assert s[..n] == s[..n - 1] + [s[n - 1]];
    }
  }

  lemma {:induction false} AgreeingNeverSlips(s: seq<Byte>, n: nat)
    requires n <= |s| && forall k :: 0 <= k <= |s| ==> CountsAgree(s[..k])
    ensures forall k :: 0 <= k < n ==> !SlipAt(s, k)
  {
    hide InStep, Slips, CountsAgree, Lines, Segments, Dispatched, DataSegments;
    if n > 0 {
      AgreeingNeverSlips(s, n - 1);
      InStepThroughout(s, n - 1);
      InStepIffNoSlip(s[..n - 1], s[n - 1]);
      assert s[..n] == s[..n - 1] + [s[n - 1]];
      assert CountsAgree(s[..n]);
      CountsAgreeMeans(s[..n]);
    }
  }

  lemma CountsAgreeMeans(s: seq<Byte>)
    ensures CountsAgree(s) <==> |Dispatched(Lines(s))| == DataSegments(Segments(s))
    ensures InStep(s) ==> CountsAgree(s)
  {
  }

  // Reading any stream, the two have counted alike after every byte if and only if none is a slip.
  lemma AgreeIffNeverSlips(s: seq<Byte>)
    ensures (forall n :: 0 <= n <= |s| ==> CountsAgree(s[..n])) <==> NeverSlips(s)
  {
    hide InStep, Slips, CountsAgree, SlipAt;
    if NeverSlips(s) {
      forall n | 0 <= n <= |s| ensures CountsAgree(s[..n]) {
        InStepThroughout(s, n);
        CountsAgreeMeans(s[..n]);
      }
    }
    if forall n :: 0 <= n <= |s| ==> CountsAgree(s[..n]) {
      AgreeingNeverSlips(s, |s|);
    }
  }

  // On a stream without a slip the line decoder reports exactly the gateway's events plus the data
  // segments that the gateway's cap makes it miss.
  lemma DecodersAgree(s: seq<Byte>, cap: nat)
    requires NeverSlips(s)
    ensures |Dispatched(Lines(s))| == EventsIn(s, cap) + OversizedCount(Segments(s), cap)
  {
    hide InStep, Slips, SlipAt;
    InStepThroughout(s, |s|);
    assert s[..|s|] == s;
    CountsAgreeMeans(s);
    DataSegmentsSplit(Segments(s), cap);
  }

  // ---------------------------------------------------------------------------------------------
  // Uniform line endings

  // No LF follows a CR.
  predicate LfEndings(s: seq<Byte>) {
    forall i :: 0 <= i < |s| && s[i] == LF ==> i == 0 || s[i - 1] != CR
  }

  // Every LF follows a CR.
  predicate CrlfEndings(s: seq<Byte>) {
    forall i :: 0 <= i < |s| && s[i] == LF ==> i > 0 && s[i - 1] == CR
  }

  // A segment never starts between a CR and its LF.
  lemma {:induction false} PendingKeepsCrlf(s: seq<Byte>)
    requires CrlfEndings(s)
    ensures CrlfEndings(Pending(s))
  {
    if s != [] {
      var init, b := s[..|s| - 1], s[|s| - 1];
      PendingKeepsCrlf(init);
      PendingEndsLikeStream(init);
      if b == LF {
        assert init[|init| - 1] == CR;
        assert Pending(init) != [];
      }
    }
  }

  lemma LoneCr()
    ensures !FinishedData([CR])
  {
    LinesSnoc([], CR);
    assert [] + [CR] == [CR];
  }

  lemma UniformSlipsNowhere(s: seq<Byte>, n: nat)
    requires n < |s| && (LfEndings(s) || CrlfEndings(s))
    ensures !SlipAt(s, n)
  {
    hide Pending, FinishedData, Lines, Partial;
    var p := Pending(s[..n]);
    if s[n] == LF && Partial(p) == [CR] && !EndsEvent(p + [LF]) {
      EmptyPartial(p);
      PendingEndsLikeStream(s[..n]);
      assert s[n - 1] == p[|p| - 1] == CR;
      assert CrlfEndings(s[..n]);
      PendingKeepsCrlf(s[..n]);
      assert p == [CR];
      LoneCr();
    }
  }

  // Streams whose line endings are all LF, or all CR LF, are among those without a slip.
  lemma UniformNeverSlips(s: seq<Byte>)
    requires LfEndings(s) || CrlfEndings(s)
    ensures NeverSlips(s)
  {
    hide SlipAt;
    forall n | 0 <= n < |s| ensures !SlipAt(s, n) {
      UniformSlipsNowhere(s, n);
    }
  }

  method DecodeChunks(chunks: seq<seq<Byte>>, utf8: seq<Byte> -> bool) returns (events: seq<seq<seq<Byte>>>)
    requires AllText(Lines(Concat(chunks)), utf8)
    ensures events == Dispatched(Lines(Concat(chunks)))
  {
    hide Lines, Partial, OpenData, Dispatched, AllText, Concat;
    NothingParsed(0);
    var decoder := new Decoder(utf8);
    events := [];
    var i := 0;
    while i < |chunks|
      invariant 0 <= i <= |chunks| && decoder.Valid() && fresh(decoder) && decoder.utf8 == utf8
      invariant decoder.seen == Concat(chunks[..i]) && decoder.out == events
    {
      ConcatTake(chunks, i);
      TextOfPrefix(chunks, i + 1, utf8);
      var r := decoder.Push(chunks[i]);
      events := events + r.events;
      i := i + 1;
    }
    assert chunks[..|chunks|] == chunks;
  }

  lemma TextOfPrefix(chunks: seq<seq<Byte>>, i: nat, utf8: seq<Byte> -> bool)
    requires i <= |chunks| && AllText(Lines(Concat(chunks)), utf8)
    ensures AllText(Lines(Concat(chunks[..i])), utf8)
  {
    var whole, part := Concat(chunks), Concat(chunks[..i]);
    assert chunks == chunks[..i] + chunks[i..];
    ConcatAppend(chunks[..i], chunks[i..]);
    assert whole[..|part|] == part;
    LinesOfPrefix(whole, |part|);
    assert forall l :: l in Lines(part) ==> l in Lines(whole);
  }

  // Both programs on the same stream, each with its own chunks.
  method CountBothWays<U>(gatewayChunks: seq<seq<Byte>>, decoderChunks: seq<seq<Byte>>, cap: nat,
                          usageOf: seq<Byte> -> Option<U>, utf8: seq<Byte> -> bool)
    returns (gateway: nat, decoder: nat)
    requires Concat(gatewayChunks) == Concat(decoderChunks)
    requires NeverSlips(Concat(gatewayChunks))
    requires AllText(Lines(Concat(decoderChunks)), utf8)
    ensures decoder == gateway + OversizedCount(Segments(Concat(gatewayChunks)), cap)
  {
    var usage;
    gateway, usage := ParseChunks(gatewayChunks, cap, usageOf);
    var events := DecodeChunks(decoderChunks, utf8);
    decoder := |events|;
    DecodersAgree(Concat(gatewayChunks), cap);
  }

  const MIXED: seq<Byte> := DATA + [120, LF, CR, LF]

  lemma MixedLines()
    ensures Lines(MIXED) == [DATA + [120], [CR]]
  {
    var line := DATA + [120];
    var none: seq<seq<Byte>> := [];
    assert [line][..0] == none && [line, [CR]][..1] == [line];
    assert Unlines([line]) == Unlines(none) + line + [LF];
    assert Unlines([line, [CR]]) == Unlines([line]) + [CR] + [LF];
    assert Unlines([line, [CR]]) == MIXED;
    LinesOfUnlines([line, [CR]]);
  }

  lemma MixedDispatch()
    ensures |Dispatched([DATA + [120], [CR]])| == 1
  {
    var line := DATA + [120];
    DispatchSnoc([], line);
    assert [] + [line] == [line];
    DispatchSnoc([line], [CR]);
    assert [line] + [[CR]] == [line, [CR]];
  }

  // Mixed line endings break the agreement: after "data:x" LF, the blank line CR LF closes an event
  // for the line decoder and is no delimiter for the gateway.
  lemma MixedEndingsDisagree(cap: nat)
    ensures |Dispatched(Lines(MIXED))| == 1
    ensures Segments(MIXED) == [] && EventsIn(MIXED, cap) == 0
  {
    MixedLines();
    MixedDispatch();
    assert Unbroken(MIXED);
    SegmentationUnique(MIXED, [], MIXED);
  }

  // ---------------------------------------------------------------------------------------------
  // One event on the wire

  // The bytes "data: ", the payload and two line feeds.
  function Wire(payload: seq<Byte>): seq<Byte> {
    [100, 97, 116, 97, 58, 32] + payload + [10, 10]
  }

  // The value of a data line: one leading space goes, and the CR of a CR LF ending.
  lemma DataValueUndone(v: seq<Byte>)
    requires v != [] ==> v[|v| - 1] != 13
    ensures DataValue([100, 97, 116, 97, 58, 32] + v) == v
    ensures (v == [] || v[0] != 32) ==> DataValue([100, 97, 116, 97, 58] + v) == v
  {
    var spaced, plain := [100, 97, 116, 97, 58, 32] + v, [100, 97, 116, 97, 58] + v;
    assert StripCr(spaced) == spaced && StripCr(plain) == plain;
    assert spaced[|DATA|..] == [32] + v && plain[|DATA|..] == v;
    assert v != [] ==> plain[|DATA|] == v[0];
  }

  lemma WireLines(payload: seq<Byte>)
    requires 10 !in payload
    ensures Lines(Wire(payload)) == [[100, 97, 116, 97, 58, 32] + payload, []] && Partial(Wire(payload)) == []
    ensures Lines(Body(Wire(payload))) == [[100, 97, 116, 97, 58, 32] + payload] && Partial(Body(Wire(payload))) == []
  {
    var line := [100, 97, 116, 97, 58, 32] + payload;
    var none: seq<seq<Byte>> := [];
    assert [line][..0] == none && [line, []][..1] == [line];
    assert Unlines([line]) == Unlines(none) + line + [LF];
    assert Unlines([line, []]) == Unlines([line]) + [] + [LF];
    assert Wire(payload) == Unlines([line, []]) && Body(Wire(payload)) == Unlines([line]);
    LinesOfUnlines([line, []]);
    LinesOfUnlines([line]);
  }

  // A payload without line breaks comes out of the decoder as it went in, and to the gateway it is one
  // event, counted exactly if it fits the cap.
  lemma WireRoundTrip(payload: seq<Byte>, cap: nat)
    requires 10 !in payload && (payload != [] ==> payload[|payload| - 1] != 13)
    ensures Dispatched(Lines(Wire(payload))) == [[payload]]
    ensures Segments(Wire(payload)) == [Wire(payload)] && Pending(Wire(payload)) == []
    ensures EventsIn(Wire(payload), cap) == if |payload| + 7 <= cap then 1 else 0
  {
    hide Segments, Pending, Lines, Partial, Dispatched, OpenData, HasData, Wire, IsSegment, EventCount;
    WireLines(payload);
    WireDispatched([100, 97, 116, 97, 58, 32] + payload, payload);
    WireSegment(payload);
    OneSegment(Wire(payload));
    WireHasData(payload);
    OneCounts(Wire(payload), cap);
  }

  lemma OneSegment(s: seq<Byte>)
    requires IsSegment(s)
    ensures Segments(s) == [s] && Pending(s) == []
  {
    hide IsSegment, Unbroken, Segments, Pending;
    var none: seq<seq<Byte>> := [];
    assert [s] == none + [s];
    ConcatSnoc(none, s);
    assert s == Concat([s]) + [];
    UnbrokenNothing();
    SegmentationUnique(s, [s], []);
  }

  lemma WireHasData(payload: seq<Byte>)
    requires 10 !in payload
    ensures HasData(Body(Wire(payload))) && |Body(Wire(payload))| == |payload| + 7
  {
    hide Lines, Partial;
    WireLines(payload);
    var line := [100, 97, 116, 97, 58, 32] + payload;
    assert line in Lines(Body(Wire(payload))) && IsData(line);
  }

  lemma OneCounts(s: seq<Byte>, cap: nat)
    requires Segments(s) == [s]
    ensures EventsIn(s, cap) == if |Body(s)| <= cap && HasData(Body(s)) then 1 else 0
  {
    hide Segments, HasData;
    var none: seq<seq<Byte>> := [];
    assert [s] == none + [s];
    CountSnoc<bool>(none, s, cap, _ => None);
  }

  lemma WireDispatched(line: seq<Byte>, payload: seq<Byte>)
    requires line == [100, 97, 116, 97, 58, 32] + payload && (payload != [] ==> payload[|payload| - 1] != 13)
    ensures Dispatched([line, []]) == [[payload]]
  {
    DispatchSnoc([], line);
    assert [] + [line] == [line];
    DispatchSnoc([line], []);
    assert [line] + [[]] == [line, []];
    assert StripCr(line) == line && IsDataLine(line) && !IsBlank(line);
    DataValueUndone(payload);
  }

  lemma WireSegment(payload: seq<Byte>)
    requires 10 !in payload
    ensures IsSegment(Wire(payload))
  {
    var s := Wire(payload);
    var body := s[..|s| - 1];
    assert forall i :: 0 <= i < |body| - 1 ==> body[i] != 10;
    forall n | 0 <= n <= |body| ensures !EndsEvent(body[..n]) {
      assert n >= 2 ==> body[..n][n - 2] == body[n - 2];
      assert n >= 4 ==> body[..n][n - 3] == body[n - 3];
    }
  }
}
