/** Newline framing of a byte stream that arrives in arbitrary buffers. */
module Framing {
  import opened Common

  newtype Byte = b: int | 0 <= b < 256

  const NEWLINE: Byte := 10
  const CARRIAGE_RETURN: Byte := 13

  datatype Frame = Line(content: seq<Byte>) | Oversized

  // ----- what the bytes alone determine -----

  function Flatten(buffers: seq<seq<Byte>>): seq<Byte> {
    if buffers == [] then [] else Flatten(buffers[..|buffers| - 1]) + Last(buffers)
  }

  /** The segments between newlines; the last one is still open. */
  function Split(bytes: seq<Byte>): (segments: seq<seq<Byte>>)
    ensures segments != []
  {
    if bytes == [] then [[]]
    else
      var before := Split(bytes[..|bytes| - 1]);
      if Last(bytes) == NEWLINE then before + [[]] else Extend(before, [Last(bytes)])
  }

  /** The open segment grows. */
  function Extend(segments: seq<seq<Byte>>, segment: seq<Byte>): seq<seq<Byte>>
    requires segments != []
  {
    segments[..|segments| - 1] + [Last(segments) + segment]
  }

  function Join(segments: seq<seq<Byte>>): seq<Byte>
    requires segments != []
  {
    if |segments| == 1 then segments[0] else Join(segments[..|segments| - 1]) + [10] + Last(segments)
  }

  lemma ExtendLast(segments: seq<seq<Byte>>, segment: seq<Byte>)
    requires segments != []
    ensures Join(Extend(segments, segment)) == Join(segments) + segment
    ensures forall s <- Extend(segments, segment) :: s in segments || s == Last(segments) + segment
  {
    var after := Extend(segments, segment);
    assert after[..|after| - 1] == segments[..|segments| - 1];
    if |segments| > 1 {
      assert Join(segments) + segment == Join(segments[..|segments| - 1]) + [10] + (Last(segments) + segment);
    }
  }

  lemma CloseLast(segments: seq<seq<Byte>>)
    requires segments != []
    ensures Join(segments + [[]]) == Join(segments) + [10]
  {
    assert (segments + [[]])[..|segments|] == segments;
  }

  lemma SplitClosed(bytes: seq<Byte>)
    requires bytes != [] && Last(bytes) == 10
    ensures Split(bytes) == Split(bytes[..|bytes| - 1]) + [[]]
  {
    hide Extend;
  }

  lemma SplitExtended(bytes: seq<Byte>)
    requires bytes != [] && Last(bytes) != 10
    ensures Split(bytes) == Extend(Split(bytes[..|bytes| - 1]), [Last(bytes)])
  {
    hide Extend;
  }

  lemma InitAndLast(bytes: seq<Byte>)
    requires bytes != []
    ensures bytes == bytes[..|bytes| - 1] + [Last(bytes)]
  {
  }

  lemma {:induction false} SegmentsHaveNoNewline(bytes: seq<Byte>)
    ensures forall segment <- Split(bytes) :: 10 as Byte !in segment
  {
    if bytes != [] {
      var before := Split(bytes[..|bytes| - 1]);
      hide Split, Extend, Join;
      SegmentsHaveNoNewline(bytes[..|bytes| - 1]);
      if Last(bytes) == 10 {
        SplitClosed(bytes);
      } else {
        SplitExtended(bytes);
        ExtendLast(before, [Last(bytes)]);
        assert Last(before) in before;
      }
    }
  }

  lemma {:induction false} SplitJoinsBack(bytes: seq<Byte>)
    ensures Join(Split(bytes)) == bytes
  {
    if bytes != [] {
      var before := Split(bytes[..|bytes| - 1]);
      hide Split, Extend, Join;
      SplitJoinsBack(bytes[..|bytes| - 1]);
      InitAndLast(bytes);
      if Last(bytes) == 10 {
        SplitClosed(bytes);
        CloseLast(before);
      } else {
        SplitExtended(bytes);
        ExtendLast(before, [Last(bytes)]);
      }
    }
  }

  /** Splitting loses nothing and leaves no newline in a segment. */
  lemma SplitJoins(bytes: seq<Byte>)
    ensures Join(Split(bytes)) == bytes
    ensures forall segment <- Split(bytes) :: 10 as Byte !in segment
  {
    SplitJoinsBack(bytes);
    SegmentsHaveNoNewline(bytes);
  }

  function StripCarriageReturn(line: seq<Byte>): seq<Byte> {
    if line != [] && Last(line) == CARRIAGE_RETURN then line[..|line| - 1] else line
  }

  function FrameOf(segment: seq<Byte>, maximum: nat): Frame {
    if |segment| > maximum then Oversized else Line(StripCarriageReturn(segment))
  }

  /** A line is handed on without the one carriage return that may end it. */
  predicate IsLineOf(line: seq<Byte>, segment: seq<Byte>) {
    if |segment| > 0 && segment[|segment| - 1] == 13 then line + [13] == segment else line == segment
  }

  /** What a segment becomes: a line if it is within the bound, and otherwise only the fact that it is not. */
  predicate IsFrameOf(frame: Frame, segment: seq<Byte>, maximum: nat) {
    match frame
    case Oversized => |segment| > maximum
    case Line(line) => |segment| <= maximum && IsLineOf(line, segment)
  }

  function FramesOf(segments: seq<seq<Byte>>, maximum: nat): (frames: seq<Frame>)
    ensures |frames| == |segments|
    ensures forall i | 0 <= i < |segments| :: frames[i] == FrameOf(segments[i], maximum)
  {
    if segments == [] then [] else FramesOf(segments[..|segments| - 1], maximum) + [FrameOf(Last(segments), maximum)]
  }

  /** Every closed segment is a frame, and so is a non-empty open one at the end of the stream. */
  function Frames(bytes: seq<Byte>, maximum: nat): seq<Frame> {
    var segments := Split(bytes);
    FramesOf(if Last(segments) == [] then segments[..|segments| - 1] else segments, maximum)
  }

  /** The frames are the segments, in order, but for an empty open one at the end. */
  ghost predicate AreFramesOf(frames: seq<Frame>, segments: seq<seq<Byte>>, maximum: nat)
    requires segments != []
  {
    && |frames| == |segments| - (if Last(segments) == [] then 1 else 0)
    && forall i | 0 <= i < |frames| :: IsFrameOf(frames[i], segments[i], maximum)
  }

  lemma FrameOfSegment(segment: seq<Byte>, maximum: nat)
    ensures IsFrameOf(FrameOf(segment, maximum), segment, maximum)
  {
  }

  lemma FramesAreSegments(bytes: seq<Byte>, maximum: nat)
    ensures AreFramesOf(Frames(bytes, maximum), Split(bytes), maximum)
  {
    var segments, frames := Split(bytes), Frames(bytes, maximum);
    hide Split, FrameOf, IsFrameOf;
    forall i | 0 <= i < |frames| ensures IsFrameOf(frames[i], segments[i], maximum) {
      FrameOfSegment(segments[i], maximum);
    }
  }

  lemma ExtendTwice(segments: seq<seq<Byte>>, left: seq<Byte>, right: seq<Byte>)
    requires segments != []
    ensures Extend(Extend(segments, left), right) == Extend(segments, left + right)
  {
    assert Last(segments) + left + right == Last(segments) + (left + right);
  }

  lemma SplitSnoc(bytes: seq<Byte>, byte: Byte)
    requires byte != NEWLINE
    ensures Split(bytes + [byte]) == Extend(Split(bytes), [byte])
  {
    assert (bytes + [byte])[..|bytes|] == bytes;
  }

  lemma {:induction false} SplitExtends(bytes: seq<Byte>, segment: seq<Byte>)
    requires NEWLINE !in segment
    ensures Split(bytes + segment) == Extend(Split(bytes), segment)
  {
    hide Split;
    if segment == [] {
      assert bytes + segment == bytes;
      assert Last(Split(bytes)) + segment == Last(Split(bytes));
    } else {
      var init, last := segment[..|segment| - 1], Last(segment);
      assert last in segment;
      SplitExtends(bytes, init);
      SplitSnoc(bytes + init, last);
      ExtendTwice(Split(bytes), init, [last]);
      assert init + [last] == segment;
      assert bytes + init + [last] == bytes + segment;
    }
  }

  /** Reading on from `offset` to `end`, and over the newline found there, reads the buffer up to the new offset. */
  lemma ReadOn(before: seq<Byte>, chunk: seq<Byte>, offset: nat, end: nat)
    requires offset <= end <= |chunk|
    ensures before + chunk[..offset] + chunk[offset..end] == before + chunk[..end]
    ensures end < |chunk| && chunk[end] == NEWLINE ==> before + chunk[..end] + [NEWLINE] == before + chunk[..end + 1]
    ensures before + chunk[..end] + chunk[end..] == before + chunk
    ensures before + chunk[..0] == before && chunk[..|chunk|] == chunk
  {
    assert before + chunk[..0] == before;
  }

  // ----- the bounded frame reader -----

  /** The position of the next newline, if there is one. */
  method IndexOfNewline(chunk: seq<Byte>, offset: nat) returns (newline: Option<nat>)
    requires offset <= |chunk|
    ensures newline.None? ==> NEWLINE !in chunk[offset..]
    ensures newline.Some? ==> offset <= newline.value < |chunk| && chunk[newline.value] == NEWLINE &&
                              NEWLINE !in chunk[offset..newline.value]
  {
    for i := offset to |chunk|
      invariant NEWLINE !in chunk[offset..i]
    {
      if chunk[i] == NEWLINE {
        return Some(i);
      }
      assert chunk[offset..i + 1] == chunk[offset..i] + [chunk[i]];
    }
    assert chunk[offset..|chunk|] == chunk[offset..];
    return None;
  }

  /** What the reader holds of the open segment: its pieces, or just the fact that it is too long. */
  ghost predicate Holds(chunks: seq<seq<Byte>>, frameBytes: nat, oversized: bool, open: seq<Byte>, maximum: nat) {
    && (oversized <==> |open| > maximum)
    && (oversized ==> chunks == [] && frameBytes == 0)
    && (!oversized ==> Flatten(chunks) == open && frameBytes == |open|)
  }

  /** The most bytes held so far, after one more change to what is held. */
  function MostHeld(held: nat, chunks: seq<seq<Byte>>): nat {
    if |Flatten(chunks)| > held then |Flatten(chunks)| else held
  }

  /** The only place where anything more comes to be held; it never exceeds the maximum. */
  method Append(chunks: seq<seq<Byte>>, frameBytes: nat, oversized: bool, chunk: seq<Byte>, maximum: nat,
                ghost open: seq<Byte>, ghost held: nat)
    returns (chunks': seq<seq<Byte>>, frameBytes': nat, oversized': bool, ghost held': nat)
    requires Holds(chunks, frameBytes, oversized, open, maximum) && |Flatten(chunks)| <= held <= maximum
    ensures Holds(chunks', frameBytes', oversized', open + chunk, maximum)
    ensures held' == MostHeld(held, chunks') <= maximum
  {
    chunks', frameBytes', oversized', held' := chunks, frameBytes, oversized, held;
    if oversized || |chunk| == 0 {
      assert chunk == [] ==> open + chunk == open;
      return;
    }
    if |chunk| > maximum - frameBytes {
      return [], 0, true, held;
    }
    assert (chunks + [chunk])[..|chunks|] == chunks;
    chunks' := chunks + [chunk];
    frameBytes' := frameBytes + |chunk|;
    held' := MostHeld(held, chunks');
  }

  function FrameHeld(chunks: seq<seq<Byte>>, oversized: bool): Frame {
    if oversized then Oversized else Line(StripCarriageReturn(Flatten(chunks)))
  }

  /** The reader's progress: what it has yielded and what it holds, for the bytes it has consumed. */
  ghost predicate Progress(consumed: seq<Byte>, frames: seq<Frame>, chunks: seq<seq<Byte>>, frameBytes: nat,
                           oversized: bool, maximum: nat)
  {
    var segments := Split(consumed);
    && frames == FramesOf(segments[..|segments| - 1], maximum)
    && Holds(chunks, frameBytes, oversized, Last(segments), maximum)
  }

  lemma ClosesFrame(consumed: seq<Byte>, frames: seq<Frame>, chunks: seq<seq<Byte>>, frameBytes: nat, oversized: bool,
                    maximum: nat)
    requires Progress(consumed, frames, chunks, frameBytes, oversized, maximum)
    ensures Progress(consumed + [NEWLINE], frames + [FrameHeld(chunks, oversized)], [], 0, false, maximum)
  {
    var closed := Split(consumed);
    assert closed == closed[..|closed| - 1] + [Last(closed)];
    assert (closed + [[]])[..|closed|] == closed;
  }

  method TakeSegment(segment: seq<Byte>, frames: seq<Frame>, chunks: seq<seq<Byte>>, frameBytes: nat, oversized: bool,
                     maximum: nat, ghost consumed: seq<Byte>, ghost held: nat)
    returns (chunks': seq<seq<Byte>>, frameBytes': nat, oversized': bool, ghost held': nat)
    requires NEWLINE !in segment
    requires Progress(consumed, frames, chunks, frameBytes, oversized, maximum) && |Flatten(chunks)| <= held <= maximum
    ensures Progress(consumed + segment, frames, chunks', frameBytes', oversized', maximum)
    ensures held' == MostHeld(held, chunks') <= maximum
  {
    SplitExtends(consumed, segment);
    chunks', frameBytes', oversized', held' :=
      Append(chunks, frameBytes, oversized, segment, maximum, Last(Split(consumed)), held);
  }

  method ReadChunk(chunk: seq<Byte>, frames: seq<Frame>, chunks: seq<seq<Byte>>, frameBytes: nat, oversized: bool,
                   maximum: nat, ghost consumed: seq<Byte>, ghost held: nat)
    returns (frames': seq<Frame>, chunks': seq<seq<Byte>>, frameBytes': nat, oversized': bool, ghost held': nat)
    requires Progress(consumed, frames, chunks, frameBytes, oversized, maximum) && |Flatten(chunks)| <= held <= maximum
    ensures Progress(consumed + chunk, frames', chunks', frameBytes', oversized', maximum)
    ensures held <= held' <= maximum && |Flatten(chunks')| <= held'
  {
    frames', chunks', frameBytes', oversized', held' := frames, chunks, frameBytes, oversized, held;
    var offset := 0;
    ReadOn(consumed, chunk, 0, 0);
    while offset < |chunk|
      invariant offset <= |chunk|
      invariant Progress(consumed + chunk[..offset], frames', chunks', frameBytes', oversized', maximum)
      invariant held <= held' <= maximum && |Flatten(chunks')| <= held'
    {
      ghost var reached := offset;
      frames', chunks', frameBytes', oversized', offset, held' :=
        ReadFrame(chunk, offset, frames', chunks', frameBytes', oversized', maximum, consumed + chunk[..offset], held');
      ReadOn(consumed, chunk, reached, offset);
    }
    ReadOn(consumed, chunk, offset, offset);
  }

  /** One turn of the loop: the next segment, and the frame it closes if a newline follows it. */
  method ReadFrame(chunk: seq<Byte>, offset: nat, frames: seq<Frame>, chunks: seq<seq<Byte>>, frameBytes: nat,
                   oversized: bool, maximum: nat, ghost reached: seq<Byte>, ghost held: nat)
    returns (frames': seq<Frame>, chunks': seq<seq<Byte>>, frameBytes': nat, oversized': bool, offset': nat,
             ghost held': nat)
    requires offset < |chunk|
    requires Progress(reached, frames, chunks, frameBytes, oversized, maximum) && |Flatten(chunks)| <= held <= maximum
    ensures offset < offset' <= |chunk|
    ensures Progress(reached + chunk[offset..offset'], frames', chunks', frameBytes', oversized', maximum)
    ensures held <= held' <= maximum && |Flatten(chunks')| <= held'
  {
    hide Progress;
    var newline := IndexOfNewline(chunk, offset);
    var end := if newline.None? then |chunk| else newline.value;
    assert NEWLINE !in chunk[offset..end] by {
      assert chunk[offset..] == chunk[offset..|chunk|];
    }
    chunks', frameBytes', oversized', held' :=
      TakeSegment(chunk[offset..end], frames, chunks, frameBytes, oversized, maximum, reached, held);
    if newline.None? {
      return frames, chunks', frameBytes', oversized', end, held';
    }
    ClosesFrame(reached + chunk[offset..end], frames, chunks', frameBytes', oversized', maximum);
    assert reached + chunk[offset..end] + [NEWLINE] == reached + chunk[offset..end + 1];
    return frames + [FrameHeld(chunks', oversized')], [], 0, false, end + 1, held';
  }

  /**
   Reads the whole input. The frames depend only on the concatenated bytes, not on how they were buffered;
   `held` records the most the reader ever held.
   */
  method ReadBoundedStdioFrames(input: seq<seq<Byte>>, maximum: int)
    returns (frames: Option<seq<Frame>>, ghost held: nat)
    ensures frames.None? <==> maximum <= 0
    ensures frames.Some? ==> frames.value == Frames(Flatten(input), maximum)
    ensures frames.Some? ==> AreFramesOf(frames.value, Split(Flatten(input)), maximum)
    ensures frames.Some? ==> held <= maximum
  {
    held := 0;
    if maximum <= 0 {
      return None, 0;
    }
    var yielded, chunks, frameBytes, oversized := [], [], 0, false;
    for i := 0 to |input|
      invariant Progress(Flatten(input[..i]), yielded, chunks, frameBytes, oversized, maximum)
      invariant |Flatten(chunks)| <= held <= maximum
    {
      assert input[..i + 1][..i] == input[..i];
      yielded, chunks, frameBytes, oversized, held :=
        ReadChunk(input[i], yielded, chunks, frameBytes, oversized, maximum, Flatten(input[..i]), held);
    }
    assert input[..|input|] == input;
    ghost var segments := Split(Flatten(input));
    assert segments == segments[..|segments| - 1] + [Last(segments)];
    if oversized || frameBytes > 0 {
      yielded := yielded + [FrameHeld(chunks, oversized)];
    }
    FramesAreSegments(Flatten(input), maximum);
    frames := Some(yielded);
  }

  // ----- the transport's line splitter -----

  /** The lines of the closed segments before the first one that is too long. */
  function LinesBefore(segments: seq<seq<Byte>>, maximum: nat): seq<seq<Byte>> {
    if |segments| <= 1 || |segments[0]| > maximum then []
    else [StripCarriageReturn(segments[0])] + LinesBefore(segments[1..], maximum)
  }

  /** The splitter emits every segment before the first one that is too long, in order. */
  lemma {:induction false} LinesAreSegments(segments: seq<seq<Byte>>, maximum: nat)
    requires segments != []
    ensures var lines := LinesBefore(segments, maximum);
            && |lines| < |segments| && (|lines| == |segments| - 1 || |segments[|lines|]| > maximum)
            && forall i | 0 <= i < |lines| :: |segments[i]| <= maximum && IsLineOf(lines[i], segments[i])
  {
    if |segments| > 1 && |segments[0]| <= maximum {
      LinesAreSegments(segments[1..], maximum);
    }
  }

  /** The lines are the closed segments, and after a failure those before a segment that is too long come first. */
  ghost predicate EmitsSegments(lines: seq<seq<Byte>>, segments: seq<seq<Byte>>, failed: bool, maximum: nat) {
    exists count | 0 <= count <= |lines| && count < |segments| ::
      && (if failed then |segments[count]| > maximum else count == |lines| == |segments| - 1)
      && forall i | 0 <= i < count :: |segments[i]| <= maximum && IsLineOf(lines[i], segments[i])
  }

  lemma EmittedAreSegments(lines: seq<seq<Byte>>, segments: seq<seq<Byte>>, failed: bool, maximum: nat)
    requires segments != [] && LinesBefore(segments, maximum) <= lines && (failed <==> AnyOversized(segments, maximum))
    requires !failed ==> lines == LinesBefore(segments, maximum)
    ensures EmitsSegments(lines, segments, failed, maximum)
  {
    hide LinesBefore, IsLineOf;
    LinesAreSegments(segments, maximum);
    var count := |LinesBefore(segments, maximum)|;
    if |segments[count]| <= maximum {
      forall segment <- segments ensures |segment| <= maximum {
        var i :| 0 <= i < |segments| && segments[i] == segment;
      }
    }
    forall i | 0 <= i < count ensures |segments[i]| <= maximum && IsLineOf(lines[i], segments[i]) {
      assert lines[i] == LinesBefore(segments, maximum)[i];
    }
    assert |segments[count]| > maximum ==> segments[count] in segments;
  }

  predicate AnyOversized(segments: seq<seq<Byte>>, maximum: nat) {
    exists segment <- segments :: |segment| > maximum
  }

  /** The splitter emits what the frame reader yields, up to its first oversized frame. */
  lemma {:induction false} SplitterAgreesWithReader(segments: seq<seq<Byte>>, maximum: nat)
    requires segments != []
    ensures var lines, frames := LinesBefore(segments, maximum), FramesOf(segments[..|segments| - 1], maximum);
            && |lines| <= |frames|
            && (forall i | 0 <= i < |lines| :: frames[i] == Line(lines[i]))
            && (|lines| < |frames| ==> frames[|lines|] == Oversized)
  {
    if |segments| > 1 && |segments[0]| <= maximum {
      SplitterAgreesWithReader(segments[1..], maximum);
      assert segments[1..][..|segments| - 2] == segments[..|segments| - 1][1..];
    }
  }

  lemma {:induction false} LinesBeforeSnoc(segments: seq<seq<Byte>>, maximum: nat)
    requires segments != [] && !AnyOversized(segments, maximum)
    ensures LinesBefore(segments + [[]], maximum) ==
              LinesBefore(segments, maximum) + [StripCarriageReturn(Last(segments))]
  {
    hide StripCarriageReturn;
    assert segments[0] in segments;
    if |segments| > 1 {
      assert forall segment <- segments[1..] :: segment in segments;
      LinesBeforeSnoc(segments[1..], maximum);
      assert (segments + [[]])[1..] == segments[1..] + [[]];
    } else {
      assert (segments + [[]])[1..] == [[]];
    }
  }

  /** Only the segments up to the first oversized one matter. */
  lemma {:induction false} LinesBeforeAgree(left: seq<seq<Byte>>, right: seq<seq<Byte>>, k: nat, maximum: nat)
    requires k < |left| && k < |right| && left[..k] == right[..k]
    requires |left[k]| > maximum && |right[k]| > maximum
    ensures LinesBefore(left, maximum) == LinesBefore(right, maximum)
  {
    if k > 0 {
      assert left[0] == left[..k][0] == right[..k][0] == right[0];
      assert left[1..][..k - 1] == left[..k][1..] == right[..k][1..] == right[1..][..k - 1];
      LinesBeforeAgree(left[1..], right[1..], k - 1, maximum);
    }
  }

  /** Later bytes change no closed segment, and only lengthen the open one. */
  lemma {:induction false} SplitGrows(bytes: seq<Byte>, more: seq<Byte>)
    ensures |Split(bytes + more)| >= |Split(bytes)|
    ensures Split(bytes + more)[..|Split(bytes)| - 1] == Split(bytes)[..|Split(bytes)| - 1]
    ensures Last(Split(bytes)) <= Split(bytes + more)[|Split(bytes)| - 1]
  {
    if more == [] {
      assert bytes + more == bytes;
    } else {
      SplitGrows(bytes, more[..|more| - 1]);
      assert (bytes + more)[..|bytes + more| - 1] == bytes + more[..|more| - 1];
    }
  }

  /**
   Splits stdout into lines. Its `lines` are the ones handed on; `failed` is the emitted protocol error. The code
   goes on framing what still arrives after an error, so only the lines before the error are a matter of the bytes.
   */
  class LineSplitter {
    const maximum: nat
    var buffer: seq<Byte>
    var lines: seq<seq<Byte>>
    var failed: bool
    ghost var received: seq<Byte>

    ghost predicate Valid()
      reads this
    {
      && LinesBefore(Split(received), maximum) <= lines
      && (failed <==> AnyOversized(Split(received), maximum))
      && (!failed ==> lines == LinesBefore(Split(received), maximum) && buffer == Last(Split(received)))
      && |buffer| <= maximum
    }

    constructor (maximum: nat)
      ensures Valid() && this.maximum == maximum && received == [] && lines == []
    {
      this.maximum := maximum;
      buffer, lines, received := [], [], [];
      failed := false;
    }

    method HandleStdoutChunk(chunk: seq<Byte>)
      requires Valid()
      modifies this
      ensures Valid() && received == old(received) + chunk
      ensures old(lines) <= lines
      ensures failed <==> exists segment <- Split(received) :: |segment| > maximum
      ensures EmitsSegments(lines, Split(received), failed, maximum)
    {
      var offset := 0;
      ReadOn(received, chunk, 0, 0);
      while offset < |chunk|
        invariant offset <= |chunk|
        invariant received == old(received) + chunk[..offset]
        invariant Valid() && old(lines) <= lines
      {
        offset := HandleSegment(chunk, offset, old(received));
      }
      ReadOn(old(received), chunk, offset, offset);
      EmittedAreSegments(lines, Split(received), failed, maximum);
    }

    /** One turn of the loop; a segment that is too long ends it, with the rest of the buffer dropped. */
    method HandleSegment(chunk: seq<Byte>, offset: nat, ghost before: seq<Byte>) returns (offset': nat)
      requires Valid() && offset < |chunk| && received == before + chunk[..offset]
      modifies this
      ensures Valid() && offset < offset' <= |chunk| && received == before + chunk[..offset']
      ensures old(lines) <= lines
    {
      var newline := IndexOfNewline(chunk, offset);
      var end := if newline.None? then |chunk| else newline.value;
      ReadOn(before, chunk, offset, end);
      assert newline.None? ==> chunk[offset..end] == chunk[offset..];
      if |buffer| + |chunk[offset..end]| > maximum {
        Overflow(chunk[offset..end], chunk[end..]);
        return |chunk|;
      }
      Take(chunk[offset..end]);
      if newline.None? {
        return end;
      }
      EmitLine();
      return end + 1;
    }

    method Take(segment: seq<Byte>)
      requires Valid() && NEWLINE !in segment
      requires |buffer| + |segment| <= maximum
      modifies `buffer, `received
      ensures Valid() && received == old(received) + segment
      ensures buffer == old(buffer) + segment
    {
      if failed {
        OversizedStays(received, segment, maximum);
      } else {
        StillFits(received, segment, maximum);
      }
      received := received + segment;
      buffer := buffer + segment;
    }

    method EmitLine()
      requires Valid()
      modifies `buffer, `received, `lines
      ensures Valid() && received == old(received) + [NEWLINE]
      ensures lines == old(lines) + [StripCarriageReturn(old(buffer))]
    {
      if failed {
        OversizedStays(received, [NEWLINE], maximum);
      } else {
        NewlineCloses(received, maximum);
      }
      lines := lines + [StripCarriageReturn(buffer)];
      buffer := [];
      received := received + [NEWLINE];
    }

    method Overflow(segment: seq<Byte>, ghost more: seq<Byte>)
      requires Valid() && NEWLINE !in segment
      requires |buffer| + |segment| > maximum
      modifies `buffer, `received, `failed
      ensures Valid() && failed && received == old(received) + segment + more
    {
      if failed {
        OversizedStays(received, segment, maximum);
        OversizedStays(received + segment, more, maximum);
      } else {
        OverflowDecides(received, segment, more, maximum);
      }
      received := received + segment + more;
      buffer := [];
      failed := true;
    }
  }

  /** No later byte undoes an oversized segment or changes the lines before it. */
  lemma OversizedStays(bytes: seq<Byte>, more: seq<Byte>, maximum: nat)
    requires AnyOversized(Split(bytes), maximum)
    ensures AnyOversized(Split(bytes + more), maximum)
    ensures LinesBefore(Split(bytes + more), maximum) == LinesBefore(Split(bytes), maximum)
  {
    SplitGrows(bytes, more);
    OversizedSegmentStays(Split(bytes), Split(bytes + more), maximum);
  }

  lemma OversizedSegmentStays(before: seq<seq<Byte>>, after: seq<seq<Byte>>, maximum: nat)
    requires before != [] && AnyOversized(before, maximum)
    requires |after| >= |before| && after[..|before| - 1] == before[..|before| - 1]
    requires Last(before) <= after[|before| - 1]
    ensures AnyOversized(after, maximum)
    ensures LinesBefore(after, maximum) == LinesBefore(before, maximum)
  {
    ghost var k :| 0 <= k < |before| && |before[k]| > maximum;
    if k < |before| - 1 {
      assert before[k] == before[..|before| - 1][k] == after[..|before| - 1][k] == after[k];
    }
    assert after[k] in after;
    assert before[..k] == before[..|before| - 1][..k] == after[..|before| - 1][..k] == after[..k];
    LinesBeforeAgree(before, after, k, maximum);
  }

  lemma StillFits(bytes: seq<Byte>, segment: seq<Byte>, maximum: nat)
    requires NEWLINE !in segment && !AnyOversized(Split(bytes), maximum)
    requires |Last(Split(bytes))| + |segment| <= maximum
    ensures !AnyOversized(Split(bytes + segment), maximum)
    ensures LinesBefore(Split(bytes + segment), maximum) == LinesBefore(Split(bytes), maximum)
    ensures Last(Split(bytes + segment)) == Last(Split(bytes)) + segment
  {
    SplitExtends(bytes, segment);
    var before, after := Split(bytes), Split(bytes + segment);
    forall s <- after ensures |s| <= maximum {
      assert s in before || s == Last(before) + segment;
    }
    LastIrrelevant(before, after, maximum);
  }

  lemma {:induction false} LastIrrelevant(left: seq<seq<Byte>>, right: seq<seq<Byte>>, maximum: nat)
    requires |left| == |right| > 0 && left[..|left| - 1] == right[..|right| - 1]
    ensures LinesBefore(left, maximum) == LinesBefore(right, maximum)
  {
    if |left| > 1 {
      assert left[0] == left[..|left| - 1][0] == right[..|left| - 1][0] == right[0];
      assert left[1..][..|left| - 2] == left[..|left| - 1][1..] == right[..|left| - 1][1..] == right[1..][..|left| - 2];
      LastIrrelevant(left[1..], right[1..], maximum);
    }
  }

  lemma NewlineCloses(bytes: seq<Byte>, maximum: nat)
    requires !AnyOversized(Split(bytes), maximum)
    ensures !AnyOversized(Split(bytes + [NEWLINE]), maximum)
    ensures Last(Split(bytes + [NEWLINE])) == []
    ensures LinesBefore(Split(bytes + [NEWLINE]), maximum) ==
            LinesBefore(Split(bytes), maximum) + [StripCarriageReturn(Last(Split(bytes)))]
  {
    LinesBeforeSnoc(Split(bytes), maximum);
  }

  /** Once the open segment is too long, the bytes after it cannot change what was emitted. */
  lemma OverflowDecides(bytes: seq<Byte>, segment: seq<Byte>, more: seq<Byte>, maximum: nat)
    requires NEWLINE !in segment && !AnyOversized(Split(bytes), maximum)
    requires |Last(Split(bytes))| + |segment| > maximum
    ensures AnyOversized(Split(bytes + segment + more), maximum)
    ensures LinesBefore(Split(bytes + segment + more), maximum) == LinesBefore(Split(bytes), maximum)
  {
    SplitExtends(bytes, segment);
    SplitGrows(bytes + segment, more);
    OverflowedSegments(Split(bytes), Split(bytes + segment), Split(bytes + segment + more), segment, maximum);
  }

  lemma OverflowedSegments(before: seq<seq<Byte>>, middle: seq<seq<Byte>>, after: seq<seq<Byte>>, segment: seq<Byte>,
                           maximum: nat)
    requires before != [] && middle == Extend(before, segment)
    requires |Last(before)| + |segment| > maximum
    requires |after| >= |middle| && after[..|middle| - 1] == middle[..|middle| - 1]
    requires Last(middle) <= after[|middle| - 1]
    ensures AnyOversized(after, maximum)
    ensures LinesBefore(after, maximum) == LinesBefore(before, maximum)
  {
    var k := |middle| - 1;
    assert after[k] in after;
    LastIrrelevant(before, middle, maximum);
    LinesBeforeAgree(middle, after, k, maximum);
  }
}
