/** The newline-framed messages of the local control socket: `read_frame` and `write_response`. */
module FrameReader {
  import opened Prelude

  const MAX_FRAME_BYTES: nat := 65536
  const CHUNK_BYTES: nat := 4096

  type Byte = n: nat | n < 256

  const NEWLINE: Byte := 10

  predicate IsAsciiWhitespace(b: Byte) { b == 32 || b == 9 || b == 10 || b == 12 || b == 13 }

  datatype FrameError = ClosedBeforeFrame | ClosedInsideFrame | ReadFailed | TooLong | MultipleFrames | EmptyFrame

  /** What follows the last successful read. */
  datatype End = Closed | Broken

  /** Reads that returned something: never empty, never more than the buffer. */
  ghost predicate AreReads(chunks: seq<seq<Byte>>) { forall k :: 0 <= k < |chunks| ==> 1 <= |chunks[k]| <= CHUNK_BYTES }

  function Flatten(chunks: seq<seq<Byte>>): seq<Byte> {
    if chunks == [] then [] else chunks[0] + Flatten(chunks[1..])
  }

  /** The position of the first newline, or the length. */
  function NewlineIn(s: seq<Byte>): (n: nat)
    ensures n <= |s|
    ensures forall k :: 0 <= k < n ==> s[k] != NEWLINE
    ensures n < |s| ==> s[n] == NEWLINE
  {
    if s == [] || s[0] == NEWLINE then 0
    else
      var rest := NewlineIn(s[1..]);
      assert forall k :: 1 <= k < 1 + rest ==> s[k] == s[1..][k - 1];
      1 + rest
  }

  predicate AllBlank(s: seq<Byte>) { forall k :: 0 <= k < |s| ==> IsAsciiWhitespace(s[k]) }

  /** The reader's state machine; the buffer never grows beyond the limit. */
  function ReadFrom(frame: seq<Byte>, chunks: seq<seq<Byte>>, end: End): Result<seq<Byte>, FrameError>
    requires |frame| <= MAX_FRAME_BYTES
    decreases |chunks|
  {
    if chunks == [] then Err(if end == Broken then ReadFailed else if frame == [] then ClosedBeforeFrame
      else ClosedInsideFrame)
    else
      var chunk := chunks[0];
      var newline := NewlineIn(chunk);
      if newline < |chunk| then
        if |frame| + newline > MAX_FRAME_BYTES then Err(TooLong)
        else if !AllBlank(chunk[newline + 1..]) then Err(MultipleFrames)
        else if frame + chunk[..newline] == [] then Err(EmptyFrame)
        else Ok(frame + chunk[..newline])
      else if |frame| + |chunk| > MAX_FRAME_BYTES then Err(TooLong)
      else ReadFrom(frame + chunk, chunks[1..], end)
  }

  /** `position`: the first newline of one read. */
  method FindNewline(chunk: seq<Byte>) returns (newline: nat)
    ensures newline == NewlineIn(chunk)
  {
    newline := 0;
    while newline < |chunk| && chunk[newline] != NEWLINE
      invariant newline <= |chunk|
      invariant forall k :: 0 <= k < newline ==> chunk[k] != NEWLINE
    {
      newline := newline + 1;
    }
    FirstIsUnique(chunk, newline);
  }

  lemma FirstIsUnique(s: seq<Byte>, n: nat)
    requires n <= |s| && (forall k :: 0 <= k < n ==> s[k] != NEWLINE) && (n < |s| ==> s[n] == NEWLINE)
    ensures n == NewlineIn(s)
  {
  }

  /** `read_frame` */
  method ReadFrame(chunks: seq<seq<Byte>>, end: End) returns (r: Result<seq<Byte>, FrameError>)
    requires AreReads(chunks)
    ensures r == ReadFrom([], chunks, end)
  {
    var frame: seq<Byte> := [];
    for i := 0 to |chunks|
      invariant |frame| <= MAX_FRAME_BYTES
      invariant ReadFrom(frame, chunks[i..], end) == ReadFrom([], chunks, end)
    {
      var chunk := chunks[i];
      assert chunks[i..][1..] == chunks[i + 1..];
      var newline := FindNewline(chunk);
      if newline < |chunk| {
        if |frame| + newline > MAX_FRAME_BYTES {
          return Err(TooLong);
        }
        frame := frame + chunk[..newline];
        if exists k :: newline < k < |chunk| && !IsAsciiWhitespace(chunk[k]) {
          BlankRest(chunk, newline + 1);
          return Err(MultipleFrames);
        }
        BlankRest(chunk, newline + 1);
        if frame == [] {
          return Err(EmptyFrame);
        }
        return Ok(frame);
      }
      if |frame| + |chunk| > MAX_FRAME_BYTES {
        return Err(TooLong);
      }
      frame := frame + chunk;
    }
    match end {
      case Broken => r := Err(ReadFailed);
      case Closed => r := Err(if frame == [] then ClosedBeforeFrame else ClosedInsideFrame);
    }
  }

  lemma BlankRest(chunk: seq<Byte>, start: nat)
    requires start <= |chunk|
    ensures AllBlank(chunk[start..]) <==> !exists k :: start <= k < |chunk| && !IsAsciiWhitespace(chunk[k])
  {
  }

  // --- what a frame is, however the bytes arrive -------------------------------------------------------------

  /** Space, tab, line feed, form feed or carriage return. */
  predicate IsBlank(b: Byte) { b in {9, 10, 12, 13, 32} }

  /** After the first newline, nothing but white space arrives in the same read. */
  ghost predicate QuietAfterNewline(chunks: seq<seq<Byte>>)
    decreases |chunks|
  {
    chunks != [] &&
      var newline := NewlineIn(chunks[0]);
      if newline < |chunks[0]| then forall k :: newline < k < |chunks[0]| ==> IsBlank(chunks[0][k])
      else QuietAfterNewline(chunks[1..])
  }

  lemma QuietHere(chunk: seq<Byte>, newline: nat)
    requires newline < |chunk|
    ensures AllBlank(chunk[newline + 1..]) <==> forall k :: newline < k < |chunk| ==> IsBlank(chunk[k])
  {
    BlankRest(chunk, newline + 1);
  }

  lemma NewlineInConcat(a: seq<Byte>, b: seq<Byte>)
    ensures NewlineIn(a + b) == if NewlineIn(a) < |a| then NewlineIn(a) else |a| + NewlineIn(b)
  {
    var n := if NewlineIn(a) < |a| then NewlineIn(a) else |a| + NewlineIn(b);
    FirstIsUnique(a + b, n);
  }

  /** What a reader with stream `s` in total, and reads that are quiet or not, must answer in every case. */
  ghost predicate Answers(s: seq<Byte>, quiet: bool, end: End, r: Result<seq<Byte>, FrameError>) {
    var n := NewlineIn(s);
    if n > 65536 then r == Err(TooLong)
    else if n == |s| then
      r == Err(if end == Broken then ReadFailed else if s == [] then ClosedBeforeFrame else ClosedInsideFrame)
    else if !quiet then r == Err(MultipleFrames)
    else if n == 0 then r == Err(EmptyFrame)
    else r == Ok(s[..n])
  }

  lemma FoundHere(frame: seq<Byte>, chunks: seq<seq<Byte>>, end: End)
    requires |frame| <= MAX_FRAME_BYTES && NewlineIn(frame) == |frame| && chunks != []
             && NewlineIn(chunks[0]) < |chunks[0]|
    ensures Answers(frame + Flatten(chunks), QuietAfterNewline(chunks), end, ReadFrom(frame, chunks, end))
  {
    hide NewlineIn, AllBlank, IsBlank;
    var chunk, rest, s := chunks[0], Flatten(chunks[1..]), frame + Flatten(chunks);
    assert s == frame + (chunk + rest);
    NewlineInConcat(frame, chunk + rest);
    NewlineInConcat(chunk, rest);
    QuietHere(chunk, NewlineIn(chunk));
    assert s[..|frame| + NewlineIn(chunk)] == frame + chunk[..NewlineIn(chunk)];
  }

  lemma NotFoundHere(frame: seq<Byte>, chunks: seq<seq<Byte>>, end: End)
    requires |frame| <= MAX_FRAME_BYTES && NewlineIn(frame) == |frame| && chunks != []
             && NewlineIn(chunks[0]) == |chunks[0]|
    ensures NewlineIn(frame + chunks[0]) == |frame + chunks[0]|
    ensures frame + Flatten(chunks) == (frame + chunks[0]) + Flatten(chunks[1..])
    ensures NewlineIn(frame + Flatten(chunks)) >= |frame| + |chunks[0]|
  {
  }

  lemma {:induction false} FrameFrom(frame: seq<Byte>, chunks: seq<seq<Byte>>, end: End)
    requires |frame| <= MAX_FRAME_BYTES && NewlineIn(frame) == |frame|
    ensures Answers(frame + Flatten(chunks), QuietAfterNewline(chunks), end, ReadFrom(frame, chunks, end))
    decreases |chunks|
  {
    hide NewlineIn, AllBlank;
    if chunks == [] {
      assert frame + Flatten(chunks) == frame;
    } else if NewlineIn(chunks[0]) < |chunks[0]| {
      FoundHere(frame, chunks, end);
    } else {
      NotFoundHere(frame, chunks, end);
      if |frame| + |chunks[0]| <= MAX_FRAME_BYTES {
        FrameFrom(frame + chunks[0], chunks[1..], end);
      }
    }
  }

  /**
   * For every way of splitting the stream into reads: a frame is returned exactly when there is a
   * first newline at a position from 1 to 65536 and its own read holds only white space after it;
   * the frame is the bytes before that newline. Every error has its own cause: a line too long, no line,
   * a second message in the same read, or an empty line.
   */
  lemma FrameMeaning(chunks: seq<seq<Byte>>, end: End)
    ensures Answers(Flatten(chunks), QuietAfterNewline(chunks), end, ReadFrom([], chunks, end))
  {
    assert [] + Flatten(chunks) == Flatten(chunks);
    FrameFrom([], chunks, end);
  }

  /** Two splittings of one stream never yield two different frames. */
  lemma FrameIsUnambiguous(a: seq<seq<Byte>>, b: seq<seq<Byte>>, x: End, y: End)
    requires Flatten(a) == Flatten(b) && ReadFrom([], a, x).Ok? && ReadFrom([], b, y).Ok?
    ensures ReadFrom([], a, x) == ReadFrom([], b, y)
  {
    FrameMeaning(a, x);
    FrameMeaning(b, y);
  }

  /** Whether a second message is noticed does depend on the splitting: here it is not, and there it is. */
  lemma SecondMessageMaySlipBy(first: Byte, second: Byte, end: End)
    requires first != NEWLINE && !IsAsciiWhitespace(second)
    ensures var apart, together := [[first, NEWLINE], [second]], [[first, NEWLINE, second]];
            && Flatten(apart) == Flatten(together)
            && ReadFrom([], apart, end) == Ok([first]) && ReadFrom([], together, end) == Err(MultipleFrames)
  {
    var apart, together := [[first, NEWLINE], [second]], [[first, NEWLINE, second]];
    var none: seq<Byte>, line: seq<Byte>, noMore: seq<seq<Byte>> := [], [first, NEWLINE], [];
    assert apart[1..] == [[second]] && apart[1..][1..] == noMore && together[1..] == noMore;
    assert Flatten(noMore) == none;
    assert Flatten(apart[1..]) == [second] + none;
    assert Flatten(together) == [first, NEWLINE, second] + none;
    assert Flatten(apart) == line + Flatten(apart[1..]);
    FirstIsUnique(line, 1);
    FirstIsUnique([first, NEWLINE, second], 1);
    assert [first, NEWLINE, second][2..] == [second];
    assert [second][0] == second;
    assert none + line[..1] == [first];
  }

  // --- writing ---------------------------------------------------------------------------------------------------

  /** `write_response`: the encoded message and a newline, or a refusal. */
  function WriteFrame(encoded: seq<Byte>): Option<seq<Byte>> {
    if |encoded| > MAX_FRAME_BYTES then None else Some(encoded + [NEWLINE])
  }

  lemma {:induction false} NothingAfterNewline(chunks: seq<seq<Byte>>)
    requires AreReads(chunks) && NewlineIn(Flatten(chunks)) == |Flatten(chunks)| - 1
    ensures QuietAfterNewline(chunks)
    decreases |chunks|
  {
    if chunks != [] {
      var chunk, rest := chunks[0], Flatten(chunks[1..]);
      NewlineInConcat(chunk, rest);
      if NewlineIn(chunk) < |chunk| {
        assert chunk[NewlineIn(chunk) + 1..] == [];
      } else {
        NothingAfterNewline(chunks[1..]);
      }
    }
  }

  /**
   * Reading back what was written, split in any way, gives the message exactly when the encoding is
   * not empty and holds no newline.
   */
  lemma RoundTrip(encoded: seq<Byte>, chunks: seq<seq<Byte>>, end: End)
    requires AreReads(chunks) && WriteFrame(encoded) == Some(Flatten(chunks))
    ensures ReadFrom([], chunks, end) == Ok(encoded) <==> encoded != [] && NEWLINE !in encoded
  {
    FrameMeaning(chunks, end);
    var s := encoded + [NEWLINE];
    NewlineInConcat(encoded, [NEWLINE]);
    FirstIsUnique([NEWLINE], 0);
    if NEWLINE !in encoded {
      FirstIsUnique(encoded, |encoded|);
      NothingAfterNewline(chunks);
      assert s[..|encoded|] == encoded;
    } else {
      assert NewlineIn(encoded) < |encoded|;
    }
  }
}
