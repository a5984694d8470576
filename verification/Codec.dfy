/**
 The bounded line codec: an incremental decoder over a byte buffer that other
 code keeps appending to, and the matching encoder.
 */
module Codec {
  import opened Wrappers
  import opened Text

  predicate IsDelimiter(c: char) {
    c == '\r' || c == '\n'
  }

  predicate DelimiterFree(s: Bytes) {
    forall i :: 0 <= i < |s| ==> !IsDelimiter(s[i])
  }

  /** What one call of the decoder reports: `Ok(None)`, a frame, or the error
      for a frame over the limit. */
  datatype Decoded = NeedMore | Frame(bytes: Bytes) | FrameTooLong

  datatype EncodeError = TooLong | EmbeddedDelimiter

  // ---------------------------------------------------------------- Specification

  /** The buffer without its leading delimiters. */
  function SkipDelimiters(s: Bytes): (r: Bytes)
    ensures |r| <= |s|
    ensures r != [] ==> !IsDelimiter(r[0])
  {
    if s != [] && IsDelimiter(s[0]) then SkipDelimiters(s[1..]) else s
  }

  /** The index of the first delimiter, or the length when there is none. */
  function DelimiterIndex(s: Bytes): (i: nat)
    ensures i <= |s|
    ensures DelimiterFree(s[..i])
    ensures i < |s| ==> IsDelimiter(s[i])
  {
    if s == [] || IsDelimiter(s[0]) then 0
    else
      var i := 1 + DelimiterIndex(s[1..]);
      assert s[..i] == [s[0]] + s[1..][..i - 1];
      i
  }

  /** One call of the decoder on buffer `s`: what it reports and what it leaves. */
  function DecodeStep(limit: nat, s: Bytes): (Decoded, Bytes) {
    var t := SkipDelimiters(s);
    var i := DelimiterIndex(t);
    if t == [] then (NeedMore, t)
    else if i < |t| then
      (if i > limit then FrameTooLong else Frame(t[..i]), SkipDelimiters(t[i..]))
    else if |t| > limit then (FrameTooLong, [])
    else (NeedMore, t)
  }

  // ---------------------------------------------------------------- The codec itself

  class BytesMut {
    var data: Bytes

    constructor ()
      ensures data == []
    {
      data := [];
    }

    method Advance(count: nat)
      requires count <= |data|
      modifies this
      ensures data == old(data)[count..]
    {
      data := data[count..];
    }

    method SplitTo(at: nat) returns (head: Bytes)
      requires at <= |data|
      modifies this
      ensures head == old(data)[..at] && data == old(data)[at..]
    {
      head := data[..at];
      data := data[at..];
    }

    method PutSlice(bytes: Bytes)
      modifies this
      ensures data == old(data) + bytes
    {
      data := data + bytes;
    }
  }

  class FsdFrameCodec {
    const maxFrameBytes: nat

    /** A zero limit is refused: no frame would fit. */
    static method New(maxFrameBytes: nat) returns (r: Result<FsdFrameCodec, EncodeError>)
      ensures maxFrameBytes == 0 ==> r == Err(TooLong)
      ensures maxFrameBytes > 0 ==> r.Ok? && fresh(r.value) && r.value.maxFrameBytes == maxFrameBytes
    {
      if maxFrameBytes == 0 {
        return Err(TooLong);
      }
      var codec := new FsdFrameCodec(maxFrameBytes);
      r := Ok(codec);
    }

    constructor (maxFrameBytes: nat)
      ensures this.maxFrameBytes == maxFrameBytes
    {
      this.maxFrameBytes := maxFrameBytes;
    }

    static method FindDelimiter(source: BytesMut) returns (index: nat)
      ensures index == DelimiterIndex(source.data)
    {
      index := 0;
      while index < |source.data| && !IsDelimiter(source.data[index])
        invariant index <= |source.data|
        invariant DelimiterIndex(source.data) == index + DelimiterIndex(source.data[index..])
      {
        index := index + 1;
      }
    }

    static method DiscardDelimiters(source: BytesMut)
      modifies source
      ensures source.data == SkipDelimiters(old(source.data))
    {
      var count := 0;
      while count < |source.data| && IsDelimiter(source.data[count])
        invariant count <= |source.data|
        invariant SkipDelimiters(source.data) == SkipDelimiters(source.data[count..])
      {
        count := count + 1;
      }
      source.Advance(count);
    }

    /** Decodes at most one frame from the front of the buffer. After leading
        delimiters are gone a delimiter is never at index 0, so the frame is
        never empty and the source's self-call is never reached. */
    method Decode(source: BytesMut) returns (r: Decoded)
      modifies source
      ensures (r, source.data) == DecodeStep(maxFrameBytes, old(source.data))
    {
      DiscardDelimiters(source);
      if source.data == [] {
        return NeedMore;
      }
      var index := FindDelimiter(source);
      if index < |source.data| {
        if index > maxFrameBytes {
          source.Advance(index);
          DiscardDelimiters(source);
          return FrameTooLong;
        }
        var frame := source.SplitTo(index);
        DiscardDelimiters(source);
        if frame == [] {
          assert false;
        }
        return Frame(frame);
      }
      if |source.data| > maxFrameBytes {
        source.data := [];
        return FrameTooLong;
      }
      r := NeedMore;
    }

    /** Appends a frame and CRLF; on an error the buffer is left as it was. */
    method Encode(frame: Bytes, destination: BytesMut) returns (r: Result<(), EncodeError>)
      modifies destination
      ensures r == (if |frame| > maxFrameBytes then Err(TooLong)
                    else if !DelimiterFree(frame) then Err(EmbeddedDelimiter)
                    else Ok(()))
      ensures destination.data == old(destination.data) + if r.Ok? then frame + "\r\n" else []
    {
      if |frame| > maxFrameBytes {
        return Err(TooLong);
      }
      if exists i :: 0 <= i < |frame| && IsDelimiter(frame[i]) {
        return Err(EmbeddedDelimiter);
      }
      destination.PutSlice(frame);
      destination.PutSlice("\r\n");
      r := Ok(());
    }
  }

  // ---------------------------------------------------------------- Draining a buffer

  /** The frames decoded so far, whether an error was met, and the buffer. */
  datatype Progress = Progress(frames: seq<Bytes>, failed: bool, rest: Bytes)

  lemma StepShrinks(limit: nat, s: Bytes)
    ensures !DecodeStep(limit, s).0.NeedMore? ==> |DecodeStep(limit, s).1| < |s|
  {
  }

  /** Decodes until more input is needed or a frame is over the limit. */
  function Drain(limit: nat, s: Bytes): Progress
    decreases |s|
  {
    StepShrinks(limit, s);
    match DecodeStep(limit, s)
    case (NeedMore, rest) => Progress([], false, rest)
    case (FrameTooLong, rest) => Progress([], true, rest)
    case (Frame(bytes), rest) =>
      var more := Drain(limit, rest);
      more.(frames := [bytes] + more.frames)
  }

  /** Receives the stream in chunks, draining the buffer after each chunk, and
      gives up at the first error, as the reader of a connection does. */
  function Receive(limit: nat, buffer: Bytes, chunks: seq<Bytes>): Progress
    decreases |chunks|
  {
    if chunks == [] then Progress([], false, buffer) else
    var now := Drain(limit, buffer + chunks[0]);
    if now.failed then now else
    var later := Receive(limit, now.rest, chunks[1..]);
    later.(frames := now.frames + later.frames)
  }

  function Concat(chunks: seq<Bytes>): Bytes {
    if chunks == [] then [] else chunks[0] + Concat(chunks[1..])
  }

  // ---------------------------------------------------------------- Reference

  /** The stream cut at every CR and LF. */
  function Segments(s: Bytes): (parts: seq<Bytes>)
    ensures |parts| >= 1
    decreases |s|
  {
    if s == [] then [[]]
    else
      var rest := Segments(s[1..]);
      if s[0] in "\r\n" then [[]] + rest else [[s[0]] + rest[0]] + rest[1..]
  }

  /** The decoder's delimiters are those octets, and it cuts at the first of them. */
  lemma {:induction false} SegmentsCut(s: Bytes)
    ensures var i := DelimiterIndex(s);
            Segments(s) == if i == |s| then [s] else [s[..i]] + Segments(s[i + 1..])
    decreases |s|
  {
    if s != [] {
      assert s[0] in "\r\n" <==> IsDelimiter(s[0]);
      if !IsDelimiter(s[0]) {
        var t := s[1..];
        var i := DelimiterIndex(t);
        SegmentsCut(t);
        assert s == [s[0]] + t;
        assert [s[0]] + t[..i] == s[..i + 1];
        assert i < |t| ==> t[i + 1..] == s[i + 2..];
      } else {
        assert s[..0] == [];
      }
    }
  }

  /** The segments in order, without the empty ones, up to the first one over
      the limit; the last segment has no delimiter yet, so it is no frame, but
      it may already be over the limit. */
  function FramesOf(limit: nat, segments: seq<Bytes>): (seq<Bytes>, bool) {
    if segments == [] then ([], false)
    else if |segments[0]| > limit then ([], true)
    else if |segments| == 1 then ([], false)
    else
      var (frames, failed) := FramesOf(limit, segments[1..]);
      (if segments[0] == [] then frames else [segments[0]] + frames, failed)
  }

  lemma SegmentsSkip(limit: nat, s: Bytes)
    requires s != [] && IsDelimiter(s[0])
    ensures FramesOf(limit, Segments(s)) == FramesOf(limit, Segments(s[1..]))
  {
    SegmentsCut(s);
    assert Segments(s)[1..] == Segments(s[1..]);
  }

  lemma {:induction false} FramesSkip(limit: nat, s: Bytes)
    ensures FramesOf(limit, Segments(s)) == FramesOf(limit, Segments(SkipDelimiters(s)))
    decreases |s|
  {
    if s != [] && IsDelimiter(s[0]) {
      SegmentsSkip(limit, s);
      FramesSkip(limit, s[1..]);
    }
  }

  /** The decoder finds exactly the non-empty delimiter-separated segments. */
  lemma {:induction false} DrainFindsSegments(limit: nat, s: Bytes)
    ensures (Drain(limit, s).frames, Drain(limit, s).failed) == FramesOf(limit, Segments(s))
    decreases |s|
  {
    var t := SkipDelimiters(s);
    var i := DelimiterIndex(t);
    FramesSkip(limit, s);
    SegmentsCut(t);
    assert t[..|t|] == t;
    if 0 < i < |t| {
      assert t[i..][1..] == t[i + 1..];
      assert Segments(t)[1..] == Segments(t[i + 1..]);
      if i <= limit {
        StepShrinks(limit, s);
        DrainFindsSegments(limit, SkipDelimiters(t[i..]));
        FramesSkip(limit, t[i + 1..]);
        assert SkipDelimiters(t[i..]) == SkipDelimiters(t[i + 1..]);
      }
    }
  }

  // ---------------------------------------------------------------- Chunking

  lemma {:induction false} SkipAppend(s: Bytes, t: Bytes)
    ensures SkipDelimiters(s + t) == if SkipDelimiters(s) == [] then SkipDelimiters(t) else SkipDelimiters(s) + t
    decreases |s|
  {
    if s == [] {
      assert s + t == t;
    } else if IsDelimiter(s[0]) {
      DropFromSum(s, t, 1);
      SkipAppend(s[1..], t);
    }
  }

  lemma {:induction false} IndexAppend(s: Bytes, t: Bytes)
    ensures DelimiterIndex(s + t) == if DelimiterIndex(s) < |s| then DelimiterIndex(s) else |s| + DelimiterIndex(t)
    decreases |s|
  {
    if s == [] {
      assert s + t == t;
    } else if !IsDelimiter(s[0]) {
      DropFromSum(s, t, 1);
      IndexAppend(s[1..], t);
    }
  }

  lemma {:induction false} SkipTwice(s: Bytes)
    ensures SkipDelimiters(SkipDelimiters(s)) == SkipDelimiters(s)
  {
    if s != [] && IsDelimiter(s[0]) {
      SkipTwice(s[1..]);
    }
  }

  /** Draining ignores leading delimiters. */
  lemma DrainSkip(limit: nat, s: Bytes)
    ensures Drain(limit, SkipDelimiters(s)) == Drain(limit, s)
  {
    SkipTwice(s);
  }

  /** `whole`, the drain of some input and more of it, continues `first`. */
  ghost predicate Continues(limit: nat, first: Progress, t: Bytes, whole: Progress) {
    if first.failed then whole.failed && whole.frames == first.frames
    else
      var second := Drain(limit, first.rest + t);
      && whole.failed == second.failed
      && whole.frames == first.frames + second.frames
      && whole.rest == second.rest
  }

  lemma ContinuesOneMore(limit: nat, frame: Bytes, first: Progress, t: Bytes, whole: Progress)
    requires Continues(limit, first, t, whole)
    ensures Continues(limit, first.(frames := [frame] + first.frames), t, whole.(frames := [frame] + whole.frames))
  {
  }

  /** Appending more input after a drain that met no error continues it; after
      an error the frames and the error stay. */
  lemma {:induction false} DrainAppend(limit: nat, s: Bytes, t: Bytes)
    ensures Continues(limit, Drain(limit, s), t, Drain(limit, s + t))
    decreases |s|
  {
    var a := SkipDelimiters(s);
    SkipAppend(s, t);
    DrainSkip(limit, s + t);
    if a == [] {
      DrainSkip(limit, t);
      assert [] + t == t;
    } else {
      DrainSkip(limit, s);
      var i := DelimiterIndex(a);
      if i == |a| {
        UnfinishedAppend(limit, a, t);
      } else {
        IndexAppend(a, t);
        DropFromSum(a, t, i);
        assert (a + t)[..i] == a[..i];
        assert SkipDelimiters(a) == a && SkipDelimiters(a + t) == a + t;
        if i <= limit {
          DrainAppend(limit, a[i..], t);
          DrainSkip(limit, a[i..]);
          DrainSkip(limit, a[i..] + t);
          ContinuesOneMore(limit, a[..i], Drain(limit, a[i..]), t, Drain(limit, a[i..] + t));
        }
      }
    }
  }

  lemma UnfinishedAppend(limit: nat, a: Bytes, t: Bytes)
    requires a != [] && !IsDelimiter(a[0]) && DelimiterIndex(a) == |a|
    ensures Continues(limit, Drain(limit, a), t, Drain(limit, a + t))
  {
    IndexAppend(a, t);
    assert SkipDelimiters(a) == a && SkipDelimiters(a + t) == a + t;
  }

  /** However the stream is cut into chunks, the frames before the first error,
      and whether there is one, are those of the whole stream. */
  lemma {:induction false} ReceiveIgnoresChunking(limit: nat, buffer: Bytes, chunks: seq<Bytes>)
    requires Drain(limit, buffer) == Progress([], false, buffer)
    ensures var got := Receive(limit, buffer, chunks);
            var whole := Drain(limit, buffer + Concat(chunks));
            && got.frames == whole.frames && got.failed == whole.failed
            && (!got.failed ==> got.rest == whole.rest)
    decreases |chunks|
  {
    if chunks == [] {
      assert buffer + [] == buffer;
    } else {
      var rest := Concat(chunks[1..]);
      AppendAssociative(buffer, chunks[0], rest);
      DrainAppend(limit, buffer + chunks[0], rest);
      DrainSettles(limit, buffer + chunks[0]);
      var now := Drain(limit, buffer + chunks[0]);
      if !now.failed {
        ReceiveIgnoresChunking(limit, now.rest, chunks[1..]);
      }
    }
  }

  /** What a drain leaves is at most the limit long, holds no delimiter, and
      yields nothing more by itself. */
  lemma {:induction false} DrainSettles(limit: nat, s: Bytes)
    ensures var p := Drain(limit, s);
            !p.failed ==>
              && |p.rest| <= limit && DelimiterFree(p.rest)
              && Drain(limit, p.rest) == Progress([], false, p.rest)
    decreases |s|
  {
    var t := SkipDelimiters(s);
    var i := DelimiterIndex(t);
    if t != [] && i == |t| {
      assert t[..i] == t;
      SkipTwice(s);
    } else if t != [] && i <= limit {
      StepShrinks(limit, s);
      DrainSettles(limit, SkipDelimiters(t[i..]));
    }
  }

  /** The main result on chunking, from an empty buffer: the frames are the
      non-empty segments of the stream up to the first one over the limit. */
  lemma ReceiveFindsSegments(limit: nat, chunks: seq<Bytes>)
    ensures var got := Receive(limit, [], chunks);
            (got.frames, got.failed) == FramesOf(limit, Segments(Concat(chunks)))
  {
    ReceiveIgnoresChunking(limit, [], chunks);
    assert [] + Concat(chunks) == Concat(chunks);
    DrainFindsSegments(limit, Concat(chunks));
  }

  // ---------------------------------------------------------------- Bounds and round trip

  predicate IsFrame(limit: nat, s: Bytes) {
    0 < |s| <= limit && DelimiterFree(s)
  }

  /** Every frame that is ever yielded is non-empty, within the limit and free
      of delimiters. */
  lemma {:induction false} DrainYieldsFrames(limit: nat, s: Bytes)
    ensures forall f :: f in Drain(limit, s).frames ==> IsFrame(limit, f)
    decreases |s|
  {
    if DecodeStep(limit, s).0.Frame? {
      StepShrinks(limit, s);
      DrainYieldsFrames(limit, DecodeStep(limit, s).1);
      assert Drain(limit, s).frames
          == [DecodeStep(limit, s).0.bytes] + Drain(limit, DecodeStep(limit, s).1).frames;
    }
  }

  /** What the encoder appends for a list of frames. */
  function EncodeAll(frames: seq<Bytes>): Bytes {
    if frames == [] then [] else frames[0] + "\r\n" + EncodeAll(frames[1..])
  }

  lemma DrainFrameThen(limit: nat, frame: Bytes, tail: Bytes)
    requires IsFrame(limit, frame) && tail != [] && IsDelimiter(tail[0])
    ensures var more := Drain(limit, tail);
            Drain(limit, frame + tail) == more.(frames := [frame] + more.frames)
  {
    var s := frame + tail;
    NoDelimiterIndex(frame);
    IndexAppend(frame, tail);
    assert s[0] == frame[0];
    assert SkipDelimiters(s) == s;
    assert s[..|frame|] == frame && s[|frame|..] == tail;
    DrainSkip(limit, tail);
  }

  lemma DrainOneFrame(limit: nat, frame: Bytes, t: Bytes)
    requires IsFrame(limit, frame)
    ensures var more := Drain(limit, t);
            Drain(limit, frame + "\r\n" + t) == more.(frames := [frame] + more.frames)
  {
    var tail := "\r\n" + t;
    AppendAssociative(frame, "\r\n", t);
    DrainFrameThen(limit, frame, tail);
    SkipAppend("\r\n", t);
    assert SkipDelimiters("\r\n") == [] by {
      assert "\r\n"[1..] == "\n" && "\n"[1..] == [];
    }
    DrainSkip(limit, tail);
    DrainSkip(limit, t);
  }

  lemma AppendAssociative(a: Bytes, b: Bytes, c: Bytes)
    ensures a + b + c == a + (b + c)
  {
  }

  lemma {:induction false} NoDelimiterIndex(s: Bytes)
    requires DelimiterFree(s)
    ensures DelimiterIndex(s) == |s|
  {
    if s != [] {
      NoDelimiterIndex(s[1..]);
    }
  }

  /** Encoding frames and decoding the stream gives the same frames back and an
      empty buffer. */
  lemma {:induction false} StreamRoundTrip(limit: nat, frames: seq<Bytes>)
    requires forall i :: 0 <= i < |frames| ==> IsFrame(limit, frames[i])
    ensures Drain(limit, EncodeAll(frames)) == Progress(frames, false, [])
  {
    if frames != [] {
      StreamRoundTrip(limit, frames[1..]);
      DrainOneFrame(limit, frames[0], EncodeAll(frames[1..]));
      assert [frames[0]] + frames[1..] == frames;
    }
  }
}
