/** Newline-delimited frames of at most one MiB (internal/protocol/protocol.go). */
module Framing {
  import opened Ascii

  const MaxFrameSize: nat := 1024 * 1024

  // ----- Frames in a stream ------------------------------------------------------------------------------

  function NewlineAt(s: string): (n: nat)
    ensures n <= |s| && '\n' !in s[..n] && (n < |s| ==> s[n] == '\n')
  {
    if s == "" || s[0] == '\n' then 0
    else
      var n := NewlineAt(s[1..]);
      assert s[..n + 1] == [s[0]] + s[1..][..n];
      n + 1
  }

  /** The bytes up to and with the first newline, or all of them. */
  function Line(s: string): (n: nat)
    ensures n <= |s| && (s != "" ==> n > 0)
  {
    var n := NewlineAt(s);
    if n < |s| then n + 1 else n
  }

  /** What follows the first line. */
  function AfterLine(s: string): (r: string)
    ensures s != "" ==> |r| < |s|
  {
    s[Line(s)..]
  }

  datatype Outcome = Frame(bytes: string) | End | TooLong | Malformed | Broken

  /** What decoding a stream gives first, and how many bytes it takes unless the frame is too long. */
  function NextFrame(stream: string, valid: string -> bool): Outcome {
    if stream == "" then End
    else if Line(stream) > MaxFrameSize then TooLong
    else
      var frame := stream[..NewlineAt(stream)];
      if valid(frame) then Frame(frame) else Malformed
  }

  /**
    Where the decoder stands after a frame that is too long: at the end of the line, or in its midst
    once so many buffers have been read that they exceed the limit. What follows is decoded as if a
    frame began there.
   */
  function Dropped(stream: string, size: nat): nat
    requires size > 0
  {
    var limit := (MaxFrameSize / size + 1) * size;
    if Line(stream) <= limit then Line(stream) else limit
  }

  // ----- The buffered reader --------------------------------------------------------------------------

  datatype Status = Found | BufferFull | AtEnd | Failed

  /** What ReadSlice('\n') gives for a buffer of some size, however the bytes came in. */
  function Slice(stream: string, size: nat): (string, Status) {
    var n := NewlineAt(stream);
    if n < |stream| && n < size then (stream[..n + 1], Found)
    else if |stream| >= size then (stream[..size], BufferFull)
    else (stream, AtEnd)
  }

  /**
    What ReadSlice may give: at the end of the stream with a buffer full to the last byte it is the
    end, if the connection told of the end along with its last bytes.
   */
  predicate IsSlice(stream: string, size: nat, part: string, status: Status) {
    || (status != Failed && (part, status) == Slice(stream, size))
    || (status == AtEnd && part == stream && Slice(stream, size) == (part, BufferFull))
  }

  /** bufio.Reader over a connection that delivers its bytes in pieces of any size, or breaks. */
  class Reader {
    const size: nat
    var buffer: string
    var incoming: string
    var pending: Option<Status>  // the end or a failure, not reported yet
    ghost var broken: bool  // the connection has failed

    ghost predicate Valid()
      reads this
    {
      && |buffer| <= size && size > 0
      && (pending.Some? ==> pending.value == Failed || (pending.value == AtEnd && incoming == ""))
    }

    /** All that has not been read. */
    ghost function Stream(): string
      reads this
    {
      buffer + incoming
    }

    constructor (size: nat, incoming: string)
      requires size > 0
      ensures Valid() && Stream() == incoming && this.size == size && !broken
    {
      this.size, buffer, this.incoming, pending, broken := size, "", incoming, None, false;
      new;
      assert "" + incoming == incoming;
    }

    method ReadSlice() returns (part: string, status: Status)
      requires Valid()
      modifies this
      ensures Valid() && old(Stream()) == part + Stream()
      ensures status != Failed ==> IsSlice(old(Stream()), size, part, status)
      ensures status == Failed ==> NewlineAt(part) == |part| <= size
      ensures broken == (old(broken) || status == Failed)
    {
      hide Slice, NewlineAt;
      while true
        invariant Valid() && Stream() == old(Stream()) && broken == old(broken)
        decreases |incoming|, if pending.None? then 1 else 0
      {
        var n := NewlineAt(buffer);
        SliceOf(buffer, incoming, size);
        if n < |buffer| {
          part, status := buffer[..n + 1], Found;
          buffer := buffer[n + 1..];
          return;
        }
        if pending.Some? {
          part, status := buffer, pending.value;
          buffer, pending, broken := "", None, broken || pending == Some(Failed);
          return;
        }
        if |buffer| >= size {
          part, status := buffer, BufferFull;
          buffer := "";
          return;
        }
        Fill();
      }
    }

    /** One read: some bytes, the end or a failure, or bytes along with either. */
    method Fill()
      requires Valid() && |buffer| < size && pending.None?
      modifies `buffer, `incoming, `pending
      ensures Valid() && Stream() == old(Stream())
      ensures |incoming| < |old(incoming)| || (incoming == old(incoming) && pending.Some?)
    {
      ghost var stream := Stream();
      var k: nat :| k <= |incoming| && k <= size - |buffer|;
      var fails, ends := *, *;
      buffer, incoming := buffer + incoming[..k], incoming[k..];
      assert Stream() == stream;
      if fails {
        pending := Some(Failed);
      } else if incoming == "" && (ends || k == 0) {
        pending := Some(AtEnd);
      } else if k == 0 {
        pending := Some(Failed);  // no progress
      }
    }
  }

  /** The three ways ReadSlice ends, by what the buffer holds. */
  lemma SliceOf(buffer: string, incoming: string, size: nat)
    requires |buffer| <= size
    ensures var n, slice := NewlineAt(buffer), Slice(buffer + incoming, size);
      && (n < |buffer| ==> slice == (buffer[..n + 1], Found))
      && (n == |buffer| == size ==> slice == (buffer, BufferFull))
      && (n == |buffer| < size && incoming == "" ==> slice == (buffer, AtEnd))
  {
    hide NewlineAt;
    var n := NewlineAt(buffer);
    NewlineJoins(buffer, incoming);
    if n < |buffer| {
      TakeFirst(buffer, incoming, n + 1);
    } else if |buffer| == size {
      TakeFirst(buffer, incoming, |buffer|);
    } else if incoming == "" {
      assert buffer + incoming == buffer;
    }
  }

  lemma TakeFirst(a: string, b: string, n: nat)
    requires n <= |a|
    ensures (a + b)[..n] == a[..n] && a[..|a|] == a
  {
  }

  lemma {:induction false} NewlineJoins(a: string, b: string)
    ensures NewlineAt(a + b) == if NewlineAt(a) < |a| then NewlineAt(a) else |a| + NewlineAt(b)
  {
    if a == "" {
      assert a + b == b;
    } else {
      assert (a + b)[1..] == a[1..] + b && (a + b)[0] == a[0];
      NewlineJoins(a[1..], b);
    }
  }

  /** What a part says about the line it belongs to. */
  lemma PartOfLine(frame: string, part: string, rest: string)
    requires NewlineAt(frame) == |frame|
    ensures NewlineAt(part) == |part| ==>
      NewlineAt(frame + part) == |frame + part| && Line(frame + part + rest) >= |frame| + |part|
    ensures NewlineAt(part) < |part| && NewlineAt(part) == |part| - 1 ==>
      NewlineAt(frame + part + rest) == |frame| + |part| - 1 && Line(frame + part + rest) == |frame| + |part|
  {
    NewlineJoins(frame, part);
    NewlineJoins(frame + part, rest);
  }

  /** How ReadSlice's answer splits the stream. */
  lemma SliceParts(stream: string, size: nat, part: string, status: Status)
    requires size > 0
    requires IsSlice(stream, size, part, status)
    ensures
      && part <= stream
      && (status == Found ==> part != "" && NewlineAt(part) == |part| - 1)
      && (status == BufferFull ==> part != "" && NewlineAt(part) == |part|)
      && (status == AtEnd ==> part == stream && NewlineAt(part) == |part|)
      && status != Failed
  {
  }

  /** What is known after one more part of a line. */
  lemma Gathered(all: string, frame: string, stream: string, part: string, rest: string, status: Status, size: nat)
    requires all == frame + stream && stream == part + rest && NewlineAt(frame) == |frame| && size > 0
    requires if status == Failed then NewlineAt(part) == |part| else IsSlice(stream, size, part, status)
    ensures var more := frame + part;
      && all == more + rest && |more| == |frame| + |part|
      && (status == Found ==> more != "" && NewlineAt(all) == |more| - 1 && Line(all) == |more|)
      && (status != Found ==> NewlineAt(more) == |more| && Line(all) >= |more|)
      && (status == AtEnd ==> rest == "")
      && (status == BufferFull ==> |rest| < |stream|)
  {
    hide Line, NewlineAt, IsSlice;
    assert frame + (part + rest) == frame + part + rest;
    if status != Failed {
      SliceParts(stream, size, part, status);
    }
    PartOfLine(frame, part, rest);
    assert |stream| == |part| + |rest|;
  }

  /** The bytes of some whole buffers. */
  function Whole(parts: nat, size: nat): nat {
    parts * size
  }

  lemma WholeGrows(a: nat, b: nat, size: nat)
    requires a <= b
    ensures a * size <= b * size
  {
    assert (b - a) * size >= 0;
  }

  lemma QuotientIs(n: nat, size: nat, parts: nat)
    requires size > 0 && Whole(parts, size) <= n < Whole(parts, size) + size
    ensures n / size == parts
  {
    var q := n / size;
    assert n == q * size + n % size;
    if q < parts {
      WholeGrows(q + 1, parts, size);
    } else if q > parts {
      WholeGrows(parts + 1, q, size);
    }
  }

  /** How long the first part of a stream is. */
  lemma SliceLength(stream: string, size: nat, part: string, status: Status)
    requires size > 0 && IsSlice(stream, size, part, status)
    ensures |part| <= size && (status == BufferFull ==> |part| == size)
  {
  }

  /** What a decoder has read of a frame that is too long, exactly unless the connection has failed. */
  ghost predicate Overran(all: string, rest: string, size: nat, broken: bool)
    requires size > 0
  {
    var n := |all| - |rest|;
    && MaxFrameSize < n <= Dropped(all, size) && rest == all[n..]
    && (!broken ==> n == Dropped(all, size))
  }

  /** Where the limit is exceeded, after some whole buffers and one more part. */
  lemma ExceededAt(all: string, frame: string, parts: nat, stream: string,
                   part: string, rest: string, status: Status, size: nat)
    requires size > 0 && |frame| == Whole(parts, size) <= MaxFrameSize < |frame| + |part|
    requires all == frame + part + rest && stream == part + rest
    requires if status == Failed then |part| <= size else IsSlice(stream, size, part, status)
    requires status == Found ==> Line(all) == |frame| + |part|
    requires status != Found ==> Line(all) >= |frame| + |part|
    requires status == AtEnd ==> rest == ""
    ensures Overran(all, rest, size, status == Failed)
  {
    hide IsSlice, Line, Whole;
    if status != Failed {
      SliceLength(stream, size, part, status);
    }
    QuotientIs(MaxFrameSize, size, parts);
    WholeMore(parts, size);
    LineWithin(all);
  }

  lemma WholeMore(parts: nat, size: nat)
    ensures (parts + 1) * size == Whole(parts, size) + size && Whole(0, size) == 0
  {
  }

  lemma LineWithin(s: string)
    ensures Line(s) <= |s|
  {
  }

  lemma MayBeBroken(all: string, rest: string, size: nat, failed: bool, broken: bool)
    requires size > 0 && Overran(all, rest, size, failed) && (failed ==> broken)
    ensures Overran(all, rest, size, broken)
  {
  }

  lemma WholePart(stream: string, part: string, size: nat, parts: nat)
    requires size > 0 && IsSlice(stream, size, part, BufferFull)
    ensures Whole(parts, size) + |part| == Whole(parts + 1, size)
  {
    hide IsSlice;
    SliceLength(stream, size, part, BufferFull);
  }

  /** What the first frame is once its line has been gathered. */
  predicate IsLineEnd(all: string, frame: string, found: bool, valid: string -> bool) {
    if frame == "" then !found && NextFrame(all, valid) == End
    else
      && (frame[|frame| - 1] == '\n' <==> found)
      && var bytes := if found then frame[..|frame| - 1] else frame;
      NextFrame(all, valid) == if valid(bytes) then Frame(bytes) else Malformed
  }

  /** A whole line has been gathered, or what is left of the stream. */
  lemma AtLineEnd(all: string, frame: string, rest: string, found: bool, valid: string -> bool)
    requires all == frame + rest && |frame| <= MaxFrameSize
    requires found ==> frame != "" && NewlineAt(all) == |frame| - 1 && Line(all) == |frame|
    requires !found ==> rest == "" && NewlineAt(frame) == |frame|
    ensures rest == AfterLine(all) && IsLineEnd(all, frame, found, valid)
  {
    if found {
      assert all[..|frame| - 1] == frame[..|frame| - 1];
      assert all[|frame| - 1] == frame[|frame| - 1];
    } else {
      assert all == frame && all[..|frame|] == frame;
    }
  }

  lemma IsTooLong(all: string, valid: string -> bool)
    requires Line(all) > MaxFrameSize
    ensures NextFrame(all, valid) == TooLong
  {
  }

  /** What has been gathered of a line: whole buffers, and no newline. */
  ghost predicate HasGathered(all: string, frame: string, rest: string, parts: nat, size: nat) {
    size > 0 && all == frame + rest && NewlineAt(frame) == |frame| == Whole(parts, size) <= MaxFrameSize
  }

  lemma NothingGathered(all: string, size: nat)
    requires size > 0
    ensures HasGathered(all, "", all, 0, size)
  {
    assert "" + all == all;
  }

  /** What one more part of the line leads to. */
  lemma Parts(all: string, frame: string, stream: string, part: string, rest: string,
              parts: nat, status: Status, size: nat, valid: string -> bool)
    requires HasGathered(all, frame, stream, parts, size) && stream == part + rest
    requires if status == Failed then NewlineAt(part) == |part| <= size else IsSlice(stream, size, part, status)
    ensures |frame| + |part| > MaxFrameSize ==>
      NextFrame(all, valid) == TooLong && Overran(all, rest, size, status == Failed)
    ensures |frame| + |part| <= MaxFrameSize && status == BufferFull ==>
      HasGathered(all, frame + part, rest, parts + 1, size) && |rest| < |stream|
    ensures |frame| + |part| <= MaxFrameSize && (status == Found || status == AtEnd) ==>
      rest == AfterLine(all) && IsLineEnd(all, frame + part, status == Found, valid)
  {
    hide *;
    Unpacked(all, frame, stream, parts, size);
    Gathered(all, frame, stream, part, rest, status, size);
    if |frame| + |part| > MaxFrameSize {
      IsTooLong(all, valid);
      ExceededAt(all, frame, parts, stream, part, rest, status, size);
    } else if status == BufferFull {
      WholePart(stream, part, size, parts);
      Packed(all, frame + part, rest, parts + 1, size);
    } else if status != Failed {
      AtLineEnd(all, frame + part, rest, status == Found, valid);
    }
  }

  lemma Unpacked(all: string, frame: string, rest: string, parts: nat, size: nat)
    requires HasGathered(all, frame, rest, parts, size)
    ensures size > 0 && all == frame + rest && NewlineAt(frame) == |frame| == Whole(parts, size) <= MaxFrameSize
  {
    hide NewlineAt, Whole;
  }

  lemma Packed(all: string, frame: string, rest: string, parts: nat, size: nat)
    requires size > 0 && all == frame + rest && NewlineAt(frame) == |frame| == Whole(parts, size) <= MaxFrameSize
    ensures HasGathered(all, frame, rest, parts, size)
  {
    hide NewlineAt, Whole;
  }

  // ----- The decoder -----------------------------------------------------------------------------------

  class Decoder {
    const reader: Reader
    const valid: string -> bool

    constructor (reader: Reader, valid: string -> bool)
      ensures this.reader == reader && this.valid == valid
    {
      this.reader, this.valid := reader, valid;
    }

    /** Decode, up to the frame's bytes: they depend neither on the buffer's size nor on how the bytes came in. */
    method Decode() returns (r: Outcome)
      requires reader.Valid()
      modifies reader
      ensures reader.Valid()
      ensures r != Broken ==> r == NextFrame(old(reader.Stream()), valid)
      ensures r != Broken && r != TooLong ==> reader.Stream() == AfterLine(old(reader.Stream()))
      ensures r == Broken ==> reader.broken
      ensures r == TooLong ==> Overran(old(reader.Stream()), reader.Stream(), reader.size, reader.broken)
    {
      hide HasGathered, Overran, NextFrame, AfterLine, Line, NewlineAt, Whole, IsSlice, Reader.Stream;
      ghost var all, parts: nat := reader.Stream(), 0;
      var frame := "";
      NothingGathered(all, reader.size);
      while true
        invariant reader.Valid() && HasGathered(all, frame, reader.Stream(), parts, reader.size)
        decreases |reader.Stream()|
      {
        ghost var stream := reader.Stream();
        var part, status := reader.ReadSlice();
        ghost var rest := reader.Stream();
        Parts(all, frame, stream, part, rest, parts, status, reader.size, valid);
        if |frame| + |part| > MaxFrameSize {
          MayBeBroken(all, rest, reader.size, status == Failed, reader.broken);
          return TooLong;
        }
        frame := frame + part;
        if status == BufferFull {
          parts := parts + 1;
          continue;
        }
        if status == Failed {
          return Broken;
        }
        r := End;
        if |frame| == 0 && status == AtEnd {
          return;
        }
        break;
      }
      r := Check(frame);
    }

    /** The frame without its newline, if it is valid. */
    method Check(line: string) returns (r: Outcome)
      requires line != ""
      ensures forall all, found | IsLineEnd(all, line, found, valid) :: r == NextFrame(all, valid)
    {
      var frame := line;
      if frame[|frame| - 1] == '\n' {
        frame := frame[..|frame| - 1];
      }
      r := if valid(frame) then Frame(frame) else Malformed;
    }
  }

  // ----- The encoder and the round trip ----------------------------------------------------------------

  /** What the encoder can write as one frame. */
  predicate IsFrame(bytes: string, valid: string -> bool) {
    valid(bytes) && '\n' !in bytes
  }

  class Encoder {
    var written: string
    var failed: bool

    constructor ()
      ensures written == "" && !failed
    {
      written, failed := "", false;
    }

    /** Encode, from the marshalled value on. */
    method Encode(frame: string) returns (ok: bool)
      modifies this
      ensures |frame| + 1 > 1048576 ==> !ok && written == old(written) && failed == old(failed)
      ensures ok ==> written == old(written) + frame + "\n" && !failed
      ensures !ok ==> written <= old(written) + frame + "\n" && (|frame| + 1 > 1048576 || failed)
    {
      if |frame| + 1 > MaxFrameSize {
        return false;
      }
      if failed {
        return false;
      }
      var line := frame + "\n";
      ghost var before := written;
      var n :| 0 <= n <= |line|;
      written := written + line[..n];
      failed := n < |line|;
      ok := !failed;
      assert before + frame + "\n" == before + line;
    }
  }

  /** Encoder and decoder agree on the limit to the byte. */
  lemma LimitAgrees(bytes: string, rest: string, valid: string -> bool)
    requires IsFrame(bytes, valid)
    ensures NextFrame(bytes + "\n" + rest, valid) == if |bytes| + 1 > 1048576 then TooLong else Frame(bytes)
    ensures AfterLine(bytes + "\n" + rest) == rest
  {
    var all := bytes + "\n" + rest;
    NoNewline(bytes);
    assert all == bytes + ("\n" + rest);
    NewlineJoins(bytes, "\n" + rest);
    assert ("\n" + rest)[0] == '\n' && NewlineAt("\n" + rest) == 0;
    assert all[..|bytes|] == bytes && all[|bytes| + 1..] == rest;
  }

  lemma NoNewline(s: string)
    requires '\n' !in s
    ensures NewlineAt(s) == |s|
  {
  }

  function Encoded(frames: seq<string>): string {
    if frames == [] then "" else frames[0] + "\n" + Encoded(frames[1..])
  }

  /** All frames of a stream, and what comes after the last. */
  function Frames(stream: string, valid: string -> bool): (seq<string>, Outcome)
    decreases |stream|
  {
    var first := NextFrame(stream, valid);
    if !first.Frame? then ([], first)
    else var (rest, end) := Frames(AfterLine(stream), valid); ([first.bytes] + rest, end)
  }

  /** What the encoder has written is decoded to the same frames, and then the stream ends. */
  lemma {:induction false} FramesRoundTrip(frames: seq<string>, valid: string -> bool)
    requires forall i | 0 <= i < |frames| :: IsFrame(frames[i], valid) && |frames[i]| + 1 <= 1048576
    ensures Frames(Encoded(frames), valid) == (frames, End)
    decreases |frames|
  {
    hide NextFrame, AfterLine, IsFrame;
    if frames == [] {
      NothingLeft(valid);
    } else {
      var rest := Encoded(frames[1..]);
      var stream := frames[0] + "\n" + rest;
      LimitAgrees(frames[0], rest, valid);
      FramesRoundTrip(frames[1..], valid);
      assert [frames[0]] + frames[1..] == frames;
    }
  }

  lemma NothingLeft(valid: string -> bool)
    ensures NextFrame("", valid) == End
  {
  }

  /** A client that writes frames, and a server that reads them to the end over a connection of its own pace. */
  method Converse(frames: seq<string>, size: nat, valid: string -> bool) returns (received: seq<string>, last: Outcome)
    requires size > 0
    requires forall i | 0 <= i < |frames| :: IsFrame(frames[i], valid) && |frames[i]| + 1 <= 1048576
    ensures received <= frames && (last == End || last == Broken)
    ensures last == End ==> received == frames
  {
    hide *;
    var reader := new Reader(size, Encoded(frames));
    var decoder := new Decoder(reader, valid);
    received, last := [], End;
    FramesRoundTrip(frames, valid);
    ghost var left := frames;
    while true
      invariant reader.Valid() && received + left == frames
      invariant Frames(reader.Stream(), valid) == (left, End)
      decreases |left|
    {
      FramesStep(reader.Stream(), valid);
      last := decoder.Decode();
      match last
      case Frame(bytes) =>
        Moved(received, left);
        received, left := received + [bytes], left[1..];
      case _ => return;
    }
  }

  lemma Moved(received: seq<string>, left: seq<string>)
    requires left != []
    ensures received + [left[0]] + left[1..] == received + left
  {
  }

  lemma FramesStep(stream: string, valid: string -> bool)
    ensures var first, (frames, end) := NextFrame(stream, valid), Frames(stream, valid);
      if first.Frame? then
        frames != [] && frames[0] == first.bytes && Frames(AfterLine(stream), valid) == (frames[1..], end)
      else frames == [] && end == first
  {
  }
}
