/**
  The streaming redactor of internal/backend/windmill/windmill.go: how much of its buffer a writer
  passes on to see a private ID cut by the transport, and what comes of a whole stream.
 */
module RedactingWriter {
  import opened Redaction

  // ----- How much of a buffer may be passed on ---------------------------------------------------

  function Keep(secret: string): nat {
    if secret == "" then 0 else |secret| - 1
  }

  /** The scan for matches around the boundary: a match at start moves the boundary to its end. */
  function Extend(buffer: string, secret: string, start: int, flush: int): (f: int)
    requires flush <= |buffer|
    ensures flush <= |buffer| && flush - |secret| < start ==> flush <= f
    ensures f <= |buffer|
    decreases |buffer| - start
  {
    if start >= flush then flush
    else Extend(buffer, secret, start + 1, if OccursAt(buffer, secret, start) then start + |secret| else flush)
  }

  /** The number of bytes passed on out of a buffer. */
  function FlushPoint(buffer: string, secret: string): (f: nat)
    ensures f <= |buffer| && |buffer| - f <= Keep(secret)
  {
    var keep := Keep(secret);
    if |buffer| <= keep then 0
    else if secret == "" then |buffer|
    else Extend(buffer, secret, |buffer| - keep - |secret| + 1, |buffer| - keep)
  }

  lemma {:induction false} ExtendStops(buffer: string, secret: string, start: int, flush: int)
    requires secret != "" && flush - |secret| < start <= flush <= |buffer|
    ensures var f := Extend(buffer, secret, start, flush);
      && (f == flush || (start <= f - |secret| && OccursAt(buffer, secret, f - |secret|)))
      && forall i | start <= i < f && OccursAt(buffer, secret, i) :: i + |secret| <= f
    decreases |buffer| - start
  {
    hide OccursAt;
    if start < flush {
      OccursWithin(buffer, secret, start);
      ExtendStops(buffer, secret, start + 1, if OccursAt(buffer, secret, start) then start + |secret| else flush);
    }
  }

  /** With an unbordered secret no occurrence crosses the flush point, whatever bytes come later. */
  lemma FlushPointSafe(buffer: string, secret: string, future: string)
    requires Unbordered(secret)
    ensures var f := FlushPoint(buffer, secret); CrossesNot(buffer[..f], buffer[f..] + future, secret)
  {
    hide OccursAt, Unbordered;
    var n := |secret|;
    var f := FlushPoint(buffer, secret);
    assert buffer[..f] + (buffer[f..] + future) == buffer + future;
    var f0 := |buffer| - n + 1;
    if n > 0 && f0 > 0 {
      ExtendStops(buffer, secret, f0 - n + 1, f0);
    }
    forall i | i < f < i + n
      ensures !OccursAt(buffer + future, secret, i)
    {
      OccursWithin(buffer + future, secret, i);
      if f > 0 {
        if i + n <= |buffer| {
          OccursEarlier(buffer, future, secret, i);
        } else {
          OccursEarlier(buffer, future, secret, f - n);
          UnborderedApart(buffer + future, secret, f - n, i);
        }
      }
    }
  }

  lemma FlushRedacts(buffer: string, secret: string, future: string)
    requires Unbordered(secret)
    ensures var f := FlushPoint(buffer, secret);
      Redact(buffer + future, secret) == Redact(buffer[..f], secret) + Redact(buffer[f..] + future, secret)
  {
    hide *;
    var f := FlushPoint(buffer, secret);
    FlushPointSafe(buffer, secret, future);
    RedactSplits(buffer[..f], buffer[f..] + future, secret);
    assert buffer[..f] + (buffer[f..] + future) == buffer + future;
  }

  // ----- One writer over a whole stream ------------------------------------------------------------

  function Join(chunks: seq<string>): string {
    if chunks == [] then "" else chunks[0] + Join(chunks[1..])
  }

  /** What reaches the destination when the chunks are written after `pending` and the writer is closed. */
  function Streamed(secret: string, pending: string, chunks: seq<string>): string
    decreases |chunks|
  {
    if chunks == [] then Redact(pending, secret)
    else
      var buffer := pending + chunks[0];
      var f := FlushPoint(buffer, secret);
      Redact(buffer[..f], secret) + Streamed(secret, buffer[f..], chunks[1..])
  }

  lemma {:induction false} StreamedWhole(secret: string, pending: string, chunks: seq<string>)
    requires Unbordered(secret)
    ensures Streamed(secret, pending, chunks) == Redact(pending + Join(chunks), secret)
    decreases |chunks|
  {
    hide Redact, FlushPoint, Unbordered;
    if chunks == [] {
      assert pending + "" == pending;
    } else {
      var buffer := pending + chunks[0];
      var rest := Join(chunks[1..]);
      FlushRedacts(buffer, secret, rest);
      StreamedWhole(secret, buffer[FlushPoint(buffer, secret)..], chunks[1..]);
      assert pending + (chunks[0] + rest) == buffer + rest;
    }
  }

  /** However the stream is cut into chunks, the destination receives the redaction of the whole. */
  ghost predicate ChunkIndependent(secret: string) {
    forall chunks :: Streamed(secret, "", chunks) == Redact(Join(chunks), secret)
  }

  lemma ChunkIndependentExactly(secret: string)
    ensures ChunkIndependent(secret) <==> Unbordered(secret)
  {
    if Unbordered(secret) {
      forall chunks
        ensures Streamed(secret, "", chunks) == Redact(Join(chunks), secret)
      {
        StreamedWhole(secret, "", chunks);
        assert "" + Join(chunks) == Join(chunks);
      }
    } else {
      var m0 :| IsBorder(secret, m0);
      var m := HalfBorder(secret, m0);
      BorderBreaks(secret, m);
    }
  }

  /** A bordered secret has a border no longer than half of it. */
  lemma {:induction false} HalfBorder(secret: string, m: nat) returns (k: nat)
    requires IsBorder(secret, m)
    ensures IsBorder(secret, k) && 2 * k <= |secret|
    decreases m
  {
    var n := |secret|;
    if 2 * m <= n {
      return m;
    }
    var d := n - m;
    var m' := m - d;
    assert secret[..m'] == secret[2 * d..] by {
      forall i | 0 <= i < m'
        ensures secret[i] == secret[i + 2 * d]
      {
        assert secret[..m][i] == secret[d..][i];
        assert secret[..m][i + d] == secret[d..][i + d];
      }
    }
    k := HalfBorder(secret, m');
  }

  /** A stream that a bordered secret breaks: the secret, and twice what follows its border. */
  function Breaking(secret: string, m: nat): seq<string>
    requires m <= |secret|
  {
    [secret + secret[m..], secret[m..]]
  }

  lemma BorderBreaks(secret: string, m: nat)
    requires IsBorder(secret, m) && 2 * m <= |secret|
    ensures Streamed(secret, "", Breaking(secret, m)) != Redact(Join(Breaking(secret, m)), secret)
  {
    hide Redact, Streamed, Join, IsBorder, FlushPoint, Breaking;
    var tail := secret[m..];
    var x := tail + tail;
    BreakingStreamed(secret, m);
    BreakingJoined(secret, m);
    assert OccursAt(secret + x, secret, 0) && (secret + x)[|secret|..] == x;
    OccursInTails(secret, m);
    RedactMatch(secret + x, secret);
    MaskUnbordered(secret, m);
    RedactChanges(x, secret, |secret| - 2 * m);
    Associate(Mask, tail, tail);
    assert (Mask + x)[|Mask|..] == x && (Mask + Redact(x, secret))[|Mask|..] == Redact(x, secret);
  }

  lemma BreakingJoined(secret: string, m: nat)
    requires m <= |secret|
    ensures Join(Breaking(secret, m)) == secret + (secret[m..] + secret[m..])
  {
    var tail := secret[m..];
    assert Join([tail]) == tail;
    assert Breaking(secret, m)[1..] == [tail];
    Associate(secret, tail, tail);
  }

  lemma OccursInTails(secret: string, m: nat)
    requires IsBorder(secret, m) && 2 * m <= |secret|
    ensures OccursAt(secret[m..] + secret[m..], secret, |secret| - 2 * m) && secret != ""
  {
  }

  lemma BreakingStreamed(secret: string, m: nat)
    requires IsBorder(secret, m) && 2 * m <= |secret|
    ensures Streamed(secret, "", Breaking(secret, m)) == Mask + secret[m..] + secret[m..]
  {
    hide Redact, IsBorder, FlushPoint;
    var tail := secret[m..];
    var b := secret + tail;
    FlushAll(secret, m);
    assert "" + b == b && b[|b|..] == "" && b[..|b|] == b;
    assert Breaking(secret, m)[1..] == [tail];
    StreamedTail(secret, m);
    assert OccursAt(b, secret, 0) && b[|secret|..] == tail;
    RedactMatch(b, secret) by {
      OccursInTails(secret, m);
    }
    RedactShort(tail, secret);
  }

  lemma FlushAll(secret: string, m: nat)
    requires IsBorder(secret, m) && 2 * m <= |secret|
    ensures var b := secret + secret[m..]; FlushPoint(b, secret) == |b|
    ensures |secret[m..]| < |secret| && FlushPoint(secret[m..], secret) == 0
  {
    var n := |secret|;
    var b := secret + secret[m..];
    var f0 := n - m + 1;
    assert b[n - m..2 * n - m] == secret[n - m..] + secret[m..];
    assert secret[..m] + secret[m..] == secret;
    assert OccursAt(b, secret, n - m);
    ExtendStops(b, secret, f0 - n + 1, f0);
  }

  lemma StreamedTail(secret: string, m: nat)
    requires IsBorder(secret, m) && 2 * m <= |secret|
    ensures Streamed(secret, "", [secret[m..]]) == secret[m..]
  {
  }

  lemma MaskUnbordered(secret: string, m: nat)
    requires IsBorder(secret, m)
    ensures secret != Mask
  {
    assert secret[..m][0] == secret[|secret| - m..][0];
    assert forall i | 1 <= i < |Mask| :: Mask[i] != Mask[0];
  }

  lemma {:induction false} RedactLength(s: string, secret: string)
    ensures |secret| <= |Mask| ==> |s| <= |Redact(s, secret)|
    ensures |secret| >= |Mask| ==> |s| >= |Redact(s, secret)|
    decreases |s|
  {
    if secret != "" && |s| >= |secret| {
      if OccursAt(s, secret, 0) {
        RedactLength(s[|secret|..], secret);
      } else {
        RedactLength(s[1..], secret);
      }
    }
  }

  /** A text in which a secret other than the mask occurs is changed by redaction. */
  lemma {:induction false} RedactChanges(s: string, secret: string, i: nat)
    requires secret != "" && secret != Mask && OccursAt(s, secret, i)
    ensures Redact(s, secret) != s
    decreases |s|
  {
    hide Redact;
    var n := |secret|;
    if OccursAt(s, secret, 0) {
      RedactMatch(s, secret);
      RedactLength(s[n..], secret);
      assert n == |Mask| ==> Redact(s, secret)[0..n] == Mask && s[0..n] == secret;
    } else {
      RedactStep(s, secret);
      assert s[1..][i - 1..i - 1 + n] == s[i..i + n];
      RedactChanges(s[1..], secret, i - 1);
    }
  }
}
