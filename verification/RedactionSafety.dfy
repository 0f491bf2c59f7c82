/** When redaction keeps a private ID from its reader, and when it lets the ID through. */
module RedactionSafety {
  import opened Redaction
  import opened RedactingWriter

  ghost predicate Occurs(s: string, secret: string) {
    exists i :: OccursAt(s, secret, i)
  }

  /** The secret laid over the mask at d agrees with it wherever both have a byte. */
  predicate Fits(secret: string, d: int) {
    forall i | 0 <= i < |secret| && 0 <= d + i < |Mask| :: secret[i] == Mask[d + i]
  }

  /** A text in which the secret and the mask share a byte can have both. */
  predicate MeetsMask(secret: string) {
    exists d | -|secret| < d < |Mask| :: Fits(secret, d)
  }

  // ----- The first occurrence --------------------------------------------------------------------------

  ghost predicate IsFirst(s: string, secret: string, m: nat) {
    OccursAt(s, secret, m) && forall i | 0 <= i < m :: !OccursAt(s, secret, i)
  }

  lemma {:induction false} FirstOccurrence(s: string, secret: string, i: nat) returns (m: nat)
    requires OccursAt(s, secret, i)
    ensures m <= i && IsFirst(s, secret, m)
    decreases i
  {
    hide OccursAt;
    if j :| 0 <= j < i && OccursAt(s, secret, j) {
      m := FirstOccurrence(s, secret, j);
    } else {
      m := i;
    }
  }

  /** Redaction keeps what comes before the first occurrence. */
  lemma {:induction false} RedactFirst(s: string, secret: string, m: nat)
    requires secret != "" && IsFirst(s, secret, m)
    ensures m + |secret| <= |s|
    ensures Redact(s, secret) == s[..m] + "[backend-id-redacted]" + Redact(s[m + |secret|..], secret)
    decreases m
  {
    hide Redact;
    if m == 0 {
      RedactMatch(s, secret);
      assert s[..0] + Mask == Mask;
    } else {
      forall i | 0 <= i < m
        ensures OccursAt(s[1..], secret, i) <==> OccursAt(s, secret, i + 1)
      {
        OccursLater(s, secret, 1, i);
      }
      OccursLater(s, secret, 1, m - 1);
      RedactStep(s, secret);
      RedactFirst(s[1..], secret, m - 1);
      var rest := Redact(s[m + |secret|..], secret);
      assert s[1..][m - 1 + |secret|..] == s[m + |secret|..];
      assert [s[0]] + (s[1..][..m - 1] + Mask + rest) == [s[0]] + s[1..][..m - 1] + Mask + rest;
      assert [s[0]] + s[1..][..m - 1] == s[..m];
    }
  }

  lemma {:induction false} RedactNothing(s: string, secret: string)
    requires !Occurs(s, secret)
    ensures Redact(s, secret) == s
    decreases |s|
  {
    hide Redact, OccursAt;
    if s == "" {
      RedactShort(s, secret);
    } else {
      RedactStep(s, secret);
      if i :| OccursAt(s[1..], secret, i) {
        OccursLater(s, secret, 1, i);
        assert false;
      }
      RedactNothing(s[1..], secret);
    }
  }

  // ----- What redaction hides --------------------------------------------------------------------------

  /** An occurrence in u + Mask + v that shares a byte with the mask. */
  lemma SharesByte(u: string, v: string, secret: string, i: int)
    requires OccursAt(u + Mask + v, secret, i) && |u| - |secret| < i < |u| + |Mask|
    ensures MeetsMask(secret)
  {
    var s, d := u + Mask + v, i - |u|;
    forall j | 0 <= j < |secret| && 0 <= d + j < |Mask|
      ensures secret[j] == Mask[d + j]
    {
      assert secret[j] == s[i..i + |secret|][j] == s[i + j] == Mask[d + j];
    }
    assert Fits(secret, d);
  }

  lemma OccursBefore(u: string, w: string, secret: string, i: int)
    requires OccursAt(u + w, secret, i) && i + |secret| <= |u|
    ensures OccursAt(u, secret, i)
  {
    OccursEarlier(u, w, secret, i);
  }

  /**
    What occurs in a redacted text and does not meet the mask occurred before, and is not what was
    redacted.
   */
  lemma {:induction false} OccurredBefore(s: string, secret: string, other: string, i: int) returns (j: int)
    requires other != "" && !MeetsMask(other) && OccursAt(Redact(s, secret), other, i)
    ensures OccursAt(s, other, j) && other != secret
    decreases |s|
  {
    hide Redact, OccursAt, MeetsMask;
    if secret == "" {
      RedactShort(s, secret);
      return i;
    }
    if !Occurs(s, secret) {
      RedactNothing(s, secret);
      return i;
    }
    var k :| OccursAt(s, secret, k);
    OccursWithin(s, secret, k);
    var m := FirstOccurrence(s, secret, k);
    RedactFirst(s, secret, m);
    var u, after := s[..m], s[m + |secret|..];
    var v := Redact(after, secret);
    OccursWithin(u + Mask + v, other, i);
    if i + |other| <= m {
      assert u + Mask + v == u + (Mask + v);
      OccursBefore(u, Mask + v, other, i);
      OccursEarlier(u, s[m..], other, i);
      assert u + s[m..] == s;
      j := i;
    } else if i < m + |Mask| {
      SharesByte(u, v, other, i);
      assert false;
    } else {
      assert (u + Mask + v)[m + |Mask|..] == v;
      OccursLater(u + Mask + v, other, m + |Mask|, i - m - |Mask|);
      j := OccurredBefore(after, secret, other, i - m - |Mask|);
      OccursWithin(after, other, j);
      OccursLater(s, other, m + |secret|, j);
      j := j + m + |secret|;
    }
  }

  /** A secret that does not meet the mask is gone from the redacted text. */
  lemma RedactHides(s: string, secret: string)
    requires secret != "" && !MeetsMask(secret)
    ensures !Occurs(Redact(s, secret), secret)
  {
    hide Redact, OccursAt, MeetsMask;
    if i :| OccursAt(Redact(s, secret), secret, i) {
      var j := OccurredBefore(s, secret, secret, i);
      assert false;
    }
  }

  /** After redaction with several secrets none of those that do not meet the mask is left. */
  lemma {:induction false} RedactManyHides(s: string, secrets: seq<string>, secret: string)
    requires secret != "" && !MeetsMask(secret) && (secret in secrets || !Occurs(s, secret))
    ensures !Occurs(RedactMany(s, secrets), secret)
    decreases |secrets|
  {
    hide Redact, OccursAt, MeetsMask;
    if secrets != [] {
      if i :| OccursAt(Redact(s, secrets[0]), secret, i) {
        var j := OccurredBefore(s, secrets[0], secret, i);
        assert secret in secrets[1..];
      }
      RedactManyHides(Redact(s, secrets[0]), secrets[1..], secret);
    }
  }

  // ----- What it lets through ------------------------------------------------------------------------------

  /** The bytes of the secret before and after those that the mask has. */
  function Before(secret: string, d: int): string
    requires -|secret| < d
  {
    secret[..if d < 0 then -d else 0]
  }

  function After(secret: string, d: int): string
    requires d < |Mask|
  {
    secret[if |Mask| - d < |secret| then |Mask| - d else |secret|..]
  }

  /** The secret with the bytes around it that make the mask into the secret when laid over it at d. */
  function Around(secret: string, d: int): string
    requires -|secret| < d < |Mask|
  {
    Before(secret, d) + secret + After(secret, d)
  }

  /** An unbordered secret occurs once among less than itself on either side. */
  lemma OnlyOccurrence(x: string, secret: string, y: string)
    requires Unbordered(secret) && secret != "" && |x| < |secret| && |y| < |secret|
    ensures Redact(x + secret + y, secret) == x + Mask + y
  {
    hide Redact, Unbordered;
    var s := x + secret + y;
    assert OccursAt(s, secret, |x|);
    forall i | 0 <= i < |x|
      ensures !OccursAt(s, secret, i)
    {
      UnborderedApart(s, secret, i, |x|);
    }
    RedactFirst(s, secret, |x|);
    assert s[..|x|] == x && s[|x| + |secret|..] == y;
    RedactShort(y, secret);
  }

  lemma ByteOf(x: string, y: string, secret: string, d: int, j: nat)
    requires -|secret| < d < |Mask| && Fits(secret, d) && j < |secret|
    requires x == Before(secret, d) && y == After(secret, d)
    ensures |x| + d >= 0 && |x| + d + j < |x + Mask + y| && (x + Mask + y)[|x| + d + j] == secret[j]
  {
    var i := |x| + d + j;
    if d + j < 0 {
      assert (x + Mask + y)[i] == x[i];
    } else if d + j < |Mask| {
      assert (x + Mask + y)[i] == Mask[d + j];
    } else {
      assert (x + Mask + y)[i] == y[d + j - |Mask|];
    }
  }

  lemma MaskBecomes(secret: string, d: int)
    requires secret != "" && -|secret| < d < |Mask| && Fits(secret, d)
    ensures var x, y := Before(secret, d), After(secret, d);
      |x| < |secret| && |y| < |secret| && OccursAt(x + Mask + y, secret, |x| + d)
  {
    hide Fits;
    var x, y := Before(secret, d), After(secret, d);
    var s, at := x + Mask + y, |x| + d;
    ByteOf(x, y, secret, d, |secret| - 1);
    forall j | 0 <= j < |secret|
      ensures s[at..at + |secret|][j] == secret[j]
    {
      ByteOf(x, y, secret, d, j);
    }
    assert s[at..at + |secret|] == secret;
  }

  /** Redaction hides an unbordered secret in every text if and only if it does not meet the mask. */
  lemma HidesExactly(secret: string)
    requires secret != "" && Unbordered(secret)
    ensures (forall s :: !Occurs(Redact(s, secret), secret)) <==> !MeetsMask(secret)
  {
    hide Redact, OccursAt, Unbordered;
    if MeetsMask(secret) {
      var d :| -|secret| < d < |Mask| && Fits(secret, d);
      Lets(secret, d);
    } else {
      forall s
        ensures !Occurs(Redact(s, secret), secret)
      {
        RedactHides(s, secret);
      }
    }
  }

  lemma Lets(secret: string, d: int)
    requires secret != "" && Unbordered(secret) && -|secret| < d < |Mask| && Fits(secret, d)
    ensures Occurs(Redact(Around(secret, d), secret), secret)
  {
    hide Redact, OccursAt, Unbordered, Fits;
    MaskBecomes(secret, d);
    OnlyOccurrence(Before(secret, d), secret, After(secret, d));
  }

  // ----- The streaming writer --------------------------------------------------------------------------

  /** The stream that breaks a bordered secret shows it to the reader. */
  lemma BorderShows(secret: string, m: nat)
    requires IsBorder(secret, m) && 2 * m <= |secret|
    ensures Occurs(Streamed(secret, "", Breaking(secret, m)), secret)
  {
    hide Streamed, OccursAt, IsBorder, Breaking;
    var tail := secret[m..];
    var s := Mask + tail + tail;
    BreakingStreamed(secret, m);
    OccursInTails(secret, m);
    assert s[|Mask|..] == tail + tail;
    OccursLater(s, secret, |Mask|, |secret| - 2 * m);
  }

  /**
    The writer keeps an ID from its reader, however the stream is cut and whatever it holds, if and
    only if the ID has no border and does not meet the mask.
   */
  lemma NeverShownExactly(secret: string)
    requires secret != ""
    ensures (forall chunks :: !Occurs(Streamed(secret, "", chunks), secret)) <==>
      Unbordered(secret) && !MeetsMask(secret)
  {
    hide Redact, OccursAt, Streamed, MeetsMask, IsBorder;
    if !Unbordered(secret) {
      var m0 :| IsBorder(secret, m0);
      BorderWithin(secret, m0);
      var m := HalfBorder(secret, m0);
      BorderShows(secret, m);
    } else {
      HidesExactly(secret);
      if MeetsMask(secret) {
        var s :| Occurs(Redact(s, secret), secret);
        Whole(secret, [s]);
        JoinOne(s);
        assert Occurs(Streamed(secret, "", [s]), secret);
      } else {
        forall chunks
          ensures !Occurs(Streamed(secret, "", chunks), secret)
        {
          Whole(secret, chunks);
          assert !Occurs(Redact(Join(chunks), secret), secret);
        }
      }
    }
  }

  lemma Whole(secret: string, chunks: seq<string>)
    requires Unbordered(secret)
    ensures Streamed(secret, "", chunks) == Redact(Join(chunks), secret)
  {
    StreamedWhole(secret, "", chunks);
    assert "" + Join(chunks) == Join(chunks);
  }

  lemma BorderWithin(secret: string, m: int)
    requires IsBorder(secret, m)
    ensures 0 < m < |secret|
  {
  }

  lemma JoinOne(s: string)
    ensures Join([s]) == s
  {
  }
}
