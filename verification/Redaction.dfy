/** Replacing a private ID in a text (internal/backend/windmill/windmill.go), as a function. */
module Redaction {

  const Mask := "[backend-id-redacted]"

  predicate OccursAt(s: string, secret: string, i: int) {
    0 <= i && i + |secret| <= |s| && s[i..i + |secret|] == secret
  }

  /** strings.ReplaceAll(value, secret, Mask); an empty secret replaces nothing. */
  function Redact(value: string, secret: string): string {
    if secret == "" || |value| < |secret| then value
    else if OccursAt(value, secret, 0) then Mask + Redact(value[|secret|..], secret)
    else [value[0]] + Redact(value[1..], secret)
  }

  /** Applying the secrets one after another. */
  function RedactMany(value: string, secrets: seq<string>): string
    decreases |secrets|
  {
    if secrets == [] then value else RedactMany(Redact(value, secrets[0]), secrets[1..])
  }

  /** A proper non-empty prefix of the secret that is also its suffix. */
  predicate IsBorder(secret: string, m: int) {
    0 < m < |secret| && secret[..m] == secret[|secret| - m..]
  }

  ghost predicate Unbordered(secret: string) {
    forall m :: !IsBorder(secret, m)
  }

  /** No occurrence of the secret in a + b crosses from a into b. */
  ghost predicate CrossesNot(a: string, b: string, secret: string) {
    forall i | i < |a| < i + |secret| :: !OccursAt(a + b, secret, i)
  }

  /** Where no occurrence crosses the cut, the two sides can be redacted apart. */
  lemma {:induction false} RedactSplits(a: string, b: string, secret: string)
    requires CrossesNot(a, b, secret)
    ensures Redact(a + b, secret) == Redact(a, secret) + Redact(b, secret)
    decreases |a|
  {
    hide Redact;
    var n := |secret|;
    if a == "" {
      assert a + b == b;
      RedactShort("", secret);
    } else if n > 0 && OccursAt(a + b, secret, 0) {
      assert |a| >= n && (a + b)[0..n] == a[0..n];
      assert (a + b)[n..] == a[n..] + b;
      RedactMatch(a + b, secret);
      RedactMatch(a, secret);
      CrossesNotAfter(a, b, secret, n);
      RedactSplits(a[n..], b, secret);
      Associate(Mask, Redact(a[n..], secret), Redact(b, secret));
    } else {
      RedactStep(a + b, secret);
      RedactStep(a, secret) by {
        assert n <= |a| ==> (a + b)[0..n] == a[0..n];
      }
      assert (a + b)[1..] == a[1..] + b;
      CrossesNotAfter(a, b, secret, 1);
      RedactSplits(a[1..], b, secret);
      Associate([a[0]], Redact(a[1..], secret), Redact(b, secret));
    }
  }

  lemma Associate(x: string, y: string, z: string)
    ensures x + (y + z) == x + y + z
  {
  }

  lemma RedactShort(s: string, secret: string)
    requires secret == "" || |s| < |secret| || s == ""
    ensures Redact(s, secret) == s
  {
  }

  lemma RedactMatch(s: string, secret: string)
    requires secret != "" && OccursAt(s, secret, 0)
    ensures Redact(s, secret) == Mask + Redact(s[|secret|..], secret)
  {
  }

  /** A byte at which no occurrence starts is kept. */
  lemma RedactStep(s: string, secret: string)
    requires s != "" && (secret == "" || !OccursAt(s, secret, 0))
    ensures Redact(s, secret) == [s[0]] + Redact(s[1..], secret)
  {
  }

  lemma CrossesNotAfter(a: string, b: string, secret: string, d: nat)
    requires d <= |a| && CrossesNot(a, b, secret)
    ensures CrossesNot(a[d..], b, secret)
  {
    hide OccursAt;
    forall i | i < |a| - d < i + |secret|
      ensures !OccursAt(a[d..] + b, secret, i)
    {
      assert a[d..] + b == (a + b)[d..];
      OccursLater(a + b, secret, d, i);
    }
  }

  lemma OccursWithin(s: string, secret: string, i: int)
    ensures OccursAt(s, secret, i) ==> 0 <= i && i + |secret| <= |s|
  {
  }

  /** Dropping d bytes moves the occurrences by d. */
  lemma OccursLater(s: string, secret: string, d: nat, i: int)
    requires d <= |s|
    ensures OccursAt(s[d..], secret, i) <==> i >= 0 && OccursAt(s, secret, i + d)
  {
  }

  /** Appending changes no occurrence that was complete. */
  lemma OccursEarlier(s: string, more: string, secret: string, i: int)
    requires i + |secret| <= |s|
    ensures OccursAt(s + more, secret, i) <==> OccursAt(s, secret, i)
  {
  }

  /** Overlapping occurrences give a border. */
  lemma OverlapIsBorder(s: string, secret: string, i: int, j: int)
    requires OccursAt(s, secret, i) && OccursAt(s, secret, j) && i < j < i + |secret|
    ensures IsBorder(secret, i + |secret| - j)
  {
  }

  lemma UnborderedApart(s: string, secret: string, i: int, j: int)
    requires Unbordered(secret) && i < j < i + |secret|
    ensures !OccursAt(s, secret, i) || !OccursAt(s, secret, j)
  {
    hide OccursAt, IsBorder;
    if OccursAt(s, secret, i) && OccursAt(s, secret, j) {
      OverlapIsBorder(s, secret, i, j);
    }
  }
}
