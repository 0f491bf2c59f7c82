/** UTF-8 as RFC 3629, section 3, writes it: what is decoded is exactly what is encoded. */
module Utf8Encoding {
  import opened Ascii
  import opened Utf8

  /** A character that UTF-8 can encode: no surrogate. */
  predicate IsScalar(r: int) {
    0 <= r <= 0xD7FF || 0xE000 <= r <= 0x10FFFF
  }

  function Encode(r: int): (s: string)
    requires IsScalar(r)
    ensures 1 <= |s| <= 4
  {
    if r < 0x80 then [r as char]
    else if r < 0x800 then [(0xC0 + r / 0x40) as char, (0x80 + r % 0x40) as char]
    else if r < 0x10000 then
      [(0xE0 + r / 0x1000) as char, (0x80 + r / 0x40 % 0x40) as char, (0x80 + r % 0x40) as char]
    else
      [(0xF0 + r / 0x40000) as char, (0x80 + r / 0x1000 % 0x40) as char, (0x80 + r / 0x40 % 0x40) as char,
       (0x80 + r % 0x40) as char]
  }

  // ----- The bits in the bytes -----------------------------------------------------------------------------

  lemma TwoBytes(q: int, m: int)
    requires 2 <= q < 0x20 && 0 <= m < 0x40
    ensures (0xC0 + q) % 0x20 == q && (0x80 + m) % 0x40 == m
    ensures (q * 0x40 + m) / 0x40 == q && (q * 0x40 + m) % 0x40 == m
  {
  }

  lemma ThreeBytes(p: int, q: int, m: int)
    requires 0 <= p < 0x10 && 0 <= q < 0x40 && 0 <= m < 0x40
    ensures (0xE0 + p) % 0x10 == p && (0x80 + q) % 0x40 == q && (0x80 + m) % 0x40 == m
    ensures var r := p * 0x1000 + q * 0x40 + m; r / 0x1000 == p && r / 0x40 % 0x40 == q && r % 0x40 == m
  {
    assert (p * 0x1000 + q * 0x40 + m) / 0x40 == p * 0x40 + q;
  }

  lemma FourBytes(o: int, p: int, q: int, m: int)
    requires 0 <= o < 8 && 0 <= p < 0x40 && 0 <= q < 0x40 && 0 <= m < 0x40
    ensures (0xF0 + o) % 8 == o && (0x80 + p) % 0x40 == p && (0x80 + q) % 0x40 == q && (0x80 + m) % 0x40 == m
    ensures var r := o * 0x40000 + p * 0x1000 + q * 0x40 + m;
      r / 0x40000 == o && r / 0x1000 % 0x40 == p && r / 0x40 % 0x40 == q && r % 0x40 == m
  {
    assert (o * 0x40000 + p * 0x1000 + q * 0x40 + m) / 0x40 == o * 0x1000 + p * 0x40 + q;
    assert (o * 0x40000 + p * 0x1000 + q * 0x40 + m) / 0x1000 == o * 0x40 + p;
  }

  /** The bits of a character, byte by byte. */
  lemma BitsOf(r: int)
    requires 0 <= r <= 0x10FFFF
    ensures r == r / 0x40 * 0x40 + r % 0x40
    ensures r == r / 0x1000 * 0x1000 + r / 0x40 % 0x40 * 0x40 + r % 0x40
    ensures r == r / 0x40000 * 0x40000 + r / 0x1000 % 0x40 * 0x1000 + r / 0x40 % 0x40 * 0x40 + r % 0x40
  {
    assert r / 0x40 / 0x40 == r / 0x1000 && r / 0x1000 / 0x40 == r / 0x40000;
  }

  // ----- Reading and writing one character -----------------------------------------------------------------

  function Two(q: int, m: int): string
    requires 2 <= q < 0x20 && 0 <= m < 0x40
  {
    [(0xC0 + q) as char, (0x80 + m) as char]
  }

  function Three(p: int, q: int, m: int): string
    requires 0 <= p < 0x10 && 0 <= q < 0x40 && 0 <= m < 0x40
  {
    [(0xE0 + p) as char, (0x80 + q) as char, (0x80 + m) as char]
  }

  function Four(o: int, p: int, q: int, m: int): string
    requires 0 <= o < 8 && 0 <= p < 0x40 && 0 <= q < 0x40 && 0 <= m < 0x40
  {
    [(0xF0 + o) as char, (0x80 + p) as char, (0x80 + q) as char, (0x80 + m) as char]
  }

  lemma ReadTwo(s: string, q: int, m: int)
    requires 2 <= q < 0x20 && 0 <= m < 0x40 && Two(q, m) <= s
    ensures FirstRune(s) == Some((q * 0x40 + m, 2)) && Encode(q * 0x40 + m) == Two(q, m)
  {
    TwoBytes(q, m);
    assert s[0] == Two(q, m)[0] && s[1] == Two(q, m)[1];
  }

  lemma ReadThree(s: string, p: int, q: int, m: int)
    requires 0 <= p < 0x10 && 0 <= q < 0x40 && 0 <= m < 0x40 && Three(p, q, m) <= s
    requires (p == 0 ==> q >= 0x20) && (p == 0xD ==> q < 0x20)
    ensures var r := p * 0x1000 + q * 0x40 + m;
      FirstRune(s) == Some((r, 3)) && IsScalar(r) && Encode(r) == Three(p, q, m)
  {
    ThreeBytes(p, q, m);
    assert s[0] == Three(p, q, m)[0] && s[1] == Three(p, q, m)[1] && s[2] == Three(p, q, m)[2];
  }

  lemma ReadFour(s: string, o: int, p: int, q: int, m: int)
    requires 0 <= o < 8 && 0 <= p < 0x40 && 0 <= q < 0x40 && 0 <= m < 0x40 && Four(o, p, q, m) <= s
    requires (o == 0 ==> p >= 0x10) && (o == 4 ==> p < 0x10) && o <= 4
    ensures var r := o * 0x40000 + p * 0x1000 + q * 0x40 + m;
      FirstRune(s) == Some((r, 4)) && IsScalar(r) && Encode(r) == Four(o, p, q, m)
  {
    FourBytes(o, p, q, m);
    var bytes := Four(o, p, q, m);
    assert s[0] == bytes[0] && s[1] == bytes[1] && s[2] == bytes[2] && s[3] == bytes[3];
  }

  /** A character is read from its encoding, whatever comes after it. */
  lemma EncodedIsRead(r: int, rest: string)
    requires IsScalar(r)
    ensures FirstRune(Encode(r) + rest) == Some((r, |Encode(r)|))
  {
    hide FirstRune;
    var s := Encode(r) + rest;
    BitsOf(r);
    if r < 0x80 {
      ReadOne(s, r);
    } else if r < 0x800 {
      ReadTwo(s, r / 0x40, r % 0x40);
    } else if r < 0x10000 {
      ReadThree(s, r / 0x1000, r / 0x40 % 0x40, r % 0x40);
    } else {
      ReadFour(s, r / 0x40000, r / 0x1000 % 0x40, r / 0x40 % 0x40, r % 0x40);
    }
  }

  lemma ReadOne(s: string, r: int)
    requires 0 <= r < 0x80 && s != "" && s[0] as int == r
    ensures FirstRune(s) == Some((r, 1))
  {
  }

  /** What is read is an encoding. */
  lemma ReadIsEncoded(s: string)
    requires s != "" && FirstRune(s).Some?
    ensures var (r, n) := FirstRune(s).value; IsScalar(r) && s[..n] == Encode(r)
  {
    hide Encode;
    var b, n := s[0] as int, FirstRune(s).value.1;
    if n == 1 {
      EncodeOne(b);
      assert s[..1] == [s[0]];
    } else if n == 2 {
      assert s[..2] == Two(b - 0xC0, s[1] as int - 0x80);
      ReadTwo(s, b - 0xC0, s[1] as int - 0x80);
    } else if n == 3 {
      assert s[..3] == Three(b - 0xE0, s[1] as int - 0x80, s[2] as int - 0x80);
      ReadThree(s, b - 0xE0, s[1] as int - 0x80, s[2] as int - 0x80);
    } else {
      assert s[..4] == Four(b - 0xF0, s[1] as int - 0x80, s[2] as int - 0x80, s[3] as int - 0x80);
      ReadFour(s, b - 0xF0, s[1] as int - 0x80, s[2] as int - 0x80, s[3] as int - 0x80);
    }
  }

  lemma EncodeOne(r: int)
    requires 0 <= r < 0x80
    ensures Encode(r) == [r as char]
  {
  }

  // ----- Whole texts -----------------------------------------------------------------------------------------

  predicate AreScalars(runes: seq<int>) {
    forall i | 0 <= i < |runes| :: IsScalar(runes[i])
  }

  function EncodeAll(runes: seq<int>): string
    requires AreScalars(runes)
  {
    if runes == [] then "" else Encode(runes[0]) + EncodeAll(runes[1..])
  }

  lemma {:induction false} EncodedAllRead(runes: seq<int>)
    requires AreScalars(runes)
    ensures Runes(EncodeAll(runes)) == Some(runes)
  {
    hide FirstRune, Encode;
    if runes != [] {
      var rest := EncodeAll(runes[1..]);
      var s := Encode(runes[0]) + rest;
      EncodedIsRead(runes[0], rest);
      EncodedAllRead(runes[1..]);
      assert s[|Encode(runes[0])|..] == rest && runes == [runes[0]] + runes[1..];
    }
  }

  lemma {:induction false} AllReadEncoded(s: string)
    requires Runes(s).Some?
    ensures AreScalars(Runes(s).value) && s == EncodeAll(Runes(s).value)
    decreases |s|
  {
    hide FirstRune, Encode;
    if s != "" {
      var (r, n) := FirstRune(s).value;
      ReadIsEncoded(s);
      AllReadEncoded(s[n..]);
      var rest := Runes(s[n..]).value;
      assert Runes(s).value == [r] + rest && ([r] + rest)[1..] == rest;
      assert s == s[..n] + s[n..];
    }
  }

  /** A text is decoded to these characters if and only if it is their encoding. */
  lemma RunesExactly(s: string, runes: seq<int>)
    ensures Runes(s) == Some(runes) <==> AreScalars(runes) && s == EncodeAll(runes)
  {
    hide Runes, EncodeAll, IsScalar;
    if Runes(s).Some? {
      AllReadEncoded(s);
    }
    if AreScalars(runes) {
      EncodedAllRead(runes);
    }
  }

  /**
    The screening lets through the encodings of characters that are neither controls (U+0000 to U+001F,
    U+007F to U+009F) nor white space other than U+0020.
   */
  lemma CleanExactly(s: string)
    ensures IsClean(s) <==>
      exists runes | AreScalars(runes) :: s == EncodeAll(runes) && forall i | 0 <= i < |runes| ::
        && 0x20 <= runes[i] && !(0x7F <= runes[i] <= 0xA0) && !(0x2000 <= runes[i] <= 0x200A)
        && runes[i] !in {0x1680, 0x2028, 0x2029, 0x202F, 0x205F, 0x3000}
  {
    hide Runes, EncodeAll;
    if Runes(s).Some? {
      RunesExactly(s, Runes(s).value);
    }
    forall runes | AreScalars(runes) && s == EncodeAll(runes)
      ensures Runes(s) == Some(runes)
    {
      RunesExactly(s, runes);
    }
  }
}
