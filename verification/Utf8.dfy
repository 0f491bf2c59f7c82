/** UTF-8 as package unicode/utf8 reads it, and the characters the shell tokenizer refuses. */
module Utf8 {
  import opened Ascii

  predicate Continues(c: char) {
    0x80 <= c as int <= 0xBF
  }

  function Bits(c: char): int {
    c as int % 0x40
  }

  /** The first character of s and the bytes it takes. */
  function FirstRune(s: string): (r: Option<(int, nat)>)
    requires s != ""
    ensures r.Some? ==> 1 <= r.value.1 <= |s|
  {
    var b := s[0] as int;
    if b < 0x80 then Some((b, 1))
    else if 0xC2 <= b <= 0xDF && |s| >= 2 && Continues(s[1]) then Some((b % 0x20 * 0x40 + Bits(s[1]), 2))
    else if 0xE0 <= b <= 0xEF && |s| >= 3 && Continues(s[1]) && Continues(s[2])
      && (b == 0xE0 ==> s[1] as int >= 0xA0) && (b == 0xED ==> s[1] as int <= 0x9F)
    then Some((b % 0x10 * 0x1000 + Bits(s[1]) * 0x40 + Bits(s[2]), 3))
    else if 0xF0 <= b <= 0xF4 && |s| >= 4 && Continues(s[1]) && Continues(s[2]) && Continues(s[3])
      && (b == 0xF0 ==> s[1] as int >= 0x90) && (b == 0xF4 ==> s[1] as int <= 0x8F)
    then Some((b % 8 * 0x40000 + Bits(s[1]) * 0x1000 + Bits(s[2]) * 0x40 + Bits(s[3]), 4))
    else None
  }

  /** The characters of a text, if it is valid UTF-8. */
  function Runes(s: string): Option<seq<int>> {
    if s == "" then Some([])
    else
      var first := FirstRune(s);
      if first.None? then None
      else
        var rest := Runes(s[first.value.1..]);
        if rest.None? then None else Some([first.value.0] + rest.value)
  }

  /** unicode.IsControl */
  predicate IsControl(r: int) {
    0 <= r <= 0x1F || 0x7F <= r <= 0x9F
  }

  /** unicode.IsSpace */
  predicate IsSpace(r: int) {
    || 0x09 <= r <= 0x0D || r == 0x20 || r == 0x85 || r == 0xA0 || r == 0x1680 || 0x2000 <= r <= 0x200A
    || r == 0x2028 || r == 0x2029 || r == 0x202F || r == 0x205F || r == 0x3000
  }

  predicate Forbidden(r: int) {
    IsControl(r) || (IsSpace(r) && r != 0x20)
  }

  predicate NoneForbidden(runes: seq<int>) {
    forall i | 0 <= i < |runes| :: !Forbidden(runes[i])
  }

  /** Valid UTF-8 without control characters and with no white space but the ASCII space. */
  predicate IsClean(s: string) {
    Runes(s).Some? && NoneForbidden(Runes(s).value)
  }

  // ----- How clean texts are put together ------------------------------------------------------------

  /** Bytes after the first character do not change it. */
  lemma FirstRuneExtends(s: string, more: string)
    requires s != "" && FirstRune(s).Some?
    ensures FirstRune(s + more) == FirstRune(s)
  {
  }

  /** A byte that continues no character ends whatever comes before it. */
  lemma FirstRuneStops(s: string, more: string)
    requires s != "" && more != "" && !Continues(more[0])
    ensures FirstRune(s + more) == FirstRune(s)
  {
  }

  lemma {:induction false} CleanJoins(a: string, b: string)
    requires IsClean(a)
    ensures IsClean(a + b) <==> IsClean(b)
    decreases |a|
  {
    hide FirstRune, Forbidden;
    if a == "" {
      assert a + b == b;
    } else {
      var n := FirstRune(a).value.1;
      FirstRuneExtends(a, b);
      assert (a + b)[n..] == a[n..] + b;
      CleanFirst(a);
      CleanFirst(a + b);
      CleanJoins(a[n..], b);
    }
  }

  lemma CleanFirst(s: string)
    requires s != ""
    ensures IsClean(s) <==>
      FirstRune(s).Some? && !Forbidden(FirstRune(s).value.0) && IsClean(s[FirstRune(s).value.1..])
  {
    hide FirstRune, Forbidden;
    if FirstRune(s).Some? && Runes(s[FirstRune(s).value.1..]).Some? {
      var r, rest := FirstRune(s).value.0, Runes(s[FirstRune(s).value.1..]).value;
      assert Runes(s).value == [r] + rest;
      assert ([r] + rest)[0] == r && forall i | 0 <= i < |rest| :: ([r] + rest)[i + 1] == rest[i];
    }
  }

  predicate Printable(c: char) {
    0x20 <= c as int < 0x7F
  }

  /** A printable ASCII byte divides a text into two that are clean exactly when the text is. */
  lemma {:induction false} CleanSplits(a: string, c: char, b: string)
    requires Printable(c)
    ensures IsClean(a + [c] + b) <==> IsClean(a) && IsClean(b)
    decreases |a|
  {
    hide FirstRune, Forbidden;
    var t := a + [c] + b;
    CleanFirst(t);
    if a == "" {
      assert t[1..] == b;
      PrintableFirst(t);
    } else {
      FirstRuneStops(a, [c] + b);
      assert a + ([c] + b) == t;
      CleanFirst(a);
      if FirstRune(a).Some? {
        var n := FirstRune(a).value.1;
        assert t[n..] == a[n..] + [c] + b;
        CleanSplits(a[n..], c, b);
      }
    }
  }

  lemma PrintableFirst(s: string)
    requires s != "" && Printable(s[0])
    ensures FirstRune(s) == Some((s[0] as int, 1)) && !Forbidden(s[0] as int)
  {
  }

  lemma {:induction false} PrintableIsClean(s: string)
    requires forall i | 0 <= i < |s| :: Printable(s[i])
    ensures IsClean(s)
  {
    hide FirstRune, Forbidden;
    if s != "" {
      CleanFirst(s);
      PrintableFirst(s);
      PrintableIsClean(s[1..]);
    }
  }

  /** A clean text has no ASCII control byte. */
  lemma {:induction false} CleanBytes(s: string, i: nat)
    requires IsClean(s) && i < |s|
    ensures s[i] as int >= 0x20 && s[i] as int != 0x7F
    decreases |s|
  {
    CleanFirst(s);
    var n := FirstRune(s).value.1;
    if i >= n {
      CleanBytes(s[n..], i - n);
    } else if i > 0 {
      LaterBytes(s, i);
    }
  }

  lemma LaterBytes(s: string, i: nat)
    requires s != "" && FirstRune(s).Some? && 0 < i < FirstRune(s).value.1
    ensures Continues(s[i])
  {
  }
}
