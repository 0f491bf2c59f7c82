/**
  What package strings of Go does with white space and with letters of either case, on texts in
  UTF-8 and on those that are not: a byte that begins no character counts for one that is no space.
 */
module Strings {
  import opened Ascii
  import opened Utf8
  import opened Utf8Encoding

  // ----- White space -------------------------------------------------------------------------------------

  function RuneLength(s: string): (n: nat)
    requires s != ""
    ensures 1 <= n <= |s|
  {
    if FirstRune(s).Some? then FirstRune(s).value.1 else 1
  }

  predicate StartsSpace(s: string) {
    s != "" && FirstRune(s).Some? && IsSpace(FirstRune(s).value.0)
  }

  function WordLength(s: string): (n: nat)
    ensures n <= |s| && (s != "" && !StartsSpace(s) ==> n > 0)
    decreases |s|
  {
    if s == "" || StartsSpace(s) then 0 else RuneLength(s) + WordLength(s[RuneLength(s)..])
  }

  /** strings.Fields */
  function Fields(s: string): seq<string>
    decreases |s|
  {
    if s == "" then []
    else if StartsSpace(s) then Fields(s[RuneLength(s)..])
    else var n := WordLength(s); [s[..n]] + Fields(s[n..])
  }

  function SkipSpaces(s: string): string
    decreases |s|
  {
    if StartsSpace(s) then SkipSpaces(s[RuneLength(s)..]) else s
  }

  /** These bytes are one character, and it is a space. */
  predicate IsSpaceText(s: string) {
    StartsSpace(s) && FirstRune(s).value.1 == |s|
  }

  /** The last character of a text is a space of n bytes; no space takes more than three. */
  predicate EndsSpace(s: string, n: nat) {
    1 <= n <= |s| && IsSpaceText(s[|s| - n..])
  }

  function DropSpaces(s: string): string
    decreases |s|
  {
    if EndsSpace(s, 1) then DropSpaces(s[..|s| - 1])
    else if EndsSpace(s, 2) then DropSpaces(s[..|s| - 2])
    else if EndsSpace(s, 3) then DropSpaces(s[..|s| - 3])
    else s
  }

  /** strings.TrimSpace */
  function TrimSpace(s: string): string {
    DropSpaces(SkipSpaces(s))
  }

  /** Text that begins a character ends whatever comes before it. */
  lemma SpaceStops(s: string, space: string)
    requires s != "" && IsSpaceText(space)
    ensures FirstRune(s + space) == FirstRune(s)
    ensures RuneLength(s + space) == RuneLength(s) && StartsSpace(s + space) == StartsSpace(s)
  {
    FirstRuneStops(s, space);
  }

  lemma SpaceAlone(space: string)
    requires IsSpaceText(space)
    ensures space != "" && StartsSpace(space) && RuneLength(space) == |space|
  {
  }

  /** The ASCII white space. */
  predicate IsAsciiSpace(c: char) {
    c == ' ' || c == '\t' || c == '\n' || c == '\U{000B}' || c == '\U{000C}' || c == '\r'
  }

  lemma AsciiSpaces(c: char)
    requires IsAsciiSpace(c)
    ensures IsSpaceText([c])
  {
  }

  lemma {:induction false} WordExtends(s: string, space: string)
    requires IsSpaceText(space)
    ensures WordLength(s + space) == WordLength(s)
    decreases |s|
  {
    hide FirstRune, IsSpace, IsSpaceText, StartsSpace, RuneLength;
    SpaceAlone(space);
    if s == "" {
      assert s + space == space;
    } else {
      SpaceStops(s, space);
      if !StartsSpace(s) {
        var n := RuneLength(s);
        assert (s + space)[n..] == s[n..] + space;
        WordExtends(s[n..], space);
      }
    }
  }

  lemma NoFields()
    ensures Fields("") == []
  {
  }

  /** A space at the end makes no field. */
  lemma {:induction false} FieldsTrailing(s: string, space: string)
    requires IsSpaceText(space)
    ensures Fields(s + space) == Fields(s)
    decreases |s|
  {
    hide FirstRune, IsSpace, IsSpaceText, StartsSpace, RuneLength, WordLength;
    SpaceAlone(space);
    if s == "" {
      assert s + space == space && space[|space|..] == "";
      NoFields();
    } else {
      SpaceStops(s, space);
      var n := if StartsSpace(s) then RuneLength(s) else WordLength(s);
      WordExtends(s, space);
      assert (s + space)[n..] == s[n..] + space && (s + space)[..n] == s[..n];
      FieldsTrailing(s[n..], space);
    }
  }

  lemma {:induction false} FieldsDropped(s: string)
    ensures Fields(DropSpaces(s)) == Fields(s)
    decreases |s|
  {
    hide IsSpaceText, Fields;
    var n := if EndsSpace(s, 1) then 1 else if EndsSpace(s, 2) then 2 else 3;
    if EndsSpace(s, n) {
      FieldsDropped(s[..|s| - n]);
      FieldsTrailing(s[..|s| - n], s[|s| - n..]);
      assert s == s[..|s| - n] + s[|s| - n..];
    }
  }

  lemma {:induction false} FieldsSkipped(s: string)
    ensures Fields(SkipSpaces(s)) == Fields(s)
    decreases |s|
  {
    hide FirstRune, IsSpace;
    if StartsSpace(s) {
      FieldsSkipped(s[RuneLength(s)..]);
    }
  }

  /** Trimming before the fields are taken changes nothing. */
  lemma FieldsTrimmed(s: string)
    ensures Fields(TrimSpace(s)) == Fields(s)
  {
    FieldsSkipped(s);
    FieldsDropped(SkipSpaces(s));
  }

  /** No character of white space takes more than three bytes. */
  lemma SpaceIsShort(x: string)
    requires IsSpaceText(x)
    ensures |x| <= 3
  {
  }

  lemma {:induction false} SkippedStarts(s: string)
    ensures !StartsSpace(SkipSpaces(s))
    decreases |s|
  {
    hide FirstRune, IsSpace;
    if StartsSpace(s) {
      SkippedStarts(s[RuneLength(s)..]);
    }
  }

  lemma DropStep(s: string)
    ensures var n := if EndsSpace(s, 1) then 1 else if EndsSpace(s, 2) then 2 else 3;
      DropSpaces(s) == if EndsSpace(s, n) then DropSpaces(s[..|s| - n]) else s
  {
    hide IsSpaceText;
  }

  lemma EndsWithin(s: string, n: nat)
    requires EndsSpace(s, n)
    ensures 1 <= n <= |s| && n <= 3
  {
    SpaceIsShort(s[|s| - n..]);
  }

  lemma {:induction false} DroppedEnds(s: string, n: nat)
    ensures DropSpaces(s) <= s && !EndsSpace(DropSpaces(s), n)
    decreases |s|
  {
    hide DropSpaces, EndsSpace;
    DropStep(s);
    var m := if EndsSpace(s, 1) then 1 else if EndsSpace(s, 2) then 2 else 3;
    if EndsSpace(s, m) {
      EndsWithin(s, m);
      DroppedEnds(s[..|s| - m], n);
    } else if EndsSpace(s, n) {
      EndsWithin(s, n);
    }
  }

  lemma PrefixStarts(t: string, u: string)
    requires t <= u && !StartsSpace(u)
    ensures !StartsSpace(t)
  {
    hide FirstRune, IsSpace;
    if t != "" && FirstRune(t).Some? {
      FirstRuneExtends(t, u[|t|..]);
      assert u == t + u[|t|..];
    }
  }

  /** A trimmed text has no white space at its ends, and is trimmed already. */
  lemma TrimmedEnds(s: string, n: nat)
    ensures var t := TrimSpace(s); !StartsSpace(t) && !EndsSpace(t, n) && TrimSpace(t) == t
  {
    hide FirstRune, IsSpace, StartsSpace, EndsSpace, DropSpaces;
    var u, t := SkipSpaces(s), TrimSpace(s);
    SkippedStarts(s);
    DroppedEnds(u, n);
    DroppedEnds(u, 1);
    DroppedEnds(u, 2);
    DroppedEnds(u, 3);
    PrefixStarts(t, u);
    DropStep(t);
  }

  /** A newline at the end is trimmed. */
  lemma TrimNewline(s: string)
    ensures TrimSpace(s + "\n") == TrimSpace(s)
  {
    hide FirstRune, IsSpace;
    AsciiSpaces('\n');
    SkipMore(s);
    var t := SkipSpaces(s);
    if t == "" {
      assert DropSpaces("") == "";
    } else {
      assert (t + "\n")[|t|..] == "\n" && (t + "\n")[..|t|] == t;
    }
  }

  lemma {:induction false} SkipMore(s: string)
    ensures SkipSpaces(s + "\n") == if SkipSpaces(s) == "" then "" else SkipSpaces(s) + "\n"
    decreases |s|
  {
    hide FirstRune, IsSpace, StartsSpace, RuneLength, IsSpaceText;
    AsciiSpaces('\n');
    SpaceAlone("\n");
    if s == "" {
      assert s + "\n" == "\n" && "\n"[1..] == "";
      SkipNothing();
    } else {
      SpaceStops(s, "\n");
      if StartsSpace(s) {
        var n := RuneLength(s);
        assert (s + "\n")[n..] == s[n..] + "\n";
        SkipMore(s[n..]);
      }
    }
  }

  lemma SkipNothing()
    ensures SkipSpaces("") == ""
  {
  }

  // ----- Printable ASCII text ---------------------------------------------------------------------------------

  /** ASCII text without white space and control characters. */
  predicate IsPrintable(s: string) {
    forall i | 0 <= i < |s| :: 0x21 <= s[i] as int < 0x7F
  }

  lemma PrintableStarts(s: string)
    requires s != "" && 0x21 <= s[0] as int < 0x7F
    ensures FirstRune(s) == Some((s[0] as int, 1)) && !StartsSpace(s) && RuneLength(s) == 1
  {
  }

  lemma {:induction false} WordEnds(x: string, rest: string)
    requires IsPrintable(x) && (rest == "" || StartsSpace(rest))
    ensures WordLength(x + rest) == |x|
  {
    hide FirstRune, IsSpace, StartsSpace, RuneLength;
    if x == "" {
      assert x + rest == rest;
    } else {
      PrintableStarts(x + rest);
      assert (x + rest)[1..] == x[1..] + rest && (x + rest)[0] == x[0];
      WordEnds(x[1..], rest);
    }
  }

  lemma FieldsWord(x: string, c: char, rest: string)
    requires x != "" && IsPrintable(x) && IsAsciiSpace(c)
    ensures Fields(x + [c] + rest) == [x] + Fields(rest)
  {
    hide IsSpace, StartsSpace, RuneLength, FirstRune, WordLength;
    AsciiStarts(c, rest);
    WordEnds(x, [c] + rest);
    var s := x + [c] + rest;
    assert s == x + ([c] + rest);
    assert s[..|x|] == x && s[|x|..] == [c] + rest;
    PrintableStarts(s);
    assert ([c] + rest)[1..] == rest;
  }

  lemma AsciiStarts(c: char, rest: string)
    requires IsAsciiSpace(c)
    ensures StartsSpace([c] + rest) && RuneLength([c] + rest) == 1
  {
  }

  lemma FieldsOne(x: string)
    requires x != "" && IsPrintable(x)
    ensures Fields(x) == [x]
  {
    hide FirstRune, IsSpace, StartsSpace, RuneLength, WordLength;
    WordEnds(x, "");
    PrintableStarts(x);
    assert x + "" == x && x[..|x|] == x && x[|x|..] == "";
    NoFields();
  }

  lemma PrintableEnds(s: string, n: nat)
    requires s != "" && 0x21 <= s[|s| - 1] as int < 0x7F
    ensures !EndsSpace(s, n)
  {
    if EndsSpace(s, n) {
      var last := s[|s| - n..];
      assert last[n - 1] == s[|s| - 1];
      if n > 1 {
        LaterBytes(last, n - 1);
      }
    }
  }

  /** Printable text has nothing to trim, and what is around it is trimmed. */
  lemma TrimPrintable(x: string)
    requires IsPrintable(x)
    ensures TrimSpace(x) == x && TrimSpace(" " + x) == x
  {
    hide FirstRune, IsSpace, IsSpaceText;
    if x != "" {
      PrintableStarts(x);
      PrintableEnds(x, 1);
      PrintableEnds(x, 2);
      PrintableEnds(x, 3);
    }
    AsciiStarts(' ', x);
    assert [' '] + x == " " + x && (" " + x)[1..] == x;
  }

  /** The characters that are trimmed are the 25 that Unicode has as white space. */
  lemma TrimmedAway(r: int)
    requires IsScalar(r)
    ensures TrimSpace(Encode(r)) == "" <==>
      || 0x09 <= r <= 0x0D || 0x2000 <= r <= 0x200A
      || r in {0x20, 0x85, 0xA0, 0x1680, 0x2028, 0x2029, 0x202F, 0x205F, 0x3000}
  {
    hide Encode;
    var s := Encode(r);
    EncodedIsRead(r, "");
    assert s + "" == s;
    OneTrims(s);
  }

  /** A single character is trimmed away exactly if it is a space. */
  lemma OneTrims(s: string)
    requires s != "" && FirstRune(s).Some? && FirstRune(s).value.1 == |s|
    ensures TrimSpace(s) == "" <==> IsSpace(FirstRune(s).value.0)
  {
    hide FirstRune, IsSpace;
    if StartsSpace(s) {
      assert s[|s|..] == "";
      SkipNothing();
      assert DropSpaces("") == "";
    } else {
      NothingToDrop(s);
    }
  }

  lemma NothingToDrop(s: string)
    requires s != "" && FirstRune(s).Some? && FirstRune(s).value.1 == |s| && !StartsSpace(s)
    ensures DropSpaces(s) == s
  {
    hide DropSpaces, EndsSpace, FirstRune, StartsSpace;
    DropStep(s);
    NoSpaceAtEnd(s, 1);
    NoSpaceAtEnd(s, 2);
    NoSpaceAtEnd(s, 3);
  }

  lemma NoSpaceAtEnd(s: string, n: nat)
    requires s != "" && FirstRune(s).Some? && FirstRune(s).value.1 == |s| && !StartsSpace(s)
    ensures !EndsSpace(s, n)
  {
    hide FirstRune, IsSpace;
    if 1 <= n < |s| {
      LaterBytes(s, |s| - n);
      ContinuesNothing(s[|s| - n..]);
    } else if n == |s| {
      assert s[0..] == s;
    }
  }

  /** No character begins with a byte that continues one. */
  lemma ContinuesNothing(s: string)
    requires s != "" && Continues(s[0])
    ensures FirstRune(s).None?
  {
  }

  predicate AreAsciiSpaces(s: string) {
    forall i | 0 <= i < |s| :: s[i] in {' ', '\t', '\n', '\U{000B}', '\U{000C}', '\r'}
  }

  lemma {:induction false} SkipBefore(before: string, rest: string)
    requires AreAsciiSpaces(before)
    ensures SkipSpaces(before + rest) == SkipSpaces(rest)
  {
    hide FirstRune, IsSpace, StartsSpace, RuneLength;
    var s := before + rest;
    if before == "" {
      assert s == rest;
    } else {
      AsciiStarts(before[0], s[1..]);
      assert s == [before[0]] + s[1..] && s[1..] == before[1..] + rest;
      SkipBefore(before[1..], rest);
    }
  }

  lemma {:induction false} DropAfter(s: string, after: string)
    requires AreAsciiSpaces(after)
    ensures DropSpaces(s + after) == DropSpaces(s)
    decreases |after|
  {
    hide IsSpaceText;
    if after == "" {
      assert s + after == s;
    } else {
      var n, t := |after| - 1, s + after;
      AsciiSpaces(after[n]);
      assert t[|t| - 1..] == [after[n]] && t[..|t| - 1] == s + after[..n];
      DropAfter(s, after[..n]);
    }
  }

  /** ASCII white space around a printable text is trimmed. */
  lemma TrimAround(before: string, x: string, after: string)
    requires AreAsciiSpaces(before) && AreAsciiSpaces(after) && x != "" && IsPrintable(x)
    ensures TrimSpace(before + x + after) == x
  {
    hide FirstRune, IsSpace, IsSpaceText, DropSpaces;
    SkipBefore(before, x + after);
    assert before + (x + after) == before + x + after;
    assert (x + after)[0] == x[0];
    PrintableStarts(x + after);
    DropAfter(x, after);
    TrimPrintable(x);
    PrintableStarts(x);
  }

  // ----- Letters of either case --------------------------------------------------------------------------------

  function LowerChar(c: char): char {
    if 'A' <= c <= 'Z' then (c as int + 32) as char else c
  }

  /** unicode.ToLower where it gives an ASCII character: besides those, of the Kelvin sign and the dotted I. */
  function LowerRune(r: int): Option<char> {
    if 0 <= r < 0x80 then Some(LowerChar(r as char))
    else if r == 0x212A then Some('k')
    else if r == 0x130 then Some('i')
    else None
  }

  /** The ASCII character in lower case that is the same under simple folding, if there is one: the long s is an s. */
  function FoldRune(r: int): Option<char> {
    if 0 <= r < 0x80 then Some(LowerChar(r as char))
    else if r == 0x212A then Some('k')
    else if r == 0x17F then Some('s')
    else None
  }

  function MapRunes(s: string, f: int -> Option<char>): Option<string>
    decreases |s|
  {
    if s == "" then Some("")
    else if FirstRune(s).None? then None
    else
      var c, rest := f(FirstRune(s).value.0), MapRunes(s[RuneLength(s)..], f);
      if c.None? || rest.None? then None else Some([c.value] + rest.value)
  }

  /** strings.ToLower, where its result is ASCII text. */
  function ToLower(s: string): Option<string> {
    MapRunes(s, LowerRune)
  }

  /** strings.EqualFold, for an ASCII text as its second argument. */
  predicate FoldsTo(s: string, ascii: string) {
    MapRunes(s, FoldRune).Some? && MapRunes(s, FoldRune) == MapRunes(ascii, FoldRune)
  }

  /** Printable text without letters in upper case stays as it is. */
  lemma {:induction false} MapLower(s: string, f: int -> Option<char>)
    requires IsPrintable(s) && forall i | 0 <= i < |s| :: !('A' <= s[i] <= 'Z')
    requires forall r | 0 <= r < 0x80 :: f(r) == Some(LowerChar(r as char))
    ensures MapRunes(s, f) == Some(s)
  {
    hide FirstRune;
    if s != "" {
      PrintableStarts(s);
      MapLower(s[1..], f);
      assert f(s[0] as int) == Some(s[0]);
      assert [s[0]] + s[1..] == s;
    }
  }

  /** Printable text is put into lower case letter by letter. */
  lemma {:induction false} LowerPrintable(s: string, f: int -> Option<char>)
    requires IsPrintable(s) && forall r | 0 <= r < 0x80 :: f(r) == Some(LowerChar(r as char))
    ensures var r := MapRunes(s, f);
      && r.Some? && |r.value| == |s|
      && forall i | 0 <= i < |s| :: r.value[i] == if 'A' <= s[i] <= 'Z' then (s[i] as int + 32) as char else s[i]
  {
    hide FirstRune;
    if s != "" {
      PrintableStarts(s);
      LowerPrintable(s[1..], f);
      assert f(s[0] as int) == Some(LowerChar(s[0]));
    }
  }

  /** The same letter, in either case. */
  predicate SameLetter(a: char, b: char) {
    a == b || ('A' <= a <= 'Z' && b as int == a as int + 32) || ('a' <= a <= 'z' && b as int == a as int - 32)
  }

  lemma FoldsExactly(s: string, t: string)
    requires IsPrintable(s) && IsPrintable(t)
    ensures FoldsTo(s, t) <==> |s| == |t| && forall i | 0 <= i < |s| :: SameLetter(s[i], t[i])
  {
    hide FirstRune, MapRunes;
    LowerPrintable(s, FoldRune);
    LowerPrintable(t, FoldRune);
    var a, b := MapRunes(s, FoldRune).value, MapRunes(t, FoldRune).value;
    if |s| == |t| && forall i | 0 <= i < |s| :: SameLetter(s[i], t[i]) {
      assert a == b;
    }
  }

  /** The characters that are no ASCII letters and have one in lower case, or under folding. */
  lemma OtherLetters(r: int)
    requires r >= 0x80
    ensures LowerRune(r) == if r == 0x212A then Some('k') else if r == 0x130 then Some('i') else None
    ensures FoldRune(r) == if r == 0x212A then Some('k') else if r == 0x17F then Some('s') else None
  {
  }
}
