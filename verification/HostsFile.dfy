/** The alias manager of internal/forward/alias.go and the lines it owns in the hosts file. */
module HostsFile {
  import opened Ascii
  import opened HostsText
  import opened Strings

  const Loopback := "127.0.0.1"

  // ----- Host names ------------------------------------------------------------------------------------

  predicate IsLabelByte(c: char) {
    'a' <= c <= 'z' || IsDigit(c) || c == '-'
  }

  /** [a-z0-9](?:[a-z0-9-]{0,61}[a-z0-9])? */
  predicate IsLabel(s: string) {
    1 <= |s| <= 63 && s[0] != '-' && s[|s| - 1] != '-' && forall i | 0 <= i < |s| :: IsLabelByte(s[i])
  }

  function LabelLength(s: string): (n: nat)
    ensures n <= |s| && (n < |s| ==> s[n] == '.')
  {
    if s == "" || s[0] == '.' then 0 else 1 + LabelLength(s[1..])
  }

  /** strings.Split(s, ".") */
  function Labels(s: string): (r: seq<string>)
    ensures r != []
    decreases |s|
  {
    var n := LabelLength(s);
    if n < |s| then [s[..n]] + Labels(s[n + 1..]) else [s]
  }

  /** A normalised name, given which texts are IP addresses. */
  predicate IsHostname(s: string, IsIP: string -> bool) {
    && s != "" && |s| <= 253 && !IsIP(s) && s != "localhost"
    && |Labels(s)| >= 2 && forall i | 0 <= i < |Labels(s)| :: IsLabel(Labels(s)[i])
  }

  /** The name in lower case, if it is ASCII text then. */
  function Normal(hostname: string): Option<string> {
    ToLower(TrimDot(TrimSpace(hostname)))
  }

  /** NormalizeHostname: a name that is not ASCII in lower case has a label that is refused. */
  function NormalizeHostname(hostname: string, IsIP: string -> bool): Option<string> {
    if Normal(hostname).None? then None
    else
      var s := Normal(hostname).value;
      if s == "" || |s| > 253 || IsIP(s) || s == "localhost" || |Labels(s)| < 2 then None
      else if exists i | 0 <= i < |Labels(s)| :: !IsLabel(Labels(s)[i]) then None
      else Some(s)
  }

  /** A name in lower case without anything that has a meaning in a hosts file. */
  predicate IsPlainName(s: string) {
    s != "" && s[|s| - 1] != '.' && forall i | 0 <= i < |s| :: IsLabelByte(s[i]) || s[i] == '.'
  }

  lemma LabelIsPlain(s: string)
    requires IsLabel(s)
    ensures IsPlainName(s)
  {
  }

  lemma PlainJoins(x: string, rest: string)
    requires IsPlainName(x) && IsPlainName(rest)
    ensures IsPlainName(x + "." + rest)
  {
  }

  lemma LabelsAre(s: string)
    ensures var n := LabelLength(s); Labels(s) == if n < |s| then [s[..n]] + Labels(s[n + 1..]) else [s]
    ensures LabelLength(s) < |s| ==> s[LabelLength(s)] == '.'
    ensures LabelLength(s) == |s| ==> s[..LabelLength(s)] == s
  {
  }

  lemma {:induction false} LabelsPlain(s: string)
    requires forall i | 0 <= i < |Labels(s)| :: IsLabel(Labels(s)[i])
    ensures IsPlainName(s)
    decreases |s|
  {
    hide IsLabel, IsPlainName, Labels, LabelLength;
    var n := LabelLength(s);
    var labels := Labels(s);
    LabelsAre(s);
    LabelIsPlain(labels[0]);
    if n < |s| {
      assert labels[1..] == Labels(s[n + 1..]);
      forall i | 0 <= i < |labels[1..]|
        ensures IsLabel(labels[1..][i])
      {
        assert labels[1..][i] == labels[i + 1];
      }
      LabelsPlain(s[n + 1..]);
      PlainJoins(s[..n], s[n + 1..]);
      assert s == s[..n] + "." + s[n + 1..];
    }
  }

  lemma PlainIsPrintable(s: string)
    requires IsPlainName(s)
    ensures IsPrintable(s) && forall i | 0 <= i < |s| :: !('A' <= s[i] <= 'Z')
    ensures s != "" && TrimDot(s) == s
  {
  }

  lemma PlainIsNormal(s: string)
    requires IsPlainName(s)
    ensures Normal(s) == Some(s)
  {
    hide IsPlainName, IsPrintable, TrimSpace, MapRunes, TrimDot;
    PlainIsPrintable(s);
    TrimPrintable(s);
    MapLower(s, LowerRune);
  }

  /** Normalising gives a plain name, and leaves it alone. */
  lemma NormalizedIsPlain(hostname: string, IsIP: string -> bool)
    ensures var r := NormalizeHostname(hostname, IsIP);
      && (r.Some? ==> IsHostname(r.value, IsIP) && IsPlainName(r.value) && NormalizeHostname(r.value, IsIP) == r)
      && (IsHostname(hostname, IsIP) ==> r == Some(hostname))
  {
    hide IsLabel, Normal, IsPlainName;
    var r := NormalizeHostname(hostname, IsIP);
    if r.Some? {
      LabelsPlain(r.value);
      PlainIsNormal(r.value);
    }
    if IsHostname(hostname, IsIP) {
      LabelsPlain(hostname);
      PlainIsNormal(hostname);
    }
  }

  lemma PlainEqual(a: string, b: string)
    requires IsPlainName(a) && IsPlainName(b)
    ensures FoldsTo(TrimDot(a), b) <==> a == b
  {
    hide IsPlainName, IsPrintable, MapRunes, TrimDot;
    PlainIsPrintable(a);
    PlainIsPrintable(b);
    MapLower(a, FoldRune);
    MapLower(b, FoldRune);
  }

  // ----- Owned lines ---------------------------------------------------------------------------------

  /** Printable text, as the markers are: gate: and letters and digits. */
  predicate IsMarker(s: string) {
    s != "" && IsPrintable(s)
  }

  function OwnedLine(hostname: string, marker: string): string {
    Loopback + "\t" + hostname + " # " + marker + "\n"
  }

  lemma {:induction false} HashFirst(x: string, rest: string)
    requires '#' !in x && (rest != "" ==> rest[0] == '#')
    ensures HashAt(x + rest) == |x|
  {
    if x == "" {
      assert x + rest == rest;
    } else {
      assert (x + rest)[1..] == x[1..] + rest && (x + rest)[0] == x[0];
      HashFirst(x[1..], rest);
    }
  }

  lemma {:induction false} LineIs(x: string, rest: string)
    requires '\n' !in x
    ensures LineLength(x + "\n" + rest) == |x| + 1
  {
    var s := x + "\n" + rest;
    if x != "" {
      assert s[1..] == x[1..] + "\n" + rest && s[0] == x[0];
      LineIs(x[1..], rest);
    }
  }

  lemma OwnedBefore(hostname: string)
    requires IsPlainName(hostname)
    ensures var before := Loopback + "\t" + hostname + " ";
      '#' !in before && '\n' !in before && Fields(before) == [Loopback, hostname]
  {
    hide IsPlainName, Fields;
    var before := Loopback + "\t" + hostname + " ";
    PlainIsPrintable(hostname);
    FieldsWord(Loopback, '\t', hostname + " ");
    AsciiSpaces(' ');
    FieldsTrailing(hostname, " ");
    FieldsOne(hostname);
    assert before == Loopback + ['\t'] + (hostname + " ");
    assert [Loopback] + [hostname] == [Loopback, hostname];
    PlainHasNoHash(hostname);
  }

  lemma PlainHasNoHash(s: string)
    requires IsPlainName(s)
    ensures '#' !in s && '\n' !in s
  {
  }

  lemma MarkerTrims(marker: string)
    requires IsMarker(marker)
    ensures TrimSpace(" " + marker + "\n") == marker
  {
    hide TrimSpace;
    TrimNewline(" " + marker);
    TrimPrintable(marker);
  }

  /** An owned line is one line, has its marker as a comment, and names its host and no other. */
  lemma OwnedLineSays(hostname: string, marker: string, rest: string, other: string)
    requires IsPlainName(hostname) && IsPlainName(other) && IsMarker(marker)
    ensures var line := OwnedLine(hostname, marker);
      && line != "" && LineLength(line + rest) == |line| && EndsLine(line)
      && Comment(line) == marker
      && (HasHostname(line, other) <==> hostname == other)
  {
    hide IsPlainName, NamesHost, Fields, TrimSpace, FoldsTo;
    var line := OwnedLine(hostname, marker);
    var before := Loopback + "\t" + hostname + " ";
    OwnedBefore(hostname);
    var body := before + "# " + marker;
    assert line == body + "\n" == before + ("# " + marker + "\n");
    assert '\n' !in body;
    LineIs(body, rest);
    assert line + rest == body + "\n" + rest;
    HashFirst(before, "# " + marker + "\n");
    assert line[|before| + 1..] == " " + marker + "\n";
    MarkerTrims(marker);
    assert Content(line) == before;
    FieldsTrimmed(before);
    OwnedNames(hostname, other);
  }

  lemma OwnedLineIs(hostname: string, marker: string)
    requires IsPlainName(hostname)
    ensures var line := OwnedLine(hostname, marker);
      && line == "127.0.0.1\t" + hostname + " # " + marker + "\n"
      && Fields(Content(line)) == ["127.0.0.1", hostname]
  {
    hide IsPlainName, Fields;
    var before := Loopback + "\t" + hostname + " ";
    OwnedBefore(hostname);
    HashFirst(before, "# " + marker + "\n");
    assert OwnedLine(hostname, marker) == before + ("# " + marker + "\n");
  }

  lemma OwnedNames(hostname: string, other: string)
    requires IsPlainName(hostname) && IsPlainName(other)
    ensures NamesHost([Loopback, hostname], other) <==> hostname == other
  {
    hide IsPlainName, FoldsTo, TrimDot;
    PlainEqual(hostname, other);
    var fields := [Loopback, hostname];
    assert fields[1] == hostname;
  }

  // ----- What the file consists of -----------------------------------------------------------------------

  datatype Owned = Owned(hostname: string, marker: string)

  predicate IsGood(o: Owned) {
    IsPlainName(o.hostname) && IsMarker(o.marker)
  }

  function Text(owned: seq<Owned>): string {
    if owned == [] then "" else OwnedLine(owned[0].hostname, owned[0].marker) + Text(owned[1..])
  }

  /** The user's text, with a newline at its end once a line has been added. */
  function Ended(user: string): string {
    if EndsLine(user) then user else user + "\n"
  }

  predicate AllGood(owned: seq<Owned>) {
    forall i | 0 <= i < |owned| :: IsGood(owned[i])
  }

  predicate Distinct(owned: seq<Owned>) {
    forall i, j | 0 <= i < j < |owned| :: owned[i].hostname != owned[j].hostname && owned[i].marker != owned[j].marker
  }

  predicate Lists(owned: seq<Owned>, hostname: string) {
    exists i | 0 <= i < |owned| :: owned[i].hostname == hostname
  }

  /** The owned lines but those for a name. */
  function Others(owned: seq<Owned>, hostname: string): seq<Owned> {
    if owned == [] then []
    else (if owned[0].hostname == hostname then [] else [owned[0]]) + Others(owned[1..], hostname)
  }

  lemma {:induction false} OthersKeeps(owned: seq<Owned>, hostname: string)
    ensures forall o :: o in Others(owned, hostname) <==> o in owned && o.hostname != hostname
  {
    if owned != [] {
      OthersKeeps(owned[1..], hostname);
    }
  }

  lemma {:induction false} OthersDistinct(owned: seq<Owned>, hostname: string)
    requires Distinct(owned)
    ensures Distinct(Others(owned, hostname))
  {
    if owned != [] {
      assert forall i | 0 <= i < |owned[1..]| :: owned[1..][i] == owned[i + 1];
      OthersDistinct(owned[1..], hostname);
      OthersKeeps(owned[1..], hostname);
      if owned[0].hostname != hostname {
        var rest := Others(owned[1..], hostname);
        forall j | 0 <= j < |rest|
          ensures owned[0].hostname != rest[j].hostname && owned[0].marker != rest[j].marker
        {
          assert rest[j] in owned[1..];
        }
        assert Others(owned, hostname) == [owned[0]] + rest;
      }
    }
  }

  lemma {:induction false} TextJoins(a: seq<Owned>, b: seq<Owned>)
    ensures Text(a + b) == Text(a) + Text(b)
  {
    hide OwnedLine;
    if a == [] {
      assert a + b == b;
    } else {
      assert (a + b)[1..] == a[1..] + b && (a + b)[0] == a[0];
      TextJoins(a[1..], b);
      Regroup(OwnedLine(a[0].hostname, a[0].marker), Text(a[1..]), Text(b));
    }
  }

  /** How many owned lines name a host. */
  lemma {:induction false} TextNaming(owned: seq<Owned>, hostname: string)
    requires AllGood(owned) && Distinct(owned) && IsPlainName(hostname)
    ensures Naming(Text(owned), hostname) == if Lists(owned, hostname) then 1 else 0
  {
    hide OwnedLine, IsPlainName, IsMarker, HasHostname;
    if owned == [] {
    } else {
      var rest := owned[1..];
      assert forall i | 0 <= i < |rest| :: rest[i] == owned[i + 1];
      TextNaming(rest, hostname);
      FirstOwned(owned, hostname);
      assert IsGood(owned[0]);
      ListsFirst(owned, hostname);
    }
  }

  lemma ListsFirst(owned: seq<Owned>, hostname: string)
    requires owned != []
    ensures Lists(owned, hostname) <==> owned[0].hostname == hostname || Lists(owned[1..], hostname)
    ensures Distinct(owned) && owned[0].hostname == hostname ==> !Lists(owned[1..], hostname)
  {
  }

  lemma FirstOwned(owned: seq<Owned>, hostname: string)
    requires owned != [] && IsGood(owned[0]) && IsPlainName(hostname)
    ensures Naming(Text(owned), hostname) ==
      (if owned[0].hostname == hostname then 1 else 0) + Naming(Text(owned[1..]), hostname)
  {
    hide IsPlainName, IsMarker, HasHostname, OwnedLine;
    var line, rest := OwnedLine(owned[0].hostname, owned[0].marker), Text(owned[1..]);
    OwnedLineSays(owned[0].hostname, owned[0].marker, rest, hostname);
    FirstLine(line, rest, hostname, "");
  }

  lemma OthersText(owned: seq<Owned>, hostname: string)
    requires owned != []
    ensures Text(Others(owned, hostname)) ==
      (if owned[0].hostname == hostname then "" else OwnedLine(owned[0].hostname, owned[0].marker))
      + Text(Others(owned[1..], hostname))
  {
    hide OwnedLine;
    var rest := Others(owned[1..], hostname);
    assert ([owned[0]] + rest)[1..] == rest && [] + rest == rest;
    assert "" + Text(rest) == Text(rest);
  }

  /** Taking away the line of a name with its marker leaves the others. */
  lemma {:induction false} TextWithout(owned: seq<Owned>, hostname: string, marker: string)
    requires AllGood(owned) && IsPlainName(hostname)
    requires forall i | 0 <= i < |owned| :: owned[i].hostname == hostname ==> owned[i].marker == marker
    ensures Without(Text(owned), hostname, marker) == Text(Others(owned, hostname))
  {
    hide IsPlainName, IsMarker, HasHostname, OwnedLine, Comment;
    if owned != [] {
      assert IsGood(owned[0]);
      var line, rest := OwnedLine(owned[0].hostname, owned[0].marker), Text(owned[1..]);
      OwnedLineSays(owned[0].hostname, owned[0].marker, rest, hostname);
      TextWithout(owned[1..], hostname, marker);
      FirstLine(line, rest, hostname, marker);
      OthersText(owned, hostname);
    }
  }
}
