/** Which texts are host names to internal/forward/alias.go, and which fields of a line name a host. */
module HostNames {
  import opened Ascii
  import opened Strings
  import opened HostsText
  import opened HostsFile

  // ----- Names -------------------------------------------------------------------------------------------

  /** A label of the letters a to z, digits and hyphens, with no hyphen at an end. */
  predicate IsDnsLabel(x: string) {
    && 1 <= |x| <= 63 && x[0] != '-' && x[|x| - 1] != '-'
    && forall i | 0 <= i < |x| :: 'a' <= x[i] <= 'z' || '0' <= x[i] <= '9' || x[i] == '-'
  }

  function Dotted(labels: seq<string>): string {
    if labels == [] then "" else if |labels| == 1 then labels[0] else labels[0] + "." + Dotted(labels[1..])
  }

  predicate AreDnsLabels(labels: seq<string>) {
    |labels| >= 2 && forall i | 0 <= i < |labels| :: IsDnsLabel(labels[i])
  }

  /** At least two labels with dots between them, in at most 253 bytes. */
  ghost predicate IsDnsName(s: string) {
    |s| <= 253 && exists labels :: AreDnsLabels(labels) && s == Dotted(labels)
  }

  lemma LabelIsDns(x: string)
    ensures IsLabel(x) <==> IsDnsLabel(x)
  {
  }

  lemma {:induction false} DottedSplit(s: string)
    ensures Dotted(Labels(s)) == s
    decreases |s|
  {
    hide Labels, LabelLength;
    LabelsAre(s);
    var n := LabelLength(s);
    if n < |s| {
      DottedSplit(s[n + 1..]);
      assert ([s[..n]] + Labels(s[n + 1..]))[1..] == Labels(s[n + 1..]);
      assert s == s[..n] + "." + s[n + 1..];
    }
  }

  lemma {:induction false} LabelEnds(x: string, rest: string)
    requires '.' !in x && (rest != "" ==> rest[0] == '.')
    ensures LabelLength(x + rest) == |x|
  {
    if x == "" {
      assert x + rest == rest;
    } else {
      assert x[0] in x && (x + rest)[1..] == x[1..] + rest;
      LabelEnds(x[1..], rest);
    }
  }

  lemma {:induction false} SplitDotted(labels: seq<string>)
    requires labels != [] && forall i | 0 <= i < |labels| :: '.' !in labels[i]
    ensures Labels(Dotted(labels)) == labels
    decreases |labels|
  {
    hide Labels, LabelLength;
    var s := Dotted(labels);
    LabelsAre(s);
    if |labels| == 1 {
      LabelEnds(s, "");
      assert s + "" == s;
    } else {
      var rest := Dotted(labels[1..]);
      SplitDotted(labels[1..]);
      LabelEnds(labels[0], "." + rest);
      assert s == labels[0] + ("." + rest);
      assert s[..|labels[0]|] == labels[0] && s[|labels[0]| + 1..] == rest;
      assert labels == [labels[0]] + labels[1..];
    }
  }

  lemma DnsLabels(s: string)
    ensures |Labels(s)| >= 2 && (forall i | 0 <= i < |Labels(s)| :: IsLabel(Labels(s)[i])) <==>
      exists labels :: AreDnsLabels(labels) && s == Dotted(labels)
  {
    hide IsLabel, IsDnsLabel, Labels, Dotted;
    forall x {
      LabelIsDns(x);
    }
    DottedSplit(s);
    if exists labels :: AreDnsLabels(labels) && s == Dotted(labels) {
      var labels :| AreDnsLabels(labels) && s == Dotted(labels);
      forall i | 0 <= i < |labels|
        ensures '.' !in labels[i]
      {
        NoDotInLabel(labels[i]);
      }
      SplitDotted(labels);
    }
  }

  lemma NoDotInLabel(x: string)
    requires IsDnsLabel(x)
    ensures '.' !in x
  {
  }

  lemma LocalIsNoDnsName()
    ensures |Labels("localhost")| == 1
  {
    LabelEnds("localhost", "");
    assert "localhost" + "" == "localhost";
  }

  /** A text is accepted if and only if it is a name once trimmed and in lower case, and no IP address. */
  lemma NormalizesExactly(hostname: string, IsIP: string -> bool)
    ensures var r, s := NormalizeHostname(hostname, IsIP), Normal(hostname);
      && (r.Some? <==> s.Some? && IsDnsName(s.value) && !IsIP(s.value))
      && (r.Some? ==> r == s)
  {
    hide Normal, Labels, IsLabel, Dotted, AreDnsLabels;
    if Normal(hostname).Some? {
      var s := Normal(hostname).value;
      DnsLabels(s);
      LocalIsNoDnsName();
      if |Labels(s)| >= 2 {
        DottedSplit(s);
        SomeBytes(s);
      }
    }
  }

  lemma SomeBytes(s: string)
    requires |Labels(s)| >= 2
    ensures s != ""
  {
  }

  // ----- What is trimmed and put into lower case ---------------------------------------------------------------

  predicate IsLowered(r: string, x: string) {
    |r| == |x| && forall i | 0 <= i < |x| :: r[i] == if 'A' <= x[i] <= 'Z' then (x[i] as int + 32) as char else x[i]
  }

  /** Of a printable text, white space around it and one dot at its end are taken off, and letters are lowered. */
  lemma NormalReads(before: string, x: string, dot: bool, after: string) returns (r: string)
    requires AreAsciiSpaces(before) && AreAsciiSpaces(after) && x != "" && IsPrintable(x) && x[|x| - 1] != '.'
    ensures Normal(before + x + (if dot then "." else "") + after) == Some(r) && IsLowered(r, x)
  {
    hide MapRunes, TrimSpace;
    var dotted := x + if dot then "." else "";
    assert before + x + (if dot then "." else "") + after == before + dotted + after;
    TrimAround(before, dotted, after);
    assert TrimDot(dotted) == x;
    LowerPrintable(x, LowerRune);
    r := MapRunes(x, LowerRune).value;
  }

  /** A field names a host if it is the name, in letters of either case, or the name with a dot at its end. */
  lemma FieldNames(address: string, field: string, hostname: string)
    requires IsPrintable(field) && IsPlainName(hostname)
    ensures var name := if field != "" && field[|field| - 1] == '.' then field[..|field| - 1] else field;
      NamesHost([address, field], hostname) <==>
      |name| == |hostname| && forall i | 0 <= i < |name| :: SameLetter(name[i], hostname[i])
  {
    hide FoldsTo, IsPlainName, SameLetter;
    PlainIsPrintable(hostname);
    var name := if field != "" && field[|field| - 1] == '.' then field[..|field| - 1] else field;
    FoldsExactly(name, hostname);
    assert TrimDot(field) == name && [address, field][1] == field;
  }
}
