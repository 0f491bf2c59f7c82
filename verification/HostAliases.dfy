/** The alias manager of internal/forward/alias.go: aliases, and one owned line for each in the hosts file. */
module HostAliases {
  import opened Ascii
  import opened HostsText
  import opened Strings
  import opened HostsFile

  // ----- The layout of the file ---------------------------------------------------------------------------

  /** The user's text, ended with a newline once a line has been added, and the owned lines. */
  predicate Layout(hosts: string, user: string, touched: bool, owned: seq<Owned>) {
    && hosts == (if touched then Ended(user) else user) + Text(owned)
    && (owned != [] ==> touched)
  }

  lemma EndedNames(user: string, hostname: string, comment: string)
    ensures Naming(user, hostname) == Naming(Ended(user), hostname)
    ensures Commented(user, comment) == Commented(Ended(user), comment)
  {
    if !EndsLine(user) {
      EndedSays(user, hostname, comment);
    }
  }

  lemma LayoutJoins(hosts: string, user: string, touched: bool, owned: seq<Owned>, hostname: string, comment: string)
    requires Layout(hosts, user, touched, owned)
    ensures Naming(hosts, hostname) == Naming(Ended(user), hostname) + Naming(Text(owned), hostname)
    ensures Commented(hosts, comment) == Commented(Ended(user), comment) + Commented(Text(owned), comment)
  {
    hide Text;
    EndedNames(user, hostname, comment);
    if touched {
      EndedEnds(user);
      NamingJoins(Ended(user), Text(owned), hostname);
      CommentedJoins(Ended(user), Text(owned), comment);
    } else {
      NoText();
      assert hosts == user;
    }
  }

  lemma NoText()
    ensures Text([]) == ""
  {
  }

  lemma EndedEnds(user: string)
    ensures EndsLine(Ended(user))
  {
  }

  /** How many lines of the file name a host. */
  lemma LayoutNaming(hosts: string, user: string, touched: bool, owned: seq<Owned>, hostname: string)
    requires Layout(hosts, user, touched, owned) && AllGood(owned) && Distinct(owned) && IsPlainName(hostname)
    ensures Naming(hosts, hostname) == Naming(Ended(user), hostname) + (if Lists(owned, hostname) then 1 else 0)
  {
    hide Layout, IsPlainName, Lists, IsGood, Text;
    LayoutJoins(hosts, user, touched, owned, hostname, "");
    TextNaming(owned, hostname);
  }

  lemma {:induction false} TextCommented(owned: seq<Owned>, marker: string)
    requires AllGood(owned) && Commented(Text(owned), marker) == 0
    ensures forall i | 0 <= i < |owned| :: owned[i].marker != marker
  {
    hide IsPlainName, IsMarker, OwnedLine, Comment;
    if owned != [] {
      assert IsGood(owned[0]);
      var line, rest := OwnedLine(owned[0].hostname, owned[0].marker), Text(owned[1..]);
      OwnedLineSays(owned[0].hostname, owned[0].marker, rest, owned[0].hostname);
      FirstLine(line, rest, "", marker);
      TextCommented(owned[1..], marker);
      assert forall i | 1 <= i < |owned| :: owned[i] == owned[1..][i - 1];
    }
  }

  lemma LayoutFresh(hosts: string, user: string, touched: bool, owned: seq<Owned>, marker: string)
    requires Layout(hosts, user, touched, owned) && AllGood(owned) && Commented(hosts, marker) == 0
    ensures Commented(Ended(user), marker) == 0 && forall i | 0 <= i < |owned| :: owned[i].marker != marker
  {
    hide Layout, IsGood, Text;
    LayoutJoins(hosts, user, touched, owned, "", marker);
    TextCommented(owned, marker);
  }

  lemma {:induction false} TextEnds(owned: seq<Owned>)
    ensures EndsLine(Text(owned))
  {
    if owned != [] {
      TextEnds(owned[1..]);
      var line, rest := OwnedLine(owned[0].hostname, owned[0].marker), Text(owned[1..]);
      assert line[|line| - 1] == '\n';
      assert (line + rest)[|line + rest| - 1] == if rest == "" then '\n' else rest[|rest| - 1];
    }
  }

  /** Writing a line at the end, after a newline where one is missing. */
  lemma LayoutAppend(hosts: string, user: string, touched: bool, owned: seq<Owned>, o: Owned)
    requires Layout(hosts, user, touched, owned)
    ensures Layout(Ended(hosts) + OwnedLine(o.hostname, o.marker), user, true, owned + [o])
  {
    hide OwnedLine;
    var line := OwnedLine(o.hostname, o.marker);
    TextJoins(owned, [o]);
    assert Text([o]) == line + Text([]) == line;
    TextEnds(owned);
    EndedEnds(user);
    if touched {
      var a, b := Ended(user), Text(owned);
      assert (a + b) != "" ==> (a + b)[|a + b| - 1] == if b == "" then a[|a| - 1] else b[|b| - 1];
      assert Ended(hosts) == hosts;
      Regroup(a, b, line);
    } else {
      assert owned == [] && hosts == user;
      assert Ended(user) + ("" + line) == Ended(user) + line;
    }
  }

  /** Rewriting the file without the line of a name. */
  lemma LayoutRemove(hosts: string, user: string, touched: bool, owned: seq<Owned>, hostname: string, marker: string)
    requires Layout(hosts, user, touched, owned) && AllGood(owned) && IsPlainName(hostname) && touched
    requires Commented(Ended(user), marker) == 0
    requires forall i | 0 <= i < |owned| :: owned[i].hostname == hostname ==> owned[i].marker == marker
    ensures Layout(Without(hosts, hostname, marker), user, true, Others(owned, hostname))
  {
    hide OwnedLine, IsPlainName, Text, Without, Others;
    EndedEnds(user);
    WithoutJoins(Ended(user), Text(owned), hostname, marker);
    WithoutNothing(Ended(user), hostname, marker);
    TextWithout(owned, hostname, marker);
  }

  // ----- What the manager knows ----------------------------------------------------------------------------

  datatype Alias = Alias(target: string, forwardID: string, marker: string)

  /** An active forward. */
  datatype Forward = Forward(id: string, target: string)

  /**
    The file and the aliases. owned are the owned lines in the order they were added; orphans are the
    names whose line stayed when the rollback of an addition failed; unlisted are the aliases whose
    line went although their removal failed in the store.
   */
  datatype Shape = Shape(
    hosts: string,
    aliases: map<string, Alias>,
    touched: bool,
    owned: seq<Owned>,
    orphans: set<string>,
    unlisted: set<string>)

  predicate IsLive(aliases: map<string, Alias>, o: Owned) {
    o.hostname in aliases && aliases[o.hostname].marker == o.marker
  }

  ghost predicate LinesFit(user: string, s: Shape) {
    && Layout(s.hosts, user, s.touched, s.owned) && AllGood(s.owned) && Distinct(s.owned)
    && (forall o | o in s.owned :: Commented(Ended(user), o.marker) == 0)
    && (forall o | o in s.owned :: o.hostname in s.orphans || IsLive(s.aliases, o))
  }

  ghost predicate NamesFit(user: string, s: Shape) {
    && (forall h | h in s.aliases :: IsPlainName(h) && Naming(Ended(user), h) == 0)
    && (forall h | h in s.aliases :: s.aliases[h].marker != "" && Commented(Ended(user), s.aliases[h].marker) == 0)
    && (forall h | h in s.aliases :: s.touched && (h in s.unlisted <==> !Lists(s.owned, h)))
    && (forall h | h in s.orphans :: h !in s.aliases && Lists(s.owned, h))
    && s.unlisted <= s.aliases.Keys
  }

  ghost predicate Fits(user: string, s: Shape) {
    LinesFit(user, s) && NamesFit(user, s)
  }

  lemma ListsMore(owned: seq<Owned>, o: Owned, h: string)
    ensures Lists(owned + [o], h) <==> Lists(owned, h) || o.hostname == h
  {
    assert (owned + [o])[|owned|] == o;
    if Lists(owned, h) {
      var i :| 0 <= i < |owned| && owned[i].hostname == h;
      assert (owned + [o])[i].hostname == h;
    }
  }

  lemma ListsIn(owned: seq<Owned>, o: Owned)
    requires o in owned
    ensures Lists(owned, o.hostname)
  {
  }

  lemma MarkerIsText(marker: string)
    requires IsMarker(marker)
    ensures marker != ""
  {
  }

  lemma DistinctMore(owned: seq<Owned>, o: Owned)
    requires Distinct(owned) && !Lists(owned, o.hostname) && forall i | 0 <= i < |owned| :: owned[i].marker != o.marker
    ensures Distinct(owned + [o])
  {
  }

  /** What must hold before a line can be added: the marker is fresh and no line names the host. */
  predicate CanAdd(s: Shape, h: string, marker: string) {
    && IsPlainName(h) && IsMarker(marker) && h !in s.aliases
    && Commented(s.hosts, marker) == 0 && Naming(s.hosts, h) == 0
  }

  /** The file with one more line, whatever its name then is: an alias or an orphan. */
  function Written(s: Shape, h: string, marker: string): Shape {
    s.(hosts := Ended(s.hosts) + OwnedLine(h, marker), touched := true, owned := s.owned + [Owned(h, marker)])
  }

  lemma AddedFacts(user: string, s: Shape, h: string, marker: string)
    requires Fits(user, s) && CanAdd(s, h, marker)
    ensures Naming(Ended(user), h) == 0 && Commented(Ended(user), marker) == 0
    ensures !Lists(s.owned, h) && h !in s.orphans && forall i | 0 <= i < |s.owned| :: s.owned[i].marker != marker
  {
    hide Layout, IsPlainName, IsMarker, Naming, Commented, Lists, IsGood;
    LayoutNaming(s.hosts, user, s.touched, s.owned, h);
    LayoutFresh(s.hosts, user, s.touched, s.owned, marker);
  }

  lemma WrittenLines(user: string, s: Shape, h: string, marker: string, t: Shape)
    requires Fits(user, s) && CanAdd(s, h, marker)
    requires t == Written(s, h, marker).(aliases := t.aliases, orphans := t.orphans)
    requires s.orphans <= t.orphans && forall x | x in s.aliases :: x in t.aliases && t.aliases[x] == s.aliases[x]
    requires h in t.orphans || IsLive(t.aliases, Owned(h, marker))
    ensures LinesFit(user, t)
  {
    hide Layout, IsPlainName, IsMarker, Naming, Commented, Lists, OwnedLine;
    AddedFacts(user, s, h, marker);
    LayoutAppend(s.hosts, user, s.touched, s.owned, Owned(h, marker));
    DistinctMore(s.owned, Owned(h, marker));
  }

  lemma AddedFits(user: string, s: Shape, h: string, alias: Alias)
    requires Fits(user, s) && CanAdd(s, h, alias.marker)
    ensures Fits(user, Written(s, h, alias.marker).(aliases := s.aliases[h := alias]))
  {
    hide LinesFit, IsPlainName, Naming, Commented, Lists, OwnedLine, Written;
    AddedFacts(user, s, h, alias.marker);
    WrittenIs(s, h, alias.marker);
    WrittenLines(user, s, h, alias.marker, Written(s, h, alias.marker).(aliases := s.aliases[h := alias]));
    forall x {
      ListsMore(s.owned, Owned(h, alias.marker), x);
    }
  }

  lemma WrittenIs(s: Shape, h: string, marker: string)
    ensures var t := Written(s, h, marker);
      && t.aliases == s.aliases && t.orphans == s.orphans && t.unlisted == s.unlisted
      && t.touched && t.owned == s.owned + [Owned(h, marker)]
  {
  }

  lemma OrphanFits(user: string, s: Shape, h: string, marker: string)
    requires Fits(user, s) && CanAdd(s, h, marker)
    ensures Fits(user, Written(s, h, marker).(orphans := s.orphans + {h}))
  {
    hide LinesFit, IsPlainName, IsMarker, Naming, Commented, Lists, OwnedLine, Written;
    AddedFacts(user, s, h, marker);
    WrittenIs(s, h, marker);
    WrittenLines(user, s, h, marker, Written(s, h, marker).(orphans := s.orphans + {h}));
    forall x {
      ListsMore(s.owned, Owned(h, marker), x);
    }
  }

  lemma {:induction false} OthersOfMore(owned: seq<Owned>, o: Owned)
    requires !Lists(owned, o.hostname)
    ensures Others(owned + [o], o.hostname) == owned
  {
    if owned == [] {
      assert ([] + [o])[1..] == [];
    } else {
      ListsFirst(owned, o.hostname);
      assert (owned + [o])[1..] == owned[1..] + [o] && (owned + [o])[0] == owned[0];
      OthersOfMore(owned[1..], o);
    }
  }

  lemma RolledBackFits(user: string, s: Shape, h: string, marker: string)
    requires Fits(user, s) && CanAdd(s, h, marker)
    ensures Fits(user, s.(hosts := Without(Written(s, h, marker).hosts, h, marker), touched := true))
  {
    hide Layout, IsPlainName, IsMarker, Naming, Commented, Lists, OwnedLine, Without, Others;
    AddedFacts(user, s, h, marker);
    var o := Owned(h, marker);
    LayoutAppend(s.hosts, user, s.touched, s.owned, o);
    forall i | 0 <= i < |s.owned|
      ensures s.owned[i].hostname != h
    {
      ListsIn(s.owned, s.owned[i]);
    }
    LayoutRemove(Written(s, h, marker).hosts, user, true, s.owned + [o], h, marker);
    OthersOfMore(s.owned, o);
  }

  /** The line of an alias taken out of the file, and the alias kept. */
  function Unlisted(s: Shape, h: string): Shape
    requires h in s.aliases
  {
    s.(hosts := Without(s.hosts, h, s.aliases[h].marker), owned := Others(s.owned, h), unlisted := s.unlisted + {h})
  }

  lemma OthersLists(owned: seq<Owned>, h: string, x: string)
    ensures Lists(Others(owned, h), x) <==> x != h && Lists(owned, x)
  {
    hide Others;
    OthersKeeps(owned, h);
    var rest := Others(owned, h);
    if Lists(rest, x) {
      var i :| 0 <= i < |rest| && rest[i].hostname == x;
      assert rest[i] in owned;
      ListsIn(owned, rest[i]);
    }
    if x != h && Lists(owned, x) {
      var i :| 0 <= i < |owned| && owned[i].hostname == x;
      assert owned[i] in rest;
      ListsIn(rest, owned[i]);
    }
  }

  lemma UnlistedLines(user: string, s: Shape, h: string)
    requires Fits(user, s) && h in s.aliases
    ensures LinesFit(user, Unlisted(s, h))
    ensures forall o | o in Others(s.owned, h) :: o.hostname != h
  {
    hide Layout, IsPlainName, Naming, Commented, Lists, Without, Others, IsGood, Distinct;
    OthersKeeps(s.owned, h);
    OthersDistinct(s.owned, h);
    forall i | 0 <= i < |s.owned| && s.owned[i].hostname == h
      ensures s.owned[i].marker == s.aliases[h].marker
    {
      assert s.owned[i] in s.owned;
    }
    LayoutRemove(s.hosts, user, s.touched, s.owned, h, s.aliases[h].marker);
    forall i | 0 <= i < |Others(s.owned, h)|
      ensures IsGood(Others(s.owned, h)[i])
    {
      assert Others(s.owned, h)[i] in s.owned;
    }
    NoLinesAtAll(s.owned, h);
  }

  lemma NoLinesAtAll(owned: seq<Owned>, h: string)
    ensures Others(owned, h) != [] ==> owned != []
  {
  }

  lemma UnlistedFits(user: string, s: Shape, h: string)
    requires Fits(user, s) && h in s.aliases
    ensures Fits(user, Unlisted(s, h))
  {
    hide LinesFit, IsPlainName, Naming, Commented, Lists, Without, Others;
    UnlistedLines(user, s, h);
    forall x {
      OthersLists(s.owned, h, x);
    }
  }

  lemma RemovedFits(user: string, s: Shape, h: string)
    requires Fits(user, s) && h in s.aliases
    ensures Fits(user, Unlisted(s, h).(aliases := s.aliases - {h}, unlisted := s.unlisted - {h}))
  {
    hide Layout, IsPlainName, Naming, Commented, Lists, Without, Others, AllGood, Distinct;
    UnlistedLines(user, s, h);
    UnlistedFits(user, s, h);
  }

  // ----- What the calls tell -------------------------------------------------------------------------------

  /** Which calls fail: reading or writing the file, the store, or rewriting the file after the store has failed. */
  datatype Faults = Faults(read: bool, write: bool, store: bool, undo: bool)

  /** How a call came to its end. */
  datatype Outcome = Done | Refused | FileFailed | StoreFailed | RollbackFailed

  datatype Call = AddCall(name: string, outcome: Outcome) | RemoveCall(name: string, outcome: Outcome)

  function AddOutcome(s: Shape, name: Option<string>, linked: bool, faults: Faults): Outcome {
    if name.None? || !linked || name.value in s.aliases then Refused
    else if faults.read then FileFailed
    else if Naming(s.hosts, name.value) > 0 then Refused
    else if faults.write then FileFailed
    else if !faults.store then Done
    else if faults.undo then RollbackFailed
    else StoreFailed
  }

  /** What an addition makes of the file and the aliases. */
  function AfterAdd(s: Shape, h: string, alias: Alias, outcome: Outcome): Shape {
    var written := Written(s, h, alias.marker);
    match outcome
    case Done => written.(aliases := s.aliases[h := alias])
    case RollbackFailed => written.(orphans := s.orphans + {h})
    case StoreFailed => s.(hosts := Without(written.hosts, h, alias.marker), touched := true)
    case _ => s
  }

  function RemoveOutcome(s: Shape, name: Option<string>, target: string, faults: Faults): Outcome {
    if name.None? || name.value !in s.aliases || s.aliases[name.value].target != target then Refused
    else if faults.read || faults.write then FileFailed
    else if faults.store then StoreFailed
    else Done
  }

  function AfterRemove(s: Shape, h: string, outcome: Outcome): Shape {
    if h !in s.aliases then s
    else
      match outcome
      case Done => Unlisted(s, h).(aliases := s.aliases - {h}, unlisted := s.unlisted - {h})
      case StoreFailed => Unlisted(s, h)
      case _ => s
  }

  /** When an addition comes to which end, and what it does to the file and the aliases. */
  lemma AddExactly(s: Shape, name: Option<string>, linked: bool, faults: Faults, alias: Alias)
    ensures var outcome := AddOutcome(s, name, linked, faults);
      var mayBegin := name.Some? && linked && name.value !in s.aliases;
      var mayWrite := mayBegin && !faults.read && Naming(s.hosts, name.value) == 0;
      && (outcome == Refused <==> !mayBegin || (!faults.read && Naming(s.hosts, name.value) > 0))
      && (outcome == FileFailed <==> (mayBegin && faults.read) || (mayWrite && faults.write))
      && (outcome == Done <==> mayWrite && !faults.write && !faults.store)
      && (outcome == StoreFailed <==> mayWrite && !faults.write && faults.store && !faults.undo)
    ensures name.Some? ==>
      var outcome := AddOutcome(s, name, linked, faults);
      var after := AfterAdd(s, name.value, alias, outcome);
      var line := Ended(s.hosts) + OwnedLine(name.value, alias.marker);
      && after.aliases == (if outcome == Done then s.aliases[name.value := alias] else s.aliases)
      && after.hosts ==
         if outcome == Done || outcome == RollbackFailed then line
         else if outcome == StoreFailed then Without(line, name.value, alias.marker)
         else s.hosts
  {
    hide Naming, Without, OwnedLine, Ended;
  }

  /** The same for a removal: only the target of an alias can remove it. */
  lemma RemoveExactly(s: Shape, name: Option<string>, target: string, faults: Faults)
    ensures var outcome := RemoveOutcome(s, name, target, faults);
      var mayBegin := name.Some? && name.value in s.aliases && s.aliases[name.value].target == target;
      && (outcome == Refused <==> !mayBegin)
      && (outcome == FileFailed <==> mayBegin && (faults.read || faults.write))
      && (outcome == Done <==> mayBegin && !faults.read && !faults.write && !faults.store)
    ensures name.Some? ==>
      var outcome := RemoveOutcome(s, name, target, faults);
      var after := AfterRemove(s, name.value, outcome);
      && after.aliases == (if outcome == Done then s.aliases - {name.value} else s.aliases)
      && after.hosts ==
         if outcome == Done || outcome == StoreFailed then
           Without(s.hosts, name.value, if name.value in s.aliases then s.aliases[name.value].marker else "")
         else s.hosts
  {
    hide Naming, Without;
  }

  /** The alias was added by this call and has not been removed since. */
  predicate IsSince(calls: seq<Call>, h: string, a: nat) {
    && a < |calls| && calls[a] == AddCall(h, Done)
    && forall i | a < i < |calls| :: calls[i] != RemoveCall(h, Done)
  }

  ghost predicate IsAlias(calls: seq<Call>, h: string) {
    exists a :: IsSince(calls, h, a)
  }

  /** Since the alias was added, a removal has rewritten the file and then failed in the store. */
  ghost predicate IsHalfRemoved(calls: seq<Call>, h: string) {
    exists a, r | 0 <= a < r < |calls| :: IsSince(calls, h, a) && calls[r] == RemoveCall(h, StoreFailed)
  }

  /** An addition has written the file, failed in the store, and could not take its line out again. */
  ghost predicate IsHalfAdded(calls: seq<Call>, h: string) {
    exists i | 0 <= i < |calls| :: calls[i] == AddCall(h, RollbackFailed)
  }

  lemma AddOutcomeIs(s: Shape, name: Option<string>, linked: bool, faults: Faults)
    ensures name.None? ==> AddOutcome(s, name, linked, faults) == Refused
    ensures name.Some? && name.value in s.aliases ==> AddOutcome(s, name, linked, faults) == Refused
  {
  }

  lemma AddFits(user: string, s: Shape, h: string, alias: Alias, linked: bool, faults: Faults)
    requires Fits(user, s) && IsPlainName(h) && IsMarker(alias.marker) && Commented(s.hosts, alias.marker) == 0
    ensures Fits(user, AfterAdd(s, h, alias, AddOutcome(s, Some(h), linked, faults))) && s.unlisted <= s.aliases.Keys
  {
    hide LinesFit, IsPlainName, IsMarker, Naming, Commented, Written, Without;
    if linked && h !in s.aliases && Naming(s.hosts, h) == 0 {
      AddedFits(user, s, h, alias);
      OrphanFits(user, s, h, alias.marker);
      RolledBackFits(user, s, h, alias.marker);
    }
  }

  lemma RemoveFits(user: string, s: Shape, h: string, outcome: Outcome)
    requires Fits(user, s)
    ensures Fits(user, AfterRemove(s, h, outcome))
  {
    hide Fits, Unlisted;
    if h in s.aliases {
      UnlistedFits(user, s, h);
      RemovedFits(user, s, h);
    }
  }

  lemma CallsMore(calls: seq<Call>, call: Call, h: string)
    ensures IsAlias(calls + [call], h) <==>
      call == AddCall(h, Done) || (IsAlias(calls, h) && call != RemoveCall(h, Done))
    ensures IsHalfRemoved(calls + [call], h) <==>
      && call != RemoveCall(h, Done)
      && (IsHalfRemoved(calls, h) || (IsAlias(calls, h) && call == RemoveCall(h, StoreFailed)))
    ensures IsHalfAdded(calls + [call], h) <==> IsHalfAdded(calls, h) || call == AddCall(h, RollbackFailed)
  {
    var n, more := |calls|, calls + [call];
    assert more[n] == call && forall i | 0 <= i < n :: more[i] == calls[i];
    SinceMore(calls, call, h);
    if IsHalfAdded(calls, h) {
      var i :| 0 <= i < n && calls[i] == AddCall(h, RollbackFailed);
      assert more[i] == AddCall(h, RollbackFailed);
    }
    if call == AddCall(h, Done) {
      assert IsSince(more, h, n);
    }
    if call != RemoveCall(h, Done) {
      if a :| IsSince(calls, h, a) {
        assert IsSince(more, h, a);
      }
      if IsHalfRemoved(calls, h) {
        var a, r :| 0 <= a < r < n && IsSince(calls, h, a) && calls[r] == RemoveCall(h, StoreFailed);
        assert IsSince(more, h, a) && more[r] == RemoveCall(h, StoreFailed);
      }
      if IsAlias(calls, h) && call == RemoveCall(h, StoreFailed) {
        var a :| IsSince(calls, h, a);
        assert IsSince(more, h, a) && more[n] == RemoveCall(h, StoreFailed);
      }
    }
  }

  lemma SinceMore(calls: seq<Call>, call: Call, h: string)
    ensures forall a: nat :: IsSince(calls + [call], h, a) <==>
      (a == |calls| && call == AddCall(h, Done)) || (IsSince(calls, h, a) && call != RemoveCall(h, Done))
  {
    var n, more := |calls|, calls + [call];
    assert more[n] == call && forall i | 0 <= i < n :: more[i] == calls[i];
  }

  /** The calls tell which names are aliases, and which of them and of the others are half-way. */
  ghost predicate Tells(calls: seq<Call>, s: Shape) {
    && (forall h :: h in s.aliases <==> IsAlias(calls, h))
    && (forall h :: h in s.unlisted <==> IsHalfRemoved(calls, h))
    && (forall h :: h in s.orphans <==> IsHalfAdded(calls, h))
  }

  lemma AddTells(calls: seq<Call>, s: Shape, h: string, alias: Alias, outcome: Outcome)
    requires Tells(calls, s) && s.unlisted <= s.aliases.Keys
    requires h !in s.aliases || outcome == Refused
    ensures Tells(calls + [AddCall(h, outcome)], AfterAdd(s, h, alias, outcome))
  {
    hide IsAlias, IsHalfRemoved, IsHalfAdded, Written, Without;
    WrittenIs(s, h, alias.marker);
    forall x
      ensures var t, more := AfterAdd(s, h, alias, outcome), calls + [AddCall(h, outcome)];
        && (x in t.aliases <==> IsAlias(more, x)) && (x in t.unlisted <==> IsHalfRemoved(more, x))
        && (x in t.orphans <==> IsHalfAdded(more, x))
    {
      CallsMore(calls, AddCall(h, outcome), x);
    }
  }

  lemma RemoveTells(calls: seq<Call>, s: Shape, h: string, outcome: Outcome)
    requires Tells(calls, s) && (h in s.aliases || outcome == Refused)
    ensures Tells(calls + [RemoveCall(h, outcome)], AfterRemove(s, h, outcome))
  {
    hide IsAlias, IsHalfRemoved, IsHalfAdded, Without, Others;
    forall x
      ensures var t, more := AfterRemove(s, h, outcome), calls + [RemoveCall(h, outcome)];
        && (x in t.aliases <==> IsAlias(more, x)) && (x in t.unlisted <==> IsHalfRemoved(more, x))
        && (x in t.orphans <==> IsHalfAdded(more, x))
    {
      CallsMore(calls, RemoveCall(h, outcome), x);
    }
  }

  /**
    After any calls, a live alias is on exactly one line of the file, or on none if and only if some
    removal of it, since it was added, has rewritten the file and then failed in the store.
   */
  lemma LiveOnOneLine(user: string, s: Shape, calls: seq<Call>, h: string)
    requires Fits(user, s) && Tells(calls, s) && IsAlias(calls, h)
    ensures h in s.aliases && Naming(s.hosts, h) == if IsHalfRemoved(calls, h) then 0 else 1
  {
    hide Layout, IsPlainName, Naming, Commented, Lists, IsGood, IsAlias, IsHalfRemoved, IsHalfAdded;
    LayoutNaming(s.hosts, user, s.touched, s.owned, h);
  }

  /** Such a removal takes the line of an alias that has one, and leaves the alias. */
  lemma HalfRemovalTakesLine(user: string, s: Shape, h: string)
    requires Fits(user, s) && h in s.aliases && h !in s.unlisted
    ensures var t := AfterRemove(s, h, StoreFailed);
      Fits(user, t) && h in t.aliases && Naming(s.hosts, h) == 1 && Naming(t.hosts, h) == 0
  {
    hide Fits, LinesFit, IsPlainName, Naming, Commented, Lists, Without, Others;
    var t := AfterRemove(s, h, StoreFailed);
    UnlistedFits(user, s, h);
    OneLine(user, s, h);
    OneLine(user, t, h);
  }

  lemma OneLine(user: string, s: Shape, h: string)
    requires Fits(user, s) && h in s.aliases
    ensures Naming(s.hosts, h) == if h in s.unlisted then 0 else 1
  {
    hide Layout, IsPlainName, Naming, Commented, Lists, IsGood;
    LayoutNaming(s.hosts, user, s.touched, s.owned, h);
  }

  /** The calls have left a line for this name: for an alias, or after an addition that came half-way. */
  ghost predicate HasLine(calls: seq<Call>, h: string) {
    IsHalfAdded(calls, h) || (IsAlias(calls, h) && !IsHalfRemoved(calls, h))
  }

  lemma LayoutIs(user: string, s: Shape)
    requires Layout(s.hosts, user, s.touched, s.owned)
    ensures s.hosts == (if s.touched then Ended(user) else user) + Text(s.owned)
  {
  }

  /**
    After any calls, the file is the user's text and then lines in the order they were added: one for
    each live alias that is not half removed, and those of the additions that came half-way, which
    name no alias. So beyond the user's own lines a name is on one line if it is one of these, and on
    none otherwise.
   */
  lemma FileIsUserAndAliases(user: string, s: Shape, calls: seq<Call>)
    requires Fits(user, s) && Tells(calls, s)
    ensures s.hosts == (if s.touched then Ended(user) else user) + Text(s.owned) && Distinct(s.owned)
    ensures forall h | h in s.aliases :: IsHalfRemoved(calls, h) <==> Owned(h, s.aliases[h].marker) !in s.owned
    ensures forall o | o in s.owned ::
      if IsHalfAdded(calls, o.hostname) then !IsAlias(calls, o.hostname) else IsLive(s.aliases, o)
    ensures forall h | IsPlainName(h) ::
      Naming(s.hosts, h) == Naming(Ended(user), h) + (if HasLine(calls, h) then 1 else 0)
  {
    hide IsPlainName, Naming, Commented, IsGood, Text, Layout, Distinct, IsAlias, IsHalfRemoved, IsHalfAdded;
    LayoutIs(user, s);
    forall h | IsPlainName(h)
      ensures Naming(s.hosts, h) == Naming(Ended(user), h) + (if HasLine(calls, h) then 1 else 0)
    {
      LayoutNaming(s.hosts, user, s.touched, s.owned, h);
      if Lists(s.owned, h) {
        var i :| 0 <= i < |s.owned| && s.owned[i].hostname == h;
        assert s.owned[i] in s.owned;
      }
    }
    forall h | h in s.aliases && h !in s.unlisted
      ensures Owned(h, s.aliases[h].marker) in s.owned
    {
      var i :| 0 <= i < |s.owned| && s.owned[i].hostname == h;
      assert s.owned[i] in s.owned;
    }
    forall h | h in s.aliases && Owned(h, s.aliases[h].marker) in s.owned
      ensures h !in s.unlisted
    {
      ListsIn(s.owned, Owned(h, s.aliases[h].marker));
    }
  }

  // ----- The manager ---------------------------------------------------------------------------------

  class AliasManager {
    const IsIP: string -> bool
    var hosts: string
    var aliases: map<string, Alias>
    ghost const user: string  // the file as it was found
    ghost var touched: bool
    ghost var owned: seq<Owned>
    ghost var orphans: set<string>
    ghost var unlisted: set<string>
    ghost var calls: seq<Call>  // the calls there have been, with names that could be normalised

    ghost function Now(): Shape
      reads this
    {
      Shape(hosts, aliases, touched, owned, orphans, unlisted)
    }

    ghost predicate Valid()
      reads this
    {
      Fits(user, Now()) && Tells(calls, Now())
    }

    constructor (hosts: string, IsIP: string -> bool)
      ensures Valid() && user == hosts && Now() == Shape(hosts, map[], false, [], {}, {}) && calls == []
      ensures this.IsIP == IsIP
    {
      this.hosts, this.IsIP, aliases := hosts, IsIP, map[];
      user, touched, owned, orphans, unlisted, calls := hosts, false, [], {}, {}, [];
      new;
      assert hosts + "" == hosts;
    }

    /** The file cannot be read, or already names the host, or cannot be written; or it has one more line. */
    method AddOwnedLine(hostname: string, marker: string, faults: Faults) returns (outcome: Outcome)
      modifies this`hosts
      ensures outcome == if faults.read then FileFailed else if Naming(old(hosts), hostname) > 0 then Refused
        else if faults.write then FileFailed else Done
      ensures hosts == if outcome == Done then Ended(old(hosts)) + OwnedLine(hostname, marker) else old(hosts)
    {
      hide HasHostname, Naming, OwnedLine, Split;
      if faults.read {
        return FileFailed;
      }
      var data := hosts;
      var lines := Split(data);
      SplitNaming(data, hostname);
      for i := 0 to |lines|
        invariant hosts == old(hosts) && forall k | 0 <= k < i :: !HasHostname(lines[k], hostname)
      {
        var taken := FieldsName(lines[i], hostname);
        if taken {
          return Refused;
        }
      }
      if |data| > 0 && data[|data| - 1] != '\n' {
        data := data + "\n";
      }
      data := data + OwnedLine(hostname, marker);
      if faults.write {
        return FileFailed;
      }
      hosts := data;
      outcome := Done;
    }

    /** Whether a line names a host: the loop over its fields after the address. */
    static method FieldsName(line: string, hostname: string) returns (r: bool)
      ensures r == HasHostname(line, hostname)
    {
      hide FoldsTo, TrimDot, Fields, TrimSpace, Content;
      var fields := Fields(TrimSpace(Content(line)));
      if |fields| < 2 {
        return false;
      }
      for i := 1 to |fields|
        invariant forall k | 1 <= k < i :: !FoldsTo(TrimDot(fields[k]), hostname)
      {
        if FoldsTo(TrimDot(fields[i]), hostname) {
          return true;
        }
      }
      r := false;
    }

    method RemoveOwnedLine(hostname: string, marker: string, fails: bool) returns (ok: bool)
      requires marker != ""
      modifies this`hosts
      ensures ok == !fails
      ensures hosts == if ok then Without(old(hosts), hostname, marker) else old(hosts)
    {
      hide HasHostname, Comment, Without, SplitAfter, KeptOf, Concat;
      var lines := SplitAfter(hosts);
      var kept := [];
      KeptText(hosts, hostname, marker);
      KeptStart(lines, hostname, marker);
      for i := 0 to |lines|
        invariant hosts == old(hosts)
        invariant kept + KeptOf(lines[i..], hostname, marker) == KeptOf(lines, hostname, marker)
      {
        var comment := Comment(lines[i]);
        var named := FieldsName(lines[i], hostname);
        KeptStep(lines, i, hostname, marker, kept);
        if comment == marker && named {
          continue;
        }
        kept := kept + [lines[i]];
      }
      KeptEnd(lines, hostname, marker, kept);
      if fails {
        return false;  // the file could not be read, or cannot be written
      }
      hosts := Concat(kept);
      ok := true;
    }

    lemma KeptStart(lines: seq<string>, hostname: string, marker: string)
      ensures [] + KeptOf(lines[0..], hostname, marker) == KeptOf(lines, hostname, marker)
    {
    }

    lemma KeptStep(lines: seq<string>, i: nat, hostname: string, marker: string, kept: seq<string>)
      requires i < |lines|
      ensures kept + KeptOf(lines[i..], hostname, marker) ==
        kept + (if IsOwned(lines[i], hostname, marker) then [] else [lines[i]])
        + KeptOf(lines[i + 1..], hostname, marker)
    {
      hide IsOwned;
      var one := if IsOwned(lines[i], hostname, marker) then [] else [lines[i]];
      assert lines[i..][0] == lines[i] && lines[i..][1..] == lines[i + 1..];
      var rest := KeptOf(lines[i + 1..], hostname, marker);
      assert kept + (one + rest) == kept + one + rest;
    }

    lemma KeptEnd(lines: seq<string>, hostname: string, marker: string, kept: seq<string>)
      requires kept + KeptOf(lines[|lines|..], hostname, marker) == KeptOf(lines, hostname, marker)
      ensures kept == KeptOf(lines, hostname, marker)
    {
    }

    static method Linked(forwards: seq<Forward>, target: string, forwardID: string) returns (found: bool)
      ensures found <==> Forward(forwardID, target) in forwards
    {
      for i := 0 to |forwards|
        invariant forall k | 0 <= k < i :: forwards[k] != Forward(forwardID, target)
      {
        if forwards[i].id == forwardID && forwards[i].target == target {
          assert forwards[i] == Forward(forwardID, target);
          return true;
        }
      }
      found := false;
    }

    /**
      Add, with the active forwards and a marker that no line of the file has. If the store fails
      after the line was written, the line is taken out again, or stays if that fails as well.
     */
    method Add(forwards: seq<Forward>, target: string, forwardID: string,
               hostname: string, marker: string, faults: Faults)
      returns (outcome: Outcome)
      requires Valid() && IsMarker(marker) && Commented(hosts, marker) == 0
      modifies this
      ensures Valid()
      ensures var name := NormalizeHostname(hostname, IsIP);
        && outcome == AddOutcome(old(Now()), name, Forward(forwardID, target) in forwards, faults)
        && (if name.None? then Now() == old(Now()) && calls == old(calls)
            else
              && Now() == AfterAdd(old(Now()), name.value, Alias(target, forwardID, marker), outcome)
              && calls == old(calls) + [AddCall(name.value, outcome)])
    {
      hide Fits, Tells, AfterAdd, AddOutcome, NormalizeHostname, IsMarker, IsPlainName, Naming, Commented;
      ghost var before, alias := Now(), Alias(target, forwardID, marker);
      var normalized := NormalizeHostname(hostname, IsIP);
      var linked := Linked(forwards, target, forwardID);
      NormalizedIsPlain(hostname, IsIP);
      AddOutcomeIs(before, normalized, linked, faults);
      if normalized.None? {
        return Refused;
      }
      var name := normalized.value;
      outcome := AddName(linked, target, forwardID, name, marker, faults);
      AddFits(user, before, name, alias, linked, faults);
      AddTells(calls, before, name, alias, outcome);
      calls := calls + [AddCall(name, outcome)];
    }

    /** Add, once the name has been normalised and the forwards have been searched. */
    method AddName(linked: bool, target: string, forwardID: string, name: string, marker: string, faults: Faults)
      returns (outcome: Outcome)
      requires Valid() && IsMarker(marker)
      modifies this
      ensures outcome == AddOutcome(old(Now()), Some(name), linked, faults) && calls == old(calls)
      ensures Now() == AfterAdd(old(Now()), name, Alias(target, forwardID, marker), outcome)
    {
      hide Fits, Tells, IsMarker, Naming, OwnedLine, Without, Ended;
      MarkerIsText(marker);
      if !linked || name in aliases {
        return Refused;
      }
      outcome := AddOwnedLine(name, marker, faults);
      if outcome != Done {
        return;
      }
      touched := true;
      if faults.store {
        var undone := RemoveOwnedLine(name, marker, faults.undo);
        if undone {
          return StoreFailed;
        }
        owned, orphans := owned + [Owned(name, marker)], orphans + {name};
        return RollbackFailed;
      }
      owned := owned + [Owned(name, marker)];
      aliases := aliases[name := Alias(target, forwardID, marker)];
    }

    /** Remove: the line first, then the record in the store. */
    method Remove(target: string, hostname: string, faults: Faults) returns (outcome: Outcome)
      requires Valid()
      modifies this
      ensures Valid()
      ensures var name := Normal(hostname);
        && outcome == RemoveOutcome(old(Now()), name, target, faults)
        && (if name.None? then Now() == old(Now()) && calls == old(calls)
            else
              && Now() == AfterRemove(old(Now()), name.value, outcome)
              && calls == old(calls) + [RemoveCall(name.value, outcome)])
    {
      hide Fits, Tells, Normal, AfterRemove;
      var normal := Normal(hostname);
      if normal.None? {
        return Refused;  // it is not ASCII text, as the names of all aliases are
      }
      var name := normal.value;
      ghost var before := Now();
      outcome := RemoveName(target, name, faults);
      RemoveFits(user, before, name, outcome);
      RemoveTells(calls, before, name, outcome);
      calls := calls + [RemoveCall(name, outcome)];
    }

    /** Remove, once the name has been normalised. */
    method RemoveName(target: string, name: string, faults: Faults) returns (outcome: Outcome)
      requires Valid()
      modifies this
      ensures outcome == RemoveOutcome(old(Now()), Some(name), target, faults) && calls == old(calls)
      ensures Now() == AfterRemove(old(Now()), name, outcome)
    {
      hide Fits, Tells, Without, Others;
      if name !in aliases || aliases[name].target != target {
        return Refused;
      }
      MarkerNotEmpty(name);
      var ok := RemoveOwnedLine(name, aliases[name].marker, faults.read || faults.write);
      if !ok {
        return FileFailed;
      }
      owned := Others(owned, name);
      if faults.store {
        unlisted := unlisted + {name};
        return StoreFailed;
      }
      aliases, unlisted := aliases - {name}, unlisted - {name};
      outcome := Done;
    }

    lemma MarkerNotEmpty(name: string)
      requires Valid() && name in aliases
      ensures aliases[name].marker != ""
    {
      hide LinesFit, Naming, Commented, IsPlainName, Tells;
    }
  }

  // ----- Aliases without lines, and lines without aliases --------------------------------------------------

  /** An alias is added, and its removal fails in the store: it is live and on no line. */
  method AliasWithoutLine(user: string, IsIP: string -> bool, forward: Forward, name: string, marker: string)
    returns (manager: AliasManager)
    requires IsHostname(name, IsIP) && IsMarker(marker) && Naming(user, name) == 0 && Commented(user, marker) == 0
    ensures manager.Valid() && name in manager.aliases && Naming(manager.hosts, name) == 0
    ensures manager.calls == [AddCall(name, Done), RemoveCall(name, StoreFailed)]
  {
    hide IsHostname, IsMarker, Naming, Commented, Fits, Tells, NormalizeHostname, Normal, IsPlainName, Without;
    manager := new AliasManager(user, IsIP);
    NormalizedIsPlain(name, IsIP);
    PlainIsNormal(name);
    var works := Faults(false, false, false, false);
    var added := manager.Add([forward], forward.target, forward.id, name, marker, works);
    var removed := manager.Remove(forward.target, name, works.(store := true));
    HalfRemovedTells(manager.calls, name);
    LiveOnOneLine(user, manager.Now(), manager.calls, name);
  }

  lemma HalfRemovedTells(calls: seq<Call>, h: string)
    requires calls == [AddCall(h, Done), RemoveCall(h, StoreFailed)]
    ensures IsAlias(calls, h) && IsHalfRemoved(calls, h)
  {
    assert IsSince(calls, h, 0) && calls[1] == RemoveCall(h, StoreFailed);
  }

  /** An addition fails in the store and cannot take its line out again: the line stays without an alias. */
  method LineWithoutAlias(user: string, IsIP: string -> bool, forward: Forward, name: string, marker: string)
    returns (manager: AliasManager)
    requires IsHostname(name, IsIP) && IsMarker(marker) && Naming(user, name) == 0 && Commented(user, marker) == 0
    ensures manager.Valid() && manager.aliases == map[] && Naming(manager.hosts, name) == 1
    ensures manager.hosts == Ended(user) + OwnedLine(name, marker)
  {
    hide IsHostname, IsMarker, Naming, Commented, Fits, Tells, NormalizeHostname, IsPlainName, Without, OwnedLine;
    manager := new AliasManager(user, IsIP);
    NormalizedIsPlain(name, IsIP);
    var added := manager.Add([forward], forward.target, forward.id, name, marker, Faults(false, false, true, true));
    HalfAddedTells(manager.calls, name);
    FileIsUserAndAliases(user, manager.Now(), manager.calls);
    EndedNames(user, name, "");
  }

  lemma HalfAddedTells(calls: seq<Call>, h: string)
    requires calls == [AddCall(h, RollbackFailed)]
    ensures HasLine(calls, h)
  {
    assert calls[0] == AddCall(h, RollbackFailed);
  }
}
