/** Two runs in which another call falls between two calls of a submission. */
module GateRaces {
  import opened Ascii
  import opened Approvals
  import opened GateProtocol
  import C = Commands
  import P = PolicyEngine

  lemma Then(env: Environment, id: string, first: Entry, labels: seq<Label>,
             now: Entry, own: seq<Event>, l: Label, next: Entry, events: seq<Event>)
    requires Follow(env, id, first, labels) == Some((now, own)) && Subject(l) == id
    requires Local(env, id, now, l) == Some((next, events))
    ensures Follow(env, id, first, labels + [l]) == Some((next, own + events))
  {
    hide Local, Follow;
    FollowMore(env, id, first, labels, l);
  }

  /** A submission that the operator is asked about, once its request waits in the broker. */
  function Asking(env: Environment, target: string, payload: string): Entry {
    Entry(target, payload, env.Hash(payload), C.Waiting, None, P.Ask, Selecting,
          Some(Row(payload, env.Hash(payload), C.Waiting, P.Ask, None)), [], true, None, None, false)
  }

  function Steps(id: string): seq<Label> {
    [] + [Advance(id, true)] + [Advance(id, true)] + [Advance(id, true)] + [Advance(id, true)] + [Advance(id, true)]
  }

  function AskingLog(env: Environment, id: string, payload: string): seq<Event> {
    [RowCreated(id, payload, env.Hash(payload), P.Ask), RowUpdated(id, C.Waiting), Registered(id)]
  }

  lemma ToAsking(env: Environment, id: string, target: string, payload: string)
    requires env.judge([], payload) == P.Ask
    ensures Follow(env, id, NewEntry(env, [], target, payload), Steps(id)) ==
      Some((Asking(env, target, payload), AskingLog(env, id, payload)))
  {
    hide Follow, Local;
    var first := NewEntry(env, [], target, payload);
    var a := Advance(id, true);
    assert Follow(env, id, first, []) == Some((first, [])) by {
      NoSteps(env, id, first);
    }
    var row := Row(payload, env.Hash(payload), C.Queued, P.Ask, None);
    var e1 := first.(row := Some(row), stage := Recorded);
    var e2 := e1.(stage := GateProtocol.Asking);
    var e3 := e2.(state := C.Waiting, row := Some(row.(state := C.Waiting)), stage := Announcing);
    var e4 := e3.(stage := Registering);
    var created := RowCreated(id, payload, env.Hash(payload), P.Ask);
    Advances(env, id, first);
    Then(env, id, first, [], first, [], a, e1, [created]);
    Advances(env, id, e1);
    Then(env, id, first, [] + [a], e1, [] + [created], a, e2, []);
    Advances(env, id, e2);
    Then(env, id, first, [] + [a] + [a], e2, [] + [created] + [], a, e3, [RowUpdated(id, C.Waiting)]);
    Advances(env, id, e3);
    Then(env, id, first, [] + [a] + [a] + [a], e3, [] + [created] + [] + [RowUpdated(id, C.Waiting)], a, e4, []);
    Advances(env, id, e4);
    Then(env, id, first, [] + [a] + [a] + [a] + [a], e4, [] + [created] + [] + [RowUpdated(id, C.Waiting)] + [],
         a, Asking(env, target, payload), [Registered(id)]);
    assert [] + [created] + [] + [RowUpdated(id, C.Waiting)] + [] + [Registered(id)] == AskingLog(env, id, payload);
  }

  lemma NoSteps(env: Environment, id: string, e: Entry)
    ensures Follow(env, id, e, []) == Some((e, []))
  {
  }

  lemma Advances(env: Environment, id: string, e: Entry)
    requires CanAdvance(e.stage)
    ensures Local(env, id, e, Advance(id, true)) == Some(Advanced(env, id, e, true))
  {
    hide Advanced;
  }

  lemma Sequel(env: Environment, id: string, first: Entry, labels: seq<Label>,
               now: Entry, own: seq<Event>, asked: Decision, d: Decision)
    requires Follow(env, id, first, labels) == Some((now, own)) && now.stage == Selecting && now.channel == None
    requires asked.commandID == id && Answer(env.Hash, Waits(id, now), asked) == Accepted(d)
    ensures Follow(env, id, first, labels + [Decide(asked)] + [Send(id)]) ==
      Some((now.(pending := false, sending := None, channel := Some(d)), own + [DecisionAccepted(id, d)]))
  {
    hide Follow, Answer, Advanced, Finished;
    var e := now.(pending := false, sending := Some(d));
    Then(env, id, first, labels, now, own, Decide(asked), e, [DecisionAccepted(id, d)]);
    Then(env, id, first, labels + [Decide(asked)], e, own + [DecisionAccepted(id, d)], Send(id),
         now.(pending := false, sending := None, channel := Some(d)), []);
    assert own + [DecisionAccepted(id, d)] + [] == own + [DecisionAccepted(id, d)];
  }

  /** What the broker knows of such a submission. */
  function AskedOf(env: Environment, id: string, payload: string): Option<Asked> {
    Some(Asked(id, env.Hash(payload), payload))
  }

  /** What the select can take, and a cancellation before it. */
  lemma Selects(env: Environment, id: string, e: Entry)
    requires e.stage == Selecting
    ensures Local(env, id, e, Cancel(id)) == Some((e.(cancelled := true), []))
    ensures e.cancelled ==>
      Local(env, id, e, GiveUp(id)) == Some((e.(pending := false, stage := GivingUp), [GaveUp(id)]))
    ensures e.channel.Some? ==>
      var d := e.channel.value;
      Local(env, id, e, Receive(id)) == Some((e.(channel := None, stage := Decided(d)), [Returned(id, d)]))
  {
  }

  /**
    Any decision can be accepted and sent, and not be stored: the select has both to take, and takes
    the cancellation.
   */
  lemma AcceptedAndDropped(env: Environment, id: string, target: string, payload: string, asked: Decision, d: Decision)
    returns (labels: seq<Label>)
    requires payload != "" && env.judge([], payload) == P.Ask && asked.commandID == id
    requires Answer(env.Hash, AskedOf(env, id, payload), asked) == Accepted(d)
    ensures id in Run(env, labels).entries && Run(env, labels).entries[id].stage == Over
    ensures Run(env, labels).log ==
      [Submitted(id, target, payload, P.Ask)]
      + (AskingLog(env, id, payload) + [DecisionAccepted(id, d), GaveUp(id), RowUpdated(id, C.Cancelled)])
  {
    hide Follow, Answer, RunFrom, Local, AskingLog;
    var first := NewEntry(env, [], target, payload);
    ToAsking(env, id, target, payload);
    var steps, own := Steps(id), AskingLog(env, id, payload);
    var now := Asking(env, target, payload);
    Sequel(env, id, first, steps, now, own, asked, d);
    steps, own := steps + [Decide(asked)] + [Send(id)], own + [DecisionAccepted(id, d)];
    var e1 := now.(pending := false, sending := None, channel := Some(d));
    var e2 := e1.(cancelled := true);
    var e3 := e2.(stage := GivingUp);
    var e4 := e3.(stage := Over, state := C.Cancelled, row := Some(e3.row.value.(state := C.Cancelled)));
    Selects(env, id, e1);
    Selects(env, id, e2);
    Then(env, id, first, steps, e1, own, Cancel(id), e2, []);
    Then(env, id, first, steps + [Cancel(id)], e2, own + [], GiveUp(id), e3, [GaveUp(id)]);
    Advances(env, id, e3);
    Then(env, id, first, steps + [Cancel(id)] + [GiveUp(id)], e3, own + [] + [GaveUp(id)], Advance(id, true), e4,
         [RowUpdated(id, C.Cancelled)]);
    steps := steps + [Cancel(id)] + [GiveUp(id)] + [Advance(id, true)];
    labels := [Submit(id, target, payload)] + steps;
    SubmitThenFollow(env, Initial, id, target, payload, steps);
    assert own + [] + [GaveUp(id)] + [RowUpdated(id, C.Cancelled)] ==
      AskingLog(env, id, payload) + [DecisionAccepted(id, d), GaveUp(id), RowUpdated(id, C.Cancelled)];
  }

  /** What the log has of an approval before its rule is added. */
  function StoredLog(env: Environment, id: string, target: string, payload: string, d: Decision): seq<Event> {
    [Submitted(id, target, payload, P.Ask)]
    + (AskingLog(env, id, payload) + [DecisionAccepted(id, d), Returned(id, d), ApprovalStored(id, d)])
  }

  /** The steps to where the approval for a target has been stored and its rule has not been added. */
  lemma ToAdding(env: Environment, id: string, target: string, payload: string, asked: Decision, d: Decision)
    returns (labels: seq<Label>, e: Entry)
    requires payload != "" && env.judge([], payload) == P.Ask && asked.commandID == id && d.action == AllowTarget
    requires Answer(env.Hash, AskedOf(env, id, payload), asked) == Accepted(d)
    ensures Run(env, labels) == System(map[id := e], StoredLog(env, id, target, payload, d))
    ensures e.stage == AddingRule(d) && e.target == target
  {
    hide Follow, Answer, RunFrom, Local, AskingLog;
    var first := NewEntry(env, [], target, payload);
    ToAsking(env, id, target, payload);
    var steps, own := Steps(id), AskingLog(env, id, payload);
    var now := Asking(env, target, payload);
    Sequel(env, id, first, steps, now, own, asked, d);
    steps, own := steps + [Decide(asked)] + [Send(id)], own + [DecisionAccepted(id, d)];
    var e1 := now.(pending := false, sending := None, channel := Some(d));
    var e2 := e1.(channel := None, stage := Decided(d));
    e := e2.(approvals := e2.approvals + [d], stage := AddingRule(d));
    Selects(env, id, e1);
    Then(env, id, first, steps, e1, own, Receive(id), e2, [Returned(id, d)]);
    Advances(env, id, e2);
    Then(env, id, first, steps + [Receive(id)], e2, own + [Returned(id, d)],
         Advance(id, true), e, [ApprovalStored(id, d)]);
    steps := steps + [Receive(id)] + [Advance(id, true)];
    labels := [Submit(id, target, payload)] + steps;
    SubmitThenFollow(env, Initial, id, target, payload, steps);
    assert own + [Returned(id, d)] + [ApprovalStored(id, d)] ==
      AskingLog(env, id, payload) + [DecisionAccepted(id, d), Returned(id, d), ApprovalStored(id, d)];
  }

  /**
    A rule approved before its target is detached can be in force afterwards: the detach falls
    between storing the approval and adding the rule.
   */
  lemma ApprovedThenDetached(env: Environment, id: string, target: string,
                             payload: string, asked: Decision, d: Decision)
    returns (labels: seq<Label>)
    requires payload != "" && env.judge([], payload) == P.Ask && asked.commandID == id && d.action == AllowTarget
    requires Answer(env.Hash, AskedOf(env, id, payload), asked) == Accepted(d)
    requires target != "" && d.rule != "" && env.compiles(d.rule)
    ensures Run(env, labels).log ==
      StoredLog(env, id, target, payload, d) + [TargetDetached(target), RuleAdded(id, target, d.rule)]
    ensures P.Since(RulesOf(Run(env, labels).log), target) == [d.rule]
  {
    hide Follow, Answer, RunFrom, Local, StoredLog, RulesOf;
    var before, e := ToAdding(env, id, target, payload, asked, d);
    var s := Run(env, before);
    var t := System(s.entries, s.log + [TargetDetached(target)]);
    RunMore(env, Initial, before, Detach(target));
    assert Step(env, s, Detach(target)) == t;
    Advances(env, id, e);
    StepIsLocal(env, t, id, Advance(id, true));
    RunMore(env, Initial, before + [Detach(target)], Advance(id, true));
    labels := before + [Detach(target)] + [Advance(id, true)];
    assert t.log + [RuleAdded(id, target, d.rule)] ==
      StoredLog(env, id, target, payload, d) + [TargetDetached(target), RuleAdded(id, target, d.rule)];
    InForce(s.log, id, target, d.rule);
  }

  lemma InForce(log: seq<Event>, id: string, target: string, rule: string)
    ensures P.Since(RulesOf(log + [TargetDetached(target)] + [RuleAdded(id, target, rule)]), target) == [rule]
  {
    var more := log + [TargetDetached(target)];
    assert (more + [RuleAdded(id, target, rule)])[..|more|] == more && more[..|log|] == log;
    P.SinceOther(RulesOf(more), P.Added(target, rule), target);
    P.SinceOther(RulesOf(log), P.Detached(target), target);
  }

  predicate IsQuiet(log: seq<Event>) {
    forall i | 0 <= i < |log| :: !log[i].RuleAdded? && !log[i].TargetDetached?
  }

  lemma {:induction false} QuietRules(log: seq<Event>, more: seq<Event>)
    requires IsQuiet(more)
    ensures RulesOf(log + more) == RulesOf(log)
    decreases |more|
  {
    if more == [] {
      assert log + more == log;
    } else {
      var n := |more| - 1;
      QuietRules(log, more[..n]);
      assert (log + more)[..|log + more| - 1] == log + more[..n];
    }
  }

  lemma StoredIsQuiet(env: Environment, id: string, target: string, payload: string, d: Decision)
    ensures IsQuiet(StoredLog(env, id, target, payload, d))
  {
  }

  lemma OneRule(log: seq<Event>, id: string, target: string, rule: string)
    requires RulesOf(log) == []
    ensures P.Since(RulesOf(log + [RuleAdded(id, target, rule)]), target) == [rule]
  {
    assert (log + [RuleAdded(id, target, rule)])[..|log|] == log;
    P.SinceOther([], P.Added(target, rule), target);
  }

  /** The rule that has just been added is the one in force. */
  lemma RuleStands(env: Environment, id: string, target: string, payload: string, d: Decision)
    ensures var log := StoredLog(env, id, target, payload, d) + [RuleAdded(id, target, d.rule)];
      P.Since(RulesOf(log), target) == [d.rule]
  {
    hide StoredLog, IsQuiet, P.Since;
    var log := StoredLog(env, id, target, payload, d);
    StoredIsQuiet(env, id, target, payload, d);
    QuietRules([], log);
    assert [] + log == log;
    OneRule(log, id, target, d.rule);
  }

  /** After a detach no rule of the target is in force. */
  lemma NoneStand(log: seq<Event>, target: string, more: seq<Event>)
    requires IsQuiet(more)
    ensures P.Since(RulesOf(log + [TargetDetached(target)] + more), target) == []
  {
    QuietRules(log + [TargetDetached(target)], more);
    assert (log + [TargetDetached(target)])[..|log|] == log;
    P.SinceOther(RulesOf(log), P.Detached(target), target);
  }

  /**
    A payload allowed by a rule can be executed after its target has been detached: the detach falls
    between judging the payload and recording it.
   */
  lemma JudgedThenDetached(env: Environment, id: string, target: string, payload: string,
                           asked: Decision, d: Decision, id2: string, payload2: string)
    returns (labels: seq<Label>)
    requires payload != "" && env.judge([], payload) == P.Ask && asked.commandID == id && d.action == AllowTarget
    requires Answer(env.Hash, AskedOf(env, id, payload), asked) == Accepted(d)
    requires target != "" && d.rule != "" && env.compiles(d.rule)
    requires id2 != id && payload2 != "" && env.judge([d.rule], payload2) == P.Allow
    ensures Run(env, labels).log ==
      StoredLog(env, id, target, payload, d)
      + [RuleAdded(id, target, d.rule), Submitted(id2, target, payload2, P.Allow), TargetDetached(target),
         RowCreated(id2, payload2, env.Hash(payload2), P.Allow), RowUpdated(id2, C.Running), Executed(id2, payload2)]
    ensures P.Since(RulesOf(Run(env, labels).log), target) == []
  {
    hide Follow, Answer, RunFrom, Local, StoredLog, RulesOf;
    var before, e := ToAdding(env, id, target, payload, asked, d);
    var s := Run(env, before);
    Advances(env, id, e);
    StepIsLocal(env, s, id, Advance(id, true));
    RunMore(env, Initial, before, Advance(id, true));
    var added := before + [Advance(id, true)];
    var t := Run(env, added);
    RuleStands(env, id, target, payload, d);
    RunMore(env, Initial, added, Submit(id2, target, payload2));
    var e2 := NewEntry(env, t.log, target, payload2);
    var u := With(t, id2, (e2, [Submitted(id2, target, payload2, P.Allow)]));
    assert Step(env, t, Submit(id2, target, payload2)) == u;
    var submitted := added + [Submit(id2, target, payload2)];
    RunMore(env, Initial, submitted, Detach(target));
    var v := System(u.entries, u.log + [TargetDetached(target)]);
    assert Step(env, u, Detach(target)) == v;
    ToExecuting(env, id2, e2);
    FollowIsRun(env, v, id2, FourSteps(id2));
    RunJoins(env, Initial, submitted + [Detach(target)], FourSteps(id2));
    labels := submitted + [Detach(target)] + FourSteps(id2);
    NoneStand(u.log, target, ExecutedLog(env, id2, payload2));
    assert v.log + ExecutedLog(env, id2, payload2) ==
      StoredLog(env, id, target, payload, d)
      + [RuleAdded(id, target, d.rule), Submitted(id2, target, payload2, P.Allow), TargetDetached(target),
         RowCreated(id2, payload2, env.Hash(payload2), P.Allow), RowUpdated(id2, C.Running), Executed(id2, payload2)];
  }

  function FourSteps(id: string): seq<Label> {
    [] + [Advance(id, true)] + [Advance(id, true)] + [Advance(id, true)] + [Advance(id, true)]
  }

  function ExecutedLog(env: Environment, id: string, payload: string): seq<Event> {
    [RowCreated(id, payload, env.Hash(payload), P.Allow), RowUpdated(id, C.Running), Executed(id, payload)]
  }

  /** An allowed submission that nothing stops. */
  lemma ToExecuting(env: Environment, id: string, first: Entry)
    requires first == Entry(first.target, first.payload, env.Hash(first.payload), C.Queued, None, P.Allow, Created,
                            None, [], false, None, None, false)
    ensures Follow(env, id, first, FourSteps(id)).Some?
    ensures Follow(env, id, first, FourSteps(id)).value.1 == ExecutedLog(env, id, first.payload)
  {
    hide Follow, Local;
    var a, payload := Advance(id, true), first.payload;
    NoSteps(env, id, first);
    var row := Row(payload, env.Hash(payload), C.Queued, P.Allow, None);
    var e1 := first.(row := Some(row), stage := Recorded);
    var e2 := e1.(stage := Starting);
    var e3 := e2.(state := C.Running, row := Some(row.(state := C.Running)), stage := Started);
    var created := RowCreated(id, payload, env.Hash(payload), P.Allow);
    Advances(env, id, first);
    Then(env, id, first, [], first, [], a, e1, [created]);
    Advances(env, id, e1);
    Then(env, id, first, [] + [a], e1, [] + [created], a, e2, []);
    Advances(env, id, e2);
    Then(env, id, first, [] + [a] + [a], e2, [] + [created] + [], a, e3, [RowUpdated(id, C.Running)]);
    Advances(env, id, e3);
    Then(env, id, first, [] + [a] + [a] + [a], e3, [] + [created] + [] + [RowUpdated(id, C.Running)],
         a, e3.(stage := Executing), [Executed(id, payload)]);
    assert [] + [created] + [] + [RowUpdated(id, C.Running)] + [Executed(id, payload)] == ExecutedLog(env, id, payload);
  }
}
