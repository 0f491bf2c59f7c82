/** By whose authority commands are executed, and where temporary rules come from. */
module GateAuthority {
  import opened Ascii
  import opened Approvals
  import opened GateProtocol
  import opened GateInvariant
  import opened GateSafety
  import C = Commands
  import P = PolicyEngine
  import SimilarPattern
  import ShellViews
  import SimilarRules
  import Utf8

  // ----- Which step logs what ---------------------------------------------------------------------------------

  /** What a step of one submission tells of it by what it logs. */
  ghost predicate Tells(env: Environment, id: string, e: Entry, l: Label, next: Entry, ev: Event) {
    match ev
    case DecisionAccepted(_, d) => l.Decide? && Answer(env.Hash, Waits(id, e), l.decision) == Accepted(d)
    case ApprovalStored(_, d) => e.stage == Decided(d) && (d.action == AllowTarget ==> next.stage == AddingRule(d))
    case RuleAdded(_, target, pattern) => e.stage.AddingRule? && e.target == target && e.stage.d.rule == pattern
    case _ => true
  }

  lemma LocalTells(env: Environment, id: string, e: Entry, l: Label)
    requires Local(env, id, e, l).Some? && Local(env, id, e, l).value.1 != []
    ensures var change := Local(env, id, e, l).value; Tells(env, id, e, l, change.0, change.1[0])
  {
    hide Answer, C.AllowedTransition;
  }

  /** A step logs at most one event, and that tells which step it was. */
  lemma StepLogs(env: Environment, s: System, l: Label)
    ensures var t := Step(env, s, l);
      || t.log == s.log
      || (|t.log| == |s.log| + 1 && t.log[..|s.log|] == s.log
          && var ev := t.log[|s.log|];
             && (ev.TargetDetached? ==> l == Detach(ev.target))
             && (!ev.TargetDetached? && !ev.Submitted? ==>
                   && ev.id in s.entries && ev.id in t.entries && Subject(l) == ev.id
                   && Tells(env, ev.id, s.entries[ev.id], l, t.entries[ev.id], ev)))
  {
    hide Local, NewEntry, Tells;
    match l
    case Submit(_, _, _) =>
    case Detach(_) =>
    case _ =>
      var id := Subject(l);
      if id in s.entries && Local(env, id, s.entries[id], l).Some? {
        var change := Local(env, id, s.entries[id], l).value;
        LocalIsAbout(env, id, s.entries[id], l);
        if change.1 == [] {
          assert s.log + change.1 == s.log;
        } else {
          LocalTells(env, id, s.entries[id], l);
        }
      }
  }

  lemma RunStep(env: Environment, labels: seq<Label>, m: nat)
    requires m < |labels|
    ensures Run(env, labels[..m + 1]) == Step(env, Run(env, labels[..m]), labels[m])
  {
    assert labels[..m + 1] == labels[..m] + [labels[m]];
    RunMore(env, Initial, labels[..m], labels[m]);
  }

  /** The step that logs the event at a place. */
  lemma {:induction false} EventAt(env: Environment, labels: seq<Label>, k: nat) returns (m: nat)
    requires k < |Run(env, labels).log|
    ensures m < |labels| && Run(env, labels[..m]).log == Run(env, labels).log[..k]
    ensures Run(env, labels[..m + 1]).log == Run(env, labels).log[..k + 1]
    decreases |labels|
  {
    hide Step, Tells;
    var n := |labels| - 1;
    assert labels != [];
    var before := labels[..n];
    RunStep(env, labels, n);
    assert labels[..n + 1] == labels;
    StepLogs(env, Run(env, before), labels[n]);
    if k < |Run(env, before).log| {
      m := EventAt(env, before, k);
      assert before[..m] == labels[..m] && before[..m + 1] == labels[..m + 1];
    } else {
      m := n;
    }
  }

  // ----- Stages are never gone back to --------------------------------------------------------------------------

  function Rank(stage: Stage): nat {
    match stage
    case Created => 0
    case Recorded => 1
    case Asking => 2
    case Announcing => 3
    case Registering => 4
    case Selecting => 5
    case GivingUp => 6
    case Decided(_) => 7
    case AddingRule(_) => 8
    case Starting => 9
    case Started => 10
    case Executing => 11
    case Denying => 12
    case Over => 13
  }

  lemma AdvancedRises(env: Environment, id: string, e: Entry, ok: bool)
    ensures Rank(e.stage) <= Rank(Advanced(env, id, e, ok).0.stage)
  {
    hide Change;
    match e.stage
    case Asking => ChangeStage(id, e, C.Waiting, None, ok, Announcing);
    case GivingUp => ChangeStage(id, e, C.Cancelled, None, ok, Over);
    case Starting => ChangeStage(id, e, C.Running, None, ok, Started);
    case Denying => ChangeStage(id, e, C.Denied, Some(126), ok, Over);
    case _ =>
  }

  lemma ChangeStage(id: string, e: Entry, next: C.State, code: Option<int>, ok: bool, after: Stage)
    ensures var stage := Change(id, e, next, code, ok, after).0.stage; stage == after || stage == Over
  {
    hide C.AllowedTransition;
  }

  lemma FinishedRises(id: string, e: Entry, failed: bool, exitCode: int, ok: bool)
    requires e.stage == Executing
    ensures Rank(e.stage) <= Rank(Finished(id, e, failed, exitCode, ok).0.stage)
  {
    hide C.AllowedTransition, Moved;
  }

  lemma LocalRises(env: Environment, id: string, e: Entry, l: Label)
    requires Local(env, id, e, l).Some?
    ensures Rank(e.stage) <= Rank(Local(env, id, e, l).value.0.stage)
  {
    hide Answer, Advanced, Finished;
    match l
    case Advance(_, ok) => AdvancedRises(env, id, e, ok);
    case Finish(_, failed, exitCode, ok) => FinishedRises(id, e, failed, exitCode, ok);
    case _ =>
  }

  lemma StepRises(env: Environment, s: System, l: Label, id: string)
    requires id in s.entries
    ensures id in Step(env, s, l).entries && Rank(s.entries[id].stage) <= Rank(Step(env, s, l).entries[id].stage)
  {
    hide Rank, Local, NewEntry;
    if Subject(l) == id && !l.Submit? && !l.Detach? && Local(env, id, s.entries[id], l).Some? {
      LocalRises(env, id, s.entries[id], l);
    }
  }

  lemma {:induction false} RunRises(env: Environment, labels: seq<Label>, i: nat, j: nat, id: string)
    requires i <= j <= |labels| && id in Run(env, labels[..i]).entries
    ensures id in Run(env, labels[..j]).entries
    ensures Rank(Run(env, labels[..i]).entries[id].stage) <= Rank(Run(env, labels[..j]).entries[id].stage)
    decreases j
  {
    hide Rank, Step, RunFrom;
    if i < j {
      RunRises(env, labels, i, j - 1, id);
      RunStep(env, labels, j - 1);
      StepRises(env, Run(env, labels[..j - 1]), labels[j - 1], id);
    }
  }

  // ----- Rules and detaches ----------------------------------------------------------------------------------

  lemma StoredOnce(env: Environment, log: seq<Event>, i: nat, j: nat)
    requires AllJustified(env, log) && i < |log| && j < |log|
    requires log[i].ApprovalStored? && log[j].ApprovalStored? && log[i].id == log[j].id
    ensures i == j
  {
    hide AllJustified;
    if i < j {
      At(env, log, j);
    } else if j < i {
      At(env, log, i);
    }
  }

  /** A submission that is about to add a rule has its approval in the log. */
  lemma AddingHasStored(env: Environment, labels: seq<Label>, id: string)
    requires id in Run(env, labels).entries && Run(env, labels).entries[id].stage.AddingRule?
    ensures ApprovalStored(id, Run(env, labels).entries[id].stage.d) in Run(env, labels).log
  {
    hide *;
    InvRun(env, labels);
    InvEntry(env, Run(env, labels), id);
    AddingInv(env, id, Run(env, labels).entries[id], Run(env, labels).log);
  }

  lemma AddingInv(env: Environment, id: string, e: Entry, log: seq<Event>)
    requires EntryInv(env, id, e, log) && e.stage.AddingRule?
    ensures ApprovalStored(id, e.stage.d) in log
  {
    hide RowInv, RunInv, OutcomeInv, WasAccepted, HasReturned, IsBound, Approves;
  }

  /** After these steps, which log so much, the submission has stored its approval and not added its rule. */
  ghost predicate IsAdding(env: Environment, labels: seq<Label>, id: string, d: Decision, length: nat) {
    var s := Run(env, labels);
    |s.log| == length && id in s.entries && s.entries[id].stage == AddingRule(d)
  }

  lemma {:induction false} LogLengths(env: Environment, labels: seq<Label>, i: nat, j: nat)
    requires i <= j <= |labels|
    ensures |Run(env, labels[..i]).log| <= |Run(env, labels[..j]).log|
    decreases j
  {
    hide Step, RunFrom, Tells;
    if i < j {
      LogLengths(env, labels, i, j - 1);
      RunStep(env, labels, j - 1);
      StepLogs(env, Run(env, labels[..j - 1]), labels[j - 1]);
    }
  }

  /** The approval behind an added rule is for it, and there is one only. */
  lemma ApprovalOf(env: Environment, log: seq<Event>, stored: nat, added: nat)
    requires AllJustified(env, log) && stored < |log| && added < |log|
    requires log[added].RuleAdded? && log[stored].ApprovalStored? && log[stored].id == log[added].id
    ensures stored < added && log[stored].d.action == AllowTarget && log[stored].d.rule == log[added].pattern
  {
    hide AllJustified;
    At(env, log, added);
    var id, rule := log[added].id, log[added].pattern;
    var d :| ApprovalStored(id, d) in log[..added] && d.action == AllowTarget && d.rule == rule;
    var k :| 0 <= k < added && log[..added][k] == ApprovalStored(log[added].id, d);
    StoredOnce(env, log, stored, k);
  }

  /** After the step that stores an approval for a target the submission is about to add its rule. */
  lemma AddsNext(env: Environment, labels: seq<Label>, i: nat, ev: Event)
    requires i < |labels| && Run(env, labels[..i + 1]).log == Run(env, labels[..i]).log + [ev]
    requires ev.ApprovalStored? && ev.d.action == AllowTarget
    ensures ev.id in Run(env, labels[..i + 1]).entries
    ensures Run(env, labels[..i + 1]).entries[ev.id].stage == AddingRule(ev.d)
  {
    hide Step, RunFrom;
    RunStep(env, labels, i);
    StepLogs(env, Run(env, labels[..i]), labels[i]);
  }

  lemma AddsNow(env: Environment, labels: seq<Label>, i: nat, ev: Event)
    requires i < |labels| && Run(env, labels[..i + 1]).log == Run(env, labels[..i]).log + [ev]
    requires ev.RuleAdded?
    ensures ev.id in Run(env, labels[..i]).entries && Run(env, labels[..i]).entries[ev.id].stage.AddingRule?
  {
    hide Step, RunFrom;
    RunStep(env, labels, i);
    StepLogs(env, Run(env, labels[..i]), labels[i]);
  }

  lemma LogSlice(log: seq<Event>, k: nat)
    requires k < |log|
    ensures log[..k + 1] == log[..k] + [log[k]]
  {
  }

  lemma BetweenIsAdding(env: Environment, labels: seq<Label>, i: nat, m: nat, a: nat, id: string)
    requires i <= m <= a <= |labels| && id in Run(env, labels[..i]).entries && id in Run(env, labels[..a]).entries
    requires Run(env, labels[..i]).entries[id].stage.AddingRule? && Run(env, labels[..a]).entries[id].stage.AddingRule?
    ensures id in Run(env, labels[..m]).entries && Run(env, labels[..m]).entries[id].stage.AddingRule?
  {
    hide RunFrom;
    RunRises(env, labels, i, m, id);
    RunRises(env, labels, m, a, id);
  }

  /** From the storing of an approval to the adding of its rule the submission stands between the two calls. */
  lemma AddingBetween(env: Environment, labels: seq<Label>, stored: nat, added: nat, detached: nat, m: nat)
    requires var log := LogOf(env, labels);
      && stored < detached < added < |log| && log[added].RuleAdded? && log[stored].ApprovalStored?
      && log[stored].id == log[added].id && m < |labels| && Run(env, labels[..m]).log == log[..detached]
    ensures var log := LogOf(env, labels); IsAdding(env, labels[..m], log[stored].id, log[stored].d, detached)
  {
    hide RunFrom, AllJustified;
    var log := LogOf(env, labels);
    LogJustified(env, labels);
    ApprovalOf(env, log, stored, added);
    var i := EventAt(env, labels, stored);
    var a := EventAt(env, labels, added);
    LogSlice(log, stored);
    LogSlice(log, added);
    AddsNext(env, labels, i, log[stored]);
    AddsNow(env, labels, a, log[added]);
    if m <= i {
      LogLengths(env, labels, m, i);
      assert false;
    }
    if a < m {
      LogLengths(env, labels, a, m);
      assert false;
    }
    var id := log[stored].id;
    BetweenIsAdding(env, labels, i + 1, m, a, id);
    AddingHasStored(env, labels[..m], id);
    var d := Run(env, labels[..m]).entries[id].stage.d;
    var k :| 0 <= k < detached && log[..detached][k] == ApprovalStored(id, d);
    StoredOnce(env, log, stored, k);
  }

  /**
    The approval of a rule precedes a detach that precedes the rule if and only if its submission
    stood, when the target was detached, between storing the approval and adding the rule.
   */
  lemma ApprovedBeforeDetach(env: Environment, labels: seq<Label>, stored: nat, added: nat, detached: nat)
    returns (m: nat)
    requires var log := LogOf(env, labels);
      && stored < |log| && detached < added < |log| && log[added].RuleAdded? && log[stored].ApprovalStored?
      && log[stored].id == log[added].id && log[detached].TargetDetached?
    ensures var log := LogOf(env, labels);
      && m < |labels| && labels[m] == Detach(log[detached].target) && Run(env, labels[..m]).log == log[..detached]
      && (stored < detached <==> IsAdding(env, labels[..m], log[stored].id, log[stored].d, detached))
  {
    hide RunFrom, AllJustified, IsAdding, Tells;
    var log := LogOf(env, labels);
    m := EventAt(env, labels, detached);
    LogSlice(log, detached);
    RunStep(env, labels, m);
    StepLogs(env, Run(env, labels[..m]), labels[m]);
    if stored < detached {
      AddingBetween(env, labels, stored, added, detached, m);
    } else if IsAdding(env, labels[..m], log[stored].id, log[stored].d, detached) {
      AddingStored(env, labels, m, stored, detached);
    }
  }

  lemma AddingStored(env: Environment, labels: seq<Label>, m: nat, stored: nat, detached: nat)
    requires var log := LogOf(env, labels);
      && stored < |log| && detached <= |log| && log[stored].ApprovalStored? && m <= |labels|
      && Run(env, labels[..m]).log == log[..detached]
      && IsAdding(env, labels[..m], log[stored].id, log[stored].d, detached)
    ensures stored < detached
  {
    hide RunFrom, AllJustified;
    var log := LogOf(env, labels);
    LogJustified(env, labels);
    AddingHasStored(env, labels[..m], log[stored].id);
    var k :| 0 <= k < detached && log[..detached][k] == log[stored];
    StoredOnce(env, log, stored, k);
  }

  // ----- Where temporary rules come from ------------------------------------------------------------------------

  /** A rule in force for a target was added for it, and the target has not been detached since. */
  lemma {:induction false} RuleFrom(log: seq<Event>, target: string, rule: string) returns (j: nat)
    requires rule in P.Since(RulesOf(log), target)
    ensures j < |log| && log[j].RuleAdded? && log[j].target == target && log[j].pattern == rule
    ensures forall i | j < i < |log| :: log[i] != TargetDetached(target)
    decreases |log|
  {
    hide P.Since;
    if log == [] {
      NoRules(target);
      assert false;
    } else {
      var last, shorter := log[|log| - 1], log[..|log| - 1];
      var rules := RulesOf(shorter);
      match last
      case RuleAdded(_, t, p) =>
        P.SinceOther(rules, P.Added(t, p), target);
        if t == target && p == rule {
          return |log| - 1;
        }
        j := RuleFrom(shorter, target, rule);
      case TargetDetached(t) =>
        P.SinceOther(rules, P.Detached(t), target);
        j := RuleFrom(shorter, target, rule);
      case _ => j := RuleFrom(shorter, target, rule);
      assert forall i | j < i < |shorter| :: log[i] == shorter[i];
    }
  }

  lemma NoRules(target: string)
    ensures P.Since([], target) == []
  {
  }

  /** The places at which the rules in force for a target were added. */
  function Grants(log: seq<Event>, target: string): seq<nat> {
    if log == [] then []
    else
      var n := |log| - 1;
      var before := Grants(log[..n], target);
      match log[n]
      case RuleAdded(_, t, _) => if t == target then before + [n] else before
      case TargetDetached(t) => if t == target then [] else before
      case _ => before
  }

  /** These are the rules the policy has, one for one. */
  lemma {:induction false} GrantsAre(log: seq<Event>, target: string)
    ensures var grants, rules := Grants(log, target), P.Since(RulesOf(log), target);
      && |grants| == |rules|
      && forall i | 0 <= i < |grants| ::
           grants[i] < |log| && log[grants[i]].RuleAdded? && log[grants[i]].pattern == rules[i]
    decreases |log|
  {
    hide P.Since;
    if log == [] {
      NoRules(target);
    } else {
      var last, shorter := log[|log| - 1], log[..|log| - 1];
      GrantsAre(shorter, target);
      match last
      case RuleAdded(_, t, p) => P.SinceOther(RulesOf(shorter), P.Added(t, p), target);
      case TargetDetached(t) => P.SinceOther(RulesOf(shorter), P.Detached(t), target);
      case _ =>
    }
  }

  /** A rule that was added stands exactly as long as its target is not detached. */
  lemma {:induction false} GrantStands(log: seq<Event>, target: string, j: nat)
    ensures j in Grants(log, target) <==>
      && j < |log| && log[j].RuleAdded? && log[j].target == target
      && forall i | j < i < |log| :: log[i] != TargetDetached(target)
    decreases |log|
  {
    if log != [] {
      var n := |log| - 1;
      GrantStands(log[..n], target, j);
      assert forall i | 0 <= i < n :: log[..n][i] == log[i];
    }
  }

  /** While a target is not detached its rules only become more. */
  lemma {:induction false} RulesGrow(log: seq<Event>, target: string, s: nat)
    requires s <= |log| && forall i | s <= i < |log| :: log[i] != TargetDetached(target)
    ensures P.Since(RulesOf(log[..s]), target) <= P.Since(RulesOf(log), target)
    decreases |log|
  {
    hide P.Since;
    if s == |log| {
      assert log[..s] == log;
    } else {
      var last, shorter := log[|log| - 1], log[..|log| - 1];
      assert shorter[..s] == log[..s] && forall i | s <= i < |shorter| :: shorter[i] == log[i];
      RulesGrow(shorter, target, s);
      match last
      case RuleAdded(_, t, p) => P.SinceOther(RulesOf(shorter), P.Added(t, p), target);
      case TargetDetached(t) => P.SinceOther(RulesOf(shorter), P.Detached(t), target);
      case _ =>
    }
  }

  /** What was allowed is allowed as long as its target is not detached. */
  lemma AllowLasts(env: Environment, lib: P.Library, config: P.Config,
                   log: seq<Event>, target: string, payload: string, s: nat)
    requires HasEngine(env, lib, config) && s <= |log| && Evaluate(env, log[..s], target, payload) == P.Allow
    requires forall i | s <= i < |log| :: log[i] != TargetDetached(target)
    ensures Evaluate(env, log, target, payload) == P.Allow
  {
    hide P.Since, P.Judge, RulesOf;
    RulesGrow(log, target, s);
    var rules, more := P.Since(RulesOf(log[..s]), target), P.Since(RulesOf(log), target);
    assert forall x | x in rules :: x in more;
    P.WideningOnlyAllows(lib, config, config, rules, more, payload);
  }

  /** A target rule that comes from an operator's decision, and matches what it is used for. */
  predicate GrantedBy(log: seq<Event>, target: string, payload: string,
                      lib: P.Library, before: nat, added: nat, stored: nat) {
    && stored < added < before <= |log|
    && log[added].RuleAdded? && log[added].target == target && lib.matches(log[added].pattern, payload)
    && log[stored].ApprovalStored? && log[stored].id == log[added].id && log[stored].d.action == AllowTarget
    && log[stored].d.rule == log[added].pattern
    && forall i | added < i < before :: log[i] != TargetDetached(target)
  }

  lemma JudgedByRule(lib: P.Library, config: P.Config, temporary: seq<string>, payload: string)
    requires P.Judge(lib, config, temporary, payload) == P.Allow
    ensures P.Judge(lib, config, [], payload) == P.Allow || P.SomeMatches(lib, temporary, payload)
  {
  }

  /** What allowed a submission is the policy file alone, or a rule that an operator granted for the target. */
  lemma AllowedFrom(env: Environment, lib: P.Library, config: P.Config, log: seq<Event>, s: nat)
    returns (added: nat, stored: nat)
    requires HasEngine(env, lib, config)
    requires AllJustified(env, log) && s < |log| && log[s].Submitted? && log[s].verdict == P.Allow
    ensures P.Judge(lib, config, [], log[s].payload) == P.Allow
      || GrantedBy(log, log[s].target, log[s].payload, lib, s, added, stored)
  {
    hide AllJustified, P.Judge, P.Since;
    At(env, log, s);
    var target, payload := log[s].target, log[s].payload;
    var rules := P.Since(RulesOf(log[..s]), target);
    added, stored := 0, 0;
    assert env.judge(rules, payload) == P.Allow;
    JudgedByRule(lib, config, rules, payload);
    if P.Judge(lib, config, [], payload) != P.Allow {
      var i :| 0 <= i < |rules| && lib.matches(rules[i], payload);
      added := RuleFrom(log[..s], target, rules[i]);
      assert log[..s][added] == log[added];
      At(env, log, added);
      var d :| ApprovalStored(log[added].id, d) in log[..added] && d.action == AllowTarget && d.rule == rules[i];
      stored :| 0 <= stored < added && log[..added][stored] == ApprovalStored(log[added].id, d);
      forall i | added < i < s
        ensures log[i] != TargetDetached(target)
      {
        assert log[..s][i] == log[i];
      }
    }
  }

  /** When the event at this place, a detach, was logged, the submission stood before adding its rule. */
  ghost predicate StoodAtAdding(env: Environment, labels: seq<Label>, id: string, d: Decision, detached: nat) {
    exists m | 0 <= m < |labels| :: labels[m].Detach? && IsAdding(env, labels[..m], id, d, detached)
  }

  /** Each detach of the target since the approval fell between storing it and adding its rule. */
  ghost predicate LastsSince(env: Environment, labels: seq<Label>, target: string, before: nat, stored: nat) {
    var log := LogOf(env, labels);
    && stored < before <= |log| && log[stored].ApprovalStored?
    && forall k | stored < k < before && log[k] == TargetDetached(target) ::
      StoodAtAdding(env, labels, log[stored].id, log[stored].d, k)
  }

  lemma GrantLasts(env: Environment, lib: P.Library, labels: seq<Label>, target: string,
                   payload: string, before: nat, added: nat, stored: nat)
    requires GrantedBy(LogOf(env, labels), target, payload, lib, before, added, stored)
    ensures LastsSince(env, labels, target, before, stored)
  {
    hide Run, IsAdding;
    var log := LogOf(env, labels);
    forall k | stored < k < before && log[k] == TargetDetached(target)
      ensures StoodAtAdding(env, labels, log[stored].id, log[stored].d, k)
    {
      var m := ApprovedBeforeDetach(env, labels, stored, added, k);
    }
  }

  /** The target has not been detached between two places of the log. */
  predicate Undetached(log: seq<Event>, target: string, from: nat, to: nat) {
    to <= |log| && forall i | from < i < to :: log[i] != TargetDetached(target)
  }

  /**
    A grant that a submission was judged by is still in force when it is executed if and only if the
    target has not been detached in between; and then the policy would still allow the payload.
   */
  lemma GrantAtExecution(env: Environment, lib: P.Library, config: P.Config,
                         log: seq<Event>, reason: Reason, k: nat, added: nat, stored: nat)
    requires HasEngine(env, lib, config) && Explains(env, log, k, reason) && log[reason.submitted].verdict == P.Allow
    requires GrantedBy(log, log[reason.submitted].target, log[k].payload, lib, reason.submitted, added, stored)
    ensures var target := log[reason.submitted].target;
      && added in Grants(log[..reason.submitted], target)
      && (added in Grants(log[..k], target) <==> Undetached(log, target, reason.submitted, k))
      && (Undetached(log, target, reason.submitted, k) ==> Evaluate(env, log[..k], target, log[k].payload) == P.Allow)
  {
    hide Evaluate, HasEngine, Grants;
    var s, target := reason.submitted, log[reason.submitted].target;
    GrantStands(log[..s], target, added);
    GrantStands(log[..k], target, added);
    assert log[..k][..s] == log[..s];
    if Undetached(log, target, s, k) {
      AllowLasts(env, lib, config, log[..k], target, log[k].payload, s);
    } else {
      var i :| s < i < k && log[i] == TargetDetached(target);
      assert log[..k][i] == log[i];
    }
  }

  /**
    End to end: a payload is executed only if the policy file allows it, or an operator approved
    these bytes under this ID, or a rule that matches it was added for this target since its last
    detach before the submission. That rule is one an operator approved, since that detach too
    unless the approved submission stood between storing its approval and adding its rule when the
    target was detached. It is still in force at the execution if and only if the target has not
    been detached since the submission.
   */
  lemma ExecutionHasAuthority(env: Environment, lib: P.Library, config: P.Config, labels: seq<Label>, k: nat)
    returns (reason: Reason, added: nat, stored: nat)
    requires HasEngine(env, lib, config)
    requires k < |LogOf(env, labels)| && LogOf(env, labels)[k].Executed?
    ensures var log := LogOf(env, labels);
      && Explains(env, log, k, reason)
      && var target := log[reason.submitted].target;
         (|| reason.approved.Some?
          || P.Judge(lib, config, [], log[k].payload) == P.Allow
          || (&& GrantedBy(log, target, log[k].payload, lib, reason.submitted, added, stored)
              && LastsSince(env, labels, target, reason.submitted, stored)
              && (added in Grants(log[..k], target) <==> Undetached(log, target, reason.submitted, k))))
  {
    hide Run, AllJustified, Approves, Evaluate, P.Judge, GrantedBy, HasEngine, LastsSince, Grants, Undetached;
    added, stored := 0, 0;
    reason := ExecutionIsAuthorized(env, labels, k);
    if reason.approved.None? {
      LogJustified(env, labels);
      var log := LogOf(env, labels);
      added, stored := AllowedFrom(env, lib, config, log, reason.submitted);
      if GrantedBy(log, log[reason.submitted].target, log[k].payload, lib, reason.submitted, added, stored) {
        GrantLasts(env, lib, labels, log[reason.submitted].target, log[k].payload, reason.submitted, added, stored);
        GrantAtExecution(env, lib, config, log, reason, k, added, stored);
      }
    }
  }

  // ----- Rules that were not asked for ---------------------------------------------------------------------------

  /** The step in which an approval for a target was accepted, and the submission it was for. */
  lemma RuleAskedFor(env: Environment, labels: seq<Label>, stored: nat) returns (m: nat, submitted: nat)
    requires stored < |LogOf(env, labels)|
    requires LogOf(env, labels)[stored].ApprovalStored? && LogOf(env, labels)[stored].d.action == AllowTarget
    ensures var log := LogOf(env, labels);
      && m < |labels| && labels[m].Decide? && labels[m].decision.commandID == log[stored].id
      && submitted < stored && log[submitted].Submitted? && log[submitted].id == log[stored].id
      && log[stored].d.rule ==
        if labels[m].decision.rule == "" then SimilarPattern.SimilarText(log[submitted].payload)
        else labels[m].decision.rule
  {
    hide RunFrom, AllJustified, IsBound, Evaluate, SimilarPattern.SimilarText, Answer;
    var log := LogOf(env, labels);
    var returned, accepted, s := StoredWasAccepted(env, labels, stored);
    submitted := s;
    m := EventAt(env, labels, accepted);
    LogSlice(log, accepted);
    RunStep(env, labels, m);
    StepLogs(env, Run(env, labels[..m]), labels[m]);
    var e := Run(env, labels[..m]).entries[log[stored].id];
    AcceptedIsBound(env.Hash, Waits(log[stored].id, e), labels[m].decision);
    PayloadSubmitted(env, labels, m, log[stored].id, submitted);
  }

  /** What an entry has as its payload is what was submitted under its ID. */
  lemma PayloadSubmitted(env: Environment, labels: seq<Label>, m: nat, id: string, submitted: nat)
    requires m <= |labels| && id in Run(env, labels[..m]).entries
    requires Run(env, labels[..m]).log <= LogOf(env, labels)
    requires submitted < |LogOf(env, labels)| && LogOf(env, labels)[submitted].Submitted?
    requires LogOf(env, labels)[submitted].id == id
    ensures Run(env, labels[..m]).entries[id].payload == LogOf(env, labels)[submitted].payload
  {
    hide RunFrom, AllJustified, RunInv, BrokerInv, OutcomeInv, Unused;
    var log, e := LogOf(env, labels), Run(env, labels[..m]).entries[id];
    InvRun(env, labels[..m]);
    InvEntry(env, Run(env, labels[..m]), id);
    LogJustified(env, labels);
    assert Submitted(id, e.target, e.payload, e.verdict) in log;
    SameSubmission(env, log, Submitted(id, e.target, e.payload, e.verdict), log[submitted]);
  }

  lemma AllowedIsText(lib: P.Library, config: P.Config, rules: seq<string>, command: string)
    requires P.Judge(lib, config, rules, command) == P.Allow
    ensures Utf8.Runes(command).Some?
  {
    hide *;
    if Utf8.Runes(command).None? {
      SimilarRules.UnreadableText(command, lib.probe);
      UnreadableNotAllowed(lib, config, rules, command);
    }
  }

  lemma UnreadableNotAllowed(lib: P.Library, config: P.Config, rules: seq<string>, command: string)
    requires !ShellViews.Readable(command, lib.probe)
    ensures P.Judge(lib, config, rules, command) != P.Allow
  {
  }

  lemma RuleCompiles(env: Environment, lib: P.Library, config: P.Config, log: seq<Event>, added: nat)
    requires HasEngine(env, lib, config) && AllJustified(env, log) && added < |log| && log[added].RuleAdded?
    ensures lib.compiles(log[added].pattern)
  {
    hide AllJustified;
    At(env, log, added);
  }

  lemma RuleTarget(env: Environment, log: seq<Event>, added: nat, s: nat)
    requires AllJustified(env, log) && added < |log| && s < |log| && log[added].RuleAdded? && log[s].Submitted?
    requires log[s].id == log[added].id
    ensures log[s].target == log[added].target
  {
    hide AllJustified, Evaluate;
    At(env, log, added);
    var id, target := log[added].id, log[added].target;
    var payload, verdict :| Submitted(id, target, payload, verdict) in log[..added];
    SameSubmission(env, log, Submitted(id, target, payload, verdict), log[s]);
  }

  lemma SubmittedText(env: Environment, lib: P.Library, config: P.Config, log: seq<Event>, s: nat)
    requires HasEngine(env, lib, config) && AllJustified(env, log) && s < |log|
    requires log[s].Submitted? && log[s].verdict == P.Allow
    ensures Utf8.Runes(log[s].payload).Some?
  {
    hide AllJustified, P.Judge, P.Since, Utf8.Runes;
    At(env, log, s);
    AllowedIsText(lib, config, P.Since(RulesOf(log[..s]), log[s].target), log[s].payload);
  }

  lemma MatchIsSimilar(lib: P.Library, payload: string, command: string)
    requires SimilarRules.Faithful(lib) && lib.compiles(SimilarPattern.SimilarText(payload))
    requires Utf8.Runes(command).Some?
    requires lib.matches(SimilarPattern.SimilarText(payload), command)
    ensures SimilarPattern.IsSimilar(payload, command)
  {
    hide *;
    SimilarRules.RuleMatchesSimilar(lib, payload, command);
  }

  /**
    What an unedited allow-target decision can let through later: if neither the policy file nor an
    approval of its own lets a payload run, an operator approved some payload for this target, and
    unless the operator wrote another rule the two differ in standalone numbers after the first word
    and in nothing else.
   */
  lemma DefaultRuleReach(env: Environment, lib: P.Library, config: P.Config, labels: seq<Label>, k: nat)
    returns (reason: Reason, added: nat, stored: nat, m: nat, approved: nat)
    requires HasEngine(env, lib, config) && SimilarRules.Faithful(lib)
    requires k < |LogOf(env, labels)| && LogOf(env, labels)[k].Executed?
    ensures var log := LogOf(env, labels);
      && Explains(env, log, k, reason)
      && (|| reason.approved.Some?
          || P.Judge(lib, config, [], log[k].payload) == P.Allow
          || (&& GrantedBy(log, log[reason.submitted].target, log[k].payload, lib, reason.submitted, added, stored)
              && m < |labels| && labels[m].Decide? && labels[m].decision.commandID == log[stored].id
              && approved < stored && log[approved].Submitted? && log[approved].id == log[stored].id
              && log[approved].target == log[reason.submitted].target
              && (labels[m].decision.rule == "" ==> SimilarPattern.IsSimilar(log[approved].payload, log[k].payload))))
  {
    hide Run, AllJustified, Approves, Evaluate, P.Judge, HasEngine, SimilarRules.Faithful, Utf8.Runes, LastsSince;
    hide SimilarPattern.SimilarText, SimilarPattern.IsSimilar;
    var log := LogOf(env, labels);
    m, approved := 0, 0;
    reason, added, stored := ExecutionHasAuthority(env, lib, config, labels, k);
    if reason.approved.None? && P.Judge(lib, config, [], log[k].payload) != P.Allow {
      m, approved := RuleAskedFor(env, labels, stored);
      LogJustified(env, labels);
      RuleTarget(env, log, added, approved);
      if labels[m].decision.rule == "" {
        RuleCompiles(env, lib, config, log, added);
        SubmittedText(env, lib, config, log, reason.submitted);
        MatchIsSimilar(lib, log[approved].payload, log[k].payload);
      }
    }
  }
}
