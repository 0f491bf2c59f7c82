/**
  Submitting, approving and executing commands (internal/gate/service.go with internal/approval,
  internal/command and internal/storage): a state machine in which any number of submissions, an
  operator, cancellations and failing store or sink calls take turns. One label is one atomic step:
  a call to the store or to the agent's sink with the code around it, or one of the broker's
  atomic sections. The log records what has happened; a step reads of it only the rules that have
  been added and the targets that have been detached.
 */
module GateProtocol {
  import opened Ascii
  import opened Approvals
  import C = Commands
  import P = PolicyEngine

  /**
    What the protocol takes as given: the hash, which rules compile, and what the policy decides for
    a command, given the temporary rules of its target.
   */
  datatype Environment = Environment(
    Hash: string -> string,
    compiles: string -> bool,
    judge: (seq<string>, string) -> P.Decision)

  /** The policy is an engine with some configuration. */
  ghost predicate HasEngine(env: Environment, lib: P.Library, config: P.Config) {
    && (forall pattern :: env.compiles(pattern) == lib.compiles(pattern))
    && (forall rules, command :: env.judge(rules, command) == P.Judge(lib, config, rules, command))
  }

  // ----- The state ---------------------------------------------------------------------------------

  /** Where a submission stands in Service.execute, or in authorizeCapability. */
  datatype Stage =
    | Created                  // before Store.CreateCommand
    | Recorded                 // before sink.Accepted
    | Asking                   // before the row becomes waiting
    | Announcing               // before sink.State
    | Registering              // before the broker has the request
    | Selecting                // in the select of Wait
    | GivingUp                 // cancelled: before the row becomes cancelled
    | Decided(d: Decision)     // before Store.RecordApproval
    | AddingRule(d: Decision)  // before Policy.AllowForTarget
    | Starting                 // before the row becomes running
    | Started                  // before sink.State
    | Executing                // in the backend's Exec, or in the capability's operation
    | Denying                  // before the row becomes denied
    | Over

  /** The row of a command in the table of commands. */
  datatype Row = Row(payload: string, hash: string, state: C.State, verdict: P.Decision, exitCode: Option<int>)

  /** One submission: its command, its rows, and the broker's request for it. */
  datatype Entry = Entry(
    target: string,
    payload: string,
    hash: string,
    state: C.State,
    exitCode: Option<int>,
    verdict: P.Decision,
    stage: Stage,
    row: Option<Row>,
    approvals: seq<Decision>,
    pending: bool,              // in the broker's map
    sending: Option<Decision>,  // accepted, and about to be sent
    channel: Option<Decision>,  // sent, and not received
    cancelled: bool)

  datatype Event =
    | Submitted(id: string, target: string, payload: string, verdict: P.Decision)
    | RowCreated(id: string, payload: string, hash: string, verdict: P.Decision)
    | RowUpdated(id: string, state: C.State)
    | Registered(id: string)
    | DecisionAccepted(id: string, d: Decision)
    | GaveUp(id: string)
    | Returned(id: string, d: Decision)
    | ApprovalStored(id: string, d: Decision)
    | ApprovalLost(id: string, d: Decision)  // Store.RecordApproval failed
    | RuleAdded(id: string, target: string, pattern: string)
    | Executed(id: string, payload: string)
    | TargetDetached(target: string)

  datatype System = System(entries: map<string, Entry>, log: seq<Event>)

  /** The temporary rules' history, as the policy engine keeps it. */
  function RulesOf(log: seq<Event>): seq<P.Event> {
    if log == [] then []
    else
      var last, before := log[|log| - 1], RulesOf(log[..|log| - 1]);
      match last
      case RuleAdded(_, target, pattern) => before + [P.Added(target, pattern)]
      case TargetDetached(target) => before + [P.Detached(target)]
      case _ => before
  }

  /** Policy.Evaluate, with the rules there are. */
  function Evaluate(env: Environment, log: seq<Event>, target: string, payload: string): P.Decision {
    env.judge(P.Since(RulesOf(log), target), payload)
  }

  // ----- The steps -----------------------------------------------------------------------------------

  datatype Label =
    | Submit(id: string, target: string, payload: string)
    | Advance(id: string, ok: bool)   // the next store or sink call succeeds or fails
    | Receive(id: string)             // Wait takes the decision
    | GiveUp(id: string)              // Wait takes the cancellation
    | Cancel(id: string)              // the submission's context is cancelled
    | Finish(id: string, failed: bool, exitCode: int, ok: bool)
    | Decide(decision: Decision)
    | Send(id: string)
    | Detach(target: string)

  function Waits(id: string, e: Entry): Option<Asked> {
    if e.pending then Some(Asked(id, e.hash, e.payload)) else None
  }

  /** A change of the command's state that is written to its row, or not. */
  function Moved(e: Entry, next: C.State, code: Option<int>, ok: bool): Entry {
    var exit := if code.Some? then code else e.exitCode;
    e.(state := next, exitCode := exit,
       row := if ok && e.row.Some? then Some(e.row.value.(state := next, exitCode := exit)) else e.row)
  }

  /** Command.Transition and Store.UpdateCommand, with the stage that follows if both succeed. */
  function Change(id: string, e: Entry, next: C.State, code: Option<int>, ok: bool, after: Stage): (Entry, seq<Event>) {
    if !C.AllowedTransition(e.state, next) then (e.(stage := Over), [])
    else if !ok || e.row.None? then (Moved(e, next, code, false).(stage := Over), [])
    else (Moved(e, next, code, true).(stage := after), [RowUpdated(id, next)])
  }

  /** VerifyApproval with the command's own ID and hash, before it runs. */
  predicate Unchanged(env: Environment, e: Entry) {
    env.Hash(e.payload) == e.hash
  }

  function Go(e: Entry, stage: Stage): (Entry, seq<Event>) {
    (e.(stage := stage), [])
  }

  /** The next call of a submission that succeeds or fails. */
  function Advanced(env: Environment, id: string, e: Entry, ok: bool): (Entry, seq<Event>) {
    match e.stage
    case Created =>
      if !ok then Go(e, Over)
      else (e.(row := Some(Row(e.payload, e.hash, e.state, e.verdict, None)), stage := Recorded),
            [RowCreated(id, e.payload, e.hash, e.verdict)])
    case Recorded =>
      if !ok then Go(e, Over)
      else Go(e, match e.verdict case Deny => Denying case Allow => Starting case Ask => Asking)
    case Asking => Change(id, e, C.Waiting, None, ok, Announcing)
    case Announcing => Go(e, if ok then Registering else Over)
    case Registering =>
      if e.pending then Go(e, GivingUp) else (e.(pending := true, stage := Selecting), [Registered(id)])
    case GivingUp =>
      if C.AllowedTransition(e.state, C.Cancelled) then Change(id, e, C.Cancelled, None, ok, Over) else Go(e, Over)
    case Decided(d) =>
      if !ok then (e.(stage := Over), [ApprovalLost(id, d)])
      else (e.(approvals := e.approvals + [d],
               stage := if d.action == DenyCommand then Denying
                        else if d.action == AllowTarget then AddingRule(d)
                        else Starting),
            [ApprovalStored(id, d)])
    case AddingRule(d) =>
      if e.target == "" || d.rule == "" || !env.compiles(d.rule) then Go(e, Over)
      else (e.(stage := Starting), [RuleAdded(id, e.target, d.rule)])
    case Starting => if Unchanged(env, e) then Change(id, e, C.Running, None, ok, Started) else Go(e, Over)
    case Started => if ok then (e.(stage := Executing), [Executed(id, e.payload)]) else Go(e, Over)
    case Denying => Change(id, e, C.Denied, Some(126), ok, Over)
    case _ => Go(e, e.stage)
  }

  /** What follows the backend's Exec. */
  function Finished(id: string, e: Entry, failed: bool, exitCode: int, ok: bool): (Entry, seq<Event>) {
    if failed then Change(id, e, if e.cancelled then C.Cancelled else C.Failed, Some(1), ok, Over)
    else Change(id, e, if exitCode == 0 then C.Succeeded else C.Failed, Some(exitCode), ok, Over)
  }

  /** The stages that a store or sink call ends. */
  predicate CanAdvance(stage: Stage) {
    stage != Selecting && stage != Executing && stage != Over
  }

  /** The submission that a step is about. */
  function Subject(l: Label): string {
    match l
    case Decide(d) => d.commandID
    case Detach(_) => ""
    case _ => l.id
  }

  /** What a step makes of its submission, if it can be taken: a select takes what is there. */
  function Local(env: Environment, id: string, e: Entry, l: Label): Option<(Entry, seq<Event>)> {
    match l
    case Advance(_, ok) => if CanAdvance(e.stage) then Some(Advanced(env, id, e, ok)) else None
    case Receive(_) =>
      if e.stage == Selecting && e.channel.Some? then
        Some((e.(channel := None, stage := Decided(e.channel.value)), [Returned(id, e.channel.value)]))
      else None
    case GiveUp(_) =>
      if e.stage == Selecting && e.cancelled then
        Some((e.(pending := false, stage := GivingUp), [GaveUp(id)]))
      else None
    case Cancel(_) => Some((e.(cancelled := true), []))
    case Finish(_, failed, exitCode, ok) =>
      if e.stage == Executing then Some(Finished(id, e, failed, exitCode, ok)) else None
    case Decide(d) =>
      var reply := Answer(env.Hash, Waits(id, e), d);
      if reply.Accepted? then
        Some((e.(pending := false, sending := Some(reply.decision)), [DecisionAccepted(id, reply.decision)]))
      else None
    case Send(_) => if e.sending.Some? then Some((e.(sending := None, channel := e.sending), [])) else None
    case _ => None
  }

  function With(s: System, id: string, change: (Entry, seq<Event>)): System {
    System(s.entries[id := change.0], s.log + change.1)
  }

  /** A submission as it is created and judged, with the rules there are. */
  function NewEntry(env: Environment, log: seq<Event>, target: string, payload: string): Entry {
    Entry(target, payload, env.Hash(payload), C.Queued, None, Evaluate(env, log, target, payload), Created,
          None, [], false, None, None, false)
  }

  /** One step; a step that cannot be taken changes nothing. IDs are fresh when they are submitted. */
  function Step(env: Environment, s: System, l: Label): System {
    match l
    case Submit(id, target, payload) =>
      if id in s.entries || payload == "" then s
      else
        var e := NewEntry(env, s.log, target, payload);
        With(s, id, (e, [Submitted(id, target, payload, e.verdict)]))
    case Detach(target) => System(s.entries, s.log + [TargetDetached(target)])
    case _ =>
      var id := Subject(l);
      if id !in s.entries then s
      else
        var change := Local(env, id, s.entries[id], l);
        if change.None? then s else With(s, id, change.value)
  }

  const Initial: System := System(map[], [])

  /** The state that a sequence of steps leads to. */
  function RunFrom(env: Environment, s: System, labels: seq<Label>): System
    decreases |labels|
  {
    if labels == [] then s else Step(env, RunFrom(env, s, labels[..|labels| - 1]), labels[|labels| - 1])
  }

  /** The state after any sequence of steps. */
  function Run(env: Environment, labels: seq<Label>): System {
    RunFrom(env, Initial, labels)
  }

  lemma RunMore(env: Environment, s: System, labels: seq<Label>, l: Label)
    ensures RunFrom(env, s, labels + [l]) == Step(env, RunFrom(env, s, labels), l)
  {
    assert (labels + [l])[..|labels|] == labels;
  }

  lemma {:induction false} RunJoins(env: Environment, s: System, a: seq<Label>, b: seq<Label>)
    ensures RunFrom(env, s, a + b) == RunFrom(env, RunFrom(env, s, a), b)
    decreases |b|
  {
    hide Step;
    if b == [] {
      assert a + b == a;
    } else {
      var n := |b| - 1;
      RunJoins(env, s, a, b[..n]);
      assert a + b == a + b[..n] + [b[n]];
      RunMore(env, s, a + b[..n], b[n]);
    }
  }

  // ----- One submission among others ---------------------------------------------------------------------

  /** What steps of one submission make of it, if each can be taken, and what they log. */
  function Follow(env: Environment, id: string, e: Entry, labels: seq<Label>): Option<(Entry, seq<Event>)>
    decreases |labels|
  {
    if labels == [] then Some((e, []))
    else
      var l, before := labels[|labels| - 1], Follow(env, id, e, labels[..|labels| - 1]);
      if before.None? || Subject(l) != id then None
      else
        var change := Local(env, id, before.value.0, l);
        if change.None? then None else Some((change.value.0, before.value.1 + change.value.1))
  }

  lemma FollowMore(env: Environment, id: string, e: Entry, labels: seq<Label>, l: Label)
    requires Follow(env, id, e, labels).Some? && Subject(l) == id
    requires Local(env, id, Follow(env, id, e, labels).value.0, l).Some?
    ensures var before := Follow(env, id, e, labels).value; var change := Local(env, id, before.0, l).value;
      Follow(env, id, e, labels + [l]) == Some((change.0, before.1 + change.1))
  {
    hide Local;
    assert (labels + [l])[..|labels|] == labels;
  }

  /** Steps that one submission can follow are steps of the whole system, which leave the others alone. */
  lemma {:induction false} FollowIsRun(env: Environment, s: System, id: string, labels: seq<Label>)
    requires id in s.entries && Follow(env, id, s.entries[id], labels).Some?
    ensures RunFrom(env, s, labels) == With(s, id, Follow(env, id, s.entries[id], labels).value)
    decreases |labels|
  {
    hide Local, NewEntry;
    if labels == [] {
      assert s.entries[id := s.entries[id]] == s.entries && s.log + [] == s.log;
    } else {
      var n := |labels| - 1;
      FollowIsRun(env, s, id, labels[..n]);
      StepIsLocal(env, RunFrom(env, s, labels[..n]), id, labels[n]);
    }
  }

  lemma StepIsLocal(env: Environment, s: System, id: string, l: Label)
    requires id in s.entries && Subject(l) == id && Local(env, id, s.entries[id], l).Some?
    ensures Step(env, s, l) == With(s, id, Local(env, id, s.entries[id], l).value)
  {
    hide Answer, Advanced, Finished;
  }

  lemma SubmitThenFollow(env: Environment, s: System, id: string, target: string, payload: string, labels: seq<Label>)
    requires id !in s.entries && payload != "" && Follow(env, id, NewEntry(env, s.log, target, payload), labels).Some?
    ensures var e := NewEntry(env, s.log, target, payload); var followed := Follow(env, id, e, labels).value;
      RunFrom(env, s, [Submit(id, target, payload)] + labels) ==
      System(s.entries[id := followed.0], s.log + [Submitted(id, target, payload, e.verdict)] + followed.1)
  {
    hide Local, Follow, NewEntry, RunFrom;
    var submit := Submit(id, target, payload);
    var e := NewEntry(env, s.log, target, payload);
    var t := With(s, id, (e, [Submitted(id, target, payload, e.verdict)]));
    RunJoins(env, s, [submit], labels);
    RunOne(env, s, submit);
    assert Step(env, s, submit) == t;
    FollowIsRun(env, t, id, labels);
    var followed := Follow(env, id, e, labels).value;
    assert s.entries[id := e][id := followed.0] == s.entries[id := followed.0];
  }

  lemma RunOne(env: Environment, s: System, l: Label)
    ensures RunFrom(env, s, [l]) == Step(env, s, l)
  {
    hide Step;
    RunMore(env, s, [], l);
    assert [] + [l] == [l];
  }

  /** The steps of a submission among others. */
  function Own(id: string, labels: seq<Label>): seq<Label>
    decreases |labels|
  {
    if labels == [] then []
    else
      var l, before := labels[|labels| - 1], Own(id, labels[..|labels| - 1]);
      if Subject(l) == id && !l.Submit? && !l.Detach? then before + [l] else before
  }

  /** What is logged about a submission. */
  function About(id: string, log: seq<Event>): seq<Event> {
    if log == [] then []
    else
      var ev, before := log[|log| - 1], About(id, log[..|log| - 1]);
      if !ev.TargetDetached? && ev.id == id then before + [ev] else before
  }

  /** The entry and the log's part of one submission after a step. */
  function Part(id: string, s: System): (Entry, seq<Event>)
    requires id in s.entries
  {
    (s.entries[id], About(id, s.log))
  }

  function AfterOwn(env: Environment, id: string, part: (Entry, seq<Event>), l: Label): (Entry, seq<Event>) {
    var change := Local(env, id, part.0, l);
    if change.None? then part else (change.value.0, part.1 + change.value.1)
  }

  lemma LocalIsAbout(env: Environment, id: string, e: Entry, l: Label)
    requires Local(env, id, e, l).Some?
    ensures var events := Local(env, id, e, l).value.1;
      |events| == 0 || (|events| == 1 && !events[0].TargetDetached? && events[0].id == id)
  {
    hide Answer, C.AllowedTransition;
  }

  lemma AboutMore(id: string, log: seq<Event>, events: seq<Event>, other: string)
    requires |events| == 0 || (|events| == 1 && !events[0].TargetDetached? && events[0].id == other)
    ensures About(id, log + events) == (if other == id then About(id, log) + events else About(id, log))
  {
    if |events| == 0 {
      assert log + events == log;
    } else {
      assert log + events == log + [events[0]];
    }
  }

  lemma PartAfter(env: Environment, s: System, id: string, l: Label)
    requires id in s.entries
    ensures id in Step(env, s, l).entries
    ensures Part(id, Step(env, s, l)) ==
      if Subject(l) == id && !l.Submit? && !l.Detach? then AfterOwn(env, id, Part(id, s), l) else Part(id, s)
  {
    hide Local, About, NewEntry;
    match l
    case Submit(other, target, payload) =>
      if other !in s.entries && payload != "" {
        AboutMore(id, s.log, [Submitted(other, target, payload, NewEntry(env, s.log, target, payload).verdict)], other);
      }
    case Detach(target) => AboutDetach(id, s.log, target);
    case _ =>
      var other := Subject(l);
      if other in s.entries && Local(env, other, s.entries[other], l).Some? {
        LocalIsAbout(env, other, s.entries[other], l);
        AboutMore(id, s.log, Local(env, other, s.entries[other], l).value.1, other);
      }
  }

  lemma AboutDetach(id: string, log: seq<Event>, target: string)
    ensures About(id, log + [TargetDetached(target)]) == About(id, log)
  {
  }

  /**
    However others take turns with a submission, it becomes what its own steps alone make of it, and
    they log the same.
   */
  lemma {:induction false} OthersDoNotMatter(env: Environment, s: System, id: string, labels: seq<Label>)
    requires id in s.entries
    ensures id in RunFrom(env, s, labels).entries && id in RunFrom(env, s, Own(id, labels)).entries
    ensures Part(id, RunFrom(env, s, labels)) == Part(id, RunFrom(env, s, Own(id, labels)))
    decreases |labels|
  {
    hide Step, Part, AfterOwn;
    if labels != [] {
      var l, before := labels[|labels| - 1], labels[..|labels| - 1];
      OthersDoNotMatter(env, s, id, before);
      PartAfter(env, RunFrom(env, s, before), id, l);
      PartAfter(env, RunFrom(env, s, Own(id, before)), id, l);
      RunMore(env, s, Own(id, before), l);
    }
  }
}
