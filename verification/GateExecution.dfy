/**
  Service.execute of internal/gate/service.go as it is written, with the command, the tables, the
  broker and the policy it works on: whatever its calls return, what it does is a run of the state
  machine, which logs what it did.
 */
module GateExecution {
  import opened Ascii
  import opened Approvals
  import opened GateProtocol
  import I = GateInvariant
  import GateSafety
  import C = Commands
  import P = PolicyEngine

  // ----- What a log says ---------------------------------------------------------------------------------

  /** The payloads that were handed to a backend. */
  function RanIn(log: seq<Event>): seq<string> {
    if log == [] then []
    else
      var last, before := log[|log| - 1], RanIn(log[..|log| - 1]);
      if last.Executed? then before + [last.payload] else before
  }

  lemma {:induction false} RulesJoin(a: seq<Event>, b: seq<Event>)
    ensures RulesOf(a + b) == RulesOf(a) + RulesOf(b)
    decreases |b|
  {
    if b == [] {
      assert a + b == a;
    } else {
      var n := |b| - 1;
      RulesJoin(a, b[..n]);
      assert (a + b)[..|a + b| - 1] == a + b[..n];
    }
  }

  /** Most events concern neither the rules nor the backend. */
  predicate IsQuiet(events: seq<Event>) {
    |events| == 0 || (|events| == 1 && !events[0].RuleAdded? && !events[0].TargetDetached? && !events[0].Executed?)
  }

  lemma QuietAfter(log: seq<Event>, events: seq<Event>)
    requires IsQuiet(events)
    ensures RulesOf(log + events) == RulesOf(log) && RanIn(log + events) == RanIn(log)
  {
    if events == [] {
      assert log + events == log;
    } else {
      assert (log + events)[..|log|] == log;
    }
  }

  lemma RuleAfter(log: seq<Event>, id: string, target: string, pattern: string)
    ensures RulesOf(log + [RuleAdded(id, target, pattern)]) == RulesOf(log) + [P.Added(target, pattern)]
    ensures RanIn(log + [RuleAdded(id, target, pattern)]) == RanIn(log)
  {
  }

  lemma ExecutedAfter(log: seq<Event>, id: string, payload: string)
    ensures RulesOf(log + [Executed(id, payload)]) == RulesOf(log)
    ensures RanIn(log + [Executed(id, payload)]) == RanIn(log) + [payload]
  {
  }

  // ----- Changes of state ----------------------------------------------------------------------------------

  /** A change of state is a step, whether it reaches the store or not. */
  ghost predicate Changes(env: Environment, id: string, e: Entry, next: C.State,
                          code: Option<int>, after: Stage, stored: Label, lost: Label) {
    && Subject(stored) == id && Local(env, id, e, stored) == Some(Change(id, e, next, code, true, after))
    && Subject(lost) == id && Local(env, id, e, lost) == Some(Change(id, e, next, code, false, after))
  }

  lemma ChangesFrom(env: Environment, id: string, e: Entry)
    ensures var stored, lost := Advance(id, true), Advance(id, false);
      && (e.stage == Asking ==> Changes(env, id, e, C.Waiting, None, Announcing, stored, lost))
      && (e.stage == GivingUp ==> Changes(env, id, e, C.Cancelled, None, Over, stored, lost))
      && (e.stage == Starting && Unchanged(env, e) ==> Changes(env, id, e, C.Running, None, Started, stored, lost))
      && (e.stage == Denying ==> Changes(env, id, e, C.Denied, Some(126), Over, stored, lost))
  {
    hide Change;
    GivingUpIs(id, e);
  }

  lemma GivingUpIs(id: string, e: Entry)
    ensures !C.AllowedTransition(e.state, C.Cancelled) ==>
      forall ok, after :: Change(id, e, C.Cancelled, None, ok, after) == Go(e, Over)
  {
  }

  /** How an execution ends. */
  function EndState(failed: bool, cancelled: bool, exitCode: int): C.State {
    if failed then (if cancelled then C.Cancelled else C.Failed)
    else if exitCode == 0 then C.Succeeded else C.Failed
  }

  lemma ChangesAtEnd(env: Environment, id: string, e: Entry, failed: bool, exitCode: int)
    requires e.stage == Executing
    ensures Changes(env, id, e, EndState(failed, e.cancelled, exitCode), Some(if failed then 1 else exitCode), Over,
                    Finish(id, failed, exitCode, true), Finish(id, failed, exitCode, false))
  {
    hide Change;
  }

  /** An entry after a transition that is stored or not. */
  function Saved(e: Entry, next: C.State, code: Option<int>, stored: bool): Entry {
    var moves := C.AllowedTransition(e.state, next);
    var state, exit := if moves then next else e.state, if moves && code.Some? then code else e.exitCode;
    e.(state := state, exitCode := exit,
       row := if stored && e.row.Some? then Some(e.row.value.(state := state, exitCode := exit)) else e.row)
  }

  lemma ChangeIs(id: string, e: Entry, next: C.State, code: Option<int>, ok: bool, after: Stage)
    requires e.row.Some? && (ok ==> C.AllowedTransition(e.state, next))
    ensures Change(id, e, next, code, ok, after) ==
      (Saved(e, next, code, ok).(stage := if ok then after else Over), if ok then [RowUpdated(id, next)] else [])
  {
  }

  // ----- The tables and the sink --------------------------------------------------------------------------

  /** The calls of the store, with what they answer. */
  datatype Call =
    | InsertCall(ok: bool)
    | UpdateCall(state: C.State, exitCode: Option<int>, ok: bool)
    | ApprovalCall(d: Decision, ok: bool)

  class Tables {
    var rows: map<string, Row>
    var approvals: seq<Decision>
    ghost var calls: seq<Call>

    function RowOf(id: string): Option<Row>
      reads this
    {
      if id in rows then Some(rows[id]) else None
    }

    method CreateCommand(id: string, row: Row) returns (ok: bool)
      modifies this
      ensures approvals == old(approvals) && rows == if ok then old(rows)[id := row] else old(rows)
      ensures id in old(rows) ==> !ok
      ensures calls == old(calls) + [InsertCall(ok)]
    {
      ok := *;
      ok := ok && id !in rows;
      calls := calls + [InsertCall(ok)];
      if ok {
        rows := rows[id := row];
      }
    }

    method UpdateCommand(id: string, state: C.State, exitCode: Option<int>) returns (ok: bool)
      modifies this
      ensures approvals == old(approvals)
      ensures ok ==> id in old(rows) && rows == old(rows)[id := old(rows)[id].(state := state, exitCode := exitCode)]
      ensures !ok ==> rows == old(rows)
      ensures calls == old(calls) + [UpdateCall(state, exitCode, ok)]
    {
      ok := *;
      ok := ok && id in rows;
      calls := calls + [UpdateCall(state, exitCode, ok)];
      if ok {
        rows := rows[id := rows[id].(state := state, exitCode := exitCode)];
      }
    }

    method RecordApproval(d: Decision) returns (ok: bool)
      modifies this
      ensures rows == old(rows) && approvals == old(approvals) + (if ok then [d] else [])
      ensures calls == old(calls) + [ApprovalCall(d, ok)]
    {
      ok := *;
      calls := calls + [ApprovalCall(d, ok)];
      if ok {
        approvals := approvals + [d];
      }
    }
  }

  /** A call to the agent's event sink, which may fail. */
  method Tell() returns (ok: bool) {
    ok := *;
  }

  /** Where a verdict leads. */
  function Branch(verdict: P.Decision): Stage {
    match verdict
    case Deny => Denying
    case Allow => Starting
    case Ask => Asking
  }

  // ----- How an execution ends ---------------------------------------------------------------------------

  /**
    What brings an execution to its end: the call that failed, the cancellation, the refusal, or the
    backend. stored: the last change of state reached the store; told: the sink has taken what follows it.
   */
  datatype Ending =
    | NoCommand                   // an empty payload
    | NotCreated                  // Store.CreateCommand fails
    | NotAccepted                 // sink.Accepted fails
    | NotWaiting(stored: bool)    // Store.UpdateCommand fails, or sink.State after it
    | GivenUp(stored: bool)       // Wait takes the cancellation
    | NotRecorded                 // Store.RecordApproval fails
    | RuleRefused                 // Policy.AllowForTarget fails
    | Rejected(stored: bool, told: bool)
    | NotRunning(stored: bool)    // Store.UpdateCommand fails, or sink.State after it
    | Ran(failed: bool, cancelled: bool, exitCode: int, stored: bool, told: bool)

  /** The calls of the store that such an execution makes, one by one. */
  function CallsOf(decision: Option<Decision>, ending: Ending): seq<Call> {
    var asked := [InsertCall(true), UpdateCall(C.Waiting, None, true)];
    var judged := if decision.Some? then asked + [ApprovalCall(decision.value, true)] else [InsertCall(true)];
    match ending
    case NoCommand => []
    case NotCreated => [InsertCall(false)]
    case NotAccepted => [InsertCall(true)]
    case NotWaiting(stored) => [InsertCall(true), UpdateCall(C.Waiting, None, stored)]
    case GivenUp(stored) => asked + [UpdateCall(C.Cancelled, None, stored)]
    case NotRecorded => asked + (if decision.Some? then [ApprovalCall(decision.value, false)] else [])
    case RuleRefused => judged
    case Rejected(stored, _) => judged + [UpdateCall(C.Denied, Some(126), stored)]
    case NotRunning(stored) => judged + [UpdateCall(C.Running, None, stored)]
    case Ran(failed, cancelled, exitCode, stored, _) =>
      judged + [UpdateCall(C.Running, None, true)]
      + (if failed then [UpdateCall(if cancelled then C.Cancelled else C.Failed, Some(1), stored)]
         else if exitCode == 0 then [UpdateCall(C.Succeeded, Some(0), stored)]
         else [UpdateCall(C.Failed, Some(exitCode), stored)])
  }

  /** The state and the exit code in the row of a command that has ended so. */
  predicate EndsAs(decision: Option<Decision>, ending: Ending, state: C.State, exitCode: Option<int>) {
    var before := if decision.Some? then C.Waiting else C.Queued;
    match ending
    case NoCommand | NotCreated => false
    case NotAccepted => state == C.Queued && exitCode == None
    case NotWaiting(stored) => state == (if stored then C.Waiting else C.Queued) && exitCode == None
    case GivenUp(stored) => state == (if stored then C.Cancelled else C.Waiting) && exitCode == None
    case NotRecorded | RuleRefused => state == C.Waiting && exitCode == None
    case Rejected(stored, _) =>
      if stored then state == C.Denied && exitCode == Some(126) else state == before && exitCode == None
    case NotRunning(stored) => state == (if stored then C.Running else before) && exitCode == None
    case Ran(failed, cancelled, code, stored, _) =>
      if !stored then state == C.Running && exitCode == None
      else if failed then state == (if cancelled then C.Cancelled else C.Failed) && exitCode == Some(1)
      else state == (if code == 0 then C.Succeeded else C.Failed) && exitCode == Some(code)
  }

  /** execute returns no error. */
  predicate IsSuccess(ending: Ending) {
    match ending
    case Rejected(stored, told) => stored && told
    case Ran(failed, _, _, stored, told) => !failed && stored && told
    case _ => false
  }

  lemma SuccessIs()
    ensures !IsSuccess(NotCreated) && !IsSuccess(NotAccepted)
    ensures forall ending :: IsSuccess(ending) <==>
      ending == Rejected(true, true) || (ending.Ran? && !ending.failed && ending.stored && ending.told)
    ensures forall stored, told :: IsSuccess(Rejected(stored, told)) == (stored && told)
  {
  }

  lemma NoCommandIs()
    ensures CallsOf(None, NoCommand) == [] && RulesOf([]) == [] && RanIn([]) == []
    ensures Leads(P.Ask, None, NoCommand) && !IsSuccess(NoCommand)
  {
  }

  lemma EndsOutright(decision: Option<Decision>, ending: Ending)
    ensures forall state, exitCode | EndsAs(decision, ending, state, exitCode) && ending.Ran? && ending.stored ::
      if ending.failed then state == (if ending.cancelled then C.Cancelled else C.Failed) && exitCode == Some(1)
      else if ending.exitCode == 0 then state == C.Succeeded && exitCode == Some(0)
      else state == C.Failed && exitCode == Some(ending.exitCode)
    ensures forall state, exitCode | EndsAs(decision, ending, state, exitCode) && ending.Rejected? && ending.stored ::
      state == C.Denied && exitCode == Some(126)
  {
  }

  /** The endings that a verdict can lead to, with the decision that Wait returns if it asks. */
  predicate Leads(verdict: P.Decision, decision: Option<Decision>, ending: Ending) {
    match ending
    case NoCommand | NotCreated | NotAccepted => decision == None
    case NotWaiting(_) | GivenUp(_) => verdict == P.Ask && decision == None
    case NotRecorded => verdict == P.Ask && decision.Some?
    case RuleRefused => verdict == P.Ask && decision.Some? && decision.value.action == AllowTarget
    case Rejected(_, _) =>
      if verdict == P.Ask then decision.Some? && decision.value.action == DenyCommand
      else verdict == P.Deny && decision == None
    case NotRunning(_) | Ran(_, _, _, _, _) =>
      if verdict == P.Ask then decision.Some? && decision.value.action != DenyCommand
      else verdict == P.Allow && decision == None
  }

  lemma DeniedLeads(verdict: P.Decision, decision: Option<Decision>, stored: bool, told: bool)
    requires if verdict == P.Ask then decision.Some? && decision.value.action == DenyCommand
             else verdict == P.Deny && decision == None
    ensures Leads(verdict, decision, Rejected(stored, told))
  {
  }

  lemma AllowedLeads(verdict: P.Decision, decision: Option<Decision>)
    requires if verdict == P.Ask then decision.Some? && decision.value.action != DenyCommand
             else verdict == P.Allow && decision == None
    ensures forall stored :: Leads(verdict, decision, NotRunning(stored))
    ensures forall failed, gone, exitCode, stored, told ::
      Leads(verdict, decision, Ran(failed, gone, exitCode, stored, told))
  {
  }

  lemma UndecidedLeads(stored: bool)
    ensures Leads(P.Ask, None, NotWaiting(stored)) && Leads(P.Ask, None, GivenUp(stored))
  {
  }

  lemma DecidedLeads(d: Decision)
    ensures Leads(P.Ask, Some(d), NotRecorded) && (d.action == AllowTarget ==> Leads(P.Ask, Some(d), RuleRefused))
  {
  }

  /** What an execution has made of its command, its row and the tables so far. */
  datatype Progress = Progress(
    state: C.State,
    exitCode: Option<int>,
    row: Option<(C.State, Option<int>)>,
    approvals: seq<Decision>,
    calls: seq<Call>)

  const AtFirst: Progress := Progress(C.Queued, None, None, [], [])

  function Inserted(ok: bool): Progress {
    Progress(C.Queued, None, if ok then Some((C.Queued, None)) else None, [], [InsertCall(ok)])
  }

  function Changed(p: Progress, next: C.State, code: Option<int>, stored: bool): Progress {
    var exit := if code.Some? then code else p.exitCode;
    Progress(next, exit, if stored then Some((next, exit)) else p.row, p.approvals,
             p.calls + [UpdateCall(next, exit, stored)])
  }

  function Approved(p: Progress, d: Decision, ok: bool): Progress {
    p.(approvals := if ok then p.approvals + [d] else p.approvals, calls := p.calls + [ApprovalCall(d, ok)])
  }

  /** A command that has been judged, by an operator if there is a decision. */
  function Judged(decision: Option<Decision>): Progress {
    if decision.Some? then Approved(Changed(Inserted(true), C.Waiting, None, true), decision.value, true)
    else Inserted(true)
  }

  /** Such progress at the end. */
  predicate Fits(p: Progress, decision: Option<Decision>, ending: Ending) {
    && p.calls == CallsOf(decision, ending)
    && p.approvals == (if decision.Some? && ending != NotRecorded then [decision.value] else [])
    && (p.row == None <==> ending == NotCreated || ending == NoCommand)
    && (p.row.Some? ==> EndsAs(decision, ending, p.row.value.0, p.row.value.1))
  }

  /** The entry of a submission with such progress. */
  predicate Shows(e: Entry, p: Progress) {
    && e.state == p.state && e.exitCode == p.exitCode && e.approvals == p.approvals
    && (if p.row.None? then e.row.None?
        else e.row.Some? && (e.row.value.state, e.row.value.exitCode) == p.row.value)
  }

  /** The row is of this command. */
  predicate IsOf(row: Option<Row>, payload: string, hash: string, verdict: P.Decision) {
    row.Some? ==> row.value.payload == payload && row.value.hash == hash && row.value.verdict == verdict
  }

  lemma ShowsSame(e: Entry, next: Entry)
    requires e.row == next.row && e.state == next.state && e.exitCode == next.exitCode && e.approvals == next.approvals
    ensures forall p :: Shows(e, p) <==> Shows(next, p)
  {
  }

  lemma ApprovedShows(e: Entry, next: Entry, p: Progress, d: Decision, ok: bool)
    requires Shows(e, p) && next.row == e.row && next.state == e.state && next.exitCode == e.exitCode
    requires next.approvals == if ok then e.approvals + [d] else e.approvals
    ensures Shows(next, Approved(p, d, ok)) && Approved(p, d, ok).calls == p.calls + [ApprovalCall(d, ok)]
  {
  }

  lemma SavedShows(e: Entry, p: Progress, next: C.State, code: Option<int>, ok: bool, after: Stage)
    requires Shows(e, p) && C.AllowedTransition(p.state, next) && e.row.Some?
    ensures var saved := Saved(e, next, code, ok).(stage := after);
      && Shows(saved, Changed(p, next, code, ok)) && saved.row.Some?
      && saved.row.value.payload == e.row.value.payload && saved.row.value.hash == e.row.value.hash
      && saved.row.value.verdict == e.row.value.verdict
  {
  }

  lemma UnaskedFit()
    ensures Fits(Inserted(false), None, NotCreated) && Fits(Inserted(true), None, NotAccepted)
    ensures Judged(None) == Inserted(true) && Inserted(true).state == C.Queued
    ensures forall verdict :: Leads(verdict, None, NotCreated) && Leads(verdict, None, NotAccepted)
  {
  }

  lemma WaitingFits(stored: bool)
    ensures Fits(Changed(Inserted(true), C.Waiting, None, stored), None, NotWaiting(stored))
    ensures Changed(Inserted(true), C.Waiting, None, stored).state == C.Waiting
  {
  }

  lemma GivenUpFits(stored: bool)
    ensures Fits(Changed(Changed(Inserted(true), C.Waiting, None, true), C.Cancelled, None, stored), None,
                 GivenUp(stored))
  {
  }

  lemma DecidedFits(d: Decision)
    ensures var asked := Changed(Inserted(true), C.Waiting, None, true);
      && Fits(Approved(asked, d, false), Some(d), NotRecorded) && Fits(Approved(asked, d, true), Some(d), RuleRefused)
      && Judged(Some(d)) == Approved(asked, d, true)
  {
  }

  lemma JudgedIs(decision: Option<Decision>)
    ensures var p := Judged(decision);
      && p.state == (if decision.Some? then C.Waiting else C.Queued) && p.exitCode == None
      && p.row == Some((p.state, None)) && p.approvals == (if decision.Some? then [decision.value] else [])
      && p.calls ==
         if decision.Some? then
           [InsertCall(true), UpdateCall(C.Waiting, None, true), ApprovalCall(decision.value, true)]
         else [InsertCall(true)]
  {
  }

  lemma RejectedFit(decision: Option<Decision>, stored: bool, told: bool)
    ensures Fits(Changed(Judged(decision), C.Denied, Some(126), stored), decision, Rejected(stored, told))
  {
    hide Judged;
    JudgedIs(decision);
  }

  lemma StartedFit(decision: Option<Decision>, stored: bool)
    ensures Fits(Changed(Judged(decision), C.Running, None, stored), decision, NotRunning(stored))
  {
    hide Judged;
    JudgedIs(decision);
  }

  lemma RanFit(decision: Option<Decision>, failed: bool, gone: bool, exitCode: int, stored: bool, told: bool)
    ensures var p := Changed(Judged(decision), C.Running, None, true);
      Fits(Changed(p, EndState(failed, gone, exitCode), Some(if failed then 1 else exitCode), stored),
           decision, Ran(failed, gone, exitCode, stored, told))
  {
    hide Judged;
    JudgedIs(decision);
  }

  /** The changes of state that an execution makes can be made. */
  lemma MovesAllowed()
    ensures C.AllowedTransition(C.Queued, C.Waiting) && C.AllowedTransition(C.Waiting, C.Cancelled)
    ensures C.AllowedTransition(C.Queued, C.Denied) && C.AllowedTransition(C.Waiting, C.Denied)
    ensures C.AllowedTransition(C.Queued, C.Running) && C.AllowedTransition(C.Waiting, C.Running)
    ensures forall failed, gone, exitCode :: C.AllowedTransition(C.Running, EndState(failed, gone, exitCode))
  {
  }

  // ----- Single steps ------------------------------------------------------------------------------------

  lemma RegisterIs(env: Environment, id: string, e: Entry)
    requires e.stage == Registering && !e.pending
    ensures Local(env, id, e, Advance(id, true)) == Some((e.(pending := true, stage := Selecting), [Registered(id)]))
  {
  }

  lemma DecideIs(env: Environment, id: string, e: Entry, asked: Decision, d: Decision)
    requires asked.commandID == id && Answer(env.Hash, Waits(id, e), asked) == Accepted(d)
    ensures Local(env, id, e, Decide(asked)) ==
      Some((e.(pending := false, sending := Some(d)), [DecisionAccepted(id, d)]))
  {
    hide Answer;
  }

  lemma SendIs(env: Environment, id: string, e: Entry)
    requires e.sending.Some?
    ensures Local(env, id, e, Send(id)) == Some((e.(sending := None, channel := e.sending), []))
  {
  }

  lemma AdvanceIs(env: Environment, id: string, e: Entry, ok: bool)
    requires CanAdvance(e.stage)
    ensures Subject(Advance(id, ok)) == id && Local(env, id, e, Advance(id, ok)) == Some(Advanced(env, id, e, ok))
  {
    hide Advanced;
  }

  lemma CreateIs(env: Environment, id: string, e: Entry, ok: bool)
    requires e.stage == Created
    ensures Advanced(env, id, e, ok) ==
      if ok then
        (e.(row := Some(Row(e.payload, e.hash, e.state, e.verdict, None)), stage := Recorded),
         [RowCreated(id, e.payload, e.hash, e.verdict)])
      else (e.(stage := Over), [])
  {
  }

  lemma RecordIs(env: Environment, id: string, e: Entry, d: Decision, ok: bool)
    requires e.stage == Decided(d)
    ensures Advanced(env, id, e, ok) ==
      if !ok then (e.(stage := Over), [ApprovalLost(id, d)])
      else
        (e.(approvals := e.approvals + [d],
            stage := if d.action == DenyCommand then Denying
                     else if d.action == AllowTarget then AddingRule(d)
                     else Starting),
         [ApprovalStored(id, d)])
  {
  }

  lemma RuleIs(env: Environment, id: string, e: Entry, d: Decision, ok: bool)
    requires e.stage == AddingRule(d)
    ensures Advanced(env, id, e, ok) ==
      if e.target == "" || d.rule == "" || !env.compiles(d.rule) then (e.(stage := Over), [])
      else (e.(stage := Starting), [RuleAdded(id, e.target, d.rule)])
  {
  }

  lemma ReceiveIs(env: Environment, id: string, e: Entry)
    requires e.stage == Selecting && e.channel.Some?
    ensures Local(env, id, e, Receive(id)) ==
      Some((e.(channel := None, stage := Decided(e.channel.value)), [Returned(id, e.channel.value)]))
  {
  }

  lemma GiveUpIs(env: Environment, id: string, e: Entry)
    requires e.stage == Selecting && e.cancelled
    ensures Local(env, id, e, GiveUp(id)) == Some((e.(pending := false, stage := GivingUp), [GaveUp(id)]))
  {
  }

  lemma CancelIs(env: Environment, id: string, e: Entry)
    ensures Local(env, id, e, Cancel(id)) == Some((e.(cancelled := true), []))
  {
  }

  // ----- One execution -----------------------------------------------------------------------------------

  /** What there was before. */
  datatype Before = Before(
    rows: map<string, Row>,
    approvals: seq<Decision>,
    calls: seq<Call>,
    waiting: map<string, Request>,
    history: seq<P.Event>)

  class Execution {
    const id: string
    const cmd: C.Command
    const tables: Tables
    const policy: P.Engine
    const broker: Broker
    const target: string
    const verdict: P.Decision
    var request: Request?  // what the broker has of it
    var cancelled: bool    // the submission's context
    ghost const env: Environment
    ghost const before: Before
    ghost const first: Entry        // the submission as it was created
    ghost var labels: seq<Label>    // the steps taken
    ghost var now: Entry            // what they made of it
    ghost var own: seq<Event>       // what they logged
    ghost var ran: seq<string>      // the payloads handed to the backend

    ghost predicate Valid()
      reads this, cmd, tables, policy, broker, broker.requests
    {
      Grounded() && Synced(now) && Traced(own)
    }

    ghost predicate Grounded()
      reads `labels, `now, `own, cmd, policy, broker, broker.requests
    {
      Followed() && Sound()
    }

    /** The steps can be taken one after another. */
    ghost predicate Followed()
      reads `labels, `now, `own
    {
      Follow(env, id, first, labels) == Some((now, own))
    }

    ghost predicate Sound()
      reads cmd, policy, broker, broker.requests
    {
      && cmd.Valid() && cmd.id == id && cmd.target == target && cmd.Hash == env.Hash
      && policy.Valid() && HasEngine(env, policy.lib, policy.config)
      && broker.Valid() && broker.Hash == env.Hash && id !in before.waiting && id !in before.rows
    }

    /** The objects are as the state machine has them. */
    ghost predicate Synced(e: Entry)
      reads `cancelled, `request, cmd, tables, broker, broker.requests
    {
      && (I.IsEarly(e.stage) ==> e.channel.None?)
      && Same(e) && Kept(e.row, e.stage, e.approvals) && Heard(e.stage == Selecting, e.pending, e.sending, e.channel)
    }

    ghost predicate Same(e: Entry)
      reads `cancelled, cmd
    {
      && e.target == target && e.payload == cmd.payload && e.hash == cmd.hash && e.verdict == verdict
      && e.state == cmd.state && e.exitCode == cmd.exitCode && e.cancelled == cancelled
    }

    /** The tables have its row and its approvals, and what they had before. */
    ghost predicate Kept(row: Option<Row>, stage: Stage, approvals: seq<Decision>)
      reads tables
    {
      && row == tables.RowOf(id) && tables.rows - {id} == before.rows
      && (stage != Created && stage != Over ==> row.Some?) && (stage == Created ==> row.None?)
      && tables.approvals == before.approvals + approvals
    }

    /** The broker has its request while Wait selects, and otherwise what it had before. */
    ghost predicate Heard(selecting: bool, pending: bool, sending: Option<Decision>, channel: Option<Decision>)
      reads `request, broker, broker.requests
    {
      if selecting then
        && request in broker.requests && request.command == cmd
        && broker.pending == (if pending then before.waiting[id := request] else before.waiting)
        && request.channel == channel && (sending.Some? ==> request in broker.unsent && request.accepted == sending)
      else broker.pending == before.waiting && !pending && sending.None?
    }

    /** The policy has the rules that were logged, and the backend the payloads. */
    ghost predicate Traced(log: seq<Event>)
      reads `ran, policy
    {
      policy.history == before.history + RulesOf(log) && ran == RanIn(log)
    }

    constructor (ghost env: Environment, Hash: string -> string, id: string, target: string,
                 payload: string, policy: P.Engine, broker: Broker, tables: Tables, verdict: P.Decision)
      requires payload != "" && policy.Valid() && HasEngine(env, policy.lib, policy.config) && Hash == env.Hash
      requires broker.Valid() && broker.Hash == Hash && id !in broker.pending && id !in tables.rows
      ensures Valid() && ran == [] && labels == [] && own == [] && cmd.payload == payload && fresh(cmd) && now == first
      ensures Holds(AtFirst)
      ensures first ==
        Entry(target, payload, env.Hash(payload), C.Queued, None, verdict, Created, None, [], false, None, None, false)
      ensures this.id == id && this.target == target && this.env == env && this.policy == policy
      ensures this.tables == tables && tables.calls == old(tables.calls)
      ensures this.verdict == verdict && this.broker == broker
      ensures before == Before(tables.rows, tables.approvals, tables.calls, broker.pending, policy.history)
    {
      this.id, this.target, this.policy, this.broker, this.tables := id, target, policy, broker, tables;
      this.verdict, this.env, request, cancelled := verdict, env, null, false;
      cmd := new C.Command(id, target, payload, Hash);
      var e := Entry(target, payload, env.Hash(payload), C.Queued, None, verdict, Created, None, [],
                     false, None, None, false);
      first, now, labels, own, ran := e, e, [], [], [];
      before := Before(tables.rows, tables.approvals, tables.calls, broker.pending, policy.history);
    }

    /** One more step, by which the objects have come to be as they are. */
    ghost method Goes(l: Label, next: Entry, events: seq<Event>)
      requires Grounded() && Subject(l) == id && Local(env, id, now, l) == Some((next, events))
      requires Synced(next) && Traced(own + events)
      modifies `now, `labels, `own
      ensures Valid() && now == next && own == old(own) + events && labels == old(labels) + [l]
    {
      hide Local, Follow, Sound, Synced, Traced;
      FollowMore(env, id, first, labels, l);
      now, labels, own := next, labels + [l], own + events;
    }

    ghost predicate Holds(p: Progress)
      reads `now, cmd, tables
    {
      && Shows(now, p) && IsOf(now.row, cmd.payload, cmd.hash, verdict)
      && tables.calls == before.calls + p.calls
    }

    /** Store.CreateCommand */
    method Create() returns (ok: bool)
      requires Valid() && now.stage == Created
      modifies this, tables
      ensures Valid() && ran == old(ran)
      ensures now.stage == if ok then Recorded else Over
      ensures old(Holds(AtFirst)) ==> Holds(Inserted(ok))
    {
      hide Follow, Local, Grounded, Heard, RulesOf, RanIn, Advanced;
      ok := tables.CreateCommand(id, Row(cmd.payload, cmd.hash, cmd.state, verdict, None));
      ghost var next := Advanced(env, id, now, ok);
      CreateIs(env, id, now, ok);
      AdvanceIs(env, id, now, ok);
      QuietAfter(own, next.1);
      Goes(Advance(id, ok), next.0, next.1);
    }

    /** A call to the sink after which nothing changes but the stage. */
    method Announce(ghost p: Progress) returns (ok: bool)
      requires Holds(p) && Valid() && (now.stage == Recorded || now.stage == Announcing)
      modifies this
      ensures Valid() && ran == old(ran)
      ensures !ok ==> now.stage == Over
      ensures Holds(p)
      ensures ok && old(now).stage == Announcing ==> now.stage == Registering
      ensures ok && old(now).stage == Recorded ==> now.stage == Branch(verdict)
    {
      hide Follow, Local, Grounded, Heard, RulesOf, RanIn, Shows;
      ok := Tell();
      ghost var next := Advanced(env, id, now, ok);
      AdvanceIs(env, id, now, ok);
      QuietAfter(own, next.1);
      ShowsSame(now, next.0);
      Goes(Advance(id, ok), next.0, next.1);
    }

    /** Command.Transition and Store.UpdateCommand. */
    method Save(next: C.State, code: Option<int>) returns (ok: bool)
      requires Valid() && now.row.Some?
      modifies cmd, tables
      ensures Grounded() && Synced(Saved(now, next, code, ok)) && Traced(own)
      ensures ok ==> C.AllowedTransition(now.state, next)
      ensures C.AllowedTransition(now.state, next) ==>
        tables.calls == old(tables.calls) + [UpdateCall(next, if code.Some? then code else now.exitCode, ok)]
    {
      hide Followed, C.AllowedTransition, C.Command.Valid, P.Engine.Valid, Broker.Valid, HasEngine, Heard, Traced;
      ok := cmd.Transition(next, code);
      if ok {
        RowReplaced(tables.rows, id, tables.rows[id].(state := cmd.state, exitCode := cmd.exitCode));
        ok := tables.UpdateCommand(id, cmd.state, cmd.exitCode);
      }
    }

    lemma RowReplaced(rows: map<string, Row>, id: string, row: Row)
      ensures rows[id := row] - {id} == rows - {id} && id in rows[id := row] && rows[id := row][id] == row
    {
    }

    lemma HasRow()
      requires Valid() && now.stage != Created && now.stage != Over
      ensures now.row.Some?
    {
    }

    lemma SameStage(e: Entry, next: C.State, code: Option<int>)
      ensures forall ok :: Saved(e, next, code, ok).stage == e.stage
    {
    }

    lemma Restaged(e: Entry, stage: Stage)
      requires Synced(e) && e.stage != Selecting && e.stage != Created && e.stage != Over
      requires stage != Selecting && stage != Created && (I.IsEarly(stage) ==> I.IsEarly(e.stage))
      ensures Synced(e.(stage := stage))
    {
      hide Heard;
    }

    /** A change of state that is a step. */
    method MoveTo(next: C.State, code: Option<int>, ghost after: Stage,
                  ghost stored: Label, ghost lost: Label, ghost p: Progress)
      returns (ok: bool)
      requires Holds(p) && C.AllowedTransition(p.state, next)
      requires Valid() && now.stage != Selecting && now.stage != Created && now.stage != Over
      requires after != Selecting && after != Created && (I.IsEarly(after) ==> I.IsEarly(now.stage))
      requires Changes(env, id, now, next, code, after, stored, lost)
      modifies this, cmd, tables
      ensures Valid() && ran == old(ran)
      ensures now.stage == if ok then after else Over
      ensures Holds(Changed(p, next, code, ok))
    {
      hide Follow, Local, C.AllowedTransition, Change, Saved, Grounded, Synced, RulesOf, RanIn;
      SameStage(now, next, code);
      HasRow();
      ok := Save(next, code);
      ChangeIs(id, now, next, code, ok, after);
      Restaged(Saved(now, next, code, ok), if ok then after else Over);
      ghost var change := Change(id, now, next, code, ok, after);
      SavedShows(now, p, next, code, ok, if ok then after else Over);
      MoreCalls(p.calls, UpdateCall(next, if code.Some? then code else p.exitCode, ok));
      QuietAfter(own, change.1);
      Goes(if ok then stored else lost, change.0, change.1);
    }

    /** What is the broker's matter changes nothing for the command and the tables. */
    lemma Passes(e: Entry, next: Entry)
      requires Same(e) && Kept(e.row, e.stage, e.approvals) && e.stage != Created && e.stage != Over
      requires
        next == e.(pending := next.pending, sending := next.sending, channel := next.channel, stage := next.stage)
      requires next.stage != Created && next.stage != Over
      ensures Same(next) && Kept(next.row, next.stage, next.approvals)
    {
    }

    /** Wait, up to the select. */
    method Register(ghost p: Progress)
      requires Holds(p) && Valid() && now.stage == Registering
      modifies this, broker
      ensures Valid() && ran == old(ran) && now.stage == Selecting && now.pending && now.sending == now.channel == None
      ensures fresh(request)
      ensures Holds(p)
    {
      hide Followed, Local, Advanced, C.Command.Valid, P.Engine.Valid, Broker.Valid, HasEngine;
      hide RulesOf, RanIn, Same, Kept, Shows;
      request := broker.Register(cmd);
      RegisterIs(env, id, now);
      QuietAfter(own, [Registered(id)]);
      Passes(now, now.(pending := true, stage := Selecting));
      ShowsSame(now, now.(pending := true, stage := Selecting));
      Goes(Advance(id, true), now.(pending := true, stage := Selecting), [Registered(id)]);
    }

    /** An operator decides; Decide sends what it has accepted. */
    method Decide(d: Decision, ghost p: Progress) returns (accepted: bool)
      requires Holds(p) && Valid() && now.stage == Selecting && now.pending && now.channel == None && d.commandID == id
      modifies `now, `labels, `own, broker, request
      ensures Valid() && ran == old(ran) && now.stage == Selecting
      ensures if accepted then !now.pending && now.sending.None? && now.channel.Some? else now == old(now)
      ensures Holds(p)
    {
      hide Followed, Local, C.Command.Valid, P.Engine.Valid, Broker.Valid, HasEngine, RulesOf, RanIn, Answer;
      hide Kept, Shows;
      var reply, found := broker.Decide(d);
      accepted := reply.Accepted?;
      if accepted {
        DecideIs(env, id, now, d, reply.decision);
        QuietAfter(own, [DecisionAccepted(id, reply.decision)]);
        Passes(now, now.(pending := false, sending := Some(reply.decision)));
        ShowsSame(now, now.(pending := false, sending := Some(reply.decision)));
        Goes(GateProtocol.Decide(d), now.(pending := false, sending := Some(reply.decision)),
             [DecisionAccepted(id, reply.decision)]);
        Deliver(reply.decision, p);
      }
    }

    method Deliver(decision: Decision, ghost p: Progress)
      requires Holds(p) && Valid() && now.stage == Selecting && !now.pending && now.sending == Some(decision)
      modifies `now, `labels, `own, broker, request
      ensures Valid() && ran == old(ran) && now.stage == Selecting
      ensures !now.pending && now.sending.None? && now.channel == Some(decision)
      ensures Holds(p)
    {
      hide Followed, Local, C.Command.Valid, P.Engine.Valid, Broker.Valid, HasEngine, RulesOf, RanIn, Same, Kept, Shows;
      broker.Send(request, decision);
      SendIs(env, id, now);
      QuietAfter(own, []);
      Passes(now, now.(sending := None, channel := Some(decision)));
      ShowsSame(now, now.(sending := None, channel := Some(decision)));
      Goes(Send(id), now.(sending := None, channel := Some(decision)), []);
    }

    /** The decision names this command and its bytes. */
    ghost predicate IsForThis(d: Decision) {
      d.commandID == id && d.hash == cmd.hash
    }

    /** The select takes the decision. */
    method Receive(ghost p: Progress) returns (decision: Decision)
      requires Holds(p) && Valid() && now.stage == Selecting && now.channel.Some? && !now.pending && now.sending.None?
      modifies `now, `labels, `own, request
      ensures Valid() && ran == old(ran) && now.stage == Decided(decision)
      ensures Holds(p) && IsForThis(decision)
    {
      hide Followed, Local, C.Command.Valid, P.Engine.Valid, Broker.Valid, HasEngine, RulesOf, RanIn, Same, Kept, Shows;
      decision := broker.Receive(request);
      ReceiveIs(env, id, now);
      QuietAfter(own, [Returned(id, decision)]);
      Passes(now, now.(channel := None, stage := Decided(decision)));
      ShowsSame(now, now.(channel := None, stage := Decided(decision)));
      Goes(GateProtocol.Receive(id), now.(channel := None, stage := Decided(decision)), [Returned(id, decision)]);
    }

    /** The select takes the cancellation. */
    method GiveUp(ghost p: Progress)
      requires Holds(p) && Valid() && now.stage == Selecting && now.cancelled && now.sending.None?
      modifies `now, `labels, `own, broker
      ensures Valid() && ran == old(ran) && now.stage == GivingUp
      ensures Holds(p)
    {
      hide Followed, Local, C.Command.Valid, P.Engine.Valid, Broker.Valid, HasEngine, RulesOf, RanIn, Same, Kept, Shows;
      broker.GiveUp(request);
      GiveUpIs(env, id, now);
      QuietAfter(own, [GaveUp(id)]);
      Passes(now, now.(pending := false, stage := GivingUp));
      ShowsSame(now, now.(pending := false, stage := GivingUp));
      Goes(GateProtocol.GiveUp(id), now.(pending := false, stage := GivingUp), [GaveUp(id)]);
    }

    /** The submission's context is cancelled. */
    method Cancel(ghost p: Progress)
      requires Holds(p) && Valid()
      modifies `now, `labels, `own, `cancelled
      ensures Valid() && ran == old(ran) && now == old(now).(cancelled := true)
      ensures Holds(p)
    {
      hide Follow, Local, Grounded, Kept, Heard, RulesOf, RanIn, Shows;
      cancelled := true;
      CancelIs(env, id, now);
      QuietAfter(own, []);
      ShowsSame(now, now.(cancelled := true));
      Goes(GateProtocol.Cancel(id), now.(cancelled := true), []);
    }

    /** Approvals.Wait, while an operator may try decisions and the submission may be cancelled. */
    method Wait(ghost p: Progress) returns (decision: Option<Decision>)
      requires Holds(p) && Valid() && now.stage == Registering
      modifies this, broker
      ensures Valid() && ran == old(ran)
      ensures now.stage == if decision.Some? then Decided(decision.value) else GivingUp
      ensures decision.Some? ==> IsForThis(decision.value)
      ensures Holds(p)
    {
      hide Follow, Local, Grounded, Same, Kept, Heard, RulesOf, RanIn, Traced;
      Register(p);
      var decided := false;
      var tries: nat :| true;
      for i := 0 to tries
        invariant Valid() && ran == old(ran) && now.stage == Selecting && now.sending.None?
        invariant if decided then !now.pending && now.channel.Some? else now.pending && now.channel.None?
        invariant fresh(request) && Holds(p)
      {
        if !decided {
          var d: Decision :| true;
          decided := Decide(d.(commandID := id), p);
        }
      }
      // It waits until there is something to take, and takes either if there is both.
      var gone: bool, takes: bool := *, *;
      if gone || !decided {
        Cancel(p);
      }
      if decided && (takes || !gone) {
        var d := Receive(p);
        return Some(d);
      }
      GiveUp(p);
      decision := None;
    }

    /** Store.RecordApproval */
    method Record(d: Decision, ghost p: Progress) returns (ok: bool)
      requires Holds(p) && Valid() && now.stage == Decided(d)
      modifies this, tables
      ensures Valid() && ran == old(ran)
      ensures now.stage ==
        if !ok then Over
        else if d.action == DenyCommand then Denying
        else if d.action == AllowTarget then AddingRule(d)
        else Starting
      ensures Holds(Approved(p, d, ok))
    {
      hide Follow, Local, Grounded, Heard, RulesOf, RanIn, Advanced, Shows, Approved;
      ok := tables.RecordApproval(d);
      ghost var next := Advanced(env, id, now, ok);
      RecordIs(env, id, now, d, ok);
      AdvanceIs(env, id, now, ok);
      QuietAfter(own, next.1);
      ApprovedShows(now, next.0, p, d, ok);
      MoreCalls(p.calls, ApprovalCall(d, ok));
      Goes(Advance(id, ok), next.0, next.1);
    }

    lemma SameCommand()
      requires Valid()
      ensures now.payload == cmd.payload && now.target == target
    {
      hide Follow, Local, Grounded, Kept, Heard, RulesOf, RanIn, Traced;
    }

    /** Policy.AllowForTarget */
    method AddRule(d: Decision, ghost p: Progress) returns (ok: bool)
      requires Holds(p) && Valid() && now.stage == AddingRule(d)
      modifies this, policy
      ensures Valid() && ran == old(ran) && now.stage == if ok then Starting else Over
      ensures Holds(p)
      ensures policy.history == old(policy.history) + if ok then [P.Added(target, d.rule)] else []
    {
      hide Followed, Local, C.Command.Valid, P.Engine.Valid, Broker.Valid, Same, Kept, Heard, RulesOf, RanIn;
      hide Shows, Advanced;
      SameCommand();
      ok := policy.AllowForTarget(target, d.rule);
      ghost var next := Advanced(env, id, now, ok);
      RuleIs(env, id, now, d, ok);
      AdvanceIs(env, id, now, ok);
      if ok {
        RuleAfter(own, id, target, d.rule);
      } else {
        QuietAfter(own, next.1);
      }
      Restaged(now, if ok then Starting else Over);
      ShowsSame(now, next.0);
      Goes(Advance(id, ok), next.0, next.1);
    }

    /** The last call to the sink, and the payload goes to the backend. */
    method Begin(ghost p: Progress) returns (ok: bool)
      requires Holds(p) && Valid() && now.stage == Started
      modifies this
      ensures Valid() && now.stage == if ok then Executing else Over
      ensures Holds(p) && ran == old(ran) + if ok then [cmd.payload] else []
    {
      hide Follow, Local, Grounded, Same, Kept, Heard, RulesOf, RanIn, Shows;
      SameCommand();
      ok := Tell();
      ghost var next := Advanced(env, id, now, ok);
      AdvanceIs(env, id, now, ok);
      if ok {
        ran := ran + [cmd.payload];
        ExecutedAfter(own, id, cmd.payload);
      } else {
        QuietAfter(own, next.1);
      }
      Restaged(now, if ok then Executing else Over);
      ShowsSame(now, next.0);
      Goes(Advance(id, ok), next.0, next.1);
    }

    // ----- To the end ------------------------------------------------------------------------------------

    ghost predicate Ended(decision: Option<Decision>, ending: Ending)
      reads `now, cmd, tables
    {
      && now.stage == Over && ending != NoCommand && Leads(verdict, decision, ending)
      && exists p :: Holds(p) && Fits(p, decision, ending)
    }

    lemma MoreCalls(calls: seq<Call>, c: Call)
      ensures before.calls + calls + [c] == before.calls + (calls + [c])
    {
    }

    /** The backend's Exec, during which the context may be cancelled, and what is made of its result. */
    method Execute(ghost p: Progress) returns (failed: bool, gone: bool, exitCode: int, stored: bool, told: bool)
      requires Valid() && now.stage == Executing && Holds(p) && p.state == C.Running
      modifies this, cmd, tables
      ensures Valid() && now.stage == Over && ran == old(ran)
      ensures Holds(Changed(p, EndState(failed, gone, exitCode), Some(if failed then 1 else exitCode), stored))
    {
      hide *;
      failed, exitCode := *, *;  // what Exec and the audit writers return
      var cancels: bool := *;
      if cancels {
        Cancel(p);
      }
      gone := cancelled;
      SameCancelled();
      ChangesAtEnd(env, id, now, failed, exitCode);
      MovesAllowed();
      OverIsLate();
      stored := MoveTo(EndState(failed, gone, exitCode), Some(if failed then 1 else exitCode), Over,
                       Finish(id, failed, exitCode, true), Finish(id, failed, exitCode, false), p);
      told := false;
      if stored || failed {
        told := Tell();
      }
    }

    lemma SameCancelled()
      requires Valid()
      ensures now.cancelled == cancelled
    {
      hide Follow, Local, Grounded, Kept, Heard, RulesOf, RanIn, Traced;
    }

    method FinishDenied(ghost decision: Option<Decision>) returns (stored: bool, told: bool)
      requires Valid() && now.stage == Denying && Holds(Judged(decision))
      requires if verdict == P.Ask then decision.Some? && decision.value.action == DenyCommand
               else verdict == P.Deny && decision == None
      modifies this, cmd, tables
      ensures Valid() && ran == old(ran) && Ended(decision, Rejected(stored, told))
    {
      hide *;
      OverIsLate();
      ChangesFrom(env, id, now);
      MovesAllowed();
      JudgedIs(decision);
      stored := MoveTo(C.Denied, Some(126), Over, Advance(id, true), Advance(id, false), Judged(decision));
      told := stored;
      if told {
        told := Tell();  // State
      }
      if told {
        told := Tell();  // Output
      }
      if told {
        told := Tell();  // Exit
      }
      RejectedFit(decision, stored, told);
      DeniedLeads(verdict, decision, stored, told);
      EndsHere(Changed(Judged(decision), C.Denied, Some(126), stored), decision, Rejected(stored, told));
    }

    lemma EndsHere(p: Progress, decision: Option<Decision>, ending: Ending)
      requires now.stage == Over && Holds(p) && Fits(p, decision, ending)
      requires Leads(verdict, decision, ending) && ending != NoCommand
      ensures Ended(decision, ending)
    {
      hide Holds, Fits;
    }

    /** Asking the operator: whether the command may run, or how it has ended. */
    method Ask() returns (decision: Option<Decision>, ended: Option<Ending>)
      requires Valid() && now.stage == Asking && verdict == P.Ask && Holds(Judged(None))
      modifies this, cmd, tables, policy, broker
      ensures Valid() && ran == old(ran)
      ensures ended.Some? ==> Ended(decision, ended.value) && !ended.value.Ran? && !ended.value.NotRunning?
      ensures decision.Some? ==> IsForThis(decision.value)
      ensures ended.None? ==>
        now.stage == Starting && Holds(Judged(decision)) && decision.Some? && decision.value.action != DenyCommand
      ensures policy.history == old(policy.history) +
        if ended.None? && decision.value.action == AllowTarget then [P.Added(target, decision.value.rule)] else []
    {
      hide *;
      OverIsLate();
      MovesAllowed();
      UnaskedFit();
      ChangesFrom(env, id, now);
      var ok := MoveTo(C.Waiting, None, Announcing, Advance(id, true), Advance(id, false), Inserted(true));
      ghost var asked := Changed(Inserted(true), C.Waiting, None, ok);
      WaitingFits(ok);
      UndecidedLeads(ok);
      if !ok {
        EndsHere(asked, None, NotWaiting(false));
        return None, Some(NotWaiting(false));
      }
      ok := Announce(asked);
      if !ok {
        EndsHere(asked, None, NotWaiting(true));
        return None, Some(NotWaiting(true));
      }
      decision := Wait(asked);
      if decision.None? {
        ChangesFrom(env, id, now);
        var stored := MoveTo(C.Cancelled, None, Over, Advance(id, true), Advance(id, false), asked);
        GivenUpFits(stored);
        UndecidedLeads(stored);
        EndsHere(Changed(asked, C.Cancelled, None, stored), None, GivenUp(stored));
        return None, Some(GivenUp(stored));
      }
      DecidedFits(decision.value);
      DecidedLeads(decision.value);
      ok := Record(decision.value, asked);
      if !ok {
        EndsHere(Approved(asked, decision.value, false), decision, NotRecorded);
        return decision, Some(NotRecorded);
      }
      if decision.value.action == DenyCommand {
        var stored, told := FinishDenied(decision);
        return decision, Some(Rejected(stored, told));
      }
      if decision.value.action == AllowTarget {
        ok := AddRule(decision.value, Judged(decision));
        if !ok {
          EndsHere(Judged(decision), decision, RuleRefused);
          return decision, Some(RuleRefused);
        }
      }
      ended := None;
    }

    /** From the last check to the end. */
    method Start(ghost decision: Option<Decision>) returns (ending: Ending)
      requires Valid() && now.stage == Starting && Holds(Judged(decision))
      requires if verdict == P.Ask then decision.Some? && decision.value.action != DenyCommand
               else verdict == P.Allow && decision == None
      modifies this, cmd, tables
      ensures Valid() && Ended(decision, ending) && (ending.NotRunning? || ending.Ran?)
      ensures ran == old(ran) + if ending.Ran? then [cmd.payload] else []
    {
      hide *;
      // The revalidation before transport cannot fail: ID, payload and hash of a command never change.
      SameBytes();
      OverIsLate();
      ChangesFrom(env, id, now);
      MovesAllowed();
      JudgedIs(decision);
      AllowedLeads(verdict, decision);
      ghost var p := Judged(decision);
      var ok := MoveTo(C.Running, None, Started, Advance(id, true), Advance(id, false), p);
      p := Changed(p, C.Running, None, ok);
      StartedFit(decision, ok);
      if !ok {
        EndsHere(p, decision, NotRunning(false));
        return NotRunning(false);
      }
      ok := Begin(p);
      if !ok {
        EndsHere(p, decision, NotRunning(true));
        return NotRunning(true);
      }
      ChangedState(Judged(decision), C.Running, None, true);
      var failed, gone, exitCode, stored, told := Execute(p);
      ending := Ran(failed, gone, exitCode, stored, told);
      RanFit(decision, failed, gone, exitCode, stored, told);
      EndsHere(Changed(p, EndState(failed, gone, exitCode), Some(if failed then 1 else exitCode), stored),
               decision, ending);
    }

    lemma ChangedState(p: Progress, next: C.State, code: Option<int>, stored: bool)
      ensures Changed(p, next, code, stored).state == next
    {
    }

    lemma OverIsLate()
      ensures !I.IsEarly(Over) && !I.IsEarly(Started) && I.IsEarly(Asking)
    {
    }

    /** service.execute, from the command's creation on. */
    method Go() returns (ok: bool, decision: Option<Decision>, ending: Ending)
      requires Valid() && now.stage == Created && ran == [] && Holds(AtFirst)
      modifies this, cmd, tables, policy, broker
      ensures Valid() && Ended(decision, ending) && ok == IsSuccess(ending)
      ensures decision.Some? ==> IsForThis(decision.value)
      ensures ran == if ending.Ran? then [cmd.payload] else []
      ensures policy.history == old(policy.history) +
        if decision.Some? && decision.value.action == AllowTarget && (ending.NotRunning? || ending.Ran?)
        then [P.Added(target, decision.value.rule)] else []
    {
      hide *;
      decision := None;
      UnaskedFit();
      SuccessIs();
      ok := Create();
      if !ok {
        EndsHere(Inserted(false), None, NotCreated);
        return false, None, NotCreated;
      }
      ok := Announce(Inserted(true));
      if !ok {
        EndsHere(Inserted(true), None, NotAccepted);
        return false, None, NotAccepted;
      }
      BranchIs();
      match verdict {
        case Deny =>
          var stored, told := FinishDenied(None);
          return stored && told, None, Rejected(stored, told);
        case Allow =>
        case Ask =>
          var ended;
          decision, ended := Ask();
          if ended.Some? {
            return IsSuccess(ended.value), decision, ended.value;
          }
      }
      ending := Start(decision);
      ok := IsSuccess(ending);
    }

    lemma BranchIs()
      ensures Branch(P.Deny) == Denying && Branch(P.Allow) == Starting && Branch(P.Ask) == Asking
    {
    }

    lemma SameBytes()
      requires Valid()
      ensures cmd.VerifyApproval(id, cmd.hash) && Unchanged(env, now)
    {
      hide Follow, P.Engine.Valid, Broker.Valid, Kept, Heard, Traced;
    }

    lemma ForThis(d: Decision)
      requires IsForThis(d)
      ensures d.commandID == id && d.hash == cmd.hash
    {
    }

    lemma EndedIs(decision: Option<Decision>, ending: Ending)
      requires Valid() && Ended(decision, ending)
      ensures ending != NoCommand && Leads(verdict, decision, ending)
      ensures now.stage == Over && now.row == tables.RowOf(id)
      ensures tables.calls == before.calls + CallsOf(decision, ending) && tables.rows - {id} == before.rows
      ensures id in tables.rows <==> ending != NotCreated
      ensures id in tables.rows ==>
        var row := tables.rows[id];
        && row.payload == cmd.payload && row.hash == cmd.hash && row.verdict == verdict
        && EndsAs(decision, ending, row.state, row.exitCode)
      ensures tables.approvals == before.approvals + now.approvals
      ensures now.approvals == if decision.Some? && ending != NotRecorded then [decision.value] else []
      ensures Follow(env, id, first, labels) == Some((now, own)) && now.verdict == verdict
      ensures policy.Valid() && broker.Valid() && broker.pending == before.waiting && cmd.hash == env.Hash(cmd.payload)
      ensures policy.history == before.history + RulesOf(own) && ran == RanIn(own)
    {
      hide Follow, RulesOf, RanIn, Leads, EndsAs, CallsOf, Broker.Valid, P.Engine.Valid, HasEngine;
      var p :| Holds(p) && Fits(p, decision, ending);
    }
  }

  // ----- Whole executions ------------------------------------------------------------------------------------

  /**
    From any state of the system that has these rules and does not know the ID, submitting the
    payload and taking these steps makes this of the submission, logs this, and changes nothing else.
   */
  ghost predicate IsRun(env: Environment, id: string, target: string, payload: string,
                        history: seq<P.Event>, labels: seq<Label>, final: Entry, own: seq<Event>) {
    forall s: System | id !in s.entries && RulesOf(s.log) == history ::
      RunFrom(env, s, [Submit(id, target, payload)] + labels) ==
      System(s.entries[id := final], s.log + [Submitted(id, target, payload, final.verdict)] + own)
  }

  lemma FollowedIsRun(env: Environment, id: string, target: string, payload: string, history: seq<P.Event>,
                      first: Entry, labels: seq<Label>, final: Entry, own: seq<Event>)
    requires payload != "" && Follow(env, id, first, labels) == Some((final, own)) && final.verdict == first.verdict
    requires first ==
      Entry(target, payload, env.Hash(payload), C.Queued, None, env.judge(P.Since(history, target), payload),
            Created, None, [], false, None, None, false)
    ensures IsRun(env, id, target, payload, history, labels, final, own)
  {
    hide Follow, RunFrom, RulesOf, P.Since;
    forall s: System | id !in s.entries && RulesOf(s.log) == history
      ensures RunFrom(env, s, [Submit(id, target, payload)] + labels) ==
        System(s.entries[id := final], s.log + [Submitted(id, target, payload, final.verdict)] + own)
    {
      SubmitThenFollow(env, s, id, target, payload, labels);
    }
  }

  lemma JudgeIs(env: Environment, lib: P.Library, config: P.Config, rules: seq<string>, command: string)
    requires HasEngine(env, lib, config)
    ensures env.judge(rules, command) == P.Judge(lib, config, rules, command)
  {
    hide P.Judge;
  }

  /**
    service.execute: how it ends follows from what its calls answer, and with that which calls of the
    store it has made and what the row of the command holds. It takes a run of the machine, and leaves
    the row, the approvals and the rules that the run has logged, and the broker as it was.
   */
  method ExecuteCommand(ghost env: Environment, Hash: string -> string, id: string, target: string,
                        payload: string, policy: P.Engine, broker: Broker, tables: Tables)
    returns (ok: bool, verdict: P.Decision, decision: Option<Decision>, ending: Ending,
             ghost labels: seq<Label>, ghost final: Option<Entry>, ghost own: seq<Event>, ghost ran: seq<string>)
    requires policy.Valid() && HasEngine(env, policy.lib, policy.config) && Hash == env.Hash
    requires broker.Valid() && broker.Hash == Hash && id !in broker.pending && id !in tables.rows
    modifies policy, broker, tables
    ensures policy.Valid() && broker.Valid() && broker.pending == old(broker.pending)
    ensures (ending == NoCommand) == (payload == "") && Leads(verdict, decision, ending)
    ensures decision.Some? ==> decision.value.commandID == id && decision.value.hash == Hash(payload)
    ensures payload != "" ==>
      verdict == P.Judge(policy.lib, policy.config, P.Since(old(policy.history), target), payload)
    ensures ok <==>
      ending == Rejected(true, true) || (ending.Ran? && !ending.failed && ending.stored && ending.told)
    ensures tables.calls == old(tables.calls) + CallsOf(decision, ending)
    ensures tables.rows - {id} == old(tables.rows)
    ensures id in tables.rows <==> ending != NoCommand && ending != NotCreated
    ensures id in tables.rows ==>
      var row := tables.rows[id];
      && row.payload == payload && row.hash == Hash(payload) && row.verdict == verdict
      && EndsAs(decision, ending, row.state, row.exitCode)
      && (ending.Ran? && ending.stored && !ending.failed && ending.exitCode == 0 ==>
            row.state == C.Succeeded && row.exitCode == Some(0))
      && (ending.Ran? && ending.stored && !ending.failed && ending.exitCode != 0 ==>
            row.state == C.Failed && row.exitCode == Some(ending.exitCode))
      && (ending.Ran? && ending.stored && ending.failed ==>
            row.state == (if ending.cancelled then C.Cancelled else C.Failed) && row.exitCode == Some(1))
      && (ending.Rejected? && ending.stored ==> row.state == C.Denied && row.exitCode == Some(126))
    ensures tables.approvals ==
      old(tables.approvals) + if decision.Some? && ending != NotRecorded then [decision.value] else []
    ensures policy.history == old(policy.history) +
      if decision.Some? && decision.value.action == AllowTarget && (ending.NotRunning? || ending.Ran?)
      then [P.Added(target, decision.value.rule)] else []
    ensures ran == if ending.Ran? then [payload] else []
    ensures if payload == "" then final == None && own == []
            else
              && final.Some? && final.value.stage == Over && final.value.row == tables.RowOf(id)
              && IsRun(env, id, target, payload, old(policy.history), labels, final.value, own)
              && tables.approvals == old(tables.approvals) + final.value.approvals
    ensures policy.history == old(policy.history) + RulesOf(own) && ran == RanIn(own)
  {
    hide *;
    NoCommandIs();
    SuccessIs();
    if payload == "" {
      return false, P.Ask, None, NoCommand, [], None, [], [];
    }
    var result := policy.Evaluate(target, payload);
    verdict := result.decision;
    var execution := new Execution(env, Hash, id, target, payload, policy, broker, tables, verdict);
    ok, decision, ending := execution.Go();
    execution.EndedIs(decision, ending);
    if decision.Some? {
      execution.ForThis(decision.value);
    }
    EndsOutright(decision, ending);
    labels, final, own, ran := execution.labels, Some(execution.now), execution.own, execution.ran;
    JudgeIs(env, policy.lib, policy.config, P.Since(old(policy.history), target), payload);
    FollowedIsRun(env, id, target, payload, old(policy.history), execution.first, labels, execution.now, own);
  }

  /** Such an execution in any run of the machine: what it hands to a backend is authorized there. */
  lemma ExecutedWithAuthority(env: Environment, before: seq<Label>, id: string, target: string,
                              payload: string, labels: seq<Label>, final: Entry, own: seq<Event>, j: nat)
    returns (k: nat, reason: GateSafety.Reason)
    requires id !in Run(env, before).entries && j < |own| && own[j].Executed?
    requires IsRun(env, id, target, payload, RulesOf(Run(env, before).log), labels, final, own)
    ensures var log := Run(env, before + [Submit(id, target, payload)] + labels).log;
      k < |log| && log[k] == own[j] && GateSafety.Explains(env, log, k, reason)
  {
    hide RunFrom, RulesOf, GateSafety.Explains;
    var steps := [Submit(id, target, payload)] + labels;
    var s := Run(env, before);
    RunJoins(env, Initial, before, steps);
    assert before + [Submit(id, target, payload)] + labels == before + steps;
    var log := Run(env, before + steps).log;
    assert log == s.log + [Submitted(id, target, payload, final.verdict)] + own;
    k := |s.log| + 1 + j;
    reason := GateSafety.ExecutionIsAuthorized(env, before + steps, k);
  }

  /** However the steps of such an execution interleave with those of others, it comes to the same. */
  lemma InterleavedExecution(env: Environment, s: System, id: string, target: string, payload: string,
                             labels: seq<Label>, final: Entry, own: seq<Event>, all: seq<Label>)
    requires id !in s.entries && payload != "" && Own(id, all) == labels
    requires IsRun(env, id, target, payload, RulesOf(s.log), labels, final, own)
    ensures var t := RunFrom(env, s, [Submit(id, target, payload)] + all);
      && id in t.entries && t.entries[id] == final
      && About(id, t.log) == About(id, s.log) + [Submitted(id, target, payload, final.verdict)] + About(id, own)
  {
    hide Local, NewEntry, RunFrom, RulesOf, About, Step;
    var submit := Submit(id, target, payload);
    RunJoins(env, s, [submit], all);
    RunJoins(env, s, [submit], labels);
    RunOne(env, s, submit);
    SubmitAdds(env, s, id, target, payload);
    OthersDoNotMatter(env, Step(env, s, submit), id, all);
    AboutJoins(id, s.log + [Submitted(id, target, payload, final.verdict)], own);
    AboutJoins(id, s.log, [Submitted(id, target, payload, final.verdict)]);
    AboutOne(id, Submitted(id, target, payload, final.verdict));
  }

  lemma SubmitAdds(env: Environment, s: System, id: string, target: string, payload: string)
    requires id !in s.entries && payload != ""
    ensures id in Step(env, s, Submit(id, target, payload)).entries
  {
  }

  lemma AboutOne(id: string, ev: Event)
    requires !ev.TargetDetached? && ev.id == id
    ensures About(id, [ev]) == [ev]
  {
    assert [ev][..0] == [];
  }

  lemma {:induction false} AboutJoins(id: string, a: seq<Event>, b: seq<Event>)
    ensures About(id, a + b) == About(id, a) + About(id, b)
    decreases |b|
  {
    if b == [] {
      assert a + b == a;
    } else {
      var n := |b| - 1;
      AboutJoins(id, a, b[..n]);
      assert (a + b)[..|a + b| - 1] == a + b[..n];
    }
  }
}
