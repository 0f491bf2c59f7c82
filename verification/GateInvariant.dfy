/** What every step of the protocol keeps. */
module GateInvariant {
  import opened Ascii
  import opened Approvals
  import opened GateProtocol
  import C = Commands
  import P = PolicyEngine

  // ----- What the log tells ----------------------------------------------------------------------------

  ghost predicate WasSubmitted(log: seq<Event>, id: string) {
    exists k | 0 <= k < |log| :: log[k].Submitted? && log[k].id == id
  }

  ghost predicate WasAccepted(log: seq<Event>, id: string) {
    exists k | 0 <= k < |log| :: log[k].DecisionAccepted? && log[k].id == id
  }

  ghost predicate HasReturned(log: seq<Event>, id: string) {
    exists k | 0 <= k < |log| :: log[k].Returned? && log[k].id == id
  }

  ghost predicate WasStored(log: seq<Event>, id: string) {
    exists k | 0 <= k < |log| :: log[k].ApprovalStored? && log[k].id == id
  }

  ghost predicate WasLost(log: seq<Event>, id: string) {
    exists k | 0 <= k < |log| :: log[k].ApprovalLost? && log[k].id == id
  }

  ghost predicate WasExecuted(log: seq<Event>, id: string) {
    exists k | 0 <= k < |log| :: log[k].Executed? && log[k].id == id
  }

  /** A decision for these bytes that lets the command run. */
  predicate Approves(d: Decision, id: string, hash: string) {
    d.commandID == id && d.hash == hash && (d.action == ApproveOnce || d.action == AllowTarget)
  }

  ghost predicate WasApproved(log: seq<Event>, id: string, hash: string) {
    exists k | 0 <= k < |log| :: log[k].ApprovalStored? && log[k].id == id && Approves(log[k].d, id, hash)
  }

  ghost predicate WasAllowed(log: seq<Event>, id: string, hash: string, verdict: P.Decision) {
    verdict == P.Allow || WasApproved(log, id, hash)
  }

  lemma LogGrows(log: seq<Event>, ev: Event, id: string, hash: string)
    ensures WasSubmitted(log + [ev], id) <==> WasSubmitted(log, id) || (ev.Submitted? && ev.id == id)
    ensures WasAccepted(log + [ev], id) <==> WasAccepted(log, id) || (ev.DecisionAccepted? && ev.id == id)
    ensures HasReturned(log + [ev], id) <==> HasReturned(log, id) || (ev.Returned? && ev.id == id)
    ensures WasStored(log + [ev], id) <==> WasStored(log, id) || (ev.ApprovalStored? && ev.id == id)
    ensures WasLost(log + [ev], id) <==> WasLost(log, id) || (ev.ApprovalLost? && ev.id == id)
    ensures WasExecuted(log + [ev], id) <==> WasExecuted(log, id) || (ev.Executed? && ev.id == id)
    ensures WasApproved(log + [ev], id, hash) <==>
      WasApproved(log, id, hash) || (ev.ApprovalStored? && ev.id == id && Approves(ev.d, id, hash))
  {
    hide Approves;
    var more := log + [ev];
    assert more[|log|] == ev;
    assert forall k | 0 <= k < |log| :: more[k] == log[k];
  }

  // ----- Each event has its reasons in what was logged before ---------------------------------------------

  /** The decision is for the command and the bytes that were submitted under this ID. */
  predicate IsBound(d: Decision, id: string, hash: string) {
    d.commandID == id && d.hash == hash && d.action != OtherAction && !IsBlank(d.actor)
  }

  ghost predicate Justified(env: Environment, ev: Event, before: seq<Event>) {
    match ev
    case Submitted(id, target, payload, verdict) =>
      !WasSubmitted(before, id) && payload != "" && verdict == Evaluate(env, before, target, payload)
    case RowCreated(id, payload, hash, verdict) =>
      hash == env.Hash(payload) && exists target :: Submitted(id, target, payload, verdict) in before
    case RowUpdated(id, state) =>
      state == C.Running ==>
        exists payload, hash, verdict ::
          RowCreated(id, payload, hash, verdict) in before && WasAllowed(before, id, hash, verdict)
    case Registered(id) => Registered(id) !in before
    case DecisionAccepted(id, d) =>
      && Registered(id) in before && GaveUp(id) !in before && !WasAccepted(before, id)
      && exists target, payload, verdict ::
           Submitted(id, target, payload, verdict) in before && IsBound(d, id, env.Hash(payload))
    case GaveUp(id) => Registered(id) in before && GaveUp(id) !in before && !HasReturned(before, id)
    case Returned(id, d) => DecisionAccepted(id, d) in before && !HasReturned(before, id) && GaveUp(id) !in before
    case ApprovalStored(id, d) => Returned(id, d) in before && !WasStored(before, id) && !WasLost(before, id)
    case ApprovalLost(id, d) => Returned(id, d) in before && !WasStored(before, id) && !WasLost(before, id)
    case RuleAdded(id, target, pattern) =>
      && pattern != "" && env.compiles(pattern)
      && (exists payload, verdict :: Submitted(id, target, payload, verdict) in before)
      && exists d :: ApprovalStored(id, d) in before && d.action == AllowTarget && d.rule == pattern
    case Executed(id, payload) =>
      && !WasExecuted(before, id) && RowUpdated(id, C.Running) in before
      && exists verdict :: RowCreated(id, payload, env.Hash(payload), verdict) in before
    case TargetDetached(_) => true
  }

  ghost predicate AllJustified(env: Environment, log: seq<Event>) {
    forall k | 0 <= k < |log| :: Justified(env, log[k], log[..k])
  }

  lemma JustifiedMore(env: Environment, log: seq<Event>, ev: Event)
    requires AllJustified(env, log) && Justified(env, ev, log)
    ensures AllJustified(env, log + [ev])
  {
    hide Justified;
    var more := log + [ev];
    forall k | 0 <= k < |more|
      ensures Justified(env, more[k], more[..k])
    {
      if k < |log| {
        assert more[..k] == log[..k] && more[k] == log[k];
      } else {
        assert more[..k] == log;
      }
    }
  }

  // ----- One entry -----------------------------------------------------------------------------------

  predicate IsEarly(stage: Stage) {
    stage == Created || stage == Recorded || stage == Asking || stage == Announcing || stage == Registering
  }

  predicate IsStarting(stage: Stage) {
    stage == Starting || stage == Started || stage == Executing
  }

  predicate StateFits(e: Entry) {
    match e.stage
    case Created => e.state == C.Queued
    case Recorded => e.state == C.Queued
    case Asking => e.state == C.Queued
    case Starting => e.state == C.Queued || e.state == C.Waiting
    case Denying => e.state == C.Queued || e.state == C.Waiting
    case Started => e.state == C.Running && e.row.Some? && e.row.value.state == C.Running
    case Executing => e.state == C.Running && e.row.Some? && e.row.value.state == C.Running
    case Over => true
    case _ => e.state == C.Waiting
  }

  /** The command's row says what was submitted and what the policy said. */
  ghost predicate RowInv(env: Environment, id: string, e: Entry, log: seq<Event>) {
    && e.payload != "" && e.hash == env.Hash(e.payload)
    && Submitted(id, e.target, e.payload, e.verdict) in log
    && (e.stage == Created ==> e.row.None?)
    && (e.stage != Created && e.stage != Over ==> e.row.Some?)
    && (e.row.Some? ==>
          && e.row.value.payload == e.payload && e.row.value.hash == e.hash && e.row.value.verdict == e.verdict
          && RowCreated(id, e.payload, e.hash, e.verdict) in log)
    && StateFits(e)
  }

  /** The command has run at most once, and only with leave. */
  ghost predicate RunInv(id: string, e: Entry, log: seq<Event>) {
    && (e.stage != Executing && e.stage != Over ==> !WasExecuted(log, id))
    && (IsStarting(e.stage) ==> WasAllowed(log, id, e.hash, e.verdict))
    && (e.stage == Started || e.stage == Executing ==> RowUpdated(id, C.Running) in log)
  }

  /** The broker's request is where the log says. */
  ghost predicate BrokerInv(id: string, e: Entry, log: seq<Event>) {
    && (e.pending <==> e.stage == Selecting && !WasAccepted(log, id))
    && (e.sending.Some? ==>
          e.channel.None? && DecisionAccepted(id, e.sending.value) in log && IsBound(e.sending.value, id, e.hash))
    && (e.channel.Some? ==> DecisionAccepted(id, e.channel.value) in log && IsBound(e.channel.value, id, e.hash))
    && (HasReturned(log, id) ==> e.sending.None? && e.channel.None?)
    && (e.stage == Selecting ==> e.pending || e.sending.Some? || e.channel.Some?)
    && (e.stage.Decided? ==> Returned(id, e.stage.d) in log && IsBound(e.stage.d, id, e.hash))
    && (e.stage.AddingRule? ==>
          && ApprovalStored(id, e.stage.d) in log && e.stage.d.action == AllowTarget
          && Approves(e.stage.d, id, e.hash))
  }

  /** How far asking the operator has come. */
  ghost predicate OutcomeInv(id: string, e: Entry, log: seq<Event>) {
    && (IsEarly(e.stage) ==>
          !WasAccepted(log, id) && !HasReturned(log, id) && Registered(id) !in log && GaveUp(id) !in log)
    && (e.stage == Selecting ==> Registered(id) in log && GaveUp(id) !in log && !HasReturned(log, id))
    && (Registered(id) in log && e.stage != Selecting ==> HasReturned(log, id) || GaveUp(id) in log)
    && (HasReturned(log, id) ==> GaveUp(id) !in log && WasAccepted(log, id))
    && (WasAccepted(log, id) ==> Registered(id) in log)
    && (GaveUp(id) in log ==> e.cancelled)
    && (e.stage == GivingUp ==> GaveUp(id) in log)
    && (WasStored(log, id) || WasLost(log, id) <==> HasReturned(log, id) && !e.stage.Decided?)
    && !(WasStored(log, id) && WasLost(log, id))
  }

  ghost predicate EntryInv(env: Environment, id: string, e: Entry, log: seq<Event>) {
    RowInv(env, id, e, log) && RunInv(id, e, log) && BrokerInv(id, e, log) && OutcomeInv(id, e, log)
  }

  /** Nothing has happened under an ID that no submission has. */
  ghost predicate Unused(log: seq<Event>, id: string) {
    && !WasSubmitted(log, id) && !WasAccepted(log, id) && !HasReturned(log, id) && !WasExecuted(log, id)
    && !WasStored(log, id) && !WasLost(log, id) && Registered(id) !in log && GaveUp(id) !in log
  }

  ghost predicate Inv(env: Environment, s: System) {
    && (forall id | id in s.entries :: EntryInv(env, id, s.entries[id], s.log))
    && (forall id | id !in s.entries :: Unused(s.log, id))
    && AllJustified(env, s.log)
  }

  // ----- Steps of one entry --------------------------------------------------------------------------

  /** The ID an event is about, if it is about one. */
  predicate IsAbout(ev: Event, id: string) {
    !ev.TargetDetached? && ev.id == id
  }

  /** What other submissions log does not matter to an entry. */
  lemma EntryKeeps(env: Environment, id: string, e: Entry, log: seq<Event>, ev: Event)
    requires EntryInv(env, id, e, log) && !IsAbout(ev, id)
    ensures EntryInv(env, id, e, log + [ev])
  {
    hide WasSubmitted, WasAccepted, HasReturned, WasStored, WasLost, WasExecuted;
    hide WasApproved, Approves, IsBound, IsBlank, StateFits;
    LogGrows(log, ev, id, e.hash);
  }

  lemma UnusedKeeps(log: seq<Event>, id: string, ev: Event)
    requires Unused(log, id) && !IsAbout(ev, id)
    ensures Unused(log + [ev], id)
  {
  }

  /** What a change of one entry must show. */
  ghost predicate Good(env: Environment, id: string, change: (Entry, seq<Event>), log: seq<Event>) {
    && |change.1| <= 1
    && EntryInv(env, id, change.0, log + change.1)
    && (change.1 != [] ==> IsAbout(change.1[0], id) && Justified(env, change.1[0], log))
  }

  lemma NoEvent(log: seq<Event>)
    ensures log + [] == log
  {
  }

  lemma GoodAsking(env: Environment, id: string, e: Entry, log: seq<Event>)
    requires EntryInv(env, id, e, log) && e.stage == Asking
    ensures Good(env, id, Change(id, e, C.Waiting, None, true, Announcing), log)
  {
  }

  lemma GoodStarting(env: Environment, id: string, e: Entry, log: seq<Event>)
    requires EntryInv(env, id, e, log) && e.stage == Starting
    ensures Good(env, id, Change(id, e, C.Running, None, true, Started), log)
  {
    hide WasSubmitted, WasAccepted, HasReturned, WasStored, WasLost, WasExecuted;
    hide WasApproved, Approves, IsBound, IsBlank;
    LogGrows(log, RowUpdated(id, C.Running), id, e.hash);
    assert RowCreated(id, e.payload, e.hash, e.verdict) in log;
  }

  /** A last change that reaches the store. */
  lemma GoodEnding(env: Environment, id: string, e: Entry, log: seq<Event>, next: C.State, code: Option<int>)
    requires EntryInv(env, id, e, log) && (e.stage == GivingUp || e.stage == Denying || e.stage == Executing)
    requires next != C.Running
    ensures Good(env, id, Change(id, e, next, code, true, Over), log)
  {
    hide EntryInv, Justified, C.AllowedTransition;
    if C.AllowedTransition(e.state, next) && e.row.Some? {
      EntryKeepsRow(env, id, e, Moved(e, next, code, true).(stage := Over), log, RowUpdated(id, next));
    } else {
      OverKeeps(env, id, e, Change(id, e, next, code, true, Over).0, log);
      NoEvent(log);
    }
    assert Justified(env, RowUpdated(id, next), log) by {
      NotRunning(env, id, next, log);
    }
  }

  lemma NotRunning(env: Environment, id: string, next: C.State, log: seq<Event>)
    requires next != C.Running
    ensures Justified(env, RowUpdated(id, next), log)
  {
  }

  lemma EntryKeepsRow(env: Environment, id: string, e: Entry, over: Entry, log: seq<Event>, ev: Event)
    requires EntryInv(env, id, e, log) && e.stage != Selecting && !e.stage.Decided? && e.row.Some? && ev.RowUpdated?
    requires over == e.(state := over.state, exitCode := over.exitCode, row := over.row, stage := Over)
    requires over.row.Some? && over.row.value == e.row.value.(state := over.state, exitCode := over.exitCode)
    ensures EntryInv(env, id, over, log + [ev])
  {
    hide WasSubmitted, WasAccepted, HasReturned, WasStored, WasLost, WasExecuted;
    hide WasApproved, WasAllowed, Approves, IsBound, IsBlank;
    LogGrows(log, ev, id, e.hash);
  }

  /** A call that changes nothing but the stage. */
  lemma GoodGo(env: Environment, id: string, e: Entry, log: seq<Event>, stage: Stage)
    requires EntryInv(env, id, e, log) && e.stage != Selecting && e.stage != Executing && !e.stage.Decided?
    requires stage == Over
      || (e.stage == Recorded && stage == Denying) || (e.stage == Recorded && stage == Asking)
      || (e.stage == Recorded && stage == Starting && e.verdict == P.Allow)
      || (e.stage == Announcing && stage == Registering)
    ensures Good(env, id, Go(e, stage), log)
  {
    hide WasSubmitted, WasAccepted, HasReturned, WasStored, WasLost, WasExecuted;
    hide WasApproved, Approves, IsBound, IsBlank;
    NoEvent(log);
  }

  lemma GoodCreated(env: Environment, id: string, e: Entry, log: seq<Event>)
    requires EntryInv(env, id, e, log) && e.stage == Created
    ensures Good(env, id, Advanced(env, id, e, true), log)
  {
  }

  lemma GoodRegistering(env: Environment, id: string, e: Entry, log: seq<Event>)
    requires EntryInv(env, id, e, log) && e.stage == Registering
    ensures Good(env, id, Advanced(env, id, e, true), log) && Advanced(env, id, e, false) == Advanced(env, id, e, true)
  {
  }

  lemma ReturnedIn(log: seq<Event>, id: string, d: Decision)
    requires Returned(id, d) in log
    ensures HasReturned(log, id)
  {
  }

  lemma GoodDecided(env: Environment, id: string, e: Entry, log: seq<Event>)
    requires EntryInv(env, id, e, log) && e.stage.Decided?
    ensures Good(env, id, Advanced(env, id, e, true), log)
  {
    hide WasSubmitted, WasAccepted, HasReturned, WasStored, WasLost, WasExecuted, WasApproved, IsBlank;
    LogGrows(log, ApprovalStored(id, e.stage.d), id, e.hash);
    ReturnedIn(log, id, e.stage.d);
  }

  lemma GoodUnrecorded(env: Environment, id: string, e: Entry, log: seq<Event>)
    requires EntryInv(env, id, e, log) && e.stage.Decided?
    ensures Good(env, id, Advanced(env, id, e, false), log)
  {
    hide WasSubmitted, WasAccepted, HasReturned, WasStored, WasLost, WasExecuted;
    hide WasApproved, Approves, IsBound, IsBlank;
    LogGrows(log, ApprovalLost(id, e.stage.d), id, e.hash);
    ReturnedIn(log, id, e.stage.d);
  }

  lemma GoodAddingRule(env: Environment, id: string, e: Entry, log: seq<Event>, ok: bool)
    requires EntryInv(env, id, e, log) && e.stage.AddingRule?
    ensures Good(env, id, Advanced(env, id, e, ok), log)
  {
    if e.target == "" || e.stage.d.rule == "" || !env.compiles(e.stage.d.rule) {
      GoodGo(env, id, e, log, Over);
    } else {
      GoodRule(env, id, e, log);
    }
  }

  lemma GoodRule(env: Environment, id: string, e: Entry, log: seq<Event>)
    requires EntryInv(env, id, e, log) && e.stage.AddingRule? && e.stage.d.rule != "" && env.compiles(e.stage.d.rule)
    ensures Good(env, id, (e.(stage := Starting), [RuleAdded(id, e.target, e.stage.d.rule)]), log)
  {
    hide WasSubmitted, WasAccepted, HasReturned, WasStored, WasLost, WasExecuted;
    hide WasApproved, Approves, IsBound, IsBlank;
    LogGrows(log, RuleAdded(id, e.target, e.stage.d.rule), id, e.hash);
    StoredApproval(log, id, e.stage.d, e.hash);
  }

  lemma StoredApproval(log: seq<Event>, id: string, d: Decision, hash: string)
    requires ApprovalStored(id, d) in log && Approves(d, id, hash)
    ensures WasApproved(log, id, hash)
  {
  }

  lemma GoodStarted(env: Environment, id: string, e: Entry, log: seq<Event>)
    requires EntryInv(env, id, e, log) && e.stage == Started
    ensures Good(env, id, Advanced(env, id, e, true), log)
  {
    hide WasSubmitted, WasAccepted, HasReturned, WasStored, WasLost, WasExecuted;
    hide WasApproved, Approves, IsBound, IsBlank;
    LogGrows(log, Executed(id, e.payload), id, e.hash);
  }

  lemma GoodAdvance(env: Environment, id: string, e: Entry, log: seq<Event>, ok: bool)
    requires EntryInv(env, id, e, log) && e.stage != Selecting && e.stage != Executing && e.stage != Over
    ensures Good(env, id, Advanced(env, id, e, ok), log)
  {
    hide EntryInv, Good, Change;
    EntryRow(env, id, e, log);
    match e.stage
    case Created =>
      if ok { GoodCreated(env, id, e, log); } else { GoodGo(env, id, e, log, Over); }
    case Recorded =>
      var next := match e.verdict case Deny => Denying case Allow => Starting case Ask => Asking;
      GoodGo(env, id, e, log, if ok then next else Over);
    case Asking =>
      if ok { GoodAsking(env, id, e, log); } else { GoodLost(env, id, e, log, C.Waiting, None, Announcing); }
    case Announcing => GoodGo(env, id, e, log, if ok then Registering else Over);
    case Registering => GoodRegistering(env, id, e, log);
    case GivingUp =>
      if ok {
        GoodEnding(env, id, e, log, C.Cancelled, None);
      } else {
        GoodLost(env, id, e, log, C.Cancelled, None, Over);
      }
    case Decided(d) =>
      if ok { GoodDecided(env, id, e, log); } else { GoodUnrecorded(env, id, e, log); }
    case AddingRule(_) => GoodAddingRule(env, id, e, log, ok);
    case Starting =>
      if !Unchanged(env, e) {
        GoodGo(env, id, e, log, Over);
      } else if ok {
        GoodStarting(env, id, e, log);
      } else {
        GoodLost(env, id, e, log, C.Running, None, Started);
      }
    case Started =>
      if ok { GoodStarted(env, id, e, log); } else { GoodGo(env, id, e, log, Over); }
    case Denying =>
      if ok {
        GoodEnding(env, id, e, log, C.Denied, Some(126));
      } else {
        GoodLost(env, id, e, log, C.Denied, Some(126), Over);
      }
    case _ =>
  }

  lemma EntryRow(env: Environment, id: string, e: Entry, log: seq<Event>)
    requires EntryInv(env, id, e, log)
    ensures e.stage != Created && e.stage != Over ==> e.row.Some?
    ensures StateFits(e) && (e.stage != Selecting ==> !e.pending)
  {
  }

  /** An entry that is over, and otherwise as it was, but for its state in memory. */
  lemma OverKeeps(env: Environment, id: string, e: Entry, over: Entry, log: seq<Event>)
    requires EntryInv(env, id, e, log) && e.stage != Selecting && !e.stage.Decided?
    requires over == e.(state := over.state, exitCode := over.exitCode, stage := Over)
    ensures EntryInv(env, id, over, log)
  {
  }

  /** A change that does not reach the store. */
  lemma GoodLost(env: Environment, id: string, e: Entry, log: seq<Event>,
                 next: C.State, code: Option<int>, after: Stage)
    requires EntryInv(env, id, e, log) && e.stage != Selecting && !e.stage.Decided?
    ensures Good(env, id, Change(id, e, next, code, false, after), log)
  {
    hide EntryInv, Justified, C.AllowedTransition;
    OverKeeps(env, id, e, Change(id, e, next, code, false, after).0, log);
    NoEvent(log);
  }

  lemma GoodFinish(env: Environment, id: string, e: Entry, log: seq<Event>, failed: bool, exitCode: int, ok: bool)
    requires EntryInv(env, id, e, log) && e.stage == Executing
    ensures Good(env, id, Finished(id, e, failed, exitCode, ok), log)
  {
    hide EntryInv, Good;
    EntryRow(env, id, e, log);
    var next := if failed then (if e.cancelled then C.Cancelled else C.Failed)
                else if exitCode == 0 then C.Succeeded else C.Failed;
    var code := Some(if failed then 1 else exitCode);
    if ok {
      GoodEnding(env, id, e, log, next, code);
    } else {
      GoodLost(env, id, e, log, next, code, Over);
    }
  }

  lemma GoodReceive(env: Environment, id: string, e: Entry, log: seq<Event>)
    requires EntryInv(env, id, e, log) && e.stage == Selecting && e.channel.Some?
    ensures var d := e.channel.value;
      Good(env, id, (e.(channel := None, stage := Decided(d)), [Returned(id, d)]), log)
  {
    hide WasSubmitted, HasReturned, WasStored, WasLost, WasExecuted, WasApproved, Approves, IsBound, IsBlank;
    LogGrows(log, Returned(id, e.channel.value), id, e.hash);
    AcceptedIn(log, id, e.channel.value);
  }

  lemma AcceptedIn(log: seq<Event>, id: string, d: Decision)
    requires DecisionAccepted(id, d) in log
    ensures WasAccepted(log, id)
  {
  }

  lemma GoodGiveUp(env: Environment, id: string, e: Entry, log: seq<Event>)
    requires EntryInv(env, id, e, log) && e.stage == Selecting && e.cancelled
    ensures Good(env, id, (e.(pending := false, stage := GivingUp), [GaveUp(id)]), log)
  {
  }

  lemma GoodCancel(env: Environment, id: string, e: Entry, log: seq<Event>)
    requires EntryInv(env, id, e, log)
    ensures Good(env, id, (e.(cancelled := true), []), log)
  {
    hide WasSubmitted, WasAccepted, HasReturned, WasStored, WasLost, WasExecuted;
    hide WasApproved, Approves, IsBound, IsBlank;
    NoEvent(log);
  }

  lemma GoodDecide(env: Environment, id: string, e: Entry, log: seq<Event>, asked: Decision, d: Decision)
    requires EntryInv(env, id, e, log) && asked.commandID == id
    requires Answer(env.Hash, Waits(id, e), asked) == Accepted(d)
    ensures Good(env, id, (e.(pending := false, sending := Some(d)), [DecisionAccepted(id, d)]), log)
  {
    hide WasSubmitted, WasAccepted, HasReturned, WasStored, WasLost, WasExecuted;
    hide WasApproved, Approves, IsBound, IsBlank, Answer;
    AcceptedIsBound(env.Hash, Waits(id, e), asked);
    LogGrows(log, DecisionAccepted(id, d), id, e.hash);
    AnswerBinds(asked, d, id, e.hash);
    NotPendingEmpty(id, e, log);
    assert Submitted(id, e.target, e.payload, e.verdict) in log && IsBound(d, id, env.Hash(e.payload));
  }

  lemma AnswerBinds(asked: Decision, d: Decision, id: string, hash: string)
    requires asked.commandID == id && asked.hash == hash && asked.action != OtherAction && !IsBlank(asked.actor)
    requires d.(rule := asked.rule) == asked
    ensures IsBound(d, id, hash)
  {
  }

  /** While a request is pending nothing has been sent. */
  lemma NotPendingEmpty(id: string, e: Entry, log: seq<Event>)
    requires BrokerInv(id, e, log) && e.pending
    ensures e.sending.None? && e.channel.None?
  {
  }

  lemma GoodSend(env: Environment, id: string, e: Entry, log: seq<Event>)
    requires EntryInv(env, id, e, log) && e.sending.Some?
    ensures e.channel.None? && Good(env, id, (e.(sending := None, channel := e.sending), []), log)
  {
    hide WasSubmitted, WasAccepted, HasReturned, WasStored, WasLost, WasExecuted;
    hide WasApproved, Approves, IsBound, IsBlank;
    NoEvent(log);
  }

  // ----- Steps of the system ---------------------------------------------------------------------------

  /** A good change of one entry keeps the whole invariant. */
  lemma InvWith(env: Environment, s: System, id: string, change: (Entry, seq<Event>))
    requires Inv(env, s) && id in s.entries && Good(env, id, change, s.log)
    ensures Inv(env, With(s, id, change))
  {
    hide EntryInv, Unused, Justified, AllJustified;
    var t := With(s, id, change);
    NoEvent(s.log);
    if change.1 != [] {
      var ev := change.1[0];
      assert change.1 == [ev] && t.log == s.log + [ev];
      JustifiedMore(env, s.log, ev);
      Others(env, s, id, ev);
    }
  }

  /** The entries that an event is not about, and the IDs that are not used. */
  lemma Others(env: Environment, s: System, id: string, ev: Event)
    requires Inv(env, s) && (!ev.TargetDetached? ==> ev.id == id)
    ensures forall other | other in s.entries && (other != id || ev.TargetDetached?) ::
      EntryInv(env, other, s.entries[other], s.log + [ev])
    ensures forall other | other !in s.entries && (other != id || ev.TargetDetached?) :: Unused(s.log + [ev], other)
  {
    hide EntryInv, Unused, Justified, AllJustified;
    forall other | other in s.entries && (other != id || ev.TargetDetached?)
      ensures EntryInv(env, other, s.entries[other], s.log + [ev])
    {
      EntryKeeps(env, other, s.entries[other], s.log, ev);
    }
    forall other | other !in s.entries && (other != id || ev.TargetDetached?)
      ensures Unused(s.log + [ev], other)
    {
      UnusedKeeps(s.log, other, ev);
    }
  }

  lemma InvDetach(env: Environment, s: System, target: string)
    requires Inv(env, s)
    ensures Inv(env, System(s.entries, s.log + [TargetDetached(target)]))
  {
    hide EntryInv, Unused, AllJustified;
    Others(env, s, "", TargetDetached(target));
    JustifiedMore(env, s.log, TargetDetached(target));
  }

  lemma NewEntryInv(env: Environment, id: string, log: seq<Event>, target: string, payload: string)
    requires Unused(log, id) && payload != ""
    ensures var e := NewEntry(env, log, target, payload); var ev := Submitted(id, target, payload, e.verdict);
      EntryInv(env, id, e, log + [ev]) && Justified(env, ev, log)
  {
  }

  lemma InvSubmit(env: Environment, s: System, id: string, target: string, payload: string)
    requires Inv(env, s) && id !in s.entries && payload != ""
    ensures Inv(env, Step(env, s, Submit(id, target, payload)))
  {
    hide EntryInv, Unused, Justified, AllJustified, Evaluate;
    var e := NewEntry(env, s.log, target, payload);
    var ev := Submitted(id, target, payload, e.verdict);
    NewEntryInv(env, id, s.log, target, payload);
    Others(env, s, id, ev);
    JustifiedMore(env, s.log, ev);
  }

  lemma InvEntry(env: Environment, s: System, id: string)
    requires Inv(env, s) && id in s.entries
    ensures EntryInv(env, id, s.entries[id], s.log)
  {
  }

  /** Whatever a step makes of its submission is good. */
  lemma GoodLocal(env: Environment, id: string, e: Entry, log: seq<Event>, l: Label)
    requires EntryInv(env, id, e, log) && Local(env, id, e, l).Some? && (l.Decide? ==> l.decision.commandID == id)
    ensures Good(env, id, Local(env, id, e, l).value, log)
  {
    hide EntryInv, Good, Advanced, Finished, Answer;
    match l
    case Advance(_, ok) => GoodAdvance(env, id, e, log, ok);
    case Receive(_) => GoodReceive(env, id, e, log);
    case GiveUp(_) => GoodGiveUp(env, id, e, log);
    case Cancel(_) => GoodCancel(env, id, e, log);
    case Finish(_, failed, exitCode, ok) => GoodFinish(env, id, e, log, failed, exitCode, ok);
    case Decide(d) => GoodDecide(env, id, e, log, d, Answer(env.Hash, Waits(id, e), d).decision);
    case Send(_) => GoodSend(env, id, e, log);
  }

  /** Every step keeps the invariant. */
  lemma InvStep(env: Environment, s: System, l: Label)
    requires Inv(env, s)
    ensures Inv(env, Step(env, s, l))
  {
    hide EntryInv, Good, With, Inv, Local, NewEntry;
    match l
    case Submit(id, target, payload) =>
      if id !in s.entries && payload != "" {
        InvSubmit(env, s, id, target, payload);
      }
    case Detach(target) => InvDetach(env, s, target);
    case _ =>
      var id := Subject(l);
      if id in s.entries && Local(env, id, s.entries[id], l).Some? {
        InvEntry(env, s, id);
        GoodLocal(env, id, s.entries[id], s.log, l);
        InvWith(env, s, id, Local(env, id, s.entries[id], l).value);
      }
  }

  /** And so every run does. */
  lemma {:induction false} InvRun(env: Environment, labels: seq<Label>)
    ensures Inv(env, Run(env, labels))
    decreases |labels|
  {
    hide Inv, Step;
    if labels == [] {
      InvInitial(env);
    } else {
      InvRun(env, labels[..|labels| - 1]);
      InvStep(env, Run(env, labels[..|labels| - 1]), labels[|labels| - 1]);
    }
  }

  lemma InvInitial(env: Environment)
    ensures Inv(env, Initial)
  {
  }
}
