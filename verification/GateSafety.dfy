/** What holds in every run of the protocol. */
module GateSafety {
  import opened Ascii
  import opened Approvals
  import opened GateProtocol
  import opened GateInvariant
  import C = Commands
  import P = PolicyEngine

  /** The log of a run. */
  function LogOf(env: Environment, labels: seq<Label>): seq<Event> {
    Run(env, labels).log
  }

  lemma LogJustified(env: Environment, labels: seq<Label>)
    ensures AllJustified(env, LogOf(env, labels))
  {
    hide Run, AllJustified, EntryInv, Unused;
    InvRun(env, labels);
  }

  lemma At(env: Environment, log: seq<Event>, k: nat)
    requires AllJustified(env, log) && k < |log|
    ensures Justified(env, log[k], log[..k])
  {
  }

  // ----- Submissions -----------------------------------------------------------------------------------

  lemma SubmittedOnce(env: Environment, log: seq<Event>, i: nat, j: nat)
    requires AllJustified(env, log) && i < j < |log| && log[i].Submitted? && log[j].Submitted?
    ensures log[i].id != log[j].id
  {
    At(env, log, j);
    assert log[..j][i] == log[i];
  }

  lemma SameSubmission(env: Environment, log: seq<Event>, a: Event, b: Event)
    requires AllJustified(env, log) && a in log && b in log && a.Submitted? && b.Submitted? && a.id == b.id
    ensures a == b
  {
    hide AllJustified;
    var i :| 0 <= i < |log| && log[i] == a;
    var j :| 0 <= j < |log| && log[j] == b;
    if i < j {
      SubmittedOnce(env, log, i, j);
    } else if j < i {
      SubmittedOnce(env, log, j, i);
    }
  }

  /** Where a row was created, its command had been submitted, with the payload the row has. */
  lemma RowFrom(env: Environment, log: seq<Event>, c: nat) returns (s: nat)
    requires AllJustified(env, log) && c < |log| && log[c].RowCreated?
    ensures s < c && log[s].Submitted? && log[s].id == log[c].id && log[s].payload == log[c].payload
    ensures log[s].verdict == log[c].verdict
    ensures log[c].hash == env.Hash(log[c].payload)
  {
    hide AllJustified;
    At(env, log, c);
    var ev := log[c];
    var target :| Submitted(ev.id, target, ev.payload, ev.verdict) in log[..c];
    s :| 0 <= s < c && log[..c][s] == Submitted(ev.id, target, ev.payload, ev.verdict);
  }

  lemma SameRow(env: Environment, log: seq<Event>, c: nat, d: nat)
    requires AllJustified(env, log) && c < |log| && d < |log| && log[c].RowCreated? && log[d].RowCreated?
    requires log[c].id == log[d].id
    ensures log[c] == log[d]
  {
    hide AllJustified;
    var s := RowFrom(env, log, c);
    var t := RowFrom(env, log, d);
    SameSubmission(env, log, log[s], log[t]);
  }

  // ----- Executions ----------------------------------------------------------------------------------

  /** Why a payload was executed: the places in the log, in this order. */
  datatype Reason = Reason(submitted: nat, created: nat, started: nat, approved: Option<nat>)

  predicate Explains(env: Environment, log: seq<Event>, k: nat, r: Reason) {
    && k < |log| && log[k].Executed? && r.submitted < r.created < r.started < k
    && (var id, payload := log[k].id, log[k].payload;
        var s, c := log[r.submitted], log[r.created];
        && s.Submitted? && s.id == id && s.payload == payload
        && s.verdict == Evaluate(env, log[..r.submitted], s.target, payload)
        && c == RowCreated(id, payload, env.Hash(payload), s.verdict)
        && log[r.started] == RowUpdated(id, C.Running)
        && (r.approved.None? ==> s.verdict == P.Allow)
        && (r.approved.Some? ==>
              && r.approved.value < r.started && log[r.approved.value].ApprovalStored? && log[r.approved.value].id == id
              && Approves(log[r.approved.value].d, id, env.Hash(payload))))
  }

  lemma StartedAfter(env: Environment, log: seq<Event>, r: nat) returns (c: nat, approved: Option<nat>)
    requires AllJustified(env, log) && r < |log| && log[r].RowUpdated? && log[r].state == C.Running
    ensures c < r && log[c].RowCreated? && log[c].id == log[r].id
    ensures approved.None? ==> log[c].verdict == P.Allow
    ensures approved.Some? ==>
      approved.value < r && log[approved.value].ApprovalStored? && log[approved.value].id == log[r].id
      && Approves(log[approved.value].d, log[r].id, log[c].hash)
  {
    hide AllJustified, Approves;
    At(env, log, r);
    var id, before := log[r].id, log[..r];
    var payload, hash, verdict :|
      RowCreated(id, payload, hash, verdict) in before && WasAllowed(before, id, hash, verdict);
    c :| 0 <= c < r && before[c] == RowCreated(id, payload, hash, verdict);
    approved := None;
    if verdict != P.Allow {
      var a :| 0 <= a < |before| && before[a].ApprovalStored? && before[a].id == id && Approves(before[a].d, id, hash);
      approved := Some(a);
    }
  }

  /**
    Whatever is handed to a backend is exactly what was submitted, its row had been stored as
    running before, and the policy had allowed it or an approval for its ID and hash had been
    stored before that.
   */
  lemma ExecutionIsAuthorized(env: Environment, labels: seq<Label>, k: nat) returns (reason: Reason)
    requires k < |LogOf(env, labels)| && LogOf(env, labels)[k].Executed?
    ensures Explains(env, LogOf(env, labels), k, reason)
  {
    hide Run, AllJustified, Approves, Evaluate;
    var log := LogOf(env, labels);
    LogJustified(env, labels);
    At(env, log, k);
    var id, payload := log[k].id, log[k].payload;
    var verdict :| RowCreated(id, payload, env.Hash(payload), verdict) in log[..k];
    var d :| 0 <= d < k && log[..k][d] == RowCreated(id, payload, env.Hash(payload), verdict);
    var r :| 0 <= r < k && log[..k][r] == RowUpdated(id, C.Running);
    var c, approved := StartedAfter(env, log, r);
    SameRow(env, log, c, d);
    var s := RowFrom(env, log, c);
    At(env, log, s);
    reason := Reason(s, c, r, approved);
  }

  lemma ExecutedAtMostOnce(env: Environment, labels: seq<Label>, i: nat, j: nat)
    requires var log := LogOf(env, labels); i < j < |log| && log[i].Executed? && log[j].Executed?
    ensures LogOf(env, labels)[i].id != LogOf(env, labels)[j].id
  {
    hide Run, AllJustified;
    var log := LogOf(env, labels);
    LogJustified(env, labels);
    At(env, log, j);
    assert log[..j][i] == log[i];
  }

  /** While a command executes, its row says so, with the bytes and the hash of the submission. */
  lemma ExecutingRow(env: Environment, labels: seq<Label>, id: string)
    requires id in Run(env, labels).entries && Run(env, labels).entries[id].stage == Executing
    ensures var e := Run(env, labels).entries[id];
      && e.row.Some? && e.row.value.state == C.Running
      && e.row.value.payload == e.payload && e.row.value.hash == env.Hash(e.payload)
  {
    hide *;
    InvRun(env, labels);
    InvEntry(env, Run(env, labels), id);
    ExecutingInv(env, id, Run(env, labels).entries[id], Run(env, labels).log);
  }

  lemma ExecutingInv(env: Environment, id: string, e: Entry, log: seq<Event>)
    requires EntryInv(env, id, e, log) && e.stage == Executing
    ensures e.row.Some? && e.row.value.state == C.Running && e.row.value.payload == e.payload
    ensures e.row.value.hash == env.Hash(e.payload)
  {
    hide RunInv, BrokerInv, OutcomeInv;
  }

  // ----- The broker ----------------------------------------------------------------------------------

  lemma AcceptedAtMostOnce(env: Environment, labels: seq<Label>, i: nat, j: nat)
    requires var log := LogOf(env, labels); i < j < |log| && log[i].DecisionAccepted? && log[j].DecisionAccepted?
    ensures LogOf(env, labels)[i].id != LogOf(env, labels)[j].id
  {
    hide Run, AllJustified;
    var log := LogOf(env, labels);
    LogJustified(env, labels);
    At(env, log, j);
    assert log[..j][i] == log[i];
  }

  /** A stored approval is what Wait returned, and that is what Decide accepted, for the submitted bytes. */
  lemma StoredWasAccepted(env: Environment, labels: seq<Label>, k: nat)
    returns (returned: nat, accepted: nat, submitted: nat)
    requires k < |LogOf(env, labels)| && LogOf(env, labels)[k].ApprovalStored?
    ensures var log := LogOf(env, labels);
      && submitted < accepted < returned < k
      && log[returned] == Returned(log[k].id, log[k].d) && log[accepted] == DecisionAccepted(log[k].id, log[k].d)
      && log[submitted].Submitted? && log[submitted].id == log[k].id
      && IsBound(log[k].d, log[k].id, env.Hash(log[submitted].payload))
  {
    hide Run, AllJustified, IsBound, Evaluate;
    var log := LogOf(env, labels);
    LogJustified(env, labels);
    At(env, log, k);
    var id, d := log[k].id, log[k].d;
    returned :| 0 <= returned < k && log[..k][returned] == Returned(id, d);
    At(env, log, returned);
    accepted :| 0 <= accepted < returned && log[..returned][accepted] == DecisionAccepted(id, d);
    At(env, log, accepted);
    var target, payload, verdict :|
      Submitted(id, target, payload, verdict) in log[..accepted] && IsBound(d, id, env.Hash(payload));
    submitted :| 0 <= submitted < accepted && log[..accepted][submitted] == Submitted(id, target, payload, verdict);
  }

  /** A Wait ends in one way: with a decision or by giving up. */
  lemma WaitEndsOnce(env: Environment, labels: seq<Label>, i: nat, j: nat)
    requires var log := LogOf(env, labels);
      i < j < |log| && (log[i].Returned? || log[i].GaveUp?) && (log[j].Returned? || log[j].GaveUp?)
    ensures LogOf(env, labels)[i].id != LogOf(env, labels)[j].id
  {
    hide Run, AllJustified;
    var log := LogOf(env, labels);
    LogJustified(env, labels);
    At(env, log, j);
    assert log[..j][i] == log[i];
  }

  /**
    In every reachable state the broker's map has exactly the registered requests that neither a
    decision nor a cancellation has removed, and a send finds its channel empty.
   */
  lemma PendingExactly(env: Environment, labels: seq<Label>, id: string)
    requires id in Run(env, labels).entries
    ensures var s := Run(env, labels);
      && (s.entries[id].pending <==> Registered(id) in s.log && !WasAccepted(s.log, id) && GaveUp(id) !in s.log)
      && (s.entries[id].sending.Some? ==> s.entries[id].channel.None?)
  {
    hide *;
    InvRun(env, labels);
    InvEntry(env, Run(env, labels), id);
    PendingInv(env, id, Run(env, labels).entries[id], Run(env, labels).log);
  }

  lemma PendingInv(env: Environment, id: string, e: Entry, log: seq<Event>)
    requires EntryInv(env, id, e, log)
    ensures e.pending <==> Registered(id) in log && !WasAccepted(log, id) && GaveUp(id) !in log
    ensures e.sending.Some? ==> e.channel.None?
  {
    hide RowInv, RunInv, WasAccepted, HasReturned, IsBound, Approves, WasStored, WasLost;
  }

  // ----- Which accepted decisions are stored ----------------------------------------------------------------

  /** What the log says of an entry that is over after a decision was accepted for it. */
  lemma OverInv(env: Environment, id: string, e: Entry, log: seq<Event>)
    requires EntryInv(env, id, e, log) && e.stage == Over && WasAccepted(log, id)
    ensures HasReturned(log, id) <==> GaveUp(id) !in log
    ensures GaveUp(id) in log ==> e.cancelled
    ensures WasStored(log, id) || WasLost(log, id) <==> HasReturned(log, id)
    ensures !(WasStored(log, id) && WasLost(log, id))
  {
    hide RowInv, RunInv, BrokerInv, WasAccepted, HasReturned, WasStored, WasLost;
  }

  /** What was stored or lost is the decision that was accepted. */
  lemma KeptWasAccepted(env: Environment, log: seq<Event>, k: nat, id: string, d: Decision)
    requires AllJustified(env, log) && DecisionAccepted(id, d) in log
    requires k < |log| && (log[k].ApprovalStored? || log[k].ApprovalLost?) && log[k].id == id
    ensures log[k].d == d
  {
    hide AllJustified, IsBound;
    At(env, log, k);
    var r :| 0 <= r < k && log[..k][r] == Returned(id, log[k].d);
    At(env, log, r);
    var a :| 0 <= a < r && log[..r][a] == DecisionAccepted(id, log[k].d);
    var b :| 0 <= b < |log| && log[b] == DecisionAccepted(id, d);
    if a < b {
      At(env, log, b);
    } else if b < a {
      At(env, log, a);
    }
  }

  /**
    An accepted decision is stored if and only if Wait did not take the cancellation and the call
    that stores it did not fail. Wait can take the cancellation only of a cancelled submission.
   */
  lemma AcceptedIsStored(env: Environment, labels: seq<Label>, id: string, d: Decision)
    requires id in Run(env, labels).entries && Run(env, labels).entries[id].stage == Over
    requires DecisionAccepted(id, d) in Run(env, labels).log
    ensures var log := Run(env, labels).log;
      && (ApprovalStored(id, d) in log <==> GaveUp(id) !in log && ApprovalLost(id, d) !in log)
      && (Returned(id, d) in log <==> GaveUp(id) !in log)
      && (GaveUp(id) in log ==> Run(env, labels).entries[id].cancelled)
  {
    hide Run, EntryInv, AllJustified, Unused, IsBound;
    var log := Run(env, labels).log;
    InvRun(env, labels);
    InvEntry(env, Run(env, labels), id);
    OverInv(env, id, Run(env, labels).entries[id], log);
    if WasStored(log, id) || WasLost(log, id) {
      var k :| 0 <= k < |log| && (log[k].ApprovalStored? || log[k].ApprovalLost?) && log[k].id == id;
      KeptWasAccepted(env, log, k, id, d);
      At(env, log, k);
    }
  }
}
