/** Commands and their lifecycle (internal/command/command.go). */
module Commands {
  import opened Ascii

  datatype State = Queued | Waiting | Running | Succeeded | Failed | Denied | Cancelled

  predicate AllowedTransition(current: State, next: State) {
    match current
    case Queued => next == Waiting || next == Running || next == Denied || next == Cancelled
    case Waiting => next == Running || next == Denied || next == Cancelled
    case Running => next == Succeeded || next == Failed || next == Cancelled
    case _ => false
  }

  predicate IsTerminal(s: State) {
    s == Succeeded || s == Failed || s == Denied || s == Cancelled
  }

  /** The states a command goes through, from Queued on. */
  ghost predicate IsLife(states: seq<State>) {
    states != [] && states[0] == Queued && forall i | 0 < i < |states| :: AllowedTransition(states[i - 1], states[i])
  }

  function Rank(s: State): nat {
    match s
    case Queued => 0
    case Waiting => 1
    case Running => 2
    case _ => 3
  }

  lemma {:induction false} RankRises(states: seq<State>, i: nat, j: nat)
    requires IsLife(states) && i < j < |states|
    ensures Rank(states[i]) + (j - i) <= Rank(states[j])
    decreases j
  {
    assert AllowedTransition(states[j - 1], states[j]);
    if i < j - 1 {
      RankRises(states, i, j - 1);
    }
  }

  /** A life has at most four states, none of them twice, and only the last can be terminal. */
  lemma LifeIsShort(states: seq<State>)
    requires IsLife(states)
    ensures |states| <= 4
    ensures forall i, j | 0 <= i < j < |states| :: states[i] != states[j] && !IsTerminal(states[i])
  {
    if |states| > 1 {
      RankRises(states, 0, |states| - 1);
    }
    forall i, j | 0 <= i < j < |states|
      ensures states[i] != states[j] && !IsTerminal(states[i])
    {
      RankRises(states, i, j);
    }
  }

  class Command {
    const id: string
    const target: string
    const payload: string
    const hash: string
    const Hash: string -> string
    var state: State
    var started: bool
    var finished: bool
    var exitCode: Option<int>
    ghost var life: seq<State>

    ghost predicate Valid()
      reads this
    {
      && hash == Hash(payload) && payload != ""
      && IsLife(life) && state == life[|life| - 1]
      && (started <==> Running in life)
      && (finished <==> IsTerminal(state))
    }

    constructor (id: string, target: string, payload: string, Hash: string -> string)
      requires payload != ""
      ensures Valid() && life == [Queued] && exitCode == None
      ensures this.id == id && this.target == target && this.payload == payload && this.Hash == Hash
    {
      this.id, this.target, this.payload, this.Hash := id, target, payload, Hash;
      hash := Hash(payload);
      state, started, finished, exitCode, life := Queued, false, false, None, [Queued];
    }

    /** Whether a decision is for this command and these bytes. */
    predicate VerifyApproval(commandID: string, approvedHash: string) {
      commandID == id && approvedHash == hash && Hash(payload) == hash
    }

    method Transition(next: State, code: Option<int>) returns (ok: bool)
      requires Valid()
      modifies this
      ensures Valid() && ok == AllowedTransition(old(state), next)
      ensures ok <==>
        || (old(state) == Queued && next in {Waiting, Running, Denied, Cancelled})
        || (old(state) == Waiting && next in {Running, Denied, Cancelled})
        || (old(state) == Running && next in {Succeeded, Failed, Cancelled})
      ensures ok ==> life == old(life) + [next] && exitCode == (if code.Some? then code else old(exitCode))
      ensures !ok ==> unchanged(this)
    {
      if !AllowedTransition(state, next) {
        return false;
      }
      if next == Running {
        started := true;
      }
      if next == Succeeded || next == Failed || next == Denied || next == Cancelled {
        finished := true;
      }
      if code.Some? {
        exitCode := code;
      }
      state := next;
      life := life + [next];
      ok := true;
    }
  }
}
