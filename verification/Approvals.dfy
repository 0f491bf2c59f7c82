/**
  The approval broker of internal/approval/approval.go. Each method is one atomic section: what
  Wait and Decide do under the lock, the send on a request's channel, and the receive from it. Any
  interleaving of agents, operators and cancellations is some sequence of these calls.
 */
module Approvals {
  import opened Ascii
  import opened Commands
  import opened SimilarPattern
  import opened Strings

  datatype Action = ApproveOnce | AllowTarget | DenyCommand | OtherAction

  datatype Decision = Decision(commandID: string, hash: string, action: Action, actor: string, rule: string)

  predicate IsBlank(s: string) {
    TrimSpace(s) == ""
  }

  datatype Reply = Accepted(decision: Decision) | NotPending | InvalidDecision | NoActor | PayloadChanged

  /** What a waiting command is known by. */
  datatype Asked = Asked(id: string, hash: string, payload: string)

  /** How Decide answers, given the request that waits under the decision's ID. */
  function Answer(Hash: string -> string, waiting: Option<Asked>, d: Decision): Reply {
    if waiting.None? then NotPending
    else if d.action == OtherAction then InvalidDecision
    else if IsBlank(d.actor) then NoActor
    else
      var w := waiting.value;
      if d.commandID != w.id || d.hash != w.hash || Hash(w.payload) != w.hash then PayloadChanged
      else Accepted(if d.action == AllowTarget && d.rule == "" then d.(rule := SimilarText(w.payload)) else d)
  }

  /** An accepted decision is for the very command and bytes it names, and has an actor. */
  lemma AcceptedIsBound(Hash: string -> string, waiting: Option<Asked>, d: Decision)
    ensures Answer(Hash, waiting, d).Accepted? <==>
      waiting.Some? && waiting.value.id == d.commandID && waiting.value.hash == d.hash
      && Hash(waiting.value.payload) == d.hash
      && d.action != OtherAction && !IsBlank(d.actor)
    ensures Answer(Hash, waiting, d).Accepted? ==>
      var e := Answer(Hash, waiting, d).decision;
      && e.(rule := d.rule) == d
      && (d.rule != "" || d.action != AllowTarget ==> e == d)
      && (d.action == AllowTarget && d.rule == "" ==> e.rule == SimilarText(waiting.value.payload) != "")
  {
    hide IsBlank, SimilarElements;
  }

  /** One call of Wait; channel is its decision channel of capacity one. */
  class Request {
    const command: Command
    var channel: Option<Decision>
    ghost var accepted: Option<Decision>  // by Decide
    ghost var returned: Option<Decision>  // by Wait

    constructor (command: Command)
      ensures this.command == command && channel == None && accepted == None && returned == None
    {
      this.command, channel, accepted, returned := command, None, None, None;
    }

    function Describe(): Asked {
      Asked(command.id, command.hash, command.payload)
    }

    /** A decision is sent at most once, and only an accepted one, and only for this command and hash. */
    ghost predicate Faithful()
      reads this
    {
      && (accepted.Some? ==> accepted.value.commandID == command.id && accepted.value.hash == command.hash)
      && (channel.Some? ==> channel == accepted && returned == None)
      && (returned.Some? ==> returned == accepted)
    }

    /** Accepted, and not sent yet. */
    ghost predicate InFlight()
      reads this
    {
      accepted.Some? && channel == None && returned == None
    }
  }

  class Broker {
    const Hash: string -> string
    var pending: map<string, Request>
    ghost var requests: set<Request>   // every request there has been
    ghost var unsent: set<Request>     // those whose decision has been accepted and not been sent

    ghost predicate Valid()
      reads this, requests
    {
      && (forall r | r in requests :: r.Faithful() && r.command.Hash == Hash)
      && (forall id | id in pending ::
            pending[id] in requests && pending[id].command.id == id && pending[id].accepted == None)
      && unsent <= requests
      && (forall r | r in requests :: r in unsent <==> r.InFlight())
    }

    constructor (Hash: string -> string)
      ensures Valid() && this.Hash == Hash && pending == map[] && requests == {} && unsent == {}
    {
      this.Hash, pending, requests, unsent := Hash, map[], {}, {};
    }

    /** The request is in the broker's map. */
    ghost predicate IsWaiting(r: Request)
      reads this
    {
      r.command.id in pending && pending[r.command.id] == r
    }

    /** No ID has been used twice. */
    ghost predicate OnePerID()
      reads this
    {
      forall a, b | a in requests && b in requests && a.command.id == b.command.id :: a == b
    }

    function WaitingUnder(id: string): Option<Asked>
      reads this
    {
      if id in pending then Some(pending[id].Describe()) else None
    }

    /** Wait, up to the select: the request is registered unless one waits under the same ID. */
    method Register(command: Command) returns (request: Request?)
      requires Valid() && command.Hash == Hash
      modifies this
      ensures Valid() && unsent == old(unsent)
      ensures (request == null) == (command.id in old(pending))
      ensures request == null ==> pending == old(pending) && requests == old(requests)
      ensures request != null ==>
        fresh(request) && request.command == command && request.channel == None && requests == old(requests) + {request}
      ensures request != null ==> pending == old(pending)[command.id := request] && request.accepted == None
      ensures old(OnePerID()) && (forall r | r in old(requests) :: r.command.id != command.id) ==> OnePerID()
    {
      if command.id in pending {
        return null;
      }
      var added := new Request(command);
      pending := pending[command.id := added];
      requests := requests + {added};
      request := added;
    }

    /** Decide, under the lock. */
    method Decide(d: Decision) returns (reply: Reply, request: Request?)
      requires Valid()
      modifies this, if d.commandID in pending then {pending[d.commandID]} else {}
      ensures Valid() && requests == old(requests)
      ensures reply == Answer(Hash, old(WaitingUnder(d.commandID)), d)
      ensures reply.Accepted? ==>
        && request != null && d.commandID in old(pending) && request == old(pending)[d.commandID]
        && pending == old(pending) - {d.commandID} && unsent == old(unsent) + {request}
        && old(request.accepted) == None && request.accepted == Some(reply.decision) && request.InFlight()
      ensures !reply.Accepted? ==> pending == old(pending) && unsent == old(unsent)
      ensures !reply.Accepted? && d.commandID in pending ==> unchanged(pending[d.commandID])
    {
      hide SimilarText, IsBlank;
      request := null;
      if d.commandID !in pending {
        return NotPending, null;
      }
      var found := pending[d.commandID];
      if d.action != ApproveOnce && d.action != AllowTarget && d.action != DenyCommand {
        return InvalidDecision, null;
      }
      if IsBlank(d.actor) {
        return NoActor, null;
      }
      if !found.command.VerifyApproval(d.commandID, d.hash) {
        return PayloadChanged, null;
      }
      var decision := d;
      if decision.action == AllowTarget && decision.rule == "" {
        decision := decision.(rule := SimilarText(found.command.payload));
      }
      pending := pending - {d.commandID};
      found.accepted := Some(decision);
      unsent := unsent + {found};
      return Accepted(decision), found;
    }

    /** The send after the lock is released: the channel is empty, so that it cannot block. */
    method Send(request: Request, decision: Decision)
      requires Valid() && request in unsent && request.accepted == Some(decision)
      modifies this`unsent, request`channel
      ensures old(request.channel) == None
      ensures Valid() && request.channel == Some(decision) && unsent == old(unsent) - {request}
    {
      request.channel := Some(decision);
      unsent := unsent - {request};
    }

    /** The select of Wait takes the decision. */
    method Receive(request: Request) returns (decision: Decision)
      requires Valid() && request in requests && request.channel.Some?
      modifies request`channel, request`returned
      ensures Valid() && old(request.channel) == Some(decision) && request.returned == Some(decision)
      ensures request.accepted == Some(decision)
      ensures decision.commandID == request.command.id && decision.hash == request.command.hash
    {
      decision := request.channel.value;
      request.channel, request.returned := None, Some(decision);
    }

    /**
      The select of Wait takes the cancellation: whatever waits under the ID is removed. That is
      another request if and only if another one waits under it, and then only if the ID was used
      twice.
     */
    method GiveUp(request: Request)
      requires Valid() && request in requests
      modifies this`pending
      ensures Valid() && pending == old(pending) - {request.command.id}
      ensures (exists other | other in requests && other != request :: old(IsWaiting(other)) && !IsWaiting(other))
        <==> request.command.id in old(pending) && old(pending)[request.command.id] != request
      ensures OnePerID() ==>
        forall other | other in requests && other != request :: IsWaiting(other) == old(IsWaiting(other))
    {
      if request.command.id in pending && pending[request.command.id] != request {
        assert IsWaiting(pending[request.command.id]);
      }
      pending := pending - {request.command.id};
    }
  }

  /**
    A request that nobody has decided and nobody has given up can be gone from the map: a request
    under the same ID, decided before, gives up after it was registered.
   */
  method GiveUpTakesAnother(broker: Broker, a: Command, b: Command, d: Decision) returns (lost: Request)
    requires broker.Valid() && a.id == b.id && a.id !in broker.pending && d.commandID == a.id
    requires a.Hash == b.Hash == broker.Hash
    requires Answer(broker.Hash, Some(Asked(a.id, a.hash, a.payload)), d).Accepted?
    modifies broker
    ensures broker.Valid() && fresh(lost) && lost in broker.requests && lost.command == b && lost.accepted == None
    ensures !broker.IsWaiting(lost) && broker.pending == old(broker.pending)
  {
    hide IsBlank, SimilarText, Answer, Broker.OnePerID, Broker.Valid, Request.Faithful, Request.InFlight;
    var first := broker.Register(a);
    var reply, decided := broker.Decide(d);
    var second := broker.Register(b);
    broker.GiveUp(first);
    lost := second;
  }
}
