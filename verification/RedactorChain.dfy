/**
  redactingWriter objects and the chains of them that redactedStream builds and closeRedactors
  closes (internal/backend/windmill/windmill.go).
 */
module RedactorChain {
  import opened Redaction
  import opened RedactingWriter
  import Safety = RedactionSafety

  /**
    Where the bytes go in the end. Once a write to it has failed, having stored at most a part of
    its bytes, every later write fails too.
   */
  class Destination {
    var received: string
    var broken: bool

    constructor ()
      ensures received == "" && !broken
    {
      received, broken := "", false;
    }

    method Accept(p: string) returns (ok: bool)
      modifies this
      ensures ok == !broken && (old(broken) ==> broken && received == old(received))
      ensures ok ==> received == old(received) + p
      ensures old(received) <= received <= old(received) + p
    {
      if broken {
        return false;
      }
      if * {
        received := received + p;
        return true;
      }
      var n :| 0 <= n <= |p|;
      received, broken := received + p[..n], true;
      ok := false;
    }
  }

  ghost predicate AllUnbordered(secrets: seq<string>) {
    forall i | 0 <= i < |secrets| :: Unbordered(secrets[i])
  }

  /**
    After what it had before, the destination has nothing but a part of the redaction of a stream
    that begins with s.
   */
  ghost predicate NothingElse(before: string, received: string, s: string, secrets: seq<string>) {
    AllUnbordered(secrets) ==> forall future :: received <= before + RedactMany(s + future, secrets)
  }

  /** After what it had before, the destination has nothing but a part of the redaction of s. */
  ghost predicate Delivered(before: string, received: string, s: string, secrets: seq<string>) {
    AllUnbordered(secrets) ==> received <= before + RedactMany(s, secrets)
  }

  /** emitted and pending are what a stream that begins with s has come to. */
  ghost predicate Tracks(secret: string, s: string, emitted: string, pending: string) {
    Unbordered(secret) ==> forall future :: Redact(s + future, secret) == emitted + Redact(pending + future, secret)
  }

  lemma TracksMore(secret: string, s: string, emitted: string, pending: string, p: string)
    requires Tracks(secret, s, emitted, pending)
    ensures Tracks(secret, s + p, emitted, pending + p)
  {
    hide Redact, Unbordered;
    if Unbordered(secret) {
      forall future
        ensures Redact(s + p + future, secret) == emitted + Redact(pending + p + future, secret)
      {
        Associate(s, p, future);
        Associate(pending, p, future);
      }
    }
  }

  lemma TracksFlush(secret: string, s: string, emitted: string, b: string)
    requires Tracks(secret, s, emitted, b)
    ensures var f := FlushPoint(b, secret); Tracks(secret, s, emitted + Redact(b[..f], secret), b[f..])
  {
    hide FlushPoint, Redact;
    if Unbordered(secret) {
      var f := FlushPoint(b, secret);
      forall future
        ensures Redact(s + future, secret) == emitted + Redact(b[..f], secret) + Redact(b[f..] + future, secret)
      {
        FlushRedacts(b, secret, future);
        Associate(emitted, Redact(b[..f], secret), Redact(b[f..] + future, secret));
      }
    }
  }

  lemma NothingElseMore(before: string, d: string, s: string, p: string, secrets: seq<string>)
    requires NothingElse(before, d, s, secrets)
    ensures NothingElse(before, d, s + p, secrets)
  {
    hide RedactMany, AllUnbordered;
    if AllUnbordered(secrets) {
      forall future
        ensures d <= before + RedactMany(s + p + future, secrets)
      {
        Associate(s, p, future);
      }
    }
  }

  /** What a writer has passed on, or tried to, is safe to deliver when it is the last one. */
  lemma NothingElseLast(before: string, d: string, secret: string, s: string, emitted: string, pending: string)
    requires Tracks(secret, s, emitted, pending) && d <= before + emitted
    ensures NothingElse(before, d, s, [secret])
  {
    hide Redact, Unbordered;
    RedactFirst("", secret, []);
    if Unbordered(secret) {
      forall future
        ensures d <= before + RedactMany(s + future, [secret])
      {
        RedactOne(s + future, secret);
        Associate(before, emitted, Redact(pending + future, secret));
      }
    }
  }

  lemma RedactOne(s: string, secret: string)
    ensures RedactMany(s, [secret]) == Redact(s, secret)
  {
  }

  lemma RedactFirst(s: string, secret: string, secrets: seq<string>)
    ensures RedactMany(s, [secret] + secrets) == RedactMany(Redact(s, secret), secrets)
    ensures AllUnbordered([secret] + secrets) <==> Unbordered(secret) && AllUnbordered(secrets)
  {
  }

  /** And when other writers follow, what they have delivered is safe for the whole chain. */
  lemma NothingElseUp(before: string, d: string, secret: string, s: string,
                      emitted: string, pending: string, secrets: seq<string>)
    requires Tracks(secret, s, emitted, pending) && NothingElse(before, d, emitted, secrets)
    ensures NothingElse(before, d, s, [secret] + secrets)
  {
  }

  lemma DeliveredSoFar(before: string, d: string, s: string, secrets: seq<string>)
    requires NothingElse(before, d, s, secrets)
    ensures Delivered(before, d, s, secrets)
  {
    hide RedactMany, AllUnbordered;
    assert s + "" == s;
  }

  /** A writer that has been given nothing. */
  lemma NothingTracked(secret: string)
    ensures Tracks(secret, "", "", "")
  {
    hide Redact, Unbordered;
    assert forall future :: "" + future == future;
    assert forall future :: "" + Redact(future, secret) == Redact(future, secret);
  }

  lemma NothingYet(before: string, secrets: seq<string>)
    ensures NothingElse(before, before, "", secrets)
  {
  }

  lemma TracksEnd(secret: string, s: string, emitted: string, pending: string)
    requires Tracks(secret, s, emitted, pending)
    ensures Unbordered(secret) ==> Redact(s, secret) == emitted + Redact(pending, secret)
  {
    hide Redact, Unbordered;
    assert s + "" == s && pending + "" == pending;
  }

  class Writer {
    const secret: string
    const next: Writer?
    const dst: Destination
    var pending: string

    ghost var received: string  // everything written to this writer
    ghost var emitted: string   // everything it has passed on
    ghost var closed: bool
    ghost const secrets: seq<string>  // of this writer and those after it
    ghost const before: string        // what the destination had when the chain was built
    ghost const height: nat
    ghost const Repr: set<object>

    ghost predicate Valid()
      reads this, Repr
      decreases height
    {
      && this in Repr && dst in Repr
      && (next != null ==>
            && next in Repr && next.Repr <= Repr && this !in next.Repr
            && next.height < height && next.dst == dst && next.before == before && next.Valid())
      && secrets == [secret] + (if next == null then [] else next.secrets)
      && before <= dst.received
      && (if !dst.broken then Healthy()
          else if closed then Delivered(before, dst.received, received, secrets)
          else NothingElse(before, dst.received, received, secrets))
    }

    ghost predicate Healthy()
      reads this, Repr
      requires dst in Repr && (next != null ==> next in Repr)
    {
      && (if next == null then dst.received == before + emitted else next.received == emitted)
      && (if closed then Unbordered(secret) ==> emitted == Redact(received, secret)
          else Tracks(secret, received, emitted, pending))
    }

    /** Neither this writer nor one after it has been closed. */
    ghost predicate Open()
      reads this, Repr
      requires Valid()
      decreases height
    {
      !closed && (next != null ==> next.Open())
    }

    constructor (next: Writer?, dst: Destination, secret: string)
      requires next != null ==> next.Valid() && next.Open() && next.dst == dst && next.received == ""
      ensures Valid() && Open() && this.next == next && this.dst == dst && this.secret == secret
      ensures received == "" && secrets == [secret] + (if next == null then [] else next.secrets)
      ensures before == if next == null then dst.received else next.before
      ensures fresh(Repr - (if next == null then {dst} else next.Repr))
    {
      hide Tracks, NothingElse, Delivered, Redact, RedactMany, AllUnbordered, Unbordered;
      this.next, this.dst, this.secret, pending := next, dst, secret, "";
      received, emitted, closed := "", "", false;
      secrets := [secret] + (if next == null then [] else next.secrets);
      before := if next == null then dst.received else next.before;
      height := if next == null then 0 else next.height + 1;
      Repr := {this} + (if next == null then {dst as object} else next.Repr);
      new;
      NothingTracked(secret);
      if next == null {
        NothingYet(dst.received, secrets);
      } else if dst.broken {
        NothingElseUp(before, dst.received, secret, "", "", "", next.secrets);
      }
    }

    /** Passes p on to the next writer, or to the destination. */
    method Pass(p: string) returns (ok: bool)
      requires Valid() && Open()
      modifies Repr - {this}
      ensures (if next == null then dst in Repr else next in Repr && next.Valid() && next.Open())
      ensures next != null ==> next.received == old(next.received) + p
      ensures next == null && !dst.broken ==> dst.received == old(dst.received) + p
      ensures next == null ==> old(dst.received) <= dst.received <= old(dst.received) + p
      ensures old(dst.broken) ==> dst.broken && dst.received == old(dst.received)
      ensures !ok ==> dst.broken
      decreases height, 0
    {
      if next == null {
        ok := dst.Accept(p);
      } else {
        ok := next.Write(p);
      }
    }

    /** Adds p to the pending bytes. */
    method Append(p: string)
      requires Valid() && Open()
      modifies this
      ensures Valid() && Open() && received == old(received) + p
      ensures pending == old(pending) + p && emitted == old(emitted)
    {
      hide Tracks, NothingElse, Redact;
      if dst.broken {
        NothingElseMore(before, dst.received, received, p, secrets);
      } else {
        TracksMore(secret, received, emitted, pending, p);
      }
      received := received + p;
      pending := pending + p;
    }

    /** Passes on what need not be kept back, and keeps it all if that fails. */
    method Flush() returns (ok: bool)
      requires Valid() && Open() && |pending| > Keep(secret)
      modifies Repr
      ensures Valid() && Open() && received == old(received)
      ensures old(dst.broken) ==> dst.broken && dst.received == old(dst.received)
      ensures if ok then Flushed(old(pending), old(emitted))
        else dst.broken && pending == old(pending) && emitted == old(emitted)
      decreases height, 1
    {
      hide Tracks, NothingElse, FlushPoint, Redact;
      if !dst.broken {
        TracksFlush(secret, received, emitted, pending);
      }
      ghost var wasBroken := dst.broken;
      var flushLen := Boundary(pending, secret);
      var chunk := Redact(pending[..flushLen], secret);
      ok := Pass(chunk);
      if !wasBroken && dst.broken {
        if next == null {
          assert secrets == [secret];
          NothingElseLast(before, dst.received, secret, received, emitted + chunk, pending[flushLen..]);
        } else {
          NothingElseUp(before, dst.received, secret, received, emitted + chunk, pending[flushLen..], next.secrets);
        }
      }
      if !ok {
        return;
      }
      emitted := emitted + chunk;
      pending := pending[flushLen..];
    }

    /** All of the buffer but what must be kept back has been passed on, redacted. */
    ghost predicate Flushed(buffer: string, before: string)
      reads this
    {
      var f := FlushPoint(buffer, secret);
      pending == buffer[f..] && emitted == before + Redact(buffer[..f], secret)
    }

    method Write(p: string) returns (ok: bool)
      requires Valid() && Open()
      modifies Repr
      ensures Valid() && Open() && received == old(received) + p
      ensures old(dst.broken) ==> dst.broken && dst.received == old(dst.received)
      ensures if ok then Flushed(old(pending) + p, old(emitted)) && |pending| <= Keep(secret)
        else dst.broken && pending == old(pending) + p && emitted == old(emitted)
      decreases height, 2
    {
      Append(p);
      var keep := if |secret| == 0 then 0 else |secret| - 1;
      if |pending| <= keep {
        return true;
      }
      ok := Flush();
    }

    /** Passes on the pending bytes; whatever comes of it, nothing stays pending. */
    method Close() returns (ok: bool)
      requires Valid() && Open()
      modifies Repr
      ensures Valid() && closed && received == old(received) && pending == ""
      ensures next != null ==> next.Valid() && next.Open()
      ensures old(dst.broken) ==> dst.broken && dst.received == old(dst.received)
      ensures !ok ==> dst.broken
    {
      hide Tracks, NothingElse, Redact, Delivered, RedactMany, Unbordered, AllUnbordered;
      ghost var last := Redact(pending, secret);
      if dst.broken {
        DeliveredSoFar(before, dst.received, received, secrets);
      } else {
        TracksEnd(secret, received, emitted, pending);
      }
      ghost var wasBroken := dst.broken;
      ok := true;
      if |pending| > 0 {
        ok := Pass(Redact(pending, secret));
      } else {
        RedactShort("", secret);
      }
      emitted := emitted + last;
      if !wasBroken && dst.broken {
        LastDelivered();
      }
      pending := "";
      closed := true;
    }

    /** What a failed last write has delivered is part of the redacted stream. */
    lemma LastDelivered()
      requires next != null ==> next.Valid() && next.Open() && next.dst == dst && next.before == before
      requires secrets == [secret] + (if next == null then [] else next.secrets)
      requires dst.broken && (if next == null then dst.received <= before + emitted else next.received == emitted)
      requires Unbordered(secret) ==> emitted == Redact(received, secret)
      ensures Delivered(before, dst.received, received, secrets)
    {
      hide Redact, NothingElse, RedactMany, Unbordered, AllUnbordered;
      if next == null {
        assert secrets == [secret];
        RedactOne(received, secret);
        RedactFirst(received, secret, []);
      } else {
        DeliveredSoFar(before, dst.received, next.received, next.secrets);
        RedactFirst(received, secret, next.secrets);
      }
    }
  }

  /** The loop that moves the flush boundary out of a possible match. */
  method Boundary(pending: string, secret: string) returns (flushLen: nat)
    requires |pending| > Keep(secret)
    ensures flushLen == FlushPoint(pending, secret)
  {
    var flush: int := |pending| - Keep(secret);
    if secret != "" {
      var start := flush - |secret| + 1;
      while start < flush
        invariant flush - |secret| < start && flush <= |pending|
        invariant Extend(pending, secret, start, flush) == FlushPoint(pending, secret)
        decreases |pending| - start
      {
        if start >= 0 && start + |secret| <= |pending| && pending[start..start + |secret|] == secret {
          flush := start + |secret|;
        }
        start := start + 1;
      }
    }
    flushLen := flush;
  }

  // ----- Chains -----------------------------------------------------------------------------------

  /** writers[0] writes to dst and every other one to the writer before it, in the source's build order. */
  ghost predicate IsChain(writers: seq<Writer>, dst: Destination) {
    forall i | 0 <= i < |writers| ::
      writers[i].dst == dst && writers[i].next == Last(writers[..i])
  }

  function Last(writers: seq<Writer>): Writer? {
    if writers == [] then null else writers[|writers| - 1]
  }

  lemma ChainEmpty(dst: Destination)
    ensures IsChain([], dst) && Last([]) == null
  {
  }

  lemma ChainGrows(writers: seq<Writer>, dst: Destination, writer: Writer)
    requires IsChain(writers, dst) && writer.dst == dst
    requires writer.next == Last(writers)
    ensures IsChain(writers + [writer], dst) && Last(writers + [writer]) == writer
  {
  }

  /** redactedStream: the last secret's writer is built first, so the first secret's writer is outermost. */
  method RedactedStream(dst: Destination, secrets: seq<string>) returns (current: Writer?, writers: seq<Writer>)
    ensures |writers| == |secrets| && IsChain(writers, dst)
    ensures current == Last(writers)
    ensures secrets != [] ==> current == writers[|writers| - 1]
    ensures secrets == [] ==> current == null
    ensures current != null ==>
      current.Valid() && current.Open() && current.dst == dst && current.before == dst.received
    ensures current != null ==> current.received == "" && current.secrets == secrets && fresh(current.Repr - {dst})
  {
    hide *;
    current, writers := null, [];
    ChainEmpty(dst);
    var index := |secrets| - 1;
    while index >= 0
      invariant -1 <= index < |secrets| && |writers| == |secrets| - 1 - index && IsChain(writers, dst)
      invariant current == (if writers == [] then null else writers[|writers| - 1])
      invariant current == Last(writers)
      invariant current != null ==>
        current.Valid() && current.Open() && current.dst == dst && current.before == dst.received
      invariant current != null ==>
        current.received == "" && current.secrets == secrets[index + 1..] && fresh(current.Repr - {dst})
    {
      var writer := new Writer(current, dst, secrets[index]);
      assert [secrets[index]] + secrets[index + 1..] == secrets[index..];
      assert current == null ==> secrets[index + 1..] == [];
      ChainGrows(writers, dst, writer);
      current := writer;
      writers := writers + [writer];
      index := index - 1;
    }
  }

  /**
    closeRedactors: from the outermost writer inwards. Unless the destination fails, it then holds
    exactly the redaction of everything that was written to the outermost writer.
   */
  method CloseRedactors(writers: seq<Writer>, dst: Destination)
    requires IsChain(writers, dst)
    requires writers != [] ==> writers[|writers| - 1].Valid() && writers[|writers| - 1].Open()
    modifies if writers == [] then {} else writers[|writers| - 1].Repr
    ensures old(dst.broken) ==> dst.broken
    ensures writers == [] ==> unchanged(dst)
    ensures writers != [] ==> writers[|writers| - 1].before <= dst.received
    ensures writers != [] ==>
      var outer := writers[|writers| - 1];
      var whole := outer.before + RedactMany(old(outer.received), outer.secrets);
      AllUnbordered(outer.secrets) ==> if dst.broken then dst.received <= whole else dst.received == whole
  {
    hide RedactMany, AllUnbordered, NothingElse, Unbordered, Tracks, Redact;
    if writers == [] {
      return;
    }
    ghost var outer := writers[|writers| - 1];
    ghost var total, all, before := outer.received, outer.secrets, outer.before;
    if dst.broken {
      DeliveredSoFar(before, dst.received, total, all);
    }
    var index := |writers| - 1;
    while index >= 0
      invariant -1 <= index < |writers|
      invariant index >= 0 ==> writers[index].Valid() && writers[index].Open() && writers[index].Repr <= outer.Repr
      invariant index >= 0 ==> writers[index].before == before
      invariant before <= dst.received
      invariant old(dst.broken) ==> dst.broken
      invariant AllUnbordered(all) ==>
        if dst.broken then Delivered(before, dst.received, total, all)
        else if index < 0 then dst.received == before + RedactMany(total, all)
        else
          && AllUnbordered(writers[index].secrets)
          && RedactMany(total, all) == RedactMany(writers[index].received, writers[index].secrets)
    {
      var w := writers[index];
      ghost var wasBroken := dst.broken;
      var _ := w.Close();
      CloseStep(w, total, all, wasBroken);
      assert w.next == Last(writers[..index]);
      index := index - 1;
    }
  }

  /** A write to what redactedStream gives: the outermost writer, or the destination where there are no secrets. */
  method Put(current: Writer?, dst: Destination, p: string) returns (ok: bool)
    requires current != null ==> current.Valid() && current.Open() && current.dst == dst
    modifies if current == null then {dst} else current.Repr
    ensures current != null ==> current.Valid() && current.Open() && current.received == old(current.received) + p
    ensures old(dst.broken) ==> dst.broken && dst.received == old(dst.received)
    ensures current == null ==> old(dst.received) <= dst.received
    ensures current == null ==>
      dst.received <= old(dst.received) + p && (!dst.broken ==> dst.received == old(dst.received) + p)
    ensures !ok ==> dst.broken
  {
    if current == null {
      ok := dst.Accept(p);
    } else {
      ok := current.Write(p);
    }
  }

  /**
    One command's output: the chunks are copied until a write fails, and the writers are closed.
    After what it had before, the destination has the redaction of the whole stream, or a prefix of
    it if it failed.
   */
  method StreamRedacted(dst: Destination, chunks: seq<string>, secrets: seq<string>) returns (ghost sent: string)
    modifies dst
    ensures sent <= Join(chunks) && (!dst.broken ==> sent == Join(chunks))
    ensures AllUnbordered(secrets) && !dst.broken ==>
      dst.received == old(dst.received) + RedactMany(Join(chunks), secrets)
    ensures AllUnbordered(secrets) ==> dst.received <= old(dst.received) + RedactMany(sent, secrets)
    ensures AllUnbordered(secrets) ==>
      && old(dst.received) <= dst.received
      && forall k | k in secrets && k != "" && !Safety.MeetsMask(k) ::
           !Safety.Occurs(dst.received[|old(dst.received)|..], k)
  {
    hide *;
    ghost var before := dst.received;
    var current, writers := RedactedStream(dst, secrets);
    NoSecrets("");

    var i := 0;
    var ok := true;
    sent := "";
    JoinPrefix(chunks, 0);
    while i < |chunks| && ok
      invariant 0 <= i <= |chunks| && sent == Join(chunks[..i]) <= Join(chunks)
      invariant current != null ==>
        current.Valid() && current.Open() && fresh(current.Repr - {dst}) && current.received == sent
      invariant current == null ==> before <= dst.received
      invariant current == null ==> dst.received <= before + sent && (!dst.broken ==> dst.received == before + sent)
      invariant !ok ==> dst.broken
    {
      Longer(dst.received, before + sent, chunks[i]);
      ok := Put(current, dst, chunks[i]);
      JoinPrefix(chunks, i + 1);
      Associate(before, sent, chunks[i]);
      i := i + 1;
      sent := Join(chunks[..i]);
    }
    assert chunks[..|chunks|] == chunks;
    CloseRedactors(writers, dst);
    if secrets == [] {
      NoSecrets(sent);
    }
    if AllUnbordered(secrets) {
      NothingShown(before, dst.received, sent, secrets);
    }
  }

  /** In a part of the redacted stream no secret occurs that does not meet the mask. */
  lemma NothingShown(before: string, received: string, sent: string, secrets: seq<string>)
    requires before <= received <= before + RedactMany(sent, secrets)
    ensures forall k | k in secrets && k != "" && !Safety.MeetsMask(k) :: !Safety.Occurs(received[|before|..], k)
  {
    hide RedactMany, OccursAt, Safety.MeetsMask;
    var shown, whole := received[|before|..], RedactMany(sent, secrets);
    assert (before + whole)[|before|..] == whole;
    var more := whole[|shown|..];
    assert shown + more == whole;
    forall k | k in secrets && k != "" && !Safety.MeetsMask(k)
      ensures !Safety.Occurs(shown, k)
    {
      Safety.RedactManyHides(sent, secrets, k);
      if i :| OccursAt(shown, k, i) {
        OccursWithin(shown, k, i);
        OccursEarlier(shown, more, k, i);
        assert false;
      }
    }
  }

  lemma Longer(d: string, s: string, p: string)
    ensures d <= s ==> d <= s + p
  {
  }

  lemma NoSecrets(s: string)
    ensures RedactMany(s, []) == s
  {
  }

  lemma {:induction false} JoinPrefix(chunks: seq<string>, n: nat)
    requires n <= |chunks|
    ensures Join(chunks[..n]) <= Join(chunks)
    ensures n == 0 ==> Join(chunks[..n]) == ""
    ensures n > 0 ==> Join(chunks[..n]) == Join(chunks[..n - 1]) + chunks[n - 1]
  {
    if n == 1 {
      assert chunks[..1][1..] == [] && chunks[..0] == [];
      assert chunks[..1][0] == chunks[0];
    } else if n > 1 {
      JoinPrefix(chunks[1..], n - 1);
      assert chunks[1..][..n - 1] == chunks[..n][1..];
      assert chunks[1..][..n - 2] == chunks[..n - 1][1..];
      Associate(chunks[0], Join(chunks[..n - 1][1..]), chunks[n - 1]);
    }
  }

  /** One closed writer carries the chain's result on to the next one. */
  lemma CloseStep(w: Writer, total: string, all: seq<string>, wasBroken: bool)
    requires w.Valid() && w.closed
    requires AllUnbordered(all) && !wasBroken ==>
      AllUnbordered(w.secrets) && RedactMany(total, all) == RedactMany(w.received, w.secrets)
    ensures AllUnbordered(all) && !wasBroken ==>
      if w.dst.broken then Delivered(w.before, w.dst.received, total, all)
      else if w.next == null then w.dst.received == w.before + RedactMany(total, all)
      else AllUnbordered(w.next.secrets) && RedactMany(total, all) == RedactMany(w.next.received, w.next.secrets)
  {
  }
}
