/**
  auditWriter of internal/gate/service.go over the store: output is recorded first, and what was
  recorded is relayed. Between any two calls other streams and commands may run.
 */
module AuditWriting {
  import opened AuditOutput

  const Marker := "\n[gate: output truncated]\n"

  /** The bytes of one stream. */
  function On(bytes: seq<Byte>, stream: string): string {
    if bytes == [] then ""
    else
      var last := bytes[|bytes| - 1];
      On(bytes[..|bytes| - 1], stream) + (if last.stream == stream then [last.c] else "")
  }

  lemma {:induction false} OnJoins(a: seq<Byte>, b: seq<Byte>, stream: string)
    ensures On(a + b, stream) == On(a, stream) + On(b, stream)
    decreases |b|
  {
    if b == [] {
      assert a + b == a;
    } else {
      var n := |b| - 1;
      OnJoins(a, b[..n], stream);
      assert (a + b)[..|a + b| - 1] == a + b[..n] && (a + b)[|a + b| - 1] == b[n];
    }
  }

  lemma {:induction false} OnTagged(stream: string, data: string, other: string)
    ensures On(Tagged(stream, data), other) == if stream == other then data else ""
    decreases |data|
  {
    if data != "" {
      var n := |data| - 1;
      OnTagged(stream, data[..n], other);
      assert Tagged(stream, data)[..n] == Tagged(stream, data[..n]);
      assert data == data[..n] + [data[n]];
    }
  }

  /** The stored bytes of a stream are those of its bytes that are stored. */
  lemma {:induction false} StoredOnIs(rows: seq<Row>, stream: string)
    ensures StoredOn(rows, stream) == On(Stored(rows), stream)
    decreases |rows|
  {
    if rows != [] {
      var last := rows[|rows| - 1];
      StoredOnIs(rows[..|rows| - 1], stream);
      OnJoins(Stored(rows[..|rows| - 1]), Tagged(last.stream, last.data), stream);
      OnTagged(last.stream, last.data, stream);
    }
  }

  lemma FullStays(rows: seq<Row>, stream: string, data: string, limit: nat)
    ensures Full(rows, limit) ==> Full(Appended(rows, stream, data, limit), limit)
  {
  }

  /** What one append does to the stored bytes of a stream. */
  lemma AppendedOn(rows: seq<Row>, stream: string, data: string, limit: nat, other: string)
    ensures StoredOn(Appended(rows, stream, data, limit), other)
      == StoredOn(rows, other) + (if stream == other then Fitting(rows, data, limit) else "")
    ensures Drops(rows, data, limit) ==> Full(Appended(rows, stream, data, limit), limit)
  {
  }

  /** What one append does to the bytes of each stream. */
  lemma OneAppend(rows: seq<Row>, arrived: seq<Byte>, stream: string, data: string, limit: nat, other: string)
    ensures Full(rows, limit) || Drops(rows, data, limit) ==> Full(Appended(rows, stream, data, limit), limit)
    ensures StoredOn(Appended(rows, stream, data, limit), other) ==
      if other == stream then StoredOn(rows, stream) + Fitting(rows, data, limit) else StoredOn(rows, other)
    ensures On(arrived + Tagged(stream, data), other) ==
      if other == stream then On(arrived, stream) + data else On(arrived, other)
  {
    hide Full, Drops, Fitting, Appended, Tagged, On, StoredOn;
    FullStays(rows, stream, data, limit);
    AppendedOn(rows, stream, data, limit, other);
    OnJoins(arrived, Tagged(stream, data), other);
    OnTagged(stream, data, other);
    assert StoredOn(rows, other) + "" == StoredOn(rows, other) && On(arrived, other) + "" == On(arrived, other);
  }

  class Store {
    var output: map<string, seq<Row>>        // the rows of each command
    ghost var arrived: map<string, seq<Byte>>  // what has been offered for each command, in order

    ghost predicate Valid()
      reads this
    {
      forall id :: IsOrderly(Rows(id))
    }

    /** So far the rows of a command hold what this limit admits. */
    ghost predicate Keeps(id: string, limit: nat)
      reads this
    {
      RowsInv(Rows(id), Arrived(id), limit)
    }

    function Rows(id: string): seq<Row>
      reads this
    {
      if id in output then output[id] else []
    }

    ghost function Arrived(id: string): seq<Byte>
      reads this
    {
      if id in arrived then arrived[id] else []
    }

    constructor ()
      ensures Valid() && forall id :: Rows(id) == [] && Arrived(id) == []
    {
      output, arrived := map[], map[];
    }

    /** The transaction either commits as a whole or fails as a whole. */
    method AppendOutput(id: string, stream: string, data: string, limit: int)
      returns (stored: string, truncated: bool, ok: bool)
      requires Valid()
      modifies this
      ensures Valid()
      ensures ok ==> IsStream(stream) && limit > 0
      ensures !ok ==> unchanged(this)
      ensures ok ==>
        && Rows(id) == Appended(old(Rows(id)), stream, data, limit)
        && Arrived(id) == old(Arrived(id)) + Tagged(stream, data)
        && stored == Fitting(old(Rows(id)), data, limit) && truncated == Drops(old(Rows(id)), data, limit)
      ensures limit > 0 && old(Keeps(id, limit)) ==> Keeps(id, limit)
      ensures forall other | other != id :: Rows(other) == old(Rows(other)) && Arrived(other) == old(Arrived(other))
    {
      hide IsOrderly, RowsInv, Stored, Flagged;
      stored, truncated, ok := "", false, false;
      if !IsStream(stream) || limit <= 0 {
        return;
      }
      if * {
        return;  // the transaction cannot begin, or one of its statements fails
      }
      var used, alreadyTruncated := Measure(Rows(id));
      AppendedOrderly(Rows(id), stream, data, limit);
      if Keeps(id, limit) {
        AppendedKeeps(Rows(id), Arrived(id), stream, data, limit);
      }
      if alreadyTruncated || used >= limit {
        truncated := true;
        assert Appended(Rows(id), stream, data, limit) == Rows(id);
        if * {
          return;  // the commit fails
        }
        arrived := arrived[id := Arrived(id) + Tagged(stream, data)];
        ok := true;
        assert forall other | other != id :: Rows(other) == old(Rows(other)) && Arrived(other) == old(Arrived(other));
        return;
      }
      var remaining := limit - used;
      var kept := data;
      var cut := |data| > remaining;
      if cut {
        kept := data[..remaining];
      }
      var sequence := NextSequence(Rows(id));
      if * {
        return;  // the insertion or the commit fails
      }
      arrived := arrived[id := Arrived(id) + Tagged(stream, data)];
      output := output[id := Rows(id) + [Row(stream, sequence, kept, cut)]];
      stored, truncated, ok := kept, cut, true;
      assert forall other | other != id :: Rows(other) == old(Rows(other)) && Arrived(other) == old(Arrived(other));
    }

    /** SUM(length(data)) and MAX(truncated) */
    static method Measure(rows: seq<Row>) returns (used: nat, flagged: bool)
      ensures used == |Stored(rows)| && flagged == Flagged(rows)
    {
      used, flagged := 0, false;
      assert rows[..|rows|] == rows;
      for i := 0 to |rows|
        invariant used == |Stored(rows[..i])|
        invariant flagged <==> exists k | 0 <= k < i :: rows[k].truncated
      {
        assert rows[..i + 1][..i] == rows[..i];
        used := used + |rows[i].data|;
        flagged := flagged || rows[i].truncated;
      }
    }

    /** COALESCE(MAX(sequence), -1) + 1 */
    static method NextSequence(rows: seq<Row>) returns (next: nat)
      requires IsOrderly(rows)
      ensures next == |rows|
    {
      next := 0;
      for i := 0 to |rows|
        invariant next == i
      {
        if rows[i].sequence + 1 > next {
          next := rows[i].sequence + 1;
        }
      }
    }

    /** The first bytes of both streams, as an operator sees them. */
    method OutputPreview(id: string, limit: int) returns (stdout: string, stderr: string)
      requires Valid()
      ensures var n := if limit <= 0 || limit > 65536 then 4096 else limit;
        && stdout <= StoredOn(Rows(id), "stdout") && |stdout| == Min(n, |StoredOn(Rows(id), "stdout")|)
        && stderr <= StoredOn(Rows(id), "stderr") && |stderr| == Min(n, |StoredOn(Rows(id), "stderr")|)
    {
      hide StoredOn;
      var n := PreviewLimit(limit);
      var rows := Rows(id);
      stdout, stderr := "", "";
      NothingOn(rows[..0]);
      assert IsOrderly(rows);
      for i := 0 to |rows|
        invariant stdout == Prefix(StoredOn(rows[..i], STDOUT), n)
        invariant stderr == Prefix(StoredOn(rows[..i], STDERR), n)
      {
        assert rows[..i + 1] == rows[..i] + [rows[i]];
        StoredMore(rows[..i], rows[i]);
        var row := rows[i];
        assert IsStream(row.stream);
        if row.stream == STDERR {
          stderr := Filled(stderr, row.data, n, StoredOn(rows[..i], STDERR));
        } else {
          stdout := Filled(stdout, row.data, n, StoredOn(rows[..i], STDOUT));
        }
      }
      assert rows[..|rows|] == rows;
    }

    static method Filled(buffer: string, data: string, limit: nat, ghost all: string) returns (r: string)
      requires buffer == Prefix(all, limit)
      ensures r == Prefix(all + data, limit)
    {
      var remaining := limit - |buffer|;
      if remaining <= 0 {
        return buffer;
      }
      r := buffer + (if |data| > remaining then data[..remaining] else data);
    }
  }

  lemma NothingOn(rows: seq<Row>)
    requires rows == []
    ensures forall stream :: StoredOn(rows, stream) == ""
  {
  }

  function PreviewLimit(limit: int): nat {
    if limit <= 0 || limit > 64 * 1024 then 4096 else limit
  }

  function Prefix(s: string, n: nat): (r: string)
    ensures r <= s && |r| == Min(n, |s|)
  {
    if |s| > n then s[..n] else s
  }

  /** The agent's event sink: an output event may fail, with or without some of it having got through. */
  class Sink {
    var stdout: string
    var stderr: string

    function Got(stream: string): string
      reads this
    {
      if stream == STDERR then stderr else stdout
    }

    method Output(stream: string, data: string) returns (ok: bool)
      requires IsStream(stream)
      modifies this
      ensures ok ==> Got(stream) == old(Got(stream)) + data
      ensures !ok ==> Got(stream) <= old(Got(stream)) + data
      ensures old(Got(stream)) <= Got(stream)
      ensures forall other | IsStream(other) && other != stream :: Got(other) == old(Got(other))
    {
      var n :| 0 <= n <= |data|;
      ok := *;
      ok := ok && n == |data|;
      if stream == STDERR {
        stderr := stderr + data[..n];
      } else {
        stdout := stdout + data[..n];
      }
    }
  }

  /** What is done for other streams and commands leaves a stream and its sink alone. */
  twostate predicate Undisturbed(store: Store, sink: Sink, id: string, stream: string, limit: nat)
    reads store, sink
  {
    && (old(store.Valid()) ==> store.Valid())
    && (old(store.Keeps(id, limit)) ==> store.Keeps(id, limit))
    && StoredOn(store.Rows(id), stream) == old(StoredOn(store.Rows(id), stream))
    && On(store.Arrived(id), stream) == old(On(store.Arrived(id), stream))
    && (old(Full(store.Rows(id), limit)) ==> Full(store.Rows(id), limit))
    && sink.Got(stream) == old(sink.Got(stream))
  }

  /** An append for another stream or another command. */
  method AppendElsewhere(store: Store, sink: Sink, id: string, stream: string, limit: nat,
                         otherId: string, otherStream: string, data: string, otherLimit: int)
    requires store.Valid() && limit > 0
    requires otherId != id || (otherStream != stream && otherLimit == limit)
    modifies store
    ensures store.Valid() && Undisturbed(store, sink, id, stream, limit)
  {
    hide RowsInv, IsOrderly, Stored, StoredOn, On, Full, Appended;
    OneAppend(store.Rows(id), store.Arrived(id), otherStream, data, limit, stream);
    var _, _, _ := store.AppendOutput(otherId, otherStream, data, otherLimit);
  }

  /** The pieces make up the data, and all but the last have this size. */
  predicate IsCut(pieces: seq<string>, data: string, size: nat) {
    && Concat(pieces) == data
    && (forall i | 0 <= i < |pieces| :: 0 < |pieces[i]| <= size && (i + 1 < |pieces| ==> |pieces[i]| == size))
  }

  lemma NothingCut(pieces: seq<string>)
    ensures forall size :: IsCut(pieces[|pieces|..], "", size)
  {
  }

  /** A piece after others that all have the full size. */
  lemma CutMore(pieces: seq<string>, data: string, more: string, size: nat)
    requires IsCut(pieces, data, size) && 0 < |more| <= size
    requires forall i | 0 <= i < |pieces| :: |pieces[i]| == size
    ensures IsCut(pieces + [more], data + more, size)
  {
    assert (pieces + [more])[..|pieces|] == pieces;
  }

  /** Relays one stream of one command. */
  class Writer {
    const store: Store
    const sink: Sink
    const id: string
    const stream: string
    const limit: int
    var failed: bool
    var markerDelivered: bool
    ghost var offered: string      // what the store has been offered
    ghost var pieces: seq<string>  // the same, as it was recorded piece by piece

    ghost predicate Valid()
      reads this, store, sink
    {
      && store.Valid() && IsStream(stream) && limit > 0 && store.Keeps(id, limit)
      && On(store.Arrived(id), stream) == offered
      && (markerDelivered ==> Full(store.Rows(id), limit))
      && (if failed then sink.Got(stream) <= Recorded() + Marker
          else sink.Got(stream) == Recorded() + (if markerDelivered then Marker else "") && Honest(markerDelivered))
    }

    /** Output of the stream has been dropped exactly when it is said to have been. */
    ghost predicate Honest(told: bool)
      reads this, store
    {
      if told then |Recorded()| < |offered| else Recorded() == offered
    }

    /** The bytes of the stream that are stored. */
    ghost function Recorded(): string
      reads this, store
    {
      StoredOn(store.Rows(id), stream)
    }

    constructor (store: Store, sink: Sink, id: string, stream: string, limit: int)
      requires store.Valid() && IsStream(stream) && limit > 0 && store.Keeps(id, limit)
      requires On(store.Arrived(id), stream) == "" && StoredOn(store.Rows(id), stream) == "" && sink.Got(stream) == ""
      ensures Valid() && offered == "" && pieces == [] && !failed && this.store == store && this.sink == sink
      ensures this.id == id && this.stream == stream && this.limit == limit
    {
      this.store, this.sink, this.id, this.stream, this.limit := store, sink, id, stream, limit;
      failed, markerDelivered, offered, pieces := false, false, "", [];
    }

    /** Between the record and the relay: what the sink still lacks of the stream. */
    ghost predicate Behind(lacking: string, truncated: bool)
      reads this, store, sink
    {
      && store.Valid() && IsStream(stream) && limit > 0 && store.Keeps(id, limit) && !failed
      && On(store.Arrived(id), stream) == offered
      && (markerDelivered ==> Full(store.Rows(id), limit) && lacking == "")
      && sink.Got(stream) + lacking == Recorded() + (if markerDelivered then Marker else "")
      && Honest(markerDelivered || truncated)
      && (truncated ==> Full(store.Rows(id), limit))
    }

    /** What does not disturb the stream leaves its writer where it is. */
    twostate lemma Stays()
      requires limit > 0 && Undisturbed(store, sink, id, stream, limit) && unchanged(this)
      ensures old(Valid()) ==> Valid()
      ensures forall lacking, truncated :: old(Behind(lacking, truncated)) ==> Behind(lacking, truncated)
    {
      hide Store.Valid, Store.Keeps, StoredOn, On, Full, IsStream;
    }

    /** Whatever other streams and commands do in between. */
    method Others()
      requires store.Valid() && limit > 0 && IsStream(stream)
      modifies store, sink
      ensures store.Valid() && Undisturbed(store, sink, id, stream, limit)
    {
      hide RowsInv, IsOrderly, StoredOn, On, Full;
      var steps :| 0 <= steps;
      for i := 0 to steps
        invariant store.Valid() && Undisturbed(store, sink, id, stream, limit)
      {
        var otherId: string := *;
        var otherStream: string := *;
        var data: string := *;
        var otherLimit: int := *;
        if IsStream(otherStream) && otherStream != stream {
          if * {
            var _ := sink.Output(otherStream, data);
          }
        }
        if otherId != id {
          AppendElsewhere(store, sink, id, stream, limit, otherId, otherStream, data, otherLimit);
        } else if otherStream != stream {
          AppendElsewhere(store, sink, id, stream, limit, id, otherStream, data, limit);
        }
      }
    }

    method Record(chunk: string) returns (stored: string, truncated: bool, ok: bool)
      requires Valid() && !failed && chunk != ""
      modifies this, store
      ensures ok ==> Behind(stored, truncated) && !failed && offered == old(offered) + chunk
      ensures ok ==> pieces == old(pieces) + [chunk]
      ensures !ok ==> Valid() && failed && offered == old(offered)
      ensures forall other | IsStream(other) && other != stream :: Undisturbed(store, sink, id, other, limit)
    {
      hide Marker, IsOrderly, RowsInv, Stored, StoredOn, On, Full, Appended, Drops, Fitting, IsStream;
      ghost var rows := store.Rows(id);
      Fits(rows, chunk, limit);
      OneAppend(rows, store.Arrived(id), stream, chunk, limit, stream);
      forall other | other != stream
        ensures StoredOn(Appended(rows, stream, chunk, limit), other) == StoredOn(rows, other)
        ensures On(store.Arrived(id) + Tagged(stream, chunk), other) == On(store.Arrived(id), other)
      {
        OneAppend(rows, store.Arrived(id), stream, chunk, limit, other);
      }
      stored, truncated, ok := store.AppendOutput(id, stream, chunk, limit);
      if !ok {
        failed := true;
        return;
      }
      offered, pieces := offered + chunk, pieces + [chunk];
    }

    method Pass(stored: string, truncated: bool) returns (ok: bool)
      requires Behind(stored, truncated)
      modifies this, sink
      ensures offered == old(offered) && pieces == old(pieces) && failed == !ok
      ensures if ok then Behind("", truncated) else Valid()
      ensures forall other | IsStream(other) && other != stream :: Undisturbed(store, sink, id, other, limit)
    {
      hide Marker, Store.Valid, Store.Keeps, StoredOn, On, Full, IsStream;
      ok := true;
      if |stored| > 0 {
        ok := sink.Output(stream, stored);
        if !ok {
          failed := true;
        }
      }
    }

    method Tell(truncated: bool) returns (ok: bool)
      requires Behind("", truncated)
      modifies this, sink
      ensures Valid() && offered == old(offered) && pieces == old(pieces) && failed == !ok
      ensures forall other | IsStream(other) && other != stream :: Undisturbed(store, sink, id, other, limit)
    {
      hide Marker, Store.Valid, Store.Keeps, StoredOn, On, Full, IsStream;
      Trim(sink.Got(stream));
      Trim(Recorded());
      ok := true;
      if truncated && !markerDelivered {
        markerDelivered := true;
        ok := sink.Output(stream, Marker);
        if !ok {
          failed := true;
        }
      }
    }

    lemma Trim(s: string)
      ensures s + "" == s
    {
    }

    lemma Fits(rows: seq<Row>, chunk: string, bound: nat)
      ensures Full(rows, bound) ==> Fitting(rows, chunk, bound) == ""
      ensures if Drops(rows, chunk, bound) && chunk != "" then |Fitting(rows, chunk, bound)| < |chunk|
        else Fitting(rows, chunk, bound) == chunk
    {
    }

    /**
      Records one chunk, relays what was recorded of it, and tells once that output was dropped, while
      others take turns.
     */
    method Relay(chunk: string) returns (ok: bool)
      requires Valid() && !failed && chunk != ""
      modifies this, store, sink
      ensures Valid()
      ensures ok ==> !failed && offered == old(offered) + chunk && pieces == old(pieces) + [chunk]
      ensures !ok ==> failed && (offered == old(offered) || offered == old(offered) + chunk)
    {
      hide *;
      ReadyIs();
      Others();
      Stays();
      var stored, truncated;
      stored, truncated, ok := Record(chunk);
      if !ok {
        return;
      }
      BehindIs(stored, truncated);
      label Recorded:
      Others();
      Stays@Recorded();
      ok := Pass(stored, truncated);
      if !ok {
        return;
      }
      BehindIs("", truncated);
      label Passed:
      Others();
      Stays@Passed();
      ok := Tell(truncated);
    }

    lemma ReadyIs()
      requires Valid()
      ensures store.Valid() && IsStream(stream) && limit > 0
    {
    }

    lemma BehindIs(lacking: string, truncated: bool)
      requires Behind(lacking, truncated)
      ensures store.Valid() && IsStream(stream) && limit > 0 && !failed
    {
    }

    method Write(data: string) returns (n: nat, ok: bool)
      requires Valid()
      modifies this, store, sink
      ensures Valid()
      ensures old(failed) ==> !ok && failed && offered == old(offered)
      ensures ok ==> n == |data| && !failed && offered == old(offered) + data
      ensures ok ==> old(pieces) <= pieces && IsCut(pieces[|old(pieces)|..], data, 32768)
      ensures !ok ==> n == 0 && failed && offered <= old(offered) + data
    {
      hide *;
      if failed {
        return 0, false;
      }
      var chunkSize := 32 * 1024;
      var offset := 0;
      NothingCut(pieces);
      while offset < |data|
        invariant Valid() && !failed && offset >= 0
        invariant old(pieces) <= pieces
        invariant var n := if offset < |data| then offset else |data|;
          IsCut(pieces[|old(pieces)|..], data[..n], chunkSize)
        invariant offset < |data| ==> forall i | |old(pieces)| <= i < |pieces| :: |pieces[i]| == chunkSize
        invariant offered == old(offered) + data[..if offset < |data| then offset else |data|]
      {
        var end := offset + chunkSize;
        if end > |data| {
          end := |data|;
        }
        ok := Relay(data[offset..end]);
        if !ok {
          return 0, false;
        }
        Joined(data, offset, end);
        ghost var before := pieces[..|pieces| - 1][|old(pieces)|..];
        CutMore(before, data[..offset], data[offset..end], chunkSize);
        assert pieces[|old(pieces)|..] == before + [data[offset..end]];
        offset := offset + chunkSize;
      }
      assert data[..|data|] == data;
      return |data|, true;
    }

    lemma Joined(data: string, offset: nat, end: nat)
      requires offset <= end <= |data|
      ensures data[..offset] + data[offset..end] == data[..end]
    {
    }

    /**
      However streams and commands take turns: the agent gets the bytes of this stream that are among
      the first that the limit admits of all the command's output, in the order of arrival, and the
      marker after them exactly when some of the stream was dropped.
     */
    lemma SinkGets()
      requires Valid() && !failed
      ensures var arrived := store.Arrived(id);
        && On(arrived, stream) == offered
        && sink.Got(stream) == On(arrived[..Min(limit, |arrived|)], stream) +
           (if markerDelivered then "\n[gate: output truncated]\n" else "")
        && (markerDelivered <==> |On(arrived[..Min(limit, |arrived|)], stream)| < |offered|)
    {
      hide Stored, StoredOn, On, Full;
      StoredOnIs(store.Rows(id), stream);
    }
  }

  // ----- Both streams of a command ------------------------------------------------------------------------

  function Concat(chunks: seq<string>): string {
    if chunks == [] then "" else Concat(chunks[..|chunks| - 1]) + chunks[|chunks| - 1]
  }

  /** Where a writer stands in the chunk it relays. */
  datatype Phase = Idle | Passing(stored: string, truncated: bool) | Telling(truncated: bool)

  ghost predicate At(w: Writer, phase: Phase)
    reads w, w.store, w.sink
  {
    match phase
    case Idle => w.Valid()
    case Passing(stored, truncated) => w.Behind(stored, truncated)
    case Telling(truncated) => w.Behind("", truncated)
  }

  /** The calls a writer still makes. */
  function Left(failed: bool, phase: Phase, chunks: nat): nat {
    if failed then 0 else 3 * chunks + (match phase case Idle => 0 case Passing(_, _) => 2 case Telling(_) => 1)
  }

  /** The next call of a writer: an append, or an event to the sink. */
  method TakeStep(w: Writer, phase: Phase, chunks: seq<string>, i: nat) returns (next: Phase, j: nat)
    requires At(w, phase) && !w.failed && i <= |chunks| && w.offered == Concat(chunks[..i])
    requires (phase.Idle? ==> i < |chunks|) && forall k | 0 <= k < |chunks| :: chunks[k] != ""
    modifies w, w.store, w.sink
    ensures At(w, next) && j <= |chunks| && (w.failed ==> next == Idle)
    ensures !w.failed ==> w.offered == Concat(chunks[..j])
    ensures Left(w.failed, next, |chunks| - j) < Left(false, phase, |chunks| - i)
    ensures forall other | IsStream(other) && other != w.stream :: Undisturbed(w.store, w.sink, w.id, other, w.limit)
  {
    hide Writer.Valid, Writer.Behind, Undisturbed, IsStream;
    j := i;
    var ok;
    match phase {
      case Idle =>
        var stored, truncated;
        stored, truncated, ok := w.Record(chunks[i]);
        next := if ok then Passing(stored, truncated) else Idle;
        j := i + 1;
        assert chunks[..j][..i] == chunks[..i];
      case Passing(stored, truncated) =>
        ok := w.Pass(stored, truncated);
        next := if ok then Telling(truncated) else Idle;
      case Telling(truncated) =>
        ok := w.Tell(truncated);
        next := Idle;
    }
  }

  /** The agent has what the limit admits of a stream, and the marker if that is not all of it. */
  ghost predicate Delivered(store: Store, sink: Sink, id: string, limit: nat, stream: string, chunks: seq<string>)
    reads store, sink
  {
    var arrived := store.Arrived(id);
    var admitted := On(arrived[..Min(limit, |arrived|)], stream);
    && On(arrived, stream) == Concat(chunks)
    && sink.Got(stream) == admitted + (if |admitted| < |Concat(chunks)| then "\n[gate: output truncated]\n" else "")
  }

  lemma IsDelivered(w: Writer, chunks: seq<string>)
    requires w.Valid() && !w.failed && w.offered == Concat(chunks)
    ensures w.limit > 0 && Delivered(w.store, w.sink, w.id, w.limit, w.stream, chunks)
  {
    hide StoredOn, On, Full, Concat, RowsInv, IsOrderly;
    w.SinkGets();
  }

  /** Output of another command. */
  method OtherCommand(store: Store, ghost sink: Sink, id: string, ghost limit: nat)
    requires store.Valid()
    modifies store
    ensures forall stream :: Undisturbed(store, sink, id, stream, limit)
  {
    hide RowsInv, IsOrderly, StoredOn, On, Full;
    var otherId: string, stream: string, data: string, otherLimit: int := *, *, *, *;
    if otherId != id {
      var _, _, _ := store.AppendOutput(otherId, stream, data, otherLimit);
    }
  }

  /** A call of one writer, perhaps after others of other commands: the other writer stays where it is. */
  method TakeTurn(w: Writer, phase: Phase, chunks: seq<string>, i: nat, ghost other: Writer, ghost at: Phase)
    returns (next: Phase, j: nat)
    requires At(w, phase) && !w.failed && i <= |chunks| && w.offered == Concat(chunks[..i])
    requires (phase.Idle? ==> i < |chunks|) && forall k | 0 <= k < |chunks| :: chunks[k] != ""
    requires At(other, at) && IsStream(other.stream) && other.stream != w.stream && other.limit == w.limit > 0
    requires other.store == w.store && other.sink == w.sink && other.id == w.id
    modifies w, w.store, w.sink
    ensures At(w, next) && j <= |chunks| && (w.failed ==> next == Idle)
    ensures !w.failed ==> w.offered == Concat(chunks[..j])
    ensures Left(w.failed, next, |chunks| - j) < Left(false, phase, |chunks| - i)
    ensures At(other, at) && unchanged(other)
  {
    hide Writer.Valid, Writer.Behind, Undisturbed, Store.Valid, Left, Concat, IsStream;
    StoreIs(w, phase);
    OtherCommand(w.store, w.sink, w.id, w.limit);
    w.Stays();
    other.Stays();
    label Turn:
    next, j := TakeStep(w, phase, chunks, i);
    other.Stays@Turn();
  }

  /**
    One execution: its two writers take turns, call by call, with each other and with the writers of
    other commands. A writer that does not fail delivers its whole stream.
   */
  method RelayBoth(store: Store, sink: Sink, id: string, limit: nat, outs: seq<string>, errs: seq<string>)
    returns (outOk: bool, errOk: bool)
    requires store.Valid() && limit > 0 && store.Rows(id) == [] && store.Arrived(id) == []
    requires sink.stdout == "" && sink.stderr == ""
    requires forall k | 0 <= k < |outs| :: outs[k] != ""
    requires forall k | 0 <= k < |errs| :: errs[k] != ""
    modifies store, sink
    ensures outOk ==> Delivered(store, sink, id, limit, "stdout", outs)
    ensures errOk ==> Delivered(store, sink, id, limit, "stderr", errs)
  {
    hide Writer.Valid, Writer.Behind, Undisturbed, Store.Valid, Delivered, Left, Concat;
    NothingYet(store, id, limit);
    var out := new Writer(store, sink, id, STDOUT, limit);
    var err := new Writer(store, sink, id, STDERR, limit);
    var a, i, b, j := Idle, 0, Idle, 0;
    NoChunks(outs, errs);
    while (!out.failed && (a != Idle || i < |outs|)) || (!err.failed && (b != Idle || j < |errs|))
      invariant 0 <= i <= |outs| && 0 <= j <= |errs| && At(out, a) && At(err, b) && fresh(out) && fresh(err)
      invariant out.failed ==> a == Idle
      invariant err.failed ==> b == Idle
      invariant !out.failed ==> out.offered == Concat(outs[..i])
      invariant !err.failed ==> err.offered == Concat(errs[..j])
      decreases Left(out.failed, a, |outs| - i) + Left(err.failed, b, |errs| - j)
    {
      var turn := *;
      var errMoves := !err.failed && (b != Idle || j < |errs|);
      if !out.failed && (a != Idle || i < |outs|) && (turn || !errMoves) {
        a, i := TakeTurn(out, a, outs, i, err, b);
      } else {
        b, j := TakeTurn(err, b, errs, j, out, a);
      }
    }
    outOk, errOk := !out.failed, !err.failed;
    assert outs[..|outs|] == outs && errs[..|errs|] == errs;
    if outOk {
      IsDelivered(out, outs);
    }
    if errOk {
      IsDelivered(err, errs);
    }
  }

  lemma NothingYet(store: Store, id: string, limit: nat)
    requires store.Rows(id) == [] && store.Arrived(id) == []
    ensures store.Keeps(id, limit)
    ensures forall stream :: StoredOn(store.Rows(id), stream) == On(store.Arrived(id), stream) == ""
  {
  }

  lemma NoChunks(outs: seq<string>, errs: seq<string>)
    ensures Concat(outs[..0]) == Concat(errs[..0]) == ""
  {
  }

  lemma StoreIs(w: Writer, phase: Phase)
    requires At(w, phase)
    ensures w.store.Valid() && w.limit > 0
  {
  }
}
