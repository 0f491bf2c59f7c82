/**
  The bounded record of a command's output: AppendOutput and OutputPreview of
  internal/storage/storage.go.
 */
module AuditOutput {
  const STDOUT := "stdout"
  const STDERR := "stderr"

  predicate IsStream(stream: string) {
    stream == STDOUT || stream == STDERR
  }

  /** One row of command_output, for one command. */
  datatype Row = Row(stream: string, sequence: nat, data: string, truncated: bool)

  /** A byte of output and the stream it came on. */
  datatype Byte = Byte(stream: string, c: char)

  // ----- What rows hold --------------------------------------------------------------------------------

  function Tagged(stream: string, data: string): seq<Byte> {
    seq(|data|, i requires 0 <= i < |data| => Byte(stream, data[i]))
  }

  /** All stored bytes, in the order of their rows. */
  function Stored(rows: seq<Row>): seq<Byte> {
    if rows == [] then []
    else Stored(rows[..|rows| - 1]) + Tagged(rows[|rows| - 1].stream, rows[|rows| - 1].data)
  }

  /** The stored bytes of one stream. */
  function StoredOn(rows: seq<Row>, stream: string): string {
    if rows == [] then ""
    else
      var last := rows[|rows| - 1];
      StoredOn(rows[..|rows| - 1], stream) + (if last.stream == stream then last.data else "")
  }

  predicate Flagged(rows: seq<Row>) {
    exists i | 0 <= i < |rows| :: rows[i].truncated
  }

  lemma StoredMore(rows: seq<Row>, row: Row)
    ensures Stored(rows + [row]) == Stored(rows) + Tagged(row.stream, row.data)
    ensures forall stream ::
      StoredOn(rows + [row], stream) == StoredOn(rows, stream) + (if row.stream == stream then row.data else "")
    ensures Flagged(rows + [row]) <==> Flagged(rows) || row.truncated
  {
  }

  // ----- Appending -----------------------------------------------------------------------------------

  /** Nothing more is stored. */
  predicate Full(rows: seq<Row>, limit: nat) {
    Flagged(rows) || |Stored(rows)| >= limit
  }

  /** The part of data there is room for. */
  function Fitting(rows: seq<Row>, data: string, limit: nat): string {
    if Full(rows, limit) then ""
    else if |data| > limit - |Stored(rows)| then data[..limit - |Stored(rows)|]
    else data
  }

  function Appended(rows: seq<Row>, stream: string, data: string, limit: nat): seq<Row> {
    if Full(rows, limit) then rows
    else rows + [Row(stream, |rows|, Fitting(rows, data, limit), |data| > limit - |Stored(rows)|)]
  }

  /** Whether the caller is told that output was dropped. */
  predicate Drops(rows: seq<Row>, data: string, limit: nat) {
    Full(rows, limit) || |data| > limit - |Stored(rows)|
  }

  function Min(a: nat, b: nat): nat {
    if a < b then a else b
  }

  /** Rows are for one of the streams and numbered from 0, and none comes after a flagged one. */
  predicate IsOrderly(rows: seq<Row>) {
    && (forall i | 0 <= i < |rows| :: IsStream(rows[i].stream) && rows[i].sequence == i)
    && (forall i | 0 <= i < |rows| - 1 :: !rows[i].truncated)
  }

  /**
    The rows hold the first bytes that have arrived, as many as the limit allows, and one flag at
    most, on the last.
   */
  ghost predicate RowsInv(rows: seq<Row>, arrived: seq<Byte>, limit: nat) {
    && Stored(rows) == arrived[..Min(limit, |arrived|)]
    && (forall i | 0 <= i < |rows| - 1 :: !rows[i].truncated)
    && (Flagged(rows) ==> |arrived| > limit)
  }

  lemma AppendedKeeps(rows: seq<Row>, arrived: seq<Byte>, stream: string, data: string, limit: nat)
    requires RowsInv(rows, arrived, limit)
    ensures RowsInv(Appended(rows, stream, data, limit), arrived + Tagged(stream, data), limit)
  {
  }

  lemma AppendedOrderly(rows: seq<Row>, stream: string, data: string, limit: nat)
    requires IsOrderly(rows) && IsStream(stream)
    ensures IsOrderly(Appended(rows, stream, data, limit))
  {
    hide Stored, Fitting;
  }

  // ----- Exactly when truncation is recorded -------------------------------------------------------------

  datatype Chunk = Chunk(stream: string, data: string)

  function Total(chunks: seq<Chunk>): nat {
    if chunks == [] then 0 else Total(chunks[..|chunks| - 1]) + |chunks[|chunks| - 1].data|
  }

  function AppendAll(chunks: seq<Chunk>, limit: nat): seq<Row> {
    if chunks == [] then []
    else
      var last := chunks[|chunks| - 1];
      Appended(AppendAll(chunks[..|chunks| - 1], limit), last.stream, last.data, limit)
  }

  /** Some chunk fills the limit to the last byte. */
  ghost predicate FillsExactly(chunks: seq<Chunk>, limit: nat) {
    exists k | 0 <= k <= |chunks| :: Total(chunks[..k]) == limit
  }

  lemma FillsMore(chunks: seq<Chunk>, limit: nat)
    requires chunks != []
    ensures FillsExactly(chunks, limit) <==> FillsExactly(chunks[..|chunks| - 1], limit) || Total(chunks) == limit
  {
    var shorter := chunks[..|chunks| - 1];
    forall k | 0 <= k < |chunks|
      ensures chunks[..k] == shorter[..k]
    {
    }
    assert chunks[..|chunks|] == chunks;
  }

  lemma {:induction false} TotalRises(chunks: seq<Chunk>, k: nat)
    requires k <= |chunks|
    ensures Total(chunks[..k]) <= Total(chunks)
    decreases |chunks|
  {
    assert chunks[..|chunks|] == chunks;
    if k < |chunks| {
      TotalRises(chunks[..|chunks| - 1], k);
      assert chunks[..|chunks| - 1][..k] == chunks[..k];
    }
  }

  /**
    A row is flagged as truncated exactly when more arrived than the limit and no chunk filled it
    to the last byte: after an exact fill later output is dropped without a trace in the rows.
   */
  lemma {:induction false} FlaggedExactly(chunks: seq<Chunk>, limit: nat)
    ensures Flagged(AppendAll(chunks, limit)) <==> Total(chunks) > limit && !FillsExactly(chunks, limit)
    ensures |Stored(AppendAll(chunks, limit))| == Min(limit, Total(chunks))
    decreases |chunks|
  {
    hide Flagged, Stored, FillsExactly;
    if chunks == [] {
      NothingStored();
    } else {
      var shorter, last := chunks[..|chunks| - 1], chunks[|chunks| - 1];
      var rows := AppendAll(shorter, limit);
      FlaggedExactly(shorter, limit);
      FillsMore(chunks, limit);
      FullTotal(shorter, limit);
      if !Full(rows, limit) {
        StoredMore(rows, AppendAll(chunks, limit)[|rows|]);
      }
    }
  }

  lemma NothingStored()
    ensures !Flagged([]) && Stored([]) == []
  {
  }

  /** Below the limit it has not been filled. */
  lemma FullTotal(chunks: seq<Chunk>, limit: nat)
    ensures Total(chunks) < limit ==> !FillsExactly(chunks, limit)
    ensures Total(chunks) == limit ==> FillsExactly(chunks, limit)
  {
    hide Total;
    assert chunks[..|chunks|] == chunks;
    forall k | 0 <= k <= |chunks|
      ensures Total(chunks[..k]) <= Total(chunks)
    {
      TotalRises(chunks, k);
    }
  }

  /** Two bytes and a third with room for two: the third is lost and no row says so. */
  lemma ExactFillIsSilent()
    ensures var rows := AppendAll([Chunk(STDOUT, "ab"), Chunk(STDOUT, "c")], 2);
      !Flagged(rows) && StoredOn(rows, STDOUT) == "ab"
  {
    var one := [Chunk(STDOUT, "ab")];
    var two := [Chunk(STDOUT, "ab"), Chunk(STDOUT, "c")];
    assert one[..0] == [] && two[..1] == one;
    assert Fitting([], "ab", 2) == "ab" by {
      NothingStored();
    }
    var row := Row(STDOUT, 0, "ab", false);
    NothingStored();
    assert Appended([], STDOUT, "ab", 2) == [] + [row] == [row];
    StoredMore([], row);
    assert AppendAll(one, 2) == [row];
    assert |Stored([row])| == 2;
    assert AppendAll(two, 2) == Appended([row], STDOUT, "c", 2) == [row];
  }
}
