/**
 * What the producer sees of encoding/csv: a sequence of read outcomes.
 * The first outcome belongs to the header line.
 */
module Csv {
  import opened Models
  import opened Strconv

  /** The decoder indexes record[0] to record[10]. */
  const Columns := 11

  /**
   * A parsed record. The source indexes record[10] without checking the
   * width, so a narrower row panics the worker; the model admits only rows
   * the decoder can read.
   */
  type Record = r: seq<string> | |r| >= Columns witness ["", "", "", "", "", "", "", "", "", "", ""]

  /** One call of reader.Read(): a record, a non-EOF error, or io.EOF. */
  datatype ReadOutcome = Row(fields: Record) | ReadError | Eof

  /**
   * The records the producer pushes on the channel, in read order: a read
   * error is skipped, EOF stops the loop. Running out of outcomes is EOF.
   */
  function Forwarded(outcomes: seq<ReadOutcome>): seq<Record>
    decreases |outcomes|
  {
    if |outcomes| == 0 then []
    else match outcomes[0]
      case Row(r) => [r] + Forwarded(outcomes[1..])
      case ReadError => Forwarded(outcomes[1..])
      case Eof => []
  }

  /** The position of the first EOF, or the length when there is none. */
  function EofIndex(outcomes: seq<ReadOutcome>): (k: nat)
    ensures k <= |outcomes|
    ensures forall i :: 0 <= i < k ==> !outcomes[i].Eof?
    ensures k < |outcomes| ==> outcomes[k].Eof?
    decreases |outcomes|
  {
    if |outcomes| == 0 || outcomes[0].Eof? then 0 else 1 + EofIndex(outcomes[1..])
  }

  /** Every record among the outcomes, in order, ignoring EOF. */
  function Rows(outcomes: seq<ReadOutcome>): seq<Record>
    decreases |outcomes|
  {
    if |outcomes| == 0 then []
    else (if outcomes[0].Row? then [outcomes[0].fields] else []) + Rows(outcomes[1..])
  }

  /** The number of outcomes that are records. */
  function RowCount(outcomes: seq<ReadOutcome>): nat
    decreases |outcomes|
  {
    if |outcomes| == 0 then 0 else (if outcomes[0].Row? then 1 else 0) + RowCount(outcomes[1..])
  }

  lemma {:induction false} RowsCount(outcomes: seq<ReadOutcome>)
    ensures |Rows(outcomes)| == RowCount(outcomes) <= |outcomes|
    decreases |outcomes|
  {
    if |outcomes| > 0 { RowsCount(outcomes[1..]); }
  }

  /**
   * The producer forwards exactly the records that come before the first
   * EOF, in read order; errors and everything after EOF are dropped.
   */
  lemma {:induction false} ForwardedBeforeEof(outcomes: seq<ReadOutcome>)
    ensures Forwarded(outcomes) == Rows(outcomes[..EofIndex(outcomes)])
    ensures |Forwarded(outcomes)| == RowCount(outcomes[..EofIndex(outcomes)]) <= |outcomes|
    decreases |outcomes|
  {
    var k := EofIndex(outcomes);
    var before := outcomes[..k];
    if |outcomes| > 0 && !outcomes[0].Eof? {
      var rest := outcomes[1..];
      ForwardedBeforeEof(rest);
      assert k == 1 + EofIndex(rest);
      assert before[0] == outcomes[0];
      assert before[1..] == rest[..EofIndex(rest)];
    }
    RowsCount(before);
  }

  /** The header read succeeded; otherwise the source calls log.Fatalf. */
  predicate HeaderOk(outcomes: seq<ReadOutcome>) {
    |outcomes| > 0 && outcomes[0].Row?
  }

  /** The records a whole file forwards once its header has been skipped. */
  function DataRecords(outcomes: seq<ReadOutcome>): seq<Record> {
    if HeaderOk(outcomes) then Forwarded(outcomes[1..]) else []
  }

  /**
   * The row a CSV export of the inventory holds for a device, in the
   * column order the decoder reads; the price is given as its text.
   */
  function Encode(d: Device, priceText: string): (r: Record)
    ensures |r| == Columns
  {
    [Itoa(d.id), d.deviceName, d.deviceType, d.brand, d.model, d.os,
     d.osVersion, d.purchaseDate, d.warrantyEnd, d.status, priceText]
  }
}
