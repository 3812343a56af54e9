/**
 * The ingest pipeline of the handlers package: the same producer and
 * batching as main.go, 20 workers, a record whose price does not parse
 * skipped, every batch inserted with a single attempt, and a parseInt that
 * maps every Atoi error to 0.
 */
module HandlersIngest {
  import opened Wrappers
  import opened Models
  import opened Strconv
  import opened Csv
  import opened Batching
  import opened Store
  import opened Pool
  import MainIngest

  /** numWorkers in ProcessFile. */
  const NumWorkers := 20

  /** insertBatch: one attempt, no retry. */
  const InsertPolicy := Policy(1, 0, 1)

  /** parseInt: Atoi's value, or 0 when Atoi reports an error. */
  function ParseInt(s: string): (v: int)
    ensures MinInt <= v <= MaxInt
    ensures IsDecimal(s) && MinInt <= DecimalValue(s) <= MaxInt ==> v == DecimalValue(s)
    ensures !(IsDecimal(s) && MinInt <= DecimalValue(s) <= MaxInt) ==> v == 0
  {
    var r := Atoi(s);
    if r.ok then r.value else 0
  }

  /**
   * The two parseInt functions agree except where Atoi reports a range
   * error: on decimal strings outside the 64-bit range and on text whose
   * leading digits overflow a uint64, which main.go clamps to the nearest
   * bound and the handlers package turns into 0.
   */
  lemma ParseIntsDiffer(s: string)
    ensures ParseInt(s) != MainIngest.ParseInt(s) <==>
      Overflows(s) || (IsDecimal(s) && !(MinInt <= DecimalValue(s) <= MaxInt))
  {
  }

  /** The device a worker builds from a record whose price parsed. */
  function Decode(parseFloat: string -> FloatResult, r: Record): Device {
    Device(ParseInt(r[0]), r[1], r[2], r[3], r[4], r[5], r[6], r[7], r[8], r[9], parseFloat(r[10]).value)
  }

  /** A row written from a device with a parsable price decodes back to that device. */
  lemma DecodeEncode(parseFloat: string -> FloatResult, d: Device, priceText: string)
    requires MinInt <= d.id <= MaxInt
    requires parseFloat(priceText).ok && parseFloat(priceText).value == d.price
    ensures Checked(parseFloat, [Encode(d, priceText)]) == [Some(d)]
  {
    AtoiItoa(d.id);
    var r := Encode(d, priceText);
    assert [r][1..] == [];
  }

  /** What the workers make of a sequence of records: a device for each record whose price parses. */
  function Checked(parseFloat: string -> FloatResult, rs: seq<Record>): (outs: seq<Option<Device>>)
    ensures |outs| == |rs|
    decreases |rs|
  {
    if |rs| == 0 then []
    else [if parseFloat(rs[0][10]).ok then Some(Decode(parseFloat, rs[0])) else None] + Checked(parseFloat, rs[1..])
  }

  /** The records whose price parses, in order. */
  function ValidRecords(parseFloat: string -> FloatResult, rs: seq<Record>): seq<Record>
    decreases |rs|
  {
    if |rs| == 0 then []
    else if parseFloat(rs[0][10]).ok then [rs[0]] + ValidRecords(parseFloat, rs[1..])
    else ValidRecords(parseFloat, rs[1..])
  }

  /** The workers keep exactly the records whose price parses, in order, and drop the others. */
  lemma {:induction false} CheckedValid(parseFloat: string -> FloatResult, rs: seq<Record>)
    ensures |Somes(Checked(parseFloat, rs))| == |ValidRecords(parseFloat, rs)| <= |rs|
    ensures forall i :: 0 <= i < |ValidRecords(parseFloat, rs)| ==>
      Somes(Checked(parseFloat, rs))[i] == Decode(parseFloat, ValidRecords(parseFloat, rs)[i])
    ensures forall r :: r in ValidRecords(parseFloat, rs) ==> r in rs && parseFloat(r[10]).ok
    ensures forall r :: r in rs && parseFloat(r[10]).ok ==> r in ValidRecords(parseFloat, rs)
    decreases |rs|
  {
    if |rs| > 0 {
      CheckedValid(parseFloat, rs[1..]);
      var x := if parseFloat(rs[0][10]).ok then Some(Decode(parseFloat, rs[0])) else None;
      SomesFront(x, Checked(parseFloat, rs[1..]));
      forall r | r in rs && parseFloat(r[10]).ok
        ensures r in ValidRecords(parseFloat, rs)
      {
        if r != rs[0] {
          assert r in rs[1..];
        }
      }
    }
  }

  /** When every price parses, no record is dropped. */
  lemma {:induction false} ValidRecordsAll(parseFloat: string -> FloatResult, rs: seq<Record>)
    requires forall i :: 0 <= i < |rs| ==> parseFloat(rs[i][10]).ok
    ensures ValidRecords(parseFloat, rs) == rs
    decreases |rs|
  {
    if |rs| > 0 {
      assert parseFloat(rs[0][10]).ok;
      assert forall i :: 0 <= i < |rs[1..]| ==> rs[1..][i] == rs[i + 1];
      ValidRecordsAll(parseFloat, rs[1..]);
      assert rs == [rs[0]] + rs[1..];
    }
  }

  /**
   * A header and three rows, the middle one with a price that does not
   * parse: three rows are counted and two are kept.
   */
  lemma BadPriceScenario(parseFloat: string -> FloatResult, header: Record, r1: Record, bad: Record, r3: Record)
    requires parseFloat(r1[10]).ok && !parseFloat(bad[10]).ok && parseFloat(r3[10]).ok
    ensures var outcomes := [Row(header), Row(r1), Row(bad), Row(r3)];
      && DataRecords(outcomes) == [r1, bad, r3]
      && ValidRecords(parseFloat, DataRecords(outcomes)) == [r1, r3]
  {
    var outcomes := [Row(header), Row(r1), Row(bad), Row(r3)];
    var data := [Row(r1), Row(bad), Row(r3)];
    assert outcomes[1..] == data;
    assert data[1..] == [Row(bad), Row(r3)];
    assert data[1..][1..] == [Row(r3)];
    assert data[1..][1..][1..] == [];
    assert Forwarded(data[1..][1..]) == [r3];
    assert Forwarded(data[1..]) == [bad, r3];
    assert Forwarded(data) == [r1, bad, r3];
    var rs := [r1, bad, r3];
    assert rs[1..] == [bad, r3];
    assert rs[1..][1..] == [r3];
    assert rs[1..][1..][1..] == [];
    assert ValidRecords(parseFloat, rs[1..][1..]) == [r3];
    assert ValidRecords(parseFloat, rs[1..]) == [r3];
  }

  lemma {:induction false} CheckedAppend(parseFloat: string -> FloatResult, xs: seq<Record>, ys: seq<Record>)
    ensures Checked(parseFloat, xs + ys) == Checked(parseFloat, xs) + Checked(parseFloat, ys)
    decreases |xs|
  {
    if |xs| == 0 {
      assert xs + ys == ys;
    } else {
      CheckedAppend(parseFloat, xs[1..], ys);
      assert (xs + ys)[0] == xs[0];
      assert (xs + ys)[1..] == xs[1..] + ys;
    }
  }

  /**
   * One more record received: the devices built so far grow by the
   * record's device exactly when its price parses, and that device is the
   * next one of all the devices the worker builds.
   */
  lemma CheckedStep(parseFloat: string -> FloatResult, rs: seq<Record>, i: nat, next: nat, k: nat)
    requires i < |rs| && next == i + 1
    requires k == |Somes(Checked(parseFloat, rs[..i]))|
    ensures var n := |Somes(Checked(parseFloat, rs[..next]))|;
      var all := Somes(Checked(parseFloat, rs));
      && k <= |all|
      && (parseFloat(rs[i][10]).ok ==> n == k + 1 && k < |all| && all[k] == Decode(parseFloat, rs[i]))
      && (!parseFloat(rs[i][10]).ok ==> n == k)
  {
    var front, x, back := rs[..i], [rs[i]], rs[next..];
    assert rs[..next] == front + x;
    assert rs == (front + x) + back;
    CheckedAppend(parseFloat, front, x);
    CheckedAppend(parseFloat, front + x, back);
    var cf, cx, cb := Checked(parseFloat, front), Checked(parseFloat, x), Checked(parseFloat, back);
    SomesAppend(cf, cx);
    SomesAppend(cf + cx, cb);
    assert x[1..] == [];
    SomesFront(cx[0], []);
    assert cx == [cx[0]] + [];
  }

  /** Every record received: the count of devices built is that of all of them. */
  lemma CheckedDone(parseFloat: string -> FloatResult, rs: seq<Record>, i: nat, k: nat)
    requires i == |rs| && k == |Somes(Checked(parseFloat, rs[..i]))|
    ensures k == |Somes(Checked(parseFloat, rs))|
  {
    assert rs[..i] == rs;
  }

  /** Checking commutes with the split: a worker checks exactly the records it receives. */
  lemma {:induction false} ReceivedChecked(parseFloat: string -> FloatResult, rs: seq<Record>, assign: seq<nat>, w: nat)
    requires |assign| == |rs|
    ensures Received(Checked(parseFloat, rs), assign, w) == Checked(parseFloat, Received(rs, assign, w))
    decreases |rs|
  {
    if |rs| > 0 {
      ReceivedChecked(parseFloat, rs[1..], assign[1..], w);
      var outs := Checked(parseFloat, rs);
      assert outs[1..] == Checked(parseFloat, rs[1..]);
      if assign[0] == w {
        var mine := [rs[0]] + Received(rs[1..], assign[1..], w);
        assert mine[0] == rs[0];
        assert mine[1..] == Received(rs[1..], assign[1..], w);
      }
    }
  }

  /**
   * The package state: the two counters and the shared connection, with,
   * for the proofs, every insertBatch call made since the pipeline was
   * set up.
   */
  class Pipeline {
    var totalRows: nat
    var processedRows: nat
    /** The device slices passed to insertBatch, in order. */
    ghost var calls: seq<seq<Device>>
    /** The store's attempt counter and rows when the pipeline was set up. */
    ghost const firstAttempt: nat
    ghost const initialRows: seq<Device>
    const db: Database
    /** strconv.ParseFloat(_, 64), taken as given. */
    const parseFloat: string -> FloatResult

    /** The counter and the store are exactly what the insertBatch calls made so far did. */
    ghost predicate Valid()
      reads this, db
    {
      var run := InsertAll(db.outcome, firstAttempt, InsertPolicy, calls);
      && db.attempts == firstAttempt + run.attempts
      && db.rows == initialRows + run.committed
      && processedRows == |run.committed|
    }

    constructor (db: Database, parseFloat: string -> FloatResult)
      ensures Valid()
      ensures totalRows == 0 && processedRows == 0 && calls == []
      ensures this.db == db && this.parseFloat == parseFloat
      ensures firstAttempt == db.attempts && initialRows == db.rows
    {
      totalRows := 0;
      processedRows := 0;
      calls := [];
      firstAttempt := db.attempts;
      initialRows := db.rows;
      this.db := db;
      this.parseFloat := parseFloat;
      new;
      assert db.rows + [] == db.rows;
    }

    /**
     * The producer goroutine: read until io.EOF, skip a record that fails
     * to read, count and forward every other one.
     */
    method Produce(outcomes: seq<ReadOutcome>) returns (chunks: seq<Record>)
      requires Valid()
      modifies this
      ensures Valid()
      ensures chunks == Forwarded(outcomes)
      ensures totalRows == old(totalRows) + |chunks|
      ensures processedRows == old(processedRows) && calls == old(calls)
    {
      chunks := [];
      var i := 0;
      while i < |outcomes|
        invariant 0 <= i <= |outcomes|
        invariant chunks + Forwarded(outcomes[i..]) == Forwarded(outcomes)
        invariant totalRows == old(totalRows) + |chunks|
        invariant processedRows == old(processedRows) && calls == old(calls)
      {
        assert outcomes[i..][0] == outcomes[i];
        assert outcomes[i..][1..] == outcomes[i + 1..];
        match outcomes[i] {
          case Eof =>
            break;
          case ReadError =>
          case Row(r) =>
            totalRows := totalRows + 1;
            chunks := chunks + [r];
        }
        i := i + 1;
      }
    }

    /** insertBatch: one db.Create; processedRows advances only when it succeeds. */
    method InsertBatch(devices: seq<Device>)
      requires Valid()
      modifies this, db
      ensures Valid()
      ensures calls == old(calls) + [devices] && totalRows == old(totalRows)
      ensures var ok := db.outcome(old(db.attempts));
        && db.attempts == old(db.attempts) + 1
        && db.rows == (if ok then old(db.rows) + devices else old(db.rows))
        && processedRows == old(processedRows) + (if ok then |devices| else 0)
    {
      ghost var a0 := db.attempts;
      calls := calls + [devices];
      var ok := db.Create(devices);
      if !ok {
        Logged(old(calls), devices, a0);
        return;
      }
      processedRows := processedRows + |devices|;
      Logged(old(calls), devices, a0);
    }

    /** The insertBatch call just made, at attempt `a0`, extends the run Valid describes. */
    lemma Logged(earlier: seq<seq<Device>>, devices: seq<Device>, a0: nat)
      requires calls == earlier + [devices]
      requires a0 == firstAttempt + InsertAll(db.outcome, firstAttempt, InsertPolicy, earlier).attempts
      ensures var before := InsertAll(db.outcome, firstAttempt, InsertPolicy, earlier);
        var run := InsertAll(db.outcome, firstAttempt, InsertPolicy, calls);
        var ok := db.outcome(a0);
        && run.attempts == before.attempts + 1
        && initialRows + run.committed == (if ok then (initialRows + before.committed) + devices else initialRows + before.committed)
        && |run.committed| == |before.committed| + (if ok then |devices| else 0)
    {
      InsertAllSnoc(db.outcome, firstAttempt, InsertPolicy, earlier, devices, a0);
      AppendAssoc(initialRows, InsertAll(db.outcome, firstAttempt, InsertPolicy, earlier).committed, devices);
    }

    /**
     * One worker: skip a record whose price does not parse, decode the
     * others, insert a batch whenever 500 devices are buffered, and insert
     * what is left at the end.
     */
    method ProcessChunk(received: seq<Record>)
      requires Valid()
      modifies this, db
      ensures Valid()
      ensures calls == old(calls) + Batches(Somes(Checked(parseFloat, received)), BatchSize)
      ensures totalRows == old(totalRows)
    {
      ghost var all := Somes(Checked(parseFloat, received));
      ghost var emitted: seq<seq<Device>> := [];
      ghost var k := 0;
      var devices: seq<Device> := [];
      var i := 0;
      while i < |received|
        invariant 0 <= i <= |received|
        invariant k == |Somes(Checked(parseFloat, received[..i]))| && k <= |all|
        invariant Valid()
        invariant Accumulate(all[..k], BatchSize) == Buffered(emitted, devices)
        invariant calls == old(calls) + emitted && totalRows == old(totalRows)
      {
        var record := received[i];
        var price := parseFloat(record[10]);
        CheckedStep(parseFloat, received, i, i + 1, k);
        if !price.ok {
          i := i + 1;
          continue;
        }
        var device := Device(ParseInt(record[0]), record[1], record[2], record[3], record[4], record[5],
                             record[6], record[7], record[8], record[9], price.value);
        AccumulateStep(all, k, k + 1, BatchSize);
        k := k + 1;
        devices := devices + [device];
        if |devices| >= BatchSize {
          AppendAssoc(old(calls), emitted, [devices]);
          InsertBatch(devices);
          emitted := emitted + [devices];
          devices := [];
        }
        i := i + 1;
      }
      CheckedDone(parseFloat, received, i, k);
      AccumulateDone(all, k, BatchSize, emitted, devices);
      if |devices| > 0 {
        AppendAssoc(old(calls), emitted, [devices]);
        InsertBatch(devices);
      }
    }

    /**
     * ProcessFile: skip the header (a failed header read is fatal, so
     * nothing happens), forward the records, and let the workers, worker 0
     * first, each process the records `assign` gives it. The rows the
     * store commits never outnumber those read; with a store that never
     * fails they are exactly the records whose price parses.
     */
    method ProcessFile(outcomes: seq<ReadOutcome>, assign: seq<nat>) returns (started: bool)
      requires Valid()
      requires Assignment(assign, |DataRecords(outcomes)|, NumWorkers)
      modifies this, db
      ensures Valid()
      ensures started == HeaderOk(outcomes)
      ensures !started ==> totalRows == old(totalRows) && calls == old(calls)
      ensures started ==>
        && totalRows == old(totalRows) + |DataRecords(outcomes)|
        && calls == old(calls) + AllBatches(PerWorker(Checked(parseFloat, DataRecords(outcomes)), assign, NumWorkers))
      ensures started ==>
        var run := RunWorkers(db.outcome, old(db.attempts), InsertPolicy, Checked(parseFloat, DataRecords(outcomes)), assign, NumWorkers);
        && processedRows == old(processedRows) + |run.committed|
        && db.rows == old(db.rows) + run.committed
        && db.attempts == old(db.attempts) + run.attempts
      ensures processedRows - old(processedRows) <= totalRows - old(totalRows)
      ensures started && (forall k :: db.outcome(k)) ==>
        && processedRows - old(processedRows) == |ValidRecords(parseFloat, DataRecords(outcomes))|
        && multiset(db.rows) == multiset(old(db.rows)) + multiset(Somes(Checked(parseFloat, DataRecords(outcomes))))
    {
      ghost var calls0 := calls;
      ghost var run0 := InsertAll(db.outcome, firstAttempt, InsertPolicy, calls);
      started := HeaderOk(outcomes);
      if !started {
        return;
      }
      var chunks := Produce(outcomes[1..]);
      ghost var outs := Checked(parseFloat, chunks);
      ghost var t0 := totalRows;
      var w := 0;
      while w < NumWorkers
        invariant 0 <= w <= NumWorkers
        invariant Valid()
        invariant calls == old(calls) + AllBatches(PerWorker(outs, assign, w)) && totalRows == t0
      {
        var next := w + 1;
        ghost var groups := PerWorker(outs, assign, w);
        ghost var mine := Somes(Received(outs, assign, w));
        PerWorkerSnoc(outs, assign, w, next);
        ReceivedChecked(parseFloat, chunks, assign, w);
        AllBatchesSnoc(groups, mine);
        AppendAssoc(old(calls), AllBatches(groups), Batches(mine, BatchSize));
        ProcessChunk(Received(chunks, assign, w));
        w := next;
      }
      assert chunks == DataRecords(outcomes);
      ghost var bs := AllBatches(PerWorker(outs, assign, NumWorkers));
      ghost var run := InsertAll(db.outcome, old(db.attempts), InsertPolicy, bs);
      assert run == RunWorkers(db.outcome, old(db.attempts), InsertPolicy, outs, assign, NumWorkers);
      assert calls == calls0 + bs;
      InsertAllConcat(db.outcome, firstAttempt, InsertPolicy, calls0, bs, old(db.attempts));
      ghost var whole := InsertAll(db.outcome, firstAttempt, InsertPolicy, calls);
      assert whole.committed == run0.committed + run.committed;
      AppendAssoc(initialRows, run0.committed, run.committed);
      assert db.rows == old(db.rows) + run.committed;
      assert processedRows == old(processedRows) + |run.committed|;
      assert db.attempts == old(db.attempts) + run.attempts;
      Committed(db.outcome, old(db.attempts), InsertPolicy, outs, assign, NumWorkers);
      CheckedValid(parseFloat, chunks);
      if forall k :: db.outcome(k) {
        assert |run.committed| == |multiset(run.committed)| == |multiset(Somes(outs))| == |Somes(outs)|;
      }
    }
  }
}
