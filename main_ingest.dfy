/**
 * The ingest pipeline of main.go: a producer reads the CSV file and
 * forwards every record on a channel, 25 workers decode records into
 * devices and insert them in batches of 500, and every batch insert is
 * retried three times with a doubling sleep. The counters totalRows and
 * processedRows, the store and the sleeps taken are the state.
 */
module MainIngest {
  import opened Wrappers
  import opened Models
  import opened Strconv
  import opened Csv
  import opened Batching
  import opened Store
  import opened Pool

  /** numWorkers in processFile. */
  const NumWorkers := 25

  /** insertBatch: maxRetries 3, first sleep 2 seconds, doubled after each failure. */
  const InsertPolicy := Policy(3, 2, 2)

  /** initDB: maxRetries 5, first sleep 3 seconds, tripled after each failure. */
  const ConnectPolicy := Policy(5, 3, 3)

  /**
   * parseInt: Atoi's value with the error dropped, so a malformed id is 0
   * and an id outside the 64-bit range is the nearest bound, even when a
   * non-digit follows digits that already overflow.
   */
  function ParseInt(s: string): (v: int)
    ensures MinInt <= v <= MaxInt
    ensures Overflows(s) ==> v == (if Negative(s) then MinInt else MaxInt)
    ensures !IsDecimal(s) && !Overflows(s) ==> v == 0
    ensures IsDecimal(s) && MinInt <= DecimalValue(s) <= MaxInt ==> v == DecimalValue(s)
    ensures IsDecimal(s) && DecimalValue(s) > MaxInt ==> v == MaxInt
    ensures IsDecimal(s) && DecimalValue(s) < MinInt ==> v == MinInt
  {
    Atoi(s).value
  }

  /** parseInt reads back every id Itoa writes. */
  lemma ParseIntItoa(n: int)
    requires MinInt <= n <= MaxInt
    ensures ParseInt(Itoa(n)) == n
  {
    AtoiItoa(n);
  }

  /**
   * The device a worker builds from a record. The ParseFloat error is
   * dropped: a record whose price does not parse still becomes a device,
   * with whatever value ParseFloat returned alongside the error.
   */
  function Decode(parseFloat: string -> FloatResult, r: Record): Device {
    Device(ParseInt(r[0]), r[1], r[2], r[3], r[4], r[5], r[6], r[7], r[8], r[9], parseFloat(r[10]).value)
  }

  /** A row written from a device decodes back to that device, whatever the price's error. */
  lemma DecodeEncode(parseFloat: string -> FloatResult, d: Device, priceText: string)
    requires MinInt <= d.id <= MaxInt
    requires parseFloat(priceText).value == d.price
    ensures Decode(parseFloat, Encode(d, priceText)) == d
  {
    ParseIntItoa(d.id);
  }

  /** What the workers make of a sequence of records: every record is accepted. */
  function Accepted(parseFloat: string -> FloatResult, rs: seq<Record>): (outs: seq<Option<Device>>)
    ensures |outs| == |rs| && |Somes(outs)| == |rs|
    decreases |rs|
  {
    if |rs| == 0 then []
    else
      var rest := Accepted(parseFloat, rs[1..]);
      SomesFront(Some(Decode(parseFloat, rs[0])), rest);
      [Some(Decode(parseFloat, rs[0]))] + rest
  }

  /** Every record becomes a device, in order: nothing is dropped. */
  lemma {:induction false} AcceptedAll(parseFloat: string -> FloatResult, rs: seq<Record>)
    ensures forall i :: 0 <= i < |rs| ==> Somes(Accepted(parseFloat, rs))[i] == Decode(parseFloat, rs[i])
    decreases |rs|
  {
    if |rs| > 0 {
      AcceptedAll(parseFloat, rs[1..]);
      SomesFront(Some(Decode(parseFloat, rs[0])), Accepted(parseFloat, rs[1..]));
    }
  }

  /** The device of the record at `i`. */
  lemma AcceptedAt(parseFloat: string -> FloatResult, rs: seq<Record>, i: nat)
    requires i < |rs|
    ensures |Somes(Accepted(parseFloat, rs))| == |rs|
    ensures Somes(Accepted(parseFloat, rs))[i] == Decode(parseFloat, rs[i])
  {
    AcceptedAll(parseFloat, rs);
  }

  lemma {:induction false} AcceptedAppend(parseFloat: string -> FloatResult, xs: seq<Record>, ys: seq<Record>)
    ensures Accepted(parseFloat, xs + ys) == Accepted(parseFloat, xs) + Accepted(parseFloat, ys)
    decreases |xs|
  {
    if |xs| == 0 {
      assert xs + ys == ys;
    } else {
      AcceptedAppend(parseFloat, xs[1..], ys);
      assert (xs + ys)[0] == xs[0];
      assert (xs + ys)[1..] == xs[1..] + ys;
      AppendAssoc([Some(Decode(parseFloat, xs[0]))], Accepted(parseFloat, xs[1..]), Accepted(parseFloat, ys));
    }
  }

  /** Decoding commutes with the split: a worker decodes exactly the records it receives. */
  lemma {:induction false} ReceivedAccepted(parseFloat: string -> FloatResult, rs: seq<Record>, assign: seq<nat>, w: nat)
    requires |assign| == |rs|
    ensures Received(Accepted(parseFloat, rs), assign, w) == Accepted(parseFloat, Received(rs, assign, w))
    decreases |rs|
  {
    if |rs| > 0 {
      ReceivedAccepted(parseFloat, rs[1..], assign[1..], w);
      var outs := Accepted(parseFloat, rs);
      assert outs[1..] == Accepted(parseFloat, rs[1..]);
      if assign[0] == w {
        var mine := [rs[0]] + Received(rs[1..], assign[1..], w);
        assert mine[0] == rs[0];
        assert mine[1..] == Received(rs[1..], assign[1..], w);
      }
    }
  }

  /** One more record decoded and buffered: the accumulator over the next prefix of the devices. */
  lemma DecodeStep(parseFloat: string -> FloatResult, received: seq<Record>, all: seq<Device>, i: nat, next: nat,
                   emitted: seq<seq<Device>>, devices: seq<Device>)
    requires all == Somes(Accepted(parseFloat, received)) && |all| == |received|
    requires i < |received| && next == i + 1
    requires Accumulate(all[..i], BatchSize) == Buffered(emitted, devices)
    ensures var b := devices + [Decode(parseFloat, received[i])];
      Accumulate(all[..next], BatchSize) == if |b| >= BatchSize then Buffered(emitted + [b], []) else Buffered(emitted, b)
  {
    AcceptedAt(parseFloat, received, i);
    AccumulateStep(all, i, next, BatchSize);
  }

  /**
   * The process-wide state of main.go: the two counters and the
   * connection, with, for the proofs, every sleep taken and every
   * insertBatch call made since the pipeline was set up.
   */
  class Pipeline {
    var totalRows: nat
    var processedRows: nat
    /** The durations, in seconds, of the time.Sleep calls of insertBatch, in order. */
    var sleeps: seq<nat>
    /** The device slices passed to insertBatch, in order. */
    ghost var calls: seq<seq<Device>>
    /** The store's attempt counter and rows when the pipeline was set up. */
    ghost const firstAttempt: nat
    ghost const initialRows: seq<Device>
    const db: Database
    /** strconv.ParseFloat(_, 64), taken as given. */
    const parseFloat: string -> FloatResult

    /**
     * The counters, the sleeps and the store are exactly what the
     * insertBatch calls made so far did, one after another.
     */
    ghost predicate Valid()
      reads this, db
    {
      var run := InsertAll(db.outcome, firstAttempt, InsertPolicy, calls);
      && db.attempts == firstAttempt + run.attempts
      && db.rows == initialRows + run.committed
      && processedRows == |run.committed|
      && sleeps == run.waits
    }

    constructor (db: Database, parseFloat: string -> FloatResult)
      ensures Valid()
      ensures totalRows == 0 && processedRows == 0 && sleeps == [] && calls == []
      ensures this.db == db && this.parseFloat == parseFloat
      ensures firstAttempt == db.attempts && initialRows == db.rows
    {
      totalRows := 0;
      processedRows := 0;
      sleeps := [];
      calls := [];
      firstAttempt := db.attempts;
      initialRows := db.rows;
      this.db := db;
      this.parseFloat := parseFloat;
      new;
      assert db.rows + [] == db.rows;
    }

    /**
     * The producer goroutine: read until EOF, skip a record that fails to
     * read, count and forward every other one.
     */
    method Produce(outcomes: seq<ReadOutcome>) returns (chunks: seq<Record>)
      requires Valid()
      modifies this
      ensures Valid()
      ensures chunks == Forwarded(outcomes)
      ensures totalRows == old(totalRows) + |chunks|
      ensures processedRows == old(processedRows) && sleeps == old(sleeps) && calls == old(calls)
    {
      chunks := [];
      var i := 0;
      while i < |outcomes|
        invariant 0 <= i <= |outcomes|
        invariant chunks + Forwarded(outcomes[i..]) == Forwarded(outcomes)
        invariant totalRows == old(totalRows) + |chunks|
        invariant processedRows == old(processedRows) && sleeps == old(sleeps) && calls == old(calls)
      {
        assert outcomes[i..][0] == outcomes[i];
        assert outcomes[i..][1..] == outcomes[i + 1..];
        match outcomes[i] {
          case Eof =>
            break;
          case ReadError =>
          case Row(r) =>
            totalRows := totalRows + 1;
            chunks := chunks + [r];
        }
        i := i + 1;
      }
    }

    /**
     * insertBatch: up to three attempts, a sleep of 2, 4 and then 8 seconds
     * after each failure, processedRows advanced on the first success.
     */
    method InsertBatch(devices: seq<Device>)
      requires Valid()
      modifies this, db
      ensures Valid()
      ensures calls == old(calls) + [devices] && totalRows == old(totalRows)
      ensures var r := Attempt(db.outcome, old(db.attempts), InsertPolicy);
        && db.attempts == old(db.attempts) + r.attempts
        && db.rows == (if r.ok then old(db.rows) + devices else old(db.rows))
        && processedRows == old(processedRows) + (if r.ok then |devices| else 0)
        && sleeps == old(sleeps) + r.waits
    {
      ghost var a0 := db.attempts;
      calls := calls + [devices];
      ghost var slept: seq<nat> := [];
      var maxRetries := 3;
      var retryInterval := 2;
      var retries := 0;
      ghost var next, left := a0, maxRetries;
      ghost var whole := Attempt(db.outcome, a0, InsertPolicy);
      while retries < maxRetries
        invariant 0 <= retries <= maxRetries
        invariant next == a0 + retries && left == maxRetries - retries
        invariant db.attempts == next
        invariant db.rows == old(db.rows) && processedRows == old(processedRows) && totalRows == old(totalRows)
        invariant sleeps == old(sleeps) + slept && calls == old(calls) + [devices]
        invariant Resumes(whole, db.outcome, retries, slept, next, left, retryInterval, 2)
      {
        var ok := db.Create(devices);
        if ok {
          processedRows := processedRows + |devices|;
          break;
        }
        ghost var wait, done, first, remaining, before := retryInterval, retries, next, left, slept;
        AppendAssoc(old(sleeps), slept, [retryInterval]);
        sleeps := sleeps + [retryInterval];
        retryInterval := retryInterval * 2;
        retries := retries + 1;
        next, left := next + 1, left - 1;
        slept := slept + [wait];
        RetryAdvance(whole, db.outcome, done, before, first, remaining, wait, 2, retries, slept, next, left, retryInterval);
      }
      assert slept + [] == slept;
      Logged(old(calls), devices, a0);
    }

    /** The insertBatch call just made, with attempts from `a0` on, extends the run Valid describes. */
    lemma Logged(earlier: seq<seq<Device>>, devices: seq<Device>, a0: nat)
      requires calls == earlier + [devices]
      requires a0 == firstAttempt + InsertAll(db.outcome, firstAttempt, InsertPolicy, earlier).attempts
      ensures var before := InsertAll(db.outcome, firstAttempt, InsertPolicy, earlier);
        var run := InsertAll(db.outcome, firstAttempt, InsertPolicy, calls);
        var r := Attempt(db.outcome, a0, InsertPolicy);
        && run.attempts == before.attempts + r.attempts
        && initialRows + run.committed == (if r.ok then (initialRows + before.committed) + devices else initialRows + before.committed)
        && |run.committed| == |before.committed| + (if r.ok then |devices| else 0)
        && run.waits == before.waits + r.waits
    {
      InsertAllSnoc(db.outcome, firstAttempt, InsertPolicy, earlier, devices, a0);
      AppendAssoc(initialRows, InsertAll(db.outcome, firstAttempt, InsertPolicy, earlier).committed, devices);
    }

    /**
     * The end of processChunk's loop body: append the device to the buffer
     * and, once the buffer holds 500 devices, insert it and empty it.
     */
    method Push(devices: seq<Device>, device: Device) returns (rest: seq<Device>)
      requires Valid()
      modifies this, db
      ensures Valid() && totalRows == old(totalRows)
      ensures var b := devices + [device];
        && rest == (if |b| >= BatchSize then [] else b)
        && calls == old(calls) + (if |b| >= BatchSize then [b] else [])
    {
      rest := devices + [device];
      if |rest| >= BatchSize {
        InsertBatch(rest);
        rest := [];
      } else {
        assert calls + [] == calls;
      }
    }

    /**
     * One worker: decode every record it receives, insert a batch whenever
     * 500 devices are buffered, and insert what is left at the end.
     */
    method ProcessChunk(received: seq<Record>)
      requires Valid()
      modifies this, db
      ensures Valid()
      ensures calls == old(calls) + Batches(Somes(Accepted(parseFloat, received)), BatchSize)
      ensures totalRows == old(totalRows)
    {
      ghost var all := Somes(Accepted(parseFloat, received));
      ghost var calls0 := calls;
      ghost var emitted: seq<seq<Device>> := [];
      var devices: seq<Device> := [];
      var i := 0;
      while i < |received|
        invariant 0 <= i <= |received| && |all| == |received|
        invariant Valid()
        invariant Accumulate(all[..i], BatchSize) == Buffered(emitted, devices)
        invariant calls == calls0 + emitted && totalRows == old(totalRows)
      {
        var device := Decode(parseFloat, received[i]);
        DecodeStep(parseFloat, received, all, i, i + 1, emitted, devices);
        ghost var b := devices + [device];
        ghost var flushed: seq<seq<Device>> := if |b| >= BatchSize then [b] else [];
        devices := Push(devices, device);
        AppendAssoc(calls0, emitted, flushed);
        assert emitted + [] == emitted;
        emitted := emitted + flushed;
        i := i + 1;
      }
      AccumulateDone(all, i, BatchSize, emitted, devices);
      if |devices| > 0 {
        AppendAssoc(calls0, emitted, [devices]);
        InsertBatch(devices);
      }
    }

    /**
     * processFile: skip the header (a failed header read is fatal, so
     * nothing happens), forward the records, and let the workers, worker 0
     * first, each process the records `assign` gives it. The rows the
     * store commits never outnumber those read; with a store that never
     * fails they are exactly the decoded records.
     */
    method ProcessFile(outcomes: seq<ReadOutcome>, assign: seq<nat>) returns (started: bool)
      requires Valid()
      requires Assignment(assign, |DataRecords(outcomes)|, NumWorkers)
      modifies this, db
      ensures Valid()
      ensures started == HeaderOk(outcomes)
      ensures !started ==> totalRows == old(totalRows) && calls == old(calls)
      ensures started ==>
        && totalRows == old(totalRows) + |DataRecords(outcomes)|
        && calls == old(calls) + AllBatches(PerWorker(Accepted(parseFloat, DataRecords(outcomes)), assign, NumWorkers))
      ensures started ==>
        var run := RunWorkers(db.outcome, old(db.attempts), InsertPolicy, Accepted(parseFloat, DataRecords(outcomes)), assign, NumWorkers);
        && processedRows == old(processedRows) + |run.committed|
        && db.rows == old(db.rows) + run.committed
        && db.attempts == old(db.attempts) + run.attempts
        && sleeps == old(sleeps) + run.waits
      ensures processedRows - old(processedRows) <= totalRows - old(totalRows)
      ensures started && (forall k :: db.outcome(k)) ==>
        && processedRows - old(processedRows) == totalRows - old(totalRows)
        && multiset(db.rows) == multiset(old(db.rows)) + multiset(Somes(Accepted(parseFloat, DataRecords(outcomes))))
    {
      ghost var calls0 := calls;
      ghost var run0 := InsertAll(db.outcome, firstAttempt, InsertPolicy, calls);
      started := HeaderOk(outcomes);
      if !started {
        return;
      }
      var chunks := Produce(outcomes[1..]);
      ghost var outs := Accepted(parseFloat, chunks);
      ghost var t0 := totalRows;
      var w := 0;
      while w < NumWorkers
        invariant 0 <= w <= NumWorkers
        invariant Valid()
        invariant calls == old(calls) + AllBatches(PerWorker(outs, assign, w)) && totalRows == t0
      {
        var next := w + 1;
        ghost var groups := PerWorker(outs, assign, w);
        ghost var mine := Somes(Received(outs, assign, w));
        PerWorkerSnoc(outs, assign, w, next);
        ReceivedAccepted(parseFloat, chunks, assign, w);
        AllBatchesSnoc(groups, mine);
        AppendAssoc(old(calls), AllBatches(groups), Batches(mine, BatchSize));
        ProcessChunk(Received(chunks, assign, w));
        w := next;
      }
      assert chunks == DataRecords(outcomes);
      ghost var bs := AllBatches(PerWorker(outs, assign, NumWorkers));
      ghost var run := InsertAll(db.outcome, old(db.attempts), InsertPolicy, bs);
      assert run == RunWorkers(db.outcome, old(db.attempts), InsertPolicy, outs, assign, NumWorkers);
      assert calls == calls0 + bs;
      InsertAllConcat(db.outcome, firstAttempt, InsertPolicy, calls0, bs, old(db.attempts));
      ghost var whole := InsertAll(db.outcome, firstAttempt, InsertPolicy, calls);
      assert whole.committed == run0.committed + run.committed;
      AppendAssoc(initialRows, run0.committed, run.committed);
      assert db.rows == old(db.rows) + run.committed;
      assert processedRows == old(processedRows) + |run.committed|;
      assert sleeps == old(sleeps) + run.waits;
      assert db.attempts == old(db.attempts) + run.attempts;
      Committed(db.outcome, old(db.attempts), InsertPolicy, outs, assign, NumWorkers);
      AcceptedAll(parseFloat, chunks);
      if forall k :: db.outcome(k) {
        assert |run.committed| == |multiset(run.committed)| == |multiset(Somes(outs))| == |Somes(outs)|;
      }
    }
  }

  /**
   * initDB's loop: up to five connection attempts, a sleep of 3, 9, 27,
   * 81 and then 243 seconds after each failure. `connect(k)` says whether
   * the k-th gorm.Open succeeds; giving up is fatal in the source.
   */
  method InitDB(connect: nat -> bool) returns (connected: bool, attempts: nat, waits: seq<nat>)
    ensures var r := Attempt(connect, 0, ConnectPolicy);
      connected == r.ok && attempts == r.attempts && waits == r.waits
  {
    var maxRetries := 5;
    var retryInterval := 3;
    var retries := 0;
    ghost var left := maxRetries;
    connected := false;
    waits := [];
    while retries < maxRetries
      invariant 0 <= retries <= maxRetries
      invariant left == maxRetries - retries
      invariant var whole := Attempt(connect, 0, ConnectPolicy);
        var rest := Retry(connect, retries, left, retryInterval, 3);
        whole.ok == rest.ok && whole.attempts == retries + rest.attempts && whole.waits == waits + rest.waits
      invariant !connected
    {
      if connect(retries) {
        connected := true;
        assert waits + [] == waits;
        break;
      }
      ghost var wait := retryInterval;
      ghost var before := waits;
      waits := waits + [retryInterval];
      retryInterval := retryInterval * 3;
      retries := retries + 1;
      left := left - 1;
      RetryFailure(connect, retries - 1, left + 1, wait, 3, retries, left, retryInterval);
      AppendAssoc(before, [wait], Retry(connect, retries, left, retryInterval, 3).waits);
    }
    assert waits + [] == waits;
    attempts := if connected then retries + 1 else retries;
  }

  /**
   * initDB connects exactly when one of its five attempts would, and gives
   * up only after all five, having slept 3, 9, 27, 81 and 243 seconds.
   */
  lemma ConnectOutcome(connect: nat -> bool)
    ensures var r := Attempt(connect, 0, ConnectPolicy);
      && (r.ok <==> exists k :: 0 <= k < 5 && connect(k))
      && (!r.ok ==> r.attempts == 5 && r.waits == [3, 9, 27, 81, 243])
      && (r.ok ==> 1 <= r.attempts <= 5 && connect(r.attempts - 1) && r.waits == [3, 9, 27, 81, 243][..r.attempts - 1])
  {
    var r := Attempt(connect, 0, ConnectPolicy);
    RetryBounds(connect, 0, 5, 3, 3);
    RetryStopsAtFirstSuccess(connect, 0, 5, 3, 3);
    RetryWaits(connect, 0, 5, 3, 3);
    var schedule := [3, 9, 27, 81, 243];
    assert Pow(3, 1) == 3 && Pow(3, 2) == 9 && Pow(3, 3) == 27 && Pow(3, 4) == 81;
    assert r.waits == schedule[..|r.waits|];
  }

  /**
   * insertBatch commits the batch exactly when one of its three attempts
   * succeeds; when all three fail it has slept 2, 4 and 8 seconds, the
   * last sleep coming after the final failure.
   */
  lemma InsertOutcome(outcome: nat -> bool, first: nat)
    ensures var r := Attempt(outcome, first, InsertPolicy);
      && (r.ok <==> exists k :: first <= k < first + 3 && outcome(k))
      && (!r.ok ==> r.attempts == 3 && r.waits == [2, 4, 8])
      && (r.ok ==> 1 <= r.attempts <= 3 && outcome(first + r.attempts - 1) && r.waits == [2, 4, 8][..r.attempts - 1])
  {
    var r := Attempt(outcome, first, InsertPolicy);
    RetryBounds(outcome, first, 3, 2, 2);
    RetryStopsAtFirstSuccess(outcome, first, 3, 2, 2);
    RetryWaits(outcome, first, 3, 2, 2);
    var schedule := [2, 4, 8];
    assert Pow(2, 1) == 2 && Pow(2, 2) == 4;
    assert r.waits == schedule[..|r.waits|];
  }
}
