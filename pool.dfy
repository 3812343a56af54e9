/**
 * The worker pool without its concurrency. Each forwarded record is taken
 * off the channel by exactly one worker, and each worker sees its records
 * in channel order; `assign[k]` names the worker that took record k, so
 * every split of the stream among the workers is one assignment. The
 * workers then run one after another.
 */
module Pool {
  import opened Wrappers
  import opened Models
  import opened Batching
  import opened Store

  /** A split of n records among `workers` workers. */
  predicate Assignment(assign: seq<nat>, n: nat, workers: nat) {
    |assign| == n && forall k :: 0 <= k < |assign| ==> assign[k] < workers
  }

  /** The records worker w receives, in channel order. */
  function Received<T>(s: seq<T>, assign: seq<nat>, w: nat): (r: seq<T>)
    requires |assign| == |s|
    ensures |r| <= |s|
    decreases |s|
  {
    if |s| == 0 then []
    else if assign[0] == w then [s[0]] + Received(s[1..], assign[1..], w)
    else Received(s[1..], assign[1..], w)
  }

  /** The records received by the workers numbered below w, in channel order. */
  function ReceivedBelow<T>(s: seq<T>, assign: seq<nat>, w: nat): seq<T>
    requires |assign| == |s|
    decreases |s|
  {
    if |s| == 0 then []
    else if assign[0] < w then [s[0]] + ReceivedBelow(s[1..], assign[1..], w)
    else ReceivedBelow(s[1..], assign[1..], w)
  }

  /** The present values, in order. */
  function Somes<T>(s: seq<Option<T>>): seq<T>
    decreases |s|
  {
    if |s| == 0 then []
    else if s[0].Some? then [s[0].value] + Somes(s[1..])
    else Somes(s[1..])
  }

  lemma {:induction false} SomesAppend<T>(x: seq<Option<T>>, y: seq<Option<T>>)
    ensures Somes(x + y) == Somes(x) + Somes(y)
    decreases |x|
  {
    if |x| == 0 {
      assert x + y == y;
    } else {
      assert (x + y)[0] == x[0];
      assert (x + y)[1..] == x[1..] + y;
      SomesAppend(x[1..], y);
    }
  }

  lemma {:induction false} SomesLength<T>(s: seq<Option<T>>)
    ensures |Somes(s)| <= |s|
    decreases |s|
  {
    if |s| > 0 { SomesLength(s[1..]); }
  }

  /**
   * Adding worker w to the workers below it adds exactly what w received:
   * no record is taken by two workers and none is skipped.
   */
  lemma {:induction false} ReceivedSplit<T>(s: seq<Option<T>>, assign: seq<nat>, w: nat)
    requires |assign| == |s|
    ensures multiset(Somes(ReceivedBelow(s, assign, w + 1)))
         == multiset(Somes(ReceivedBelow(s, assign, w))) + multiset(Somes(Received(s, assign, w)))
    decreases |s|
  {
    if |s| > 0 {
      var t, at := s[1..], assign[1..];
      ReceivedSplit(t, at, w);
      var x := s[0];
      var b1, b0, r := ReceivedBelow(t, at, w + 1), ReceivedBelow(t, at, w), Received(t, at, w);
      if assign[0] == w {
        SomesCons(x, b1);
        SomesCons(x, r);
      } else if assign[0] < w {
        SomesCons(x, b1);
        SomesCons(x, b0);
      }
    }
  }

  /** What the workers below w accepted, followed by what worker w accepted, is what the workers below w + 1 accepted. */
  lemma AddWorker<T>(s: seq<Option<T>>, assign: seq<nat>, w: nat, next: nat, c: seq<T>)
    requires |assign| == |s|
    requires next == w + 1
    requires multiset(c) == multiset(Somes(ReceivedBelow(s, assign, w)))
    ensures multiset(c + Somes(Received(s, assign, w))) == multiset(Somes(ReceivedBelow(s, assign, next)))
    ensures |Somes(ReceivedBelow(s, assign, next))| == |Somes(ReceivedBelow(s, assign, w))| + |Somes(Received(s, assign, w))|
  {
    ReceivedSplit(s, assign, w);
    assert |multiset(Somes(ReceivedBelow(s, assign, next)))|
        == |multiset(Somes(ReceivedBelow(s, assign, w)))| + |multiset(Somes(Received(s, assign, w)))|;
  }

  lemma SomesFront<T>(x: Option<T>, u: seq<Option<T>>)
    ensures Somes([x] + u) == (if x.Some? then [x.value] else []) + Somes(u)
  {
    assert ([x] + u)[0] == x;
    assert ([x] + u)[1..] == u;
  }

  lemma SomesCons<T>(x: Option<T>, u: seq<Option<T>>)
    ensures multiset(Somes([x] + u)) == (if x.Some? then multiset{x.value} else multiset{}) + multiset(Somes(u))
  {
    assert ([x] + u)[0] == x;
    assert ([x] + u)[1..] == u;
  }

  /** When every record goes to a worker below W, those workers together received everything. */
  lemma {:induction false} ReceivedBelowAll<T>(s: seq<T>, assign: seq<nat>, workers: nat)
    requires Assignment(assign, |s|, workers)
    ensures ReceivedBelow(s, assign, workers) == s
    decreases |s|
  {
    if |s| > 0 {
      ReceivedBelowAll(s[1..], assign[1..], workers);
      assert [s[0]] + s[1..] == s;
    }
  }

  lemma {:induction false} ReceivedBelowNone<T>(s: seq<T>, assign: seq<nat>)
    requires |assign| == |s|
    ensures ReceivedBelow(s, assign, 0) == []
    decreases |s|
  {
    if |s| > 0 { ReceivedBelowNone(s[1..], assign[1..]); }
  }

  /** What each of the workers below W accepted, worker 0's first. */
  function PerWorker<T>(outs: seq<Option<T>>, assign: seq<nat>, workers: nat): (g: seq<seq<T>>)
    requires |assign| == |outs|
    ensures |g| == workers
    decreases workers
  {
    if workers == 0 then []
    else PerWorker(outs, assign, workers - 1) + [Somes(Received(outs, assign, workers - 1))]
  }

  lemma PerWorkerSnoc<T>(outs: seq<Option<T>>, assign: seq<nat>, w: nat, next: nat)
    requires |assign| == |outs|
    requires next == w + 1
    ensures PerWorker(outs, assign, next) == PerWorker(outs, assign, w) + [Somes(Received(outs, assign, w))]
  {
  }

  /** The workers together accepted what the workers below W received, each record once. */
  lemma {:induction false} PerWorkerPartition<T>(outs: seq<Option<T>>, assign: seq<nat>, workers: nat)
    requires |assign| == |outs|
    ensures multiset(Flatten(PerWorker(outs, assign, workers))) == multiset(Somes(ReceivedBelow(outs, assign, workers)))
    decreases workers
  {
    if workers == 0 {
      ReceivedBelowNone(outs, assign);
    } else {
      var w := workers - 1;
      PerWorkerPartition(outs, assign, w);
      var front, mine := PerWorker(outs, assign, w), Somes(Received(outs, assign, w));
      assert PerWorker(outs, assign, workers) == front + [mine];
      FlattenAppend(front, mine);
      AddWorker(outs, assign, w, workers, Flatten(front));
    }
  }

  /** Every insertBatch call of a run, worker by worker, given what each worker accepted. */
  function AllBatches<T>(groups: seq<seq<T>>): seq<seq<T>>
    decreases |groups|
  {
    if |groups| == 0 then []
    else AllBatches(groups[..|groups| - 1]) + Batches(groups[|groups| - 1], BatchSize)
  }

  /** One more worker appends its own batches. */
  lemma AllBatchesSnoc<T>(groups: seq<seq<T>>, mine: seq<T>)
    ensures AllBatches(groups + [mine]) == AllBatches(groups) + Batches(mine, BatchSize)
  {
    assert (groups + [mine])[..|groups|] == groups;
  }

  /**
   * Every accepted record goes to exactly one insertBatch call, in order,
   * and every call holds 1 to BatchSize devices.
   */
  lemma {:induction false} AllBatchesExactlyOnce<T>(groups: seq<seq<T>>)
    ensures Flatten(AllBatches(groups)) == Flatten(groups)
    ensures forall i :: 0 <= i < |AllBatches(groups)| ==> 0 < |AllBatches(groups)[i]| <= BatchSize
    decreases |groups|
  {
    if |groups| > 0 {
      var init, last := groups[..|groups| - 1], groups[|groups| - 1];
      AllBatchesExactlyOnce(init);
      var front, bs := AllBatches(init), Batches(last, BatchSize);
      var all := front + bs;
      assert AllBatches(groups) == all;
      FlattenConcat(front, bs);
      FlattenBatches(last, BatchSize);
      assert groups == init + [last];
      FlattenAppend(init, last);
      BatchSizes(last, BatchSize);
      forall i | 0 <= i < |all|
        ensures 0 < |all[i]| <= BatchSize
      {
        if i >= |front| {
          assert all[i] == bs[i - |front|];
        }
      }
    }
  }

  /**
   * A whole run as the store sees it: the workers below W, worker 0 first,
   * each cutting what the split gave it into batches, every batch going
   * through the policy from attempt number `first` on.
   */
  function RunWorkers(outcome: nat -> bool, first: nat, p: Policy, outs: seq<Option<Device>>, assign: seq<nat>, workers: nat): StoreRun
    requires |assign| == |outs|
  {
    InsertAll(outcome, first, p, AllBatches(PerWorker(outs, assign, workers)))
  }

  /**
   * The outcome of a run, for a complete split: rows committed never exceed
   * the accepted records, and with a store that never fails they are
   * exactly the accepted records, however many workers there are and
   * however the records are split among them.
   */
  lemma Committed(outcome: nat -> bool, first: nat, p: Policy, outs: seq<Option<Device>>, assign: seq<nat>, workers: nat)
    requires Assignment(assign, |outs|, workers)
    ensures |RunWorkers(outcome, first, p, outs, assign, workers).committed| <= |Somes(outs)| <= |outs|
    ensures (forall k :: outcome(k)) && p.maxAttempts > 0 ==>
      multiset(RunWorkers(outcome, first, p, outs, assign, workers).committed) == multiset(Somes(outs))
  {
    var groups := PerWorker(outs, assign, workers);
    var bs := AllBatches(groups);
    ReceivedBelowAll(outs, assign, workers);
    PerWorkerPartition(outs, assign, workers);
    AllBatchesExactlyOnce(groups);
    InsertAllBound(outcome, first, p, bs);
    assert |Flatten(groups)| == |multiset(Flatten(groups))| == |multiset(Somes(outs))| == |Somes(outs)|;
    SomesLength(outs);
    if (forall k :: outcome(k)) && p.maxAttempts > 0 {
      InsertAllNoFailure(outcome, first, p, bs);
    }
  }

  /** Two runs over the same records with different pools commit the same multiset of rows when the store never fails. */
  lemma WorkerCountIrrelevant(outcome: nat -> bool, p: Policy, outs: seq<Option<Device>>,
                              assign1: seq<nat>, workers1: nat, assign2: seq<nat>, workers2: nat)
    requires Assignment(assign1, |outs|, workers1) && Assignment(assign2, |outs|, workers2)
    requires forall k :: outcome(k)
    requires p.maxAttempts > 0
    ensures multiset(RunWorkers(outcome, 0, p, outs, assign1, workers1).committed)
         == multiset(RunWorkers(outcome, 0, p, outs, assign2, workers2).committed)
  {
    Committed(outcome, 0, p, outs, assign1, workers1);
    Committed(outcome, 0, p, outs, assign2, workers2);
  }
}
