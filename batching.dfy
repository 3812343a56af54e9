/** How a worker cuts the devices it accepts into insert batches. */
module Batching {

  /** batchSize in both revisions of processChunk. */
  const BatchSize := 500

  /**
   * The batches a worker hands to insertBatch for the devices it accepted,
   * in order: full batches of n while more than n remain, then the rest.
   */
  function Batches<T>(s: seq<T>, n: nat): seq<seq<T>>
    requires n > 0
    decreases |s|
  {
    if |s| == 0 then [] else if |s| <= n then [s] else [s[..n]] + Batches(s[n..], n)
  }

  lemma AppendAssoc<T>(a: seq<T>, b: seq<T>, c: seq<T>)
    ensures (a + b) + c == a + (b + c)
  {
  }

  function Flatten<T>(bs: seq<seq<T>>): seq<T>
    decreases |bs|
  {
    if |bs| == 0 then [] else bs[0] + Flatten(bs[1..])
  }

  lemma {:induction false} FlattenAppend<T>(bs: seq<seq<T>>, b: seq<T>)
    ensures Flatten(bs + [b]) == Flatten(bs) + b
    decreases |bs|
  {
    if |bs| > 0 {
      assert (bs + [b])[1..] == bs[1..] + [b];
      FlattenAppend(bs[1..], b);
    }
  }

  lemma {:induction false} FlattenConcat<T>(xs: seq<seq<T>>, ys: seq<seq<T>>)
    ensures Flatten(xs + ys) == Flatten(xs) + Flatten(ys)
    decreases |xs|
  {
    if |xs| > 0 {
      assert (xs + ys)[0] == xs[0];
      assert (xs + ys)[1..] == xs[1..] + ys;
      FlattenConcat(xs[1..], ys);
    } else {
      assert xs + ys == ys;
    }
  }

  /** The accumulator drops nothing and duplicates nothing: the batches concatenate back to the input. */
  lemma {:induction false} FlattenBatches<T>(s: seq<T>, n: nat)
    requires n > 0
    ensures Flatten(Batches(s, n)) == s
    decreases |s|
  {
    if |s| > n {
      FlattenBatches(s[n..], n);
      assert s[..n] + s[n..] == s;
    }
  }

  /** Every batch holds 1 to n items, and every batch but the last holds exactly n. */
  lemma {:induction false} BatchSizes<T>(s: seq<T>, n: nat)
    requires n > 0
    ensures forall i :: 0 <= i < |Batches(s, n)| ==> 0 < |Batches(s, n)[i]| <= n
    ensures forall i :: 0 <= i < |Batches(s, n)| - 1 ==> |Batches(s, n)[i]| == n
    decreases |s|
  {
    if |s| > n {
      BatchSizes(s[n..], n);
      var bs := Batches(s, n);
      assert bs == [s[..n]] + Batches(s[n..], n);
      forall i | 1 <= i < |bs|
        ensures bs[i] == Batches(s[n..], n)[i - 1]
      {
      }
    }
  }

  /** A full buffer becomes one batch of its own, whatever follows it. */
  lemma FullBatch<T>(b: seq<T>, rest: seq<T>, n: nat)
    requires n > 0 && |b| == n
    ensures Batches(b + rest, n) == [b] + Batches(rest, n)
  {
    if |rest| == 0 {
      assert b + rest == b;
    } else {
      assert (b + rest)[..n] == b;
      assert (b + rest)[n..] == rest;
    }
  }

  /** Batches of exactly n become batches of their own, whatever follows them. */
  lemma {:induction false} FullBatches<T>(bs: seq<seq<T>>, rest: seq<T>, n: nat)
    requires n > 0
    requires forall i :: 0 <= i < |bs| ==> |bs[i]| == n
    ensures Batches(Flatten(bs) + rest, n) == bs + Batches(rest, n)
    decreases |bs|
  {
    if |bs| > 0 {
      FullBatches(bs[1..], rest, n);
      AppendAssoc(bs[0], Flatten(bs[1..]), rest);
      FullBatch(bs[0], Flatten(bs[1..]) + rest, n);
      assert Flatten(bs) + rest == bs[0] + (Flatten(bs[1..]) + rest);
      AppendAssoc([bs[0]], bs[1..], Batches(rest, n));
      assert bs == [bs[0]] + bs[1..];
    } else {
      assert Flatten(bs) + rest == rest;
      assert bs + Batches(rest, n) == Batches(rest, n);
    }
  }

  /** The accumulator's state: the batches already handed over and the devices still buffered. */
  datatype Buffered<T> = Buffered(flushed: seq<seq<T>>, pending: seq<T>)

  /**
   * The accumulator as processChunk runs it, item by item: append to the
   * buffer, and hand the buffer over as soon as it holds n items.
   */
  function Accumulate<T>(s: seq<T>, n: nat): Buffered<T>
    requires n > 0
    decreases |s|
  {
    if |s| == 0 then Buffered([], [])
    else
      var c := Accumulate(s[..|s| - 1], n);
      var b := c.pending + [s[|s| - 1]];
      if |b| >= n then Buffered(c.flushed + [b], []) else Buffered(c.flushed, b)
  }

  lemma AccumulateSnoc<T>(s: seq<T>, x: T, n: nat)
    requires n > 0
    ensures var c := Accumulate(s, n);
      var b := c.pending + [x];
      var d := Accumulate(s + [x], n);
      && d.flushed == (if |b| >= n then c.flushed + [b] else c.flushed)
      && d.pending == (if |b| >= n then [] else b)
  {
    assert (s + [x])[..|s|] == s;
  }

  /**
   * The accumulator's invariant: the buffer is never full, every batch
   * handed over is full, and nothing is lost or duplicated.
   */
  lemma {:induction false} AccumulateShape<T>(s: seq<T>, n: nat)
    requires n > 0
    ensures var c := Accumulate(s, n);
      && |c.pending| < n
      && Flatten(c.flushed) + c.pending == s
      && forall i :: 0 <= i < |c.flushed| ==> |c.flushed[i]| == n
    decreases |s|
  {
    if |s| > 0 {
      var init, x := s[..|s| - 1], s[|s| - 1];
      AccumulateShape(init, n);
      var c := Accumulate(init, n);
      var b := c.pending + [x];
      assert s == init + [x];
      AppendAssoc(Flatten(c.flushed), c.pending, [x]);
      if |b| >= n {
        FlattenAppend(c.flushed, b);
      }
    }
  }

  /** Handing over every full buffer and then the rest yields exactly Batches. */
  lemma AccumulateBatches<T>(s: seq<T>, n: nat)
    requires n > 0
    ensures var c := Accumulate(s, n);
      Batches(s, n) == if |c.pending| == 0 then c.flushed else c.flushed + [c.pending]
  {
    var c := Accumulate(s, n);
    AccumulateShape(s, n);
    FullBatches(c.flushed, c.pending, n);
    assert c.flushed + [] == c.flushed;
  }

  /** The accumulator over a growing prefix of `s`, one item at a time. */
  lemma AccumulateStep<T>(s: seq<T>, i: nat, next: nat, n: nat)
    requires i < |s| && next == i + 1 && n > 0
    ensures var c := Accumulate(s[..i], n);
      var b := c.pending + [s[i]];
      Accumulate(s[..next], n) == if |b| >= n then Buffered(c.flushed + [b], []) else Buffered(c.flushed, b)
  {
    assert s[..next] == s[..i] + [s[i]];
    AccumulateSnoc(s[..i], s[i], n);
  }

  /** The accumulator after all of `s`: its batches and then its buffer, if any, are Batches. */
  lemma AccumulateDone<T>(s: seq<T>, i: nat, n: nat, flushed: seq<seq<T>>, pending: seq<T>)
    requires i == |s| && n > 0
    requires Accumulate(s[..i], n) == Buffered(flushed, pending)
    ensures Batches(s, n) == if |pending| == 0 then flushed else flushed + [pending]
  {
    assert s[..i] == s;
    AccumulateBatches(s, n);
  }
}
