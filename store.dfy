/**
 * The persistent store as the core sees it: a bulk insert (GORM's
 * db.Create) whose every attempt succeeds or fails as an oracle says, and
 * the bounded retry with backoff that the writers wrap around it.
 */
module Store {
  import opened Models
  import opened Batching

  /**
   * The devices table. `outcome(k)` says whether the k-th insert attempt
   * ever made succeeds; a failed attempt inserts nothing (GORM wraps the
   * bulk insert in one transaction).
   */
  class Database {
    var rows: seq<Device>
    var attempts: nat
    const outcome: nat -> bool

    constructor (outcome: nat -> bool)
      ensures rows == [] && attempts == 0 && this.outcome == outcome
    {
      rows := [];
      attempts := 0;
      this.outcome := outcome;
    }

    /** db.Create(&devices): err == nil exactly when the oracle says so. */
    method Create(batch: seq<Device>) returns (ok: bool)
      modifies this
      ensures ok == outcome(old(attempts))
      ensures attempts == old(attempts) + 1
      ensures rows == if ok then old(rows) + batch else old(rows)
    {
      ok := outcome(attempts);
      if ok {
        rows := rows + batch;
      }
      attempts := attempts + 1;
    }
  }

  /**
   * A retry loop: at most `maxAttempts` attempts, a sleep of `firstWait`
   * seconds after the first failure, multiplied by `factor` after each.
   */
  datatype Policy = Policy(maxAttempts: nat, firstWait: nat, factor: nat)

  /** Whether some attempt succeeded, how many were made, and the sleeps taken. */
  datatype RetryResult = RetryResult(ok: bool, attempts: nat, waits: seq<nat>)

  /**
   * The retry loop run from attempt number `first`, with `remaining`
   * attempts left and `wait` the next sleep: stop at the first success,
   * sleep after every failure, the last one included.
   */
  function Retry(outcome: nat -> bool, first: nat, remaining: nat, wait: nat, factor: nat): RetryResult
    decreases remaining
  {
    if remaining == 0 then RetryResult(false, 0, [])
    else if outcome(first) then RetryResult(true, 1, [])
    else
      var r := Retry(outcome, first + 1, remaining - 1, wait * factor, factor);
      RetryResult(r.ok, r.attempts + 1, [wait] + r.waits)
  }

  /** A failed attempt costs one attempt and one sleep, then the loop goes on with the next wait. */
  lemma RetryFailure(outcome: nat -> bool, first: nat, remaining: nat, wait: nat, factor: nat,
                     next: nat, left: nat, nextWait: nat)
    requires remaining > 0 && !outcome(first)
    requires next == first + 1 && left == remaining - 1 && nextWait == wait * factor
    ensures var r := Retry(outcome, first, remaining, wait, factor);
      var s := Retry(outcome, next, left, nextWait, factor);
      r.ok == s.ok && r.attempts == s.attempts + 1 && r.waits == [wait] + s.waits
  {
  }

  /**
   * Where a retry loop stands: `done` attempts made and `slept` slept, it
   * will finish as `whole` if it goes on from attempt `first` with
   * `remaining` attempts and the wait `wait`.
   */
  ghost predicate Resumes(whole: RetryResult, outcome: nat -> bool, done: nat, slept: seq<nat>,
                          first: nat, remaining: nat, wait: nat, factor: nat)
  {
    var rest := Retry(outcome, first, remaining, wait, factor);
    whole.ok == rest.ok && whole.attempts == done + rest.attempts && whole.waits == slept + rest.waits
  }

  /** After a failed attempt and its sleep, the loop still finishes as `whole`. */
  lemma RetryAdvance(whole: RetryResult, outcome: nat -> bool, done: nat, slept: seq<nat>,
                     first: nat, remaining: nat, wait: nat, factor: nat,
                     done': nat, slept': seq<nat>, next: nat, left: nat, nextWait: nat)
    requires Resumes(whole, outcome, done, slept, first, remaining, wait, factor)
    requires remaining > 0 && !outcome(first)
    requires done' == done + 1 && slept' == slept + [wait]
    requires next == first + 1 && left == remaining - 1 && nextWait == wait * factor
    ensures Resumes(whole, outcome, done', slept', next, left, nextWait, factor)
  {
    RetryFailure(outcome, first, remaining, wait, factor, next, left, nextWait);
    AppendAssoc(slept, [wait], Retry(outcome, next, left, nextWait, factor).waits);
  }

  /** The whole loop of a policy, from a given attempt number. */
  function Attempt(outcome: nat -> bool, first: nat, p: Policy): RetryResult {
    Retry(outcome, first, p.maxAttempts, p.firstWait, p.factor)
  }

  function Pow(b: nat, e: nat): nat
    decreases e
  {
    if e == 0 then 1 else b * Pow(b, e - 1)
  }

  /**
   * At most `remaining` attempts; it gives up only after all of them, and a
   * success ends the loop with one sleep per earlier failure.
   */
  lemma {:induction false} RetryBounds(outcome: nat -> bool, first: nat, remaining: nat, wait: nat, factor: nat)
    ensures var r := Retry(outcome, first, remaining, wait, factor);
      && r.attempts <= remaining
      && (remaining > 0 ==> r.attempts >= 1)
      && (r.ok ==> |r.waits| == r.attempts - 1)
      && (!r.ok ==> r.attempts == remaining && |r.waits| == remaining)
    decreases remaining
  {
    if remaining > 0 && !outcome(first) {
      RetryBounds(outcome, first + 1, remaining - 1, wait * factor, factor);
    }
  }

  /**
   * The loop succeeds exactly when one of its attempts would, and it stops
   * at the first of them: every attempt before the last one made failed.
   */
  lemma {:induction false} RetryStopsAtFirstSuccess(outcome: nat -> bool, first: nat, remaining: nat, wait: nat, factor: nat)
    ensures var r := Retry(outcome, first, remaining, wait, factor);
      && (r.ok <==> exists k :: first <= k < first + remaining && outcome(k))
      && (r.ok ==> r.attempts >= 1 && outcome(first + r.attempts - 1))
      && (forall k :: first <= k < first + r.attempts && (r.ok ==> k < first + r.attempts - 1) ==> !outcome(k))
    decreases remaining
  {
    if remaining > 0 && !outcome(first) {
      RetryStopsAtFirstSuccess(outcome, first + 1, remaining - 1, wait * factor, factor);
      var r := Retry(outcome, first + 1, remaining - 1, wait * factor, factor);
      if r.ok {
        var k :| first + 1 <= k < first + 1 + (remaining - 1) && outcome(k);
        assert first <= k < first + remaining;
      }
    }
  }

  /** The i-th sleep lasts firstWait * factor^i seconds: exponential backoff. */
  lemma {:induction false} RetryWaits(outcome: nat -> bool, first: nat, remaining: nat, wait: nat, factor: nat)
    ensures var r := Retry(outcome, first, remaining, wait, factor);
      forall i :: 0 <= i < |r.waits| ==> r.waits[i] == wait * Pow(factor, i)
    decreases remaining
  {
    if remaining > 0 && !outcome(first) {
      RetryWaits(outcome, first + 1, remaining - 1, wait * factor, factor);
      var r := Retry(outcome, first + 1, remaining - 1, wait * factor, factor);
      var w := [wait] + r.waits;
      forall i | 1 <= i < |w|
        ensures w[i] == wait * Pow(factor, i)
      {
        assert w[i] == r.waits[i - 1] == wait * factor * Pow(factor, i - 1);
      }
    }
  }

  /** What a sequence of batches did to the store: attempts used, rows committed, sleeps taken. */
  datatype StoreRun = StoreRun(attempts: nat, committed: seq<Device>, waits: seq<nat>)

  /**
   * The batches of one worker inserted one after another, each with the
   * policy's retry loop; a batch whose loop gives up is lost.
   */
  function InsertAll(outcome: nat -> bool, first: nat, p: Policy, bs: seq<seq<Device>>): StoreRun
    decreases |bs|
  {
    if |bs| == 0 then StoreRun(0, [], [])
    else
      var r := InsertAll(outcome, first, p, bs[..|bs| - 1]);
      var t := Attempt(outcome, first + r.attempts, p);
      StoreRun(r.attempts + t.attempts, r.committed + (if t.ok then bs[|bs| - 1] else []), r.waits + t.waits)
  }

  /** No more rows are committed than the batches hold. */
  lemma {:induction false} InsertAllBound(outcome: nat -> bool, first: nat, p: Policy, bs: seq<seq<Device>>)
    ensures |InsertAll(outcome, first, p, bs).committed| <= |Flatten(bs)|
    decreases |bs|
  {
    if |bs| > 0 {
      var front := bs[..|bs| - 1];
      InsertAllBound(outcome, first, p, front);
      assert bs == front + [bs[|bs| - 1]];
      FlattenAppend(front, bs[|bs| - 1]);
    }
  }

  /**
   * A store that never fails commits every batch exactly once, in order,
   * with one attempt per batch and no sleep.
   */
  lemma {:induction false} InsertAllNoFailure(outcome: nat -> bool, first: nat, p: Policy, bs: seq<seq<Device>>)
    requires forall k :: outcome(k)
    requires p.maxAttempts > 0
    ensures InsertAll(outcome, first, p, bs) == StoreRun(|bs|, Flatten(bs), [])
    decreases |bs|
  {
    if |bs| > 0 {
      var front := bs[..|bs| - 1];
      InsertAllNoFailure(outcome, first, p, front);
      assert bs == front + [bs[|bs| - 1]];
      FlattenAppend(front, bs[|bs| - 1]);
    }
  }

  /**
   * One more batch: the fold takes one more retry loop, starting at `at`,
   * the attempt after the last one the earlier batches made.
   */
  lemma InsertAllSnoc(outcome: nat -> bool, first: nat, p: Policy, bs: seq<seq<Device>>, b: seq<Device>, at: nat)
    requires at == first + InsertAll(outcome, first, p, bs).attempts
    ensures var r := InsertAll(outcome, first, p, bs);
      var t := Attempt(outcome, at, p);
      var s := InsertAll(outcome, first, p, bs + [b]);
      && s.attempts == r.attempts + t.attempts
      && s.committed == r.committed + (if t.ok then b else [])
      && s.waits == r.waits + t.waits
  {
    assert (bs + [b])[..|bs|] == bs;
  }

  /**
   * Two runs of batches back to back are one run over all of them, the
   * second starting at attempt `mid`, the one after the first run's last.
   */
  lemma {:induction false} InsertAllConcat(outcome: nat -> bool, first: nat, p: Policy, xs: seq<seq<Device>>, ys: seq<seq<Device>>, mid: nat)
    requires mid == first + InsertAll(outcome, first, p, xs).attempts
    ensures var r := InsertAll(outcome, first, p, xs);
      var t := InsertAll(outcome, mid, p, ys);
      var s := InsertAll(outcome, first, p, xs + ys);
      && s.attempts == r.attempts + t.attempts
      && s.committed == r.committed + t.committed
      && s.waits == r.waits + t.waits
    decreases |ys|
  {
    var r := InsertAll(outcome, first, p, xs);
    if |ys| == 0 {
      assert xs + ys == xs;
    } else {
      var init, y := ys[..|ys| - 1], ys[|ys| - 1];
      InsertAllConcat(outcome, first, p, xs, init, mid);
      var t0 := InsertAll(outcome, mid, p, init);
      var at := mid + t0.attempts;
      assert xs + ys == (xs + init) + [y];
      assert ys == init + [y];
      InsertAllSnoc(outcome, first, p, xs + init, y, at);
      InsertAllSnoc(outcome, mid, p, init, y, at);
      var u := Attempt(outcome, at, p);
      AppendAssoc(r.committed, t0.committed, if u.ok then y else []);
      AppendAssoc(r.waits, t0.waits, u.waits);
    }
  }
}
