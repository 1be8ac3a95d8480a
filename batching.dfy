/**
 * The sequential rules a consumer loop and its tasks follow for one group:
 * when the buffer is flushed as a batch, how large every batch is, and how
 * many items of a finished batch the processed counter is credited with.
 */
module Batching {
  import opened Models

  /** All items of a sequence of batches, in batch order. */
  function Concat<T>(bs: seq<seq<T>>): seq<T>
  {
    if bs == [] then [] else Concat(bs[..|bs| - 1]) + bs[|bs| - 1]
  }

  lemma ConcatAppend<T>(bs: seq<seq<T>>, b: seq<T>)
    ensures Concat(bs + [b]) == Concat(bs) + b
  {
  }

  /** Batches that all hold `n` items hold `|bs| * n` items between them. */
  lemma {:induction false} ConcatUniform<T>(bs: seq<seq<T>>, n: nat)
    requires forall k :: 0 <= k < |bs| ==> |bs[k]| == n
    ensures |Concat(bs)| == |bs| * n
  {
    if bs != [] {
      var init := bs[..|bs| - 1];
      ConcatUniform(init, n);
      assert |Concat(bs)| == |init| * n + n;
      assert |bs| * n == (|init| + 1) * n;
    }
  }

  /** Quotient and remainder of `q * n + r` when `r < n`. */
  lemma DivModUnique(q: nat, r: nat, n: nat)
    requires r < n
    ensures (q * n + r) / n == q && (q * n + r) % n == r
  {
    var x := q * n + r;
    var q', r' := x / n, x % n;
    assert q' * n + r' == x;
    if q' < q {
      MulMonotone(q - q', n);
    } else if q < q' {
      MulMonotone(q' - q, n);
    }
  }

  lemma MulMonotone(a: int, n: nat)
    requires a >= 1
    ensures a * n >= n
  {
  }

  /**
   * The flush test of the loop body: a popped payload has just been added
   * and the buffer now holds `bufferLength` items.
   */
  predicate ShouldFlush(g: ConsumerGroupOptions, bufferLength: int)
  {
    !g.processInBatch || bufferLength >= g.batchSize
  }

  /**
   * The number of items every flushed batch of the group holds: `BatchSize`
   * in batch mode with a positive batch size, otherwise 1 (a non-positive
   * batch size lets every single item pass the flush test).
   */
  function FlushSize(g: ConsumerGroupOptions): (n: nat)
    ensures n >= 1
    ensures g.processInBatch && g.batchSize >= 1 ==> n == g.batchSize
  {
    if g.processInBatch && g.batchSize >= 1 then g.batchSize else 1
  }

  /**
   * Starting from a buffer shorter than FlushSize, adding one item passes
   * the flush test exactly when the buffer reaches FlushSize.
   */
  lemma FlushExactlyAtFlushSize(g: ConsumerGroupOptions, bufferLength: int)
    requires 1 <= bufferLength <= FlushSize(g)
    ensures ShouldFlush(g, bufferLength) <==> bufferLength == FlushSize(g)
  {
  }

  /**
   * Popped items, in pop order, split into full batches and a buffer that
   * is not full: the number of batches and the buffer length are the
   * quotient and remainder of the item count by the batch size.
   */
  lemma PoppedSplit<T>(bs: seq<seq<T>>, buffer: seq<T>, n: nat)
    requires n >= 1 && |buffer| < n
    requires forall k :: 0 <= k < |bs| ==> |bs[k]| == n
    ensures |bs| == |Concat(bs) + buffer| / n
    ensures |buffer| == |Concat(bs) + buffer| % n
  {
    ConcatUniform(bs, n);
    DivModUnique(|bs|, |buffer|, n);
  }

  /**
   * How a dispatched task's handler calls ended: all returned, or the call
   * for item `at` of the batch threw (a batch processor is called once,
   * so any `at` stands for its throw).
   */
  datatype Outcome = Succeeded | Threw(at: nat)

  predicate OutcomeFits<T>(outcome: Outcome, batch: seq<T>)
  {
    outcome.Threw? ==> outcome.at < |batch|
  }

  /** The task hands the whole batch to the batch processor. */
  predicate UsesBatchProcessor(g: ConsumerGroupOptions)
  {
    g.processInBatch && g.hasBatchProcessor
  }

  /** Some handler is called on the batch. */
  predicate Handles(g: ConsumerGroupOptions)
  {
    UsesBatchProcessor(g) || g.hasSingleProcessor
  }

  /**
   * The items of a dispatched batch whose handling completed, which are
   * the ones the processed counter is credited with.
   */
  function Completed<T>(g: ConsumerGroupOptions, batch: seq<T>, outcome: Outcome): (done: seq<T>)
    requires OutcomeFits(outcome, batch)
    ensures done <= batch
    ensures done == batch <==> batch == [] || (outcome.Succeeded? && Handles(g))
    ensures UsesBatchProcessor(g) && outcome.Threw? ==> done == []
    ensures !Handles(g) ==> done == []
  {
    if UsesBatchProcessor(g) then
      if outcome.Succeeded? then batch else []
    else if g.hasSingleProcessor then
      if outcome.Succeeded? then batch else batch[..outcome.at]
    else
      []
  }

  /**
   * On the single-item path every item before the one that threw is
   * counted, and nothing after it.
   */
  lemma SingleItemPathStopsAtThrow<T>(g: ConsumerGroupOptions, batch: seq<T>, at: nat)
    requires !UsesBatchProcessor(g) && g.hasSingleProcessor && at < |batch|
    ensures |Completed(g, batch, Threw(at))| == at
    ensures Completed(g, batch, Threw(at)) + [batch[at]] <= batch
  {
  }

  /**
   * Batch mode without a batch processor takes the single-item path,
   * exactly as if the group were not in batch mode.
   */
  lemma BatchModeWithoutBatchProcessor<T>(g: ConsumerGroupOptions, batch: seq<T>, outcome: Outcome)
    requires g.processInBatch && !g.hasBatchProcessor && OutcomeFits(outcome, batch)
    ensures Completed(g, batch, outcome) == Completed(g.(processInBatch := false), batch, outcome)
  {
  }

  /**
   * The body of a dispatched task: call the batch processor once, or the
   * single processor item by item until one call throws, counting the
   * items handled.
   */
  method RunTask<T>(g: ConsumerGroupOptions, batch: seq<T>, outcome: Outcome) returns (count: nat)
    requires OutcomeFits(outcome, batch)
    ensures count == |Completed(g, batch, outcome)|
    ensures count <= |batch|
  {
    count := 0;
    if g.processInBatch && g.hasBatchProcessor {
      if outcome.Succeeded? {
        count := |batch|;
      }
    } else if g.hasSingleProcessor {
      var t := 0;
      while t < |batch|
        invariant t <= |batch|
        invariant count == t
        invariant outcome.Threw? ==> t <= outcome.at
      {
        if outcome.Threw? && outcome.at == t {
          // the handler threw on batch[t]: the rest of the batch is lost
          break;
        }
        count := count + 1;
        t := t + 1;
      }
    }
  }

  /** A default group is in single mode: every popped item is flushed alone. */
  lemma DefaultGroupFlushesEachItem(name: string)
    ensures FlushSize(DefaultGroupOptions(name)) == 1
    ensures ShouldFlush(DefaultGroupOptions(name), 1)
  {
  }

  /** A default group has no handler: its tasks credit nothing. */
  lemma DefaultGroupCountsNothing<T>(name: string, batch: seq<T>, outcome: Outcome)
    requires OutcomeFits(outcome, batch)
    ensures Completed(DefaultGroupOptions(name), batch, outcome) == []
  {
  }
}
