/**
 * A client of the engine that uses nothing but the contracts of its steps:
 * a queue of capacity 5 with one single-mode group "G" that has a single
 * processor; the items 1 to 5 are enqueued, then the group's loop pops,
 * dispatches and finishes one task at a time.
 */
module Scenario {
  import opened Models
  import opened Batching
  import opened Engine

  /** The integers from `lo` up to, not including, `hi`. */
  function Between(lo: int, hi: int): (r: seq<int>)
    decreases hi - lo
  {
    if lo >= hi then [] else [lo] + Between(lo + 1, hi)
  }

  lemma BetweenExtend(lo: int, hi: int)
    requires lo <= hi
    ensures Between(lo, hi + 1) == Between(lo, hi) + [hi]
    decreases hi - lo
  {
    if lo < hi {
      BetweenExtend(lo + 1, hi);
    }
  }

  lemma {:induction false} BetweenLength(lo: int, hi: int)
    requires lo <= hi
    ensures |Between(lo, hi)| == hi - lo
    decreases hi - lo
  {
    if lo < hi {
      BetweenLength(lo + 1, hi);
    }
  }

  method FiveItemsReachOneGroupInOrder() returns (delivered: seq<int>, processedCount: nat)
    ensures delivered == [1, 2, 3, 4, 5]
    ensures processedCount == 5
  {
    var q := new SmartQueue<int>(QueueOptions(5, 100, false, true, 2000));
    var g := DefaultGroupOptions("G").(hasSingleProcessor := true);
    var ok := q.RegisterConsumer(g);
    EnqueueOneToFive(q, g);
    delivered := ConsumeAll(q, g);
    processedCount := q.processed;
    assert delivered == Between(1, 6);
  }

  /** A write to the table's only loop appends the item to its channel and to its written items. */
  lemma WriteToOnlyLoop<T>(l: Loop<T>, h: History<T>, item: T)
    ensures WrittenTo([l], {0}, item) == [l.(channel := l.channel + [item])]
    ensures RecordWritten([h], {0}, item) == [h.(written := h.written + [item])]
  {
  }

  /** The item `i` joins the only channel, which holds 1 to i - 1 and has room. */
  method EnqueueNext(q: SmartQueue<int>, g: ConsumerGroupOptions, i: int)
    requires q.Valid() && !q.throttled && !q.cancelled && q.options.maxQueueSize == 5 && 1 <= i <= 5
    requires q.consumers == [g] && q.channelOf == map[g.name := 0] && q.processed == 0
    requires q.loops == [Loop(Between(1, i), false, [], None, 0, [])]
    requires q.history == [History(Between(1, i), [], [])]
    modifies q
    ensures q.Valid() && !q.throttled && !q.cancelled && q.processed == 0
    ensures q.consumers == [g] && q.channelOf == map[g.name := 0]
    ensures q.loops == [Loop(Between(1, i + 1), false, [], None, 0, [])]
    ensures q.history == [History(Between(1, i + 1), [], [])]
  {
    assert q.channelOf.Values == {0} by {
      assert q.channelOf[g.name] == 0;
    }
    BetweenLength(1, i);
    WriteToOnlyLoop(q.loops[0], q.history[0], i);
    BetweenExtend(1, i);
    assert !q.SomeTableChannelClosed();
    var r := q.Enqueue(i);
  }

  /** The items 1 to 5 are enqueued; all five reach the only channel. */
  method EnqueueOneToFive(q: SmartQueue<int>, g: ConsumerGroupOptions)
    requires q.Valid() && !q.throttled && !q.cancelled && q.options.maxQueueSize == 5
    requires q.consumers == [g] && q.channelOf == map[g.name := 0] && q.processed == 0
    requires q.loops == [Loop([], false, [], None, 0, [])] && q.history == [History([], [], [])]
    modifies q
    ensures q.Valid() && !q.cancelled && q.consumers == [g] && q.processed == 0
    ensures q.loops == [Loop(Between(1, 6), false, [], None, 0, [])]
    ensures q.history == [History(Between(1, 6), [], [])]
  {
    var i := 1;
    while i <= 5
      invariant 1 <= i <= 6
      invariant q.Valid() && !q.throttled && !q.cancelled
      invariant q.consumers == [g] && q.channelOf == map[g.name := 0]
      invariant q.loops == [Loop(Between(1, i), false, [], None, 0, [])]
      invariant q.history == [History(Between(1, i), [], [])]
      invariant q.processed == 0
    {
      EnqueueNext(q, g, i);
      i := i + 1;
    }
  }

  /** The loop pops, dispatches and finishes one item at a time, all handlers succeeding. */
  method ConsumeAll(q: SmartQueue<int>, g: ConsumerGroupOptions) returns (delivered: seq<int>)
    requires q.Valid() && !q.cancelled && q.consumers == [g] && q.processed == 0
    requires g == DefaultGroupOptions(g.name).(hasSingleProcessor := true)
    requires q.loops == [Loop(Between(1, 6), false, [], None, 0, [])]
    requires q.history == [History(Between(1, 6), [], [])]
    modifies q
    ensures delivered == Between(1, 6) && q.processed == 5
    ensures |q.history| == 1 && q.history[0].written == Between(1, 6) && Concat(q.history[0].dispatched) == Between(1, 6)
  {
    delivered := [];
    var n := 0;
    while n < 5
      invariant 0 <= n <= 5
      invariant q.Valid() && !q.cancelled
      invariant q.consumers == [g]
      invariant q.loops == [Loop(Between(n + 1, 6), false, [], None, 0, [])]
      invariant delivered == Between(1, n + 1)
      invariant q.processed == n
      invariant |q.history| == 1 && q.history[0].written == Between(1, 6)
      invariant Concat(q.history[0].dispatched) == Between(1, n + 1)
    {
      assert Between(n + 1, 6)[0] == n + 1 && Between(n + 1, 6)[1..] == Between(n + 2, 6);
      q.DrainStep(0);
      ghost var d := q.history[0].dispatched;
      var launched := q.Dispatch(0);
      ConcatAppend(d, [n + 1]);
      delivered := delivered + q.loops[0].running[0];
      q.FinishTask(0, 0, Succeeded);
      BetweenExtend(1, n + 1);
      n := n + 1;
    }
  }
}
