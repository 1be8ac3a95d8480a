/**
 * The fan-out queue engine SmartQueue<T>. Every RegisterConsumer call
 * creates a bounded channel and starts a consumer loop over it; every
 * accepted Enqueue writes the item to every channel in the name table; each
 * loop pops its channel into a buffer, flushes the buffer as a batch,
 * waits for one of MaxParallelism slots and hands the batch to a task.
 *
 * Each atomic step of the engine is a method: the loops, tasks and the CPU
 * monitor run concurrently in the engine, and any interleaving of these
 * methods is a possible run. Waiting is a precondition (a full channel) or
 * a step that changes nothing (no free slot).
 */
module Engine {
  import opened Models
  import opened Batching

  datatype Option<T> = None | Some(value: T)

  /** What one EnqueueAsync call does with its item. */
  datatype EnqueueResult =
    | Accepted       // written to every channel in the table, counter raised
    | Throttled      // dropped because the CPU throttle flag is set
    | ChannelClosed  // a channel completed by StopAsync refused the write and the call threw

  /** The state of the consumer loop started by one RegisterConsumer call. */
  datatype Loop<T> = Loop(
    channel: seq<T>,          // the bounded channel's contents, oldest first
    completed: bool,          // the channel's writer has been completed
    buffer: seq<T>,           // payloads popped but not yet flushed
    waiting: Option<seq<T>>,  // a flushed batch for which the loop waits for a slot
    inUse: int,               // semaphore slots taken
    running: seq<seq<T>>)     // batches whose tasks have not finished

  /**
   * The record of one loop's channel: every item ever written to it, the
   * batches dispatched from it and the items dropped when the engine stopped.
   */
  datatype History<T> = History(written: seq<T>, dispatched: seq<seq<T>>, discarded: seq<T>)

  function WaitingItems<T>(w: Option<seq<T>>): seq<T>
  {
    if w.Some? then w.value else []
  }

  function WaitingBatches<T>(w: Option<seq<T>>): seq<seq<T>>
  {
    if w.Some? then [w.value] else []
  }

  /** The loops after the item joined the tail of the channels of the loops in `js`. */
  function WrittenTo<T>(ls: seq<Loop<T>>, js: set<nat>, item: T): seq<Loop<T>>
  {
    seq(|ls|, j requires 0 <= j < |ls| => if j in js then ls[j].(channel := ls[j].channel + [item]) else ls[j])
  }

  lemma WrittenToOneMore<T>(ls: seq<Loop<T>>, js: set<nat>, j: nat, item: T)
    requires j < |ls| && j !in js
    ensures WrittenTo(ls, js + {j}, item)
         == WrittenTo(ls, js, item)[j := ls[j].(channel := ls[j].channel + [item])]
  {
  }

  /** No two names of the table share a channel. */
  predicate Injective(table: map<string, nat>)
  {
    forall a, b :: a in table && b in table && a != b ==> table[a] != table[b]
  }

  /**
   * The `foreach` of EnqueueAsync over the name table, in the table's
   * unspecified order: append the item to each channel in turn, until a
   * channel whose writer was completed makes the write throw. The writes
   * made before the throw stay.
   */
  method FanOut<T>(table: map<string, nat>, ls: seq<Loop<T>>, item: T, capacity: int)
    returns (result: seq<Loop<T>>, closed: bool, ghost written: set<nat>)
    requires Injective(table)
    requires forall name :: name in table ==> table[name] < |ls|
    requires forall name :: name in table && !ls[table[name]].completed ==>
      |ls[table[name]].channel| < capacity
    ensures closed == exists name :: name in table && ls[table[name]].completed
    ensures written <= table.Values
    ensures !closed ==> written == table.Values
    ensures forall j :: j in written ==> !ls[j].completed && |ls[j].channel| < capacity
    ensures result == WrittenTo(ls, written, item)
  {
    var pending := table.Keys;
    result, closed, written := ls, false, {};
    while pending != {}
      invariant pending <= table.Keys
      invariant result == WrittenTo(ls, written, item)
      invariant forall j :: j in written ==> j < |ls| && !ls[j].completed && |ls[j].channel| < capacity
      invariant written <= table.Values
      invariant forall name :: name in table && name !in pending ==> table[name] in written
      invariant forall name :: name in pending ==> table[name] !in written
      invariant forall name :: name in table && name !in pending ==> !ls[table[name]].completed
      decreases pending
    {
      var name :| name in pending;
      var j := table[name];
      if result[j].completed {
        closed := true;
        return;
      }
      WrittenToOneMore(ls, written, j, item);
      result := result[j := result[j].(channel := result[j].channel + [item])];
      written := written + {j};
      pending := pending - {name};
    }
  }

  /** The loops after each has observed the cancellation and exited, dropping its buffer and any batch waiting for a slot. */
  function Cancelled<T>(ls: seq<Loop<T>>): seq<Loop<T>>
  {
    seq(|ls|, j requires 0 <= j < |ls| => ls[j].(buffer := [], waiting := None))
  }

  /** The loops after the channels of the loops in `js` were completed and emptied. */
  function Drained<T>(ls: seq<Loop<T>>, js: set<nat>): seq<Loop<T>>
  {
    seq(|ls|, j requires 0 <= j < |ls| => if j in js then ls[j].(completed := true, channel := []) else ls[j])
  }

  lemma DrainedOneMore<T>(ls: seq<Loop<T>>, js: set<nat>, j: nat)
    requires j < |ls| && j !in js
    ensures Drained(ls, js + {j}) == Drained(ls, js)[j := ls[j].(completed := true, channel := [])]
  {
  }

  /**
   * The histories after the item was written to the channels of the loops
   * in `js`: those record it as their last written item; dispatched batches
   * and dropped items are kept.
   */
  function RecordWritten<T>(hs: seq<History<T>>, js: set<nat>, item: T): seq<History<T>>
  {
    seq(|hs|, j requires 0 <= j < |hs| => if j in js then hs[j].(written := hs[j].written + [item]) else hs[j])
  }

  /**
   * The histories after the cancellation: each loop's waiting batch and
   * buffer, in that order, are appended to its dropped items; written items
   * and dispatched batches are kept.
   */
  function RecordCancelled<T>(hs: seq<History<T>>, ls: seq<Loop<T>>): seq<History<T>>
    requires |ls| == |hs|
  {
    seq(|hs|, j requires 0 <= j < |hs| =>
      hs[j].(discarded := hs[j].discarded + WaitingItems(ls[j].waiting) + ls[j].buffer))
  }

  /**
   * The histories after the channels of the loops in `js` were read empty:
   * their contents are appended to those loops' dropped items; written
   * items and dispatched batches are kept.
   */
  function RecordDrained<T>(hs: seq<History<T>>, ls: seq<Loop<T>>, js: set<nat>): seq<History<T>>
    requires |ls| == |hs|
  {
    seq(|hs|, j requires 0 <= j < |hs| =>
      if j in js then hs[j].(discarded := hs[j].discarded + ls[j].channel) else hs[j])
  }

  /**
   * The `foreach` of StopAsync over the name table, in the table's
   * unspecified order: complete each channel's writer and read the channel
   * empty, until completing a writer that is already completed throws.
   */
  method CompleteAll<T>(table: map<string, nat>, ls: seq<Loop<T>>)
    returns (result: seq<Loop<T>>, closed: bool, ghost drained: set<nat>)
    requires Injective(table)
    requires forall name :: name in table ==> table[name] < |ls|
    ensures closed == exists name :: name in table && ls[table[name]].completed
    ensures drained <= table.Values
    ensures !closed ==> drained == table.Values
    ensures forall j :: j in drained ==> !ls[j].completed
    ensures result == Drained(ls, drained)
  {
    var pending := table.Keys;
    result, closed, drained := ls, false, {};
    while pending != {}
      invariant pending <= table.Keys
      invariant result == Drained(ls, drained)
      invariant forall j :: j in drained ==> j < |ls| && !ls[j].completed
      invariant drained <= table.Values
      invariant forall name :: name in table && name !in pending ==> table[name] in drained
      invariant forall name :: name in pending ==> table[name] !in drained
      invariant forall name :: name in table && name !in pending ==> !ls[table[name]].completed
      decreases pending
    {
      var name :| name in pending;
      var j := table[name];
      if result[j].completed {
        closed := true;
        return;
      }
      DrainedOneMore(ls, drained, j);
      result := result[j := result[j].(completed := true, channel := [])];
      drained := drained + {j};
      pending := pending - {name};
    }
  }

  /**
   * What holds of every loop between steps: the channel within capacity,
   * the slot count within MaxParallelism and equal to the number of running
   * tasks, every batch of FlushSize items, the buffer shorter than that, and
   * every item written to the channel, in write order, either dispatched,
   * dropped at stop, waiting for a slot, in the buffer or still queued.
   */
  ghost predicate LoopInvariant<T>(g: ConsumerGroupOptions, l: Loop<T>, h: History<T>, capacity: int, cancelled: bool)
  {
    && |l.channel| <= capacity
    && l.inUse == |l.running|
    && (l.inUse == 0 || l.inUse <= g.maxParallelism)
    && |l.buffer| < FlushSize(g)
    && (l.waiting.Some? ==> |l.waiting.value| == FlushSize(g))
    && (forall k :: 0 <= k < |l.running| ==> |l.running[k]| == FlushSize(g))
    && (forall k :: 0 <= k < |h.dispatched| ==> |h.dispatched[k]| == FlushSize(g))
    && h.written == Concat(h.dispatched) + h.discarded + WaitingItems(l.waiting) + l.buffer + l.channel
    && (l.completed ==> cancelled && l.channel == [])
    && (cancelled ==> l.waiting.None? && l.buffer == [])
    && (!cancelled ==> h.discarded == [])
  }

  /** A loop that observes the cancellation keeps the invariant once its buffer and waiting batch count as dropped. */
  lemma CancelKeepsInvariant<T>(g: ConsumerGroupOptions, l: Loop<T>, h: History<T>, capacity: int, cancelled: bool)
    requires LoopInvariant(g, l, h, capacity, cancelled)
    ensures LoopInvariant(g, l.(buffer := [], waiting := None),
                          h.(discarded := h.discarded + WaitingItems(l.waiting) + l.buffer), capacity, true)
  {
  }

  /** Completing and emptying an open channel keeps the invariant once its contents count as dropped. */
  lemma DrainKeepsInvariant<T>(g: ConsumerGroupOptions, l: Loop<T>, h: History<T>, capacity: int)
    requires LoopInvariant(g, l, h, capacity, true)
    ensures LoopInvariant(g, l.(completed := true, channel := []),
                          h.(discarded := h.discarded + l.channel), capacity, true)
  {
  }

  /** Writing to an open channel with room keeps the invariant once the item counts as written. */
  lemma WriteKeepsInvariant<T>(g: ConsumerGroupOptions, l: Loop<T>, h: History<T>, capacity: int, cancelled: bool, item: T)
    requires LoopInvariant(g, l, h, capacity, cancelled)
    requires !l.completed && |l.channel| < capacity
    ensures LoopInvariant(g, l.(channel := l.channel + [item]), h.(written := h.written + [item]), capacity, cancelled)
  {
  }

  /** The name table's entries stay correct when a group is appended and its name mapped to it. */
  lemma RegisterKeepsTable(table: map<string, nat>, cs: seq<ConsumerGroupOptions>, g: ConsumerGroupOptions)
    requires forall name :: name in table ==> table[name] < |cs| && cs[table[name]].name == name
    ensures var t, c := table[g.name := |cs|], cs + [g];
      forall name :: name in t ==> t[name] < |c| && c[t[name]].name == name
  {
    var t, c := table[g.name := |cs|], cs + [g];
    forall name | name in t
      ensures t[name] < |c| && c[t[name]].name == name
    {
      if name != g.name {
        assert c[t[name]] == cs[table[name]];
      }
    }
  }

  /**
   * The loops keep the invariant when a fresh loop, with nothing written
   * yet, is appended for a newly registered group.
   */
  lemma RegisterKeepsLoops<T>(cs: seq<ConsumerGroupOptions>, ls: seq<Loop<T>>, hs: seq<History<T>>,
                              g: ConsumerGroupOptions, capacity: int, cancelled: bool)
    requires |ls| == |cs| && |hs| == |cs| && capacity >= 1
    requires forall j :: 0 <= j < |ls| ==> LoopInvariant(cs[j], ls[j], hs[j], capacity, cancelled)
    ensures var c, l, h := cs + [g], ls + [Loop([], false, [], None, 0, [])], hs + [History([], [], [])];
      forall j :: 0 <= j < |l| ==> LoopInvariant(c[j], l[j], h[j], capacity, cancelled)
  {
    var c, l, h := cs + [g], ls + [Loop([], false, [], None, 0, [])], hs + [History([], [], [])];
    forall j | 0 <= j < |l|
      ensures LoopInvariant(c[j], l[j], h[j], capacity, cancelled)
    {
      if j < |ls| {
        assert c[j] == cs[j] && l[j] == ls[j] && h[j] == hs[j];
      }
    }
  }

  /**
   * Popping the head of a non-empty channel into the buffer keeps the
   * invariant, and a buffer that passes the flush test leaves whole as a
   * batch of FlushSize items.
   */
  lemma PopKeepsInvariant<T>(g: ConsumerGroupOptions, l: Loop<T>, h: History<T>, capacity: int)
    requires LoopInvariant(g, l, h, capacity, false)
    requires l.waiting.None? && l.channel != []
    ensures var buf := l.buffer + [l.channel[0]];
      LoopInvariant(g, l.(channel := l.channel[1..],
                          buffer := if ShouldFlush(g, |buf|) then [] else buf,
                          waiting := if ShouldFlush(g, |buf|) then Some(buf) else None), h, capacity, false)
  {
    var buf := l.buffer + [l.channel[0]];
    FlushExactlyAtFlushSize(g, |buf|);
    assert l.channel == [l.channel[0]] + l.channel[1..];
  }

  /** Starting a task on the waiting batch keeps the invariant once the batch counts as dispatched. */
  lemma DispatchKeepsInvariant<T>(g: ConsumerGroupOptions, l: Loop<T>, h: History<T>, capacity: int, cancelled: bool)
    requires LoopInvariant(g, l, h, capacity, cancelled)
    requires l.waiting.Some? && l.inUse < g.maxParallelism
    ensures var b := l.waiting.value;
      LoopInvariant(g, l.(waiting := None, inUse := l.inUse + 1, running := l.running + [b]),
                    h.(dispatched := h.dispatched + [b]), capacity, cancelled)
  {
    var b := l.waiting.value;
    var ds := h.dispatched + [b];
    ConcatAppend(h.dispatched, b);
    assert forall k :: 0 <= k < |ds| ==> |ds[k]| == FlushSize(g) by {
      forall k | 0 <= k < |ds|
        ensures |ds[k]| == FlushSize(g)
      {
        if k < |h.dispatched| {
          assert ds[k] == h.dispatched[k];
        }
      }
    }
    var rs := l.running + [b];
    assert forall k :: 0 <= k < |rs| ==> |rs[k]| == FlushSize(g) by {
      forall k | 0 <= k < |rs|
        ensures |rs[k]| == FlushSize(g)
      {
        if k < |l.running| {
          assert rs[k] == l.running[k];
        }
      }
    }
    assert h.written == Concat(ds) + h.discarded + WaitingItems<T>(None) + l.buffer + l.channel;
  }

  /** Ending running task `k` and returning its slot keeps the invariant. */
  lemma FinishKeepsInvariant<T>(g: ConsumerGroupOptions, l: Loop<T>, h: History<T>, capacity: int, cancelled: bool, k: nat)
    requires LoopInvariant(g, l, h, capacity, cancelled)
    requires k < |l.running|
    ensures LoopInvariant(g, l.(inUse := l.inUse - 1, running := l.running[..k] + l.running[k + 1..]),
                          h, capacity, cancelled)
  {
    var rest := l.running[..k] + l.running[k + 1..];
    assert forall m :: 0 <= m < |rest| ==> rest[m] == l.running[if m < k then m else m + 1];
  }

  class SmartQueue<T> {
    const options: QueueOptions
    /** The name table: group name to the loop whose channel it holds. */
    var channelOf: map<string, nat>
    /** The consumer list, one entry per RegisterConsumer call. */
    var consumers: seq<ConsumerGroupOptions>
    /** One loop per entry of `consumers`. */
    var loops: seq<Loop<T>>
    var enqueued: nat
    var processed: nat
    var throttled: bool
    var cancelled: bool
    ghost var history: seq<History<T>>

    ghost predicate Valid()
      reads this
    {
      && |loops| == |consumers| && |history| == |consumers|
      && (forall name :: name in channelOf ==>
            channelOf[name] < |consumers| && consumers[channelOf[name]].name == name)
      && (forall j :: 0 <= j < |loops| ==>
            LoopInvariant(consumers[j], loops[j], history[j], options.maxQueueSize, cancelled))
    }

    /** Every open channel in the table has a free place, so no write waits. */
    ghost predicate HasRoom()
      reads this
      requires Valid()
    {
      forall name :: name in channelOf && !loops[channelOf[name]].completed ==>
        |loops[channelOf[name]].channel| < options.maxQueueSize
    }

    /** Some channel in the table has been completed by a stop. */
    ghost predicate SomeTableChannelClosed()
      reads this
      requires Valid()
    {
      exists name :: name in channelOf && loops[channelOf[name]].completed
    }

    constructor (options: QueueOptions)
      ensures Valid()
      ensures this.options == options
      ensures channelOf == map[] && consumers == [] && loops == [] && history == []
      ensures enqueued == 0 && processed == 0 && !throttled && !cancelled
    {
      this.options := options;
      channelOf := map[];
      consumers := [];
      loops := [];
      enqueued := 0;
      processed := 0;
      throttled := false;
      cancelled := false;
      history := [];
    }

    /**
     * RegisterConsumer: create an empty channel of capacity MaxQueueSize,
     * put it in the table under the group's name (replacing an earlier
     * group of that name there) and append the group to the consumer list.
     * A capacity below 1 makes the channel constructor throw first.
     */
    method RegisterConsumer(g: ConsumerGroupOptions) returns (ok: bool)
      requires Valid()
      modifies this
      ensures Valid()
      ensures ok == (options.maxQueueSize >= 1)
      ensures !ok ==> channelOf == old(channelOf) && consumers == old(consumers) && loops == old(loops)
                      && history == old(history)
      ensures ok ==> && channelOf == old(channelOf)[g.name := old(|consumers|)]
                     && consumers == old(consumers) + [g]
                     && loops == old(loops) + [Loop([], false, [], None, 0, [])]
                     && history == old(history) + [History([], [], [])]
      ensures enqueued == old(enqueued) && processed == old(processed)
      ensures throttled == old(throttled) && cancelled == old(cancelled)
    {
      if options.maxQueueSize < 1 {
        return false;
      }
      var n := |consumers|;
      RegisterKeepsTable(channelOf, consumers, g);
      RegisterKeepsLoops(consumers, loops, history, g, options.maxQueueSize, cancelled);
      channelOf := channelOf[g.name := n];
      consumers := consumers + [g];
      loops := loops + [Loop([], false, [], None, 0, [])];
      history := history + [History([], [], [])];
      ok := true;
    }

    /**
     * EnqueueAsync: unless throttled, write the item to every channel in
     * the table, in the table's unspecified order, then count it once. A
     * write to a channel a stop has completed throws and ends the call.
     */
    method Enqueue(item: T) returns (result: EnqueueResult)
      requires Valid()
      requires !throttled ==> HasRoom()
      modifies this
      ensures Valid()
      ensures result == (if old(throttled) then Throttled
                         else if old(SomeTableChannelClosed()) then ChannelClosed
                         else Accepted)
      ensures result == Accepted ==> enqueued == old(enqueued) + 1
      ensures result != Accepted ==> enqueued == old(enqueued)
      ensures result == Throttled ==> loops == old(loops) && history == old(history)
      ensures result == Accepted ==>
        && loops == WrittenTo(old(loops), channelOf.Values, item)
        && history == RecordWritten(old(history), channelOf.Values, item)
      ensures result == ChannelClosed ==>
        exists js :: && js <= channelOf.Values
                     && loops == WrittenTo(old(loops), js, item)
                     && history == RecordWritten(old(history), js, item)
      ensures channelOf == old(channelOf) && consumers == old(consumers)
      ensures processed == old(processed) && throttled == old(throttled) && cancelled == old(cancelled)
    {
      if throttled {
        return Throttled;
      }
      var ls, closed, written := FanOut(channelOf, loops, item, options.maxQueueSize);
      CommitWrites(ls, written, item);
      if closed {
        result := ChannelClosed;
      } else {
        enqueued := enqueued + 1;
        result := Accepted;
      }
    }

    /** Installs the channels the fan-out wrote to and records the writes in the history. */
    method CommitWrites(ls: seq<Loop<T>>, ghost written: set<nat>, item: T)
      requires Valid()
      requires forall j :: j in written ==>
        j < |loops| && !loops[j].completed && |loops[j].channel| < options.maxQueueSize
      requires ls == WrittenTo(loops, written, item)
      modifies this
      ensures Valid()
      ensures loops == ls && history == RecordWritten(old(history), written, item)
      ensures channelOf == old(channelOf) && consumers == old(consumers)
      ensures enqueued == old(enqueued) && processed == old(processed)
      ensures throttled == old(throttled) && cancelled == old(cancelled)
    {
      var hs := history;
      history := RecordWritten(hs, written, item);
      loops := ls;
      forall j | 0 <= j < |loops|
        ensures LoopInvariant(consumers[j], loops[j], history[j], options.maxQueueSize, cancelled)
      {
        if j in written {
          assert LoopInvariant(consumers[j], old(loops)[j], hs[j], options.maxQueueSize, cancelled);
          WriteKeepsInvariant(consumers[j], old(loops)[j], hs[j], options.maxQueueSize, cancelled, item);
        }
      }
    }

    /**
     * One pass of the consumer loop of group `i` while it is not waiting for
     * a slot. After a stop the loop has exited, and a loop whose semaphore
     * could not be built (negative MaxParallelism) never started: nothing
     * happens. An empty channel means an idle pause. Otherwise the head of
     * the channel joins the buffer, and if the flush test passes the whole
     * buffer leaves as the batch that now waits for a slot.
     */
    method DrainStep(i: nat)
      requires Valid() && i < |loops|
      requires loops[i].waiting.None?
      modifies this
      ensures Valid()
      ensures var l, g := old(loops[i]), old(consumers[i]);
        if old(cancelled) || g.maxParallelism < 0 || l.channel == [] then
          loops == old(loops)
        else
          var buf := l.buffer + [l.channel[0]];
          loops == old(loops)[i := l.(channel := l.channel[1..],
                                      buffer := if ShouldFlush(g, |buf|) then [] else buf,
                                      waiting := if ShouldFlush(g, |buf|) then Some(buf) else None)]
      ensures history == old(history)
      ensures channelOf == old(channelOf) && consumers == old(consumers)
      ensures enqueued == old(enqueued) && processed == old(processed)
      ensures throttled == old(throttled) && cancelled == old(cancelled)
    {
      var l, g := loops[i], consumers[i];
      if cancelled || g.maxParallelism < 0 || l.channel == [] {
        return;
      }
      var buf := l.buffer + [l.channel[0]];
      PopKeepsInvariant(g, l, history[i], options.maxQueueSize);
      if ShouldFlush(g, |buf|) {
        loops := loops[i := l.(channel := l.channel[1..], buffer := [], waiting := Some(buf))];
      } else {
        loops := loops[i := l.(channel := l.channel[1..], buffer := buf)];
      }
      forall j | 0 <= j < |loops|
        ensures LoopInvariant(consumers[j], loops[j], history[j], options.maxQueueSize, cancelled)
      {
        if j != i {
          assert loops[j] == old(loops)[j];
        }
      }
    }

    /**
     * The loop of group `i` waits on its semaphore with a flushed batch.
     * With fewer than MaxParallelism slots in use it takes a slot and starts
     * a task on the batch, and goes back to draining; otherwise it keeps
     * waiting and nothing changes.
     */
    method Dispatch(i: nat) returns (launched: bool)
      requires Valid() && i < |loops| && loops[i].waiting.Some?
      modifies this
      ensures Valid()
      ensures launched == (old(loops[i].inUse) < old(consumers[i].maxParallelism))
      ensures !launched ==> loops == old(loops) && history == old(history)
      ensures launched ==>
        var l, b := old(loops[i]), old(loops[i].waiting.value);
        && loops == old(loops)[i := l.(waiting := None, inUse := l.inUse + 1, running := l.running + [b])]
        && history == old(history)[i := old(history[i]).(dispatched := old(history[i].dispatched) + [b])]
      ensures channelOf == old(channelOf) && consumers == old(consumers)
      ensures enqueued == old(enqueued) && processed == old(processed)
      ensures throttled == old(throttled) && cancelled == old(cancelled)
    {
      var l, h := loops[i], history[i];
      if l.inUse >= consumers[i].maxParallelism {
        return false;
      }
      var b := l.waiting.value;
      loops := loops[i := l.(waiting := None, inUse := l.inUse + 1, running := l.running + [b])];
      history := history[i := h.(dispatched := h.dispatched + [b])];
      DispatchKeepsInvariant(consumers[i], l, h, options.maxQueueSize, cancelled);
      forall j | 0 <= j < |loops|
        ensures LoopInvariant(consumers[j], loops[j], history[j], options.maxQueueSize, cancelled)
      {
        if j != i {
          assert loops[j] == old(loops)[j] && history[j] == old(history)[j];
        }
      }
      launched := true;
    }

    /**
     * Task `k` of group `i` ends, whatever its handlers did: the processed
     * counter is credited with the items whose handling completed, and the
     * `finally` block returns the task's slot.
     */
    method FinishTask(i: nat, k: nat, outcome: Outcome)
      requires Valid() && i < |loops| && k < |loops[i].running|
      requires OutcomeFits(outcome, loops[i].running[k])
      modifies this
      ensures Valid()
      ensures var l := old(loops[i]);
        loops == old(loops)[i := l.(inUse := l.inUse - 1, running := l.running[..k] + l.running[k + 1..])]
      ensures processed == old(processed) + |Completed(consumers[i], old(loops[i].running[k]), outcome)|
      ensures channelOf == old(channelOf) && consumers == old(consumers) && history == old(history)
      ensures enqueued == old(enqueued) && throttled == old(throttled) && cancelled == old(cancelled)
    {
      var l := loops[i];
      var n := RunTask(consumers[i], l.running[k], outcome);
      processed := processed + n;
      FinishKeepsInvariant(consumers[i], l, history[i], options.maxQueueSize, cancelled, k);
      loops := loops[i := l.(inUse := l.inUse - 1, running := l.running[..k] + l.running[k + 1..])];
      forall j | 0 <= j < |loops|
        ensures LoopInvariant(consumers[j], loops[j], history[j], options.maxQueueSize, cancelled)
      {
        if j != i {
          assert loops[j] == old(loops)[j];
        }
      }
    }

    /**
     * One measurement of the CPU monitor: the throttle flag is set exactly
     * when the measured usage reaches CpuThreshold. After a stop the monitor
     * has exited and the flag keeps its value.
     */
    method RecordCpuSample(usagePercent: real)
      requires Valid()
      modifies this`throttled
      ensures Valid()
      ensures throttled == if cancelled then old(throttled) else usagePercent >= options.cpuThreshold as real
    {
      if !cancelled {
        throttled := usagePercent >= options.cpuThreshold as real;
      }
    }

    /**
     * StopAsync: cancel every loop, then complete and empty every channel in
     * the name table. A channel already completed by an earlier stop makes
     * the call throw. Buffers and batches waiting for a slot are dropped;
     * the AutoDrainOnShutdown option is not consulted.
     */
    method Stop() returns (ok: bool)
      requires Valid()
      modifies this
      ensures Valid() && cancelled
      ensures ok == !old(SomeTableChannelClosed())
      ensures ok ==>
        && loops == Drained(Cancelled(old(loops)), channelOf.Values)
        && history == RecordDrained(RecordCancelled(old(history), old(loops)), old(loops), channelOf.Values)
      ensures !ok ==>
        exists js :: && js <= channelOf.Values
                     && loops == Drained(Cancelled(old(loops)), js)
                     && history == RecordDrained(RecordCancelled(old(history), old(loops)), old(loops), js)
      ensures channelOf == old(channelOf) && consumers == old(consumers)
      ensures enqueued == old(enqueued) && processed == old(processed) && throttled == old(throttled)
    {
      CancelLoops();
      var ls, closed, drained := CompleteAll(channelOf, loops);
      CommitDrain(ls, drained);
      ok := !closed;
    }

    /** The cancellation: every loop exits, dropping its buffer and any batch waiting for a slot. */
    method CancelLoops()
      requires Valid()
      modifies this
      ensures Valid() && cancelled
      ensures loops == Cancelled(old(loops))
      ensures history == RecordCancelled(old(history), old(loops))
      ensures channelOf == old(channelOf) && consumers == old(consumers)
      ensures enqueued == old(enqueued) && processed == old(processed) && throttled == old(throttled)
    {
      var ls := loops;
      ghost var hs := history;
      cancelled := true;
      loops := Cancelled(ls);
      history := RecordCancelled(hs, ls);
      forall j | 0 <= j < |loops|
        ensures LoopInvariant(consumers[j], loops[j], history[j], options.maxQueueSize, cancelled)
      {
        assert LoopInvariant(consumers[j], ls[j], hs[j], options.maxQueueSize, old(cancelled));
        CancelKeepsInvariant(consumers[j], ls[j], hs[j], options.maxQueueSize, old(cancelled));
      }
    }

    /** Installs the completed, emptied channels and records their dropped items in the history. */
    method CommitDrain(ls: seq<Loop<T>>, ghost drained: set<nat>)
      requires Valid() && cancelled
      requires forall j :: j in drained ==> j < |loops| && !loops[j].completed
      requires ls == Drained(loops, drained)
      modifies this
      ensures Valid() && cancelled
      ensures loops == ls && history == RecordDrained(old(history), old(loops), drained)
      ensures channelOf == old(channelOf) && consumers == old(consumers)
      ensures enqueued == old(enqueued) && processed == old(processed) && throttled == old(throttled)
    {
      var hs := history;
      var before := loops;
      history := RecordDrained(hs, before, drained);
      loops := ls;
      forall j | 0 <= j < |loops|
        ensures LoopInvariant(consumers[j], loops[j], history[j], options.maxQueueSize, cancelled)
      {
        assert LoopInvariant(consumers[j], before[j], hs[j], options.maxQueueSize, cancelled);
        if j in drained {
          DrainKeepsInvariant(consumers[j], before[j], hs[j], options.maxQueueSize);
        }
      }
    }

    /**
     * Before a stop, the items of group `i` are consumed in write order:
     * what was written to its channel is what the loop popped followed by
     * what is still queued, and what it popped, in pop order, is its
     * flushed batches followed by its buffer. The flushed batches number
     * the popped count divided by FlushSize and the buffer holds the
     * remainder; so B * M popped items in batch mode with batch size B make
     * exactly M batches of B items and leave the buffer empty.
     */
    lemma PoppedSplitsIntoBatches(i: nat)
      requires Valid() && i < |loops| && !cancelled
      ensures var flushed := history[i].dispatched + WaitingBatches(loops[i].waiting);
              var popped := Concat(flushed) + loops[i].buffer;
              && history[i].written == popped + loops[i].channel
              && |flushed| == |popped| / FlushSize(consumers[i])
              && |loops[i].buffer| == |popped| % FlushSize(consumers[i])
    {
      var l, h, n := loops[i], history[i], FlushSize(consumers[i]);
      assert LoopInvariant(consumers[i], l, h, options.maxQueueSize, cancelled);
      var flushed := h.dispatched + WaitingBatches(l.waiting);
      if l.waiting.Some? {
        ConcatAppend(h.dispatched, l.waiting.value);
      } else {
        assert flushed == h.dispatched;
      }
      assert Concat(flushed) == Concat(h.dispatched) + WaitingItems(l.waiting);
      PoppedSplit(flushed, l.buffer, n);
    }

    /** A group's running tasks hold exactly its taken slots, and never more than MaxParallelism. */
    lemma SlotsWithinMaxParallelism(i: nat)
      requires Valid() && i < |loops|
      ensures loops[i].inUse == |loops[i].running|
      ensures consumers[i].maxParallelism >= 0 ==> loops[i].inUse <= consumers[i].maxParallelism
      ensures consumers[i].maxParallelism <= 0 ==> loops[i].inUse == 0
    {
    }

    /** No channel ever holds more than MaxQueueSize items. */
    lemma ChannelWithinCapacity(i: nat)
      requires Valid() && i < |loops|
      ensures |loops[i].channel| <= options.maxQueueSize
    {
    }

    /** In single mode the buffer is always empty and every batch holds one item. */
    lemma SingleModeBatchesHoldOneItem(i: nat)
      requires Valid() && i < |loops| && !consumers[i].processInBatch
      ensures loops[i].buffer == []
      ensures forall k :: 0 <= k < |history[i].dispatched| ==> |history[i].dispatched[k]| == 1
      ensures forall k :: 0 <= k < |loops[i].running| ==> |loops[i].running[k]| == 1
      ensures loops[i].waiting.Some? ==> |loops[i].waiting.value| == 1
    {
    }

    /**
     * In batch mode with a positive BatchSize the buffer stays shorter than
     * BatchSize and every batch holds exactly BatchSize items.
     */
    lemma BatchModeBatchesAreFull(i: nat)
      requires Valid() && i < |loops|
      requires consumers[i].processInBatch && consumers[i].batchSize >= 1
      ensures |loops[i].buffer| < consumers[i].batchSize
      ensures forall k :: 0 <= k < |history[i].dispatched| ==>
        |history[i].dispatched[k]| == consumers[i].batchSize
      ensures forall k :: 0 <= k < |loops[i].running| ==> |loops[i].running[k]| == consumers[i].batchSize
    {
    }

    /**
     * A group built with the default options has at most two tasks in
     * flight, each on a one-item batch.
     */
    lemma DefaultGroupRunsTwoSingleItemTasks(i: nat)
      requires Valid() && i < |loops|
      requires consumers[i] == DefaultGroupOptions(consumers[i].name)
      ensures |loops[i].running| <= 2
      ensures forall k :: 0 <= k < |loops[i].running| ==> |loops[i].running[k]| == 1
    {
    }

    /** With the default options every channel holds at most 10000 items. */
    lemma DefaultCapacity(i: nat)
      requires Valid() && i < |loops| && options == DefaultQueueOptions()
      ensures |loops[i].channel| <= 10000
    {
    }
  }
}
