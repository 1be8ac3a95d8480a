# SmartQueue engine, modelled in Dafny

`SmartQueue<T>` is an in-process fan-out queue. Each registered consumer group
gets its own bounded FIFO channel, and every accepted enqueue writes the item
to each channel in the engine's name table. Each group runs a consumer loop.
The loop pops its channel into a buffer and flushes the buffer as a batch:
immediately in single mode, or once the buffer reaches `BatchSize` in batch
mode. It then waits for one of `MaxParallelism` semaphore slots and hands the
batch to a task that is not awaited. The task calls the group's handler(s),
credits the processed counter and returns its slot. A CPU monitor sets a
throttle flag that makes enqueues drop their item. Stopping cancels the loops
and then completes and empties every channel in the table.

The project has four modules:

- `Models` (`models.dfy`): the two configuration records, `QueueOptions` and
  `ConsumerGroupOptions`, with their default values.
- `Batching` (`batching.dfy`): the rules for one group's loop and tasks.
  - `ShouldFlush` is the flush test, and `FlushSize` is the size every batch
    of the group has.
  - `Completed` gives the items of a finished task that the processed counter
    is credited with.
  - `RunTask` is the body of a dispatched task, with its per-item loop.
- `Engine` (`smart_queue.dfy`): the class `SmartQueue<T>`. Its fields are:
  - the name table `channelOf`;
  - the consumer list `consumers`;
  - one `Loop` record per registration, holding the channel contents, the
    completed flag, the buffer, the batch waiting for a slot, the slots in use
    and the running tasks' batches;
  - the `enqueued` and `processed` counters;
  - the `throttled` and `cancelled` flags.

  Each atomic step of the engine is a method: `RegisterConsumer`, `Enqueue`,
  `DrainStep`, `Dispatch`, `FinishTask`, `RecordCpuSample` and `Stop`. Any
  interleaving of these step methods is a run of the engine. `CommitWrites`
  and `CancelLoops` with `CommitDrain` are parts of `Enqueue` and `Stop`, not
  steps of their own.
  - Waiting on a full channel is a precondition of `Enqueue`.
  - Waiting for a slot is a `Dispatch` call that returns `false` and changes
    nothing.

  A ghost `History` per loop records every item written to the channel, the
  dispatched batches and the items dropped by a stop. The class invariant
  `Valid` ties the history to the live state: every written item, in write
  order, is in a dispatched batch, was dropped at stop, is in the waiting
  batch, in the buffer or still in the channel.
  Every method's contract states what the history becomes:
  - a registration appends an empty record for the new group;
  - a write, accepted or ending in a throw, appends the item to the written
    items of the loops it reached;
  - a dispatch appends the batch to the dispatched batches;
  - a stop appends each dropped waiting batch, buffer and channel to the
    dropped items;
  - every other step leaves the history unchanged.
- `Scenario` (`scenario.dfy`): a client that uses only the contracts. A queue
  of capacity 5 has one single-mode group. Enqueueing 1..5 and then draining
  hands the handler `[1, 2, 3, 4, 5]` in order and credits 5 processed items.
  The group's history then records `[1, 2, 3, 4, 5]` as written, and the
  dispatched batches hold the same items in the same order.

Places where the code does not do what the names of its options, or a
careful caller, would suggest. The model follows the code in each case:

- A full channel always makes `EnqueueAsync` wait. `DropOnFullQueue` is never
  read, so nothing is ever dropped because a channel is full.
- `StopAsync` always empties the channels in the table. `AutoDrainOnShutdown`
  is never read. Buffers and batches waiting for a slot are lost.
- A `StopAsync` throws when the name table still maps some name to a channel
  an earlier stop completed, because `ChannelWriter.Complete` on a completed
  channel throws. `Stop` returns `false` in that case. The channels visited
  before the throw are still completed and emptied. With an empty table, or
  once every name has been registered again, a second stop does not throw.
- An `EnqueueAsync` that is not throttled throws when the table maps some name
  to a channel a stop completed. It throws at the first such channel it
  visits. Channels visited earlier keep the item, and the counter is not
  raised. `Enqueue` returns `ChannelClosed`. With an empty table, or once
  every name has been registered again, an enqueue after a stop is accepted
  and counted.
- Registration does not check that the group has a handler matching its
  mode. A group without any handler consumes items and credits nothing.
- A name registered twice replaces the table entry, but the consumer list
  gets a second entry.
  - The old loop keeps running over its old channel.
  - No enqueue writes to the old channel again.
  - A stop does not empty the old channel.
- A `MaxQueueSize` below 1 makes the bounded-channel constructor throw before
  anything changes, so `RegisterConsumer` returns `false`.
- A negative `MaxParallelism` makes the semaphore constructor throw inside the
  loop task, so that loop never pops anything.

## Model

| member | source | states |
|---|---|---|
| `Models.DefaultGroupOptions` | SmartQueue/Models/ConsumerGroupOptions.cs:5-12 | a default group is single mode with BatchSize 10, MaxParallelism 2, zero delays, no handlers, and the given name |
| `Models.DefaultQueueOptions` | SmartQueue/Models/QueueOptions.cs:5-9 | default MaxQueueSize 10000, CpuThreshold 75, DropOnFullQueue false, AutoDrainOnShutdown true, CpuCheckIntervalMs 2000 |
| `Batching.FlushSize` | SmartQueue/SmartQueue.cs:71 | every batch of a group has at least one item, and exactly BatchSize in batch mode with a positive BatchSize |
| `Batching.FlushExactlyAtFlushSize` | SmartQueue/SmartQueue.cs:70-71 | `ShouldFlush` is the flush test of line 71 (not batch mode, or the buffer has reached BatchSize); a buffer growing one item at a time passes it exactly when it reaches FlushSize |
| `Batching.PoppedSplit` | SmartQueue/SmartQueue.cs:68-74 | popped items split into full batches plus a shorter buffer: the batch count and buffer length are the quotient and remainder of the popped count by the batch size |
| `Batching.Completed` | SmartQueue/SmartQueue.cs:81-100 | the credited items are a prefix of the batch; they are the whole batch iff the batch is empty or a handler ran and succeeded; a throwing batch processor credits nothing; no handler credits nothing |
| `Batching.SingleItemPathStopsAtThrow` | SmartQueue/SmartQueue.cs:86-99 | on the single-item path, exactly the items before the throwing one are credited and the rest of the batch is lost |
| `Batching.BatchModeWithoutBatchProcessor` | SmartQueue/SmartQueue.cs:81-86 | batch mode without a BatchProcessor credits exactly what single mode would |
| `Batching.RunTask` | SmartQueue/SmartQueue.cs:79-100 | the task body's count (batch processor once, or single processor item by item until a throw) equals the credited items and never exceeds the batch |
| `Batching.DefaultGroupFlushesEachItem` | SmartQueue/Models/ConsumerGroupOptions.cs:6 | a default group flushes every popped item at once as a one-item batch |
| `Batching.DefaultGroupCountsNothing` | SmartQueue/Models/ConsumerGroupOptions.cs:11-12 | a default group's tasks credit no processed items |
| `Engine.FanOut` | SmartQueue/SmartQueue.cs:53-56 | in any table order, the write throws iff some table channel is completed; without a throw, every table channel gains the item at its tail; with one, a subset of the table's channels do; the written channels had room and were open |
| `Engine.CompleteAll` | SmartQueue/SmartQueue.cs:146-153 | in any table order, the call throws iff some table channel was already completed; without a throw, every table channel ends completed and empty; with one, a subset of them do |
| `Engine.SmartQueue.constructor` | SmartQueue/SmartQueue.cs:25-33 | a new engine has no groups, an empty history, zero counters, no throttle and is not stopped |
| `Engine.SmartQueue.RegisterConsumer` | SmartQueue/SmartQueue.cs:35-42 | capacity below 1 changes nothing; otherwise the name now maps to a fresh empty channel, the list gets the options appended, and the new group has no earlier messages; a reused name leaves its old loop and channel in place |
| `Engine.SmartQueue.Enqueue` | SmartQueue/SmartQueue.cs:44-59 | throttled: nothing changes, history included; otherwise, if no table channel is completed, every table channel gets the item at its tail and records it as written, and enqueued rises by exactly 1, also with an empty table; if some table channel is completed, the call throws, only a subset of the table's channels get and record the item, and the counter is unchanged; dispatched and dropped records are kept; capacity is never exceeded |
| `Engine.SmartQueue.DrainStep` | SmartQueue/SmartQueue.cs:66-74 | stopped, faulted or empty channel: nothing changes; otherwise exactly the head is removed and appended to the buffer, and a buffer passing the flush test moves out whole as the waiting batch; the history is unchanged in every case |
| `Engine.SmartQueue.Dispatch` | SmartQueue/SmartQueue.cs:76-77 | a slot is taken and the batch starts running iff fewer than MaxParallelism slots are in use; otherwise nothing changes; dispatched batches keep pop order |
| `Engine.SmartQueue.FinishTask` | SmartQueue/SmartQueue.cs:77-105 | the task's slot is released whatever the outcome, and processed rises by exactly the items whose handling completed |
| `Engine.SmartQueue.RecordCpuSample` | SmartQueue/SmartQueue.cs:135 | the throttle flag becomes "usage at or above CpuThreshold" while the engine runs |
| `Engine.SmartQueue.Stop` | SmartQueue/SmartQueue.cs:143-154 | all loops are cancelled and drop their buffers and waiting batches; without a throw, table channels end completed and empty; the call throws iff some table channel was already completed, and then only a subset of them are; every dropped waiting batch, buffer and channel is appended to its group's dropped items, and written items and dispatched batches are kept; counters and table unchanged |
| `Engine.SmartQueue.CancelLoops` | SmartQueue/SmartQueue.cs:145 | the cancellation stops every loop and drops each buffer and waiting batch, leaving channels untouched; each dropped waiting batch and buffer is appended to its group's dropped items, and written items and dispatched batches are kept |
| `Engine.SmartQueue.PoppedSplitsIntoBatches` | SmartQueue/SmartQueue.cs:66-76 | per group, the written items are the popped items followed by the channel, in order; the popped items are the flushed batches followed by the buffer, with batch count and buffer length the quotient and remainder by FlushSize (B*M pops make M full batches) |
| `Engine.SmartQueue.SlotsWithinMaxParallelism` | SmartQueue/SmartQueue.cs:101-104 | slots in use equal running tasks and stay within [0, MaxParallelism] |
| `Engine.SmartQueue.ChannelWithinCapacity` | SmartQueue/SmartQueue.cs:38 | a channel never holds more than MaxQueueSize items |
| `Engine.SmartQueue.SingleModeBatchesHoldOneItem` | SmartQueue/SmartQueue.cs:71 | in single mode the buffer is empty between steps and every batch has one item |
| `Engine.SmartQueue.BatchModeBatchesAreFull` | SmartQueue/SmartQueue.cs:71 | in batch mode with BatchSize >= 1 the buffer stays shorter than BatchSize and every batch has exactly BatchSize items |
| `Engine.SmartQueue.DefaultGroupRunsTwoSingleItemTasks` | SmartQueue/Models/ConsumerGroupOptions.cs:6-8 | a default group has at most two tasks in flight, each on a one-item batch |
| `Engine.SmartQueue.DefaultCapacity` | SmartQueue/Models/QueueOptions.cs:5 | with default options a channel holds at most 10000 items |
| `Scenario.FiveItemsReachOneGroupInOrder` | SmartQueue/SmartQueue.cs:44-105 | with capacity 5 and one single-mode group, enqueueing 1..5 and draining delivers [1, 2, 3, 4, 5] in order and credits 5 processed items; it uses only the step contracts, through which the group's history records 1..5 as written and the same items, in order, as dispatched |

## Left out

- `MonitorCpuUsage` measures CPU time, wall-clock time and the processor count, and divides them in floating point. None of that is modelled. `RecordCpuSample` takes the resulting percentage as an exact real, so the NaN produced by a zero elapsed time is not modelled.
- The monitor's timing is not modelled: the `CpuCheckIntervalMs` interval and its first baseline sample.
- Concurrency is not modelled. Each loop iteration, slot wait, task completion and stop is one atomic step.
  - A consumer loop cannot interleave with the stop's drain loop.
  - A task queued by `Task.Run` but not yet started when the stop cancels would never run and never release its slot. The model treats every dispatched task as started.
- `Enqueue`: a write that waits on a full channel is a precondition (every open channel in the table has room). The model does not capture an enqueue that has written to some channels and is still waiting on another.
- `Task.Delay` pauses are not modelled: the 10 ms idle pause, `DelayBetweenBatches` and `DelayBetweenItems`. The delays are only carried as option values.
- Cancellation tokens other than the loop's exit on cancellation are not modelled.
- Logging (`ILogger`) and the `System.Diagnostics.Metrics` meter are not modelled. The counters are plain natural-number fields, and 64-bit overflow of the meter counters is not modelled.
- The user handlers are foreign code. The model keeps only whether each one is set, and each task's outcome is an input: success, or the index of the item whose handler threw.
- `QueueMessage` is not modelled. Its `EnqueuedAt` timestamp is never read, so a message is its payload.
- The GUID default for a group's `Name` is not generated. `DefaultGroupOptions` takes the name as a parameter, and a null name is not modelled.
- The options objects are mutable and shared by reference. The loop reads `ProcessInBatch` and `BatchSize` again on every pass (SmartQueue/SmartQueue.cs:71), and the handlers and delays on every use. `MaxQueueSize` and `CpuThreshold` are read on each use (lines 38 and 135). The model fixes every option at registration or construction. A change made while the engine runs is not modelled, and the batch-size facts of `Valid` need not hold after one.
- Batching.Completed: a batch processor is assumed to leave its batch unchanged. Line 84 credits the batch's count as it is after the handler returns, so a handler that adds to or removes from its list changes the credit. The model credits the dispatched batch's length.
- Delays are assumed to be within the range `Task.Delay` accepts. A `DelayBetweenBatches` beyond that range throws at line 108 and faults the loop after its first dispatch. The model treats only a negative `MaxParallelism` as a faulted loop. A `DelayBetweenItems` beyond it throws inside the task, after that item has been credited, which one of the outcomes given as input can express.
- Dictionary enumeration order in `EnqueueAsync` and `StopAsync` is unspecified. The model lets it be any order.
- Dependency-injection registration (SmartQueue/Extensions/SmartQueueExtensions.cs) and the demo application (SmartQueueDemoApp/) contain no engine logic and are not part of this model.
