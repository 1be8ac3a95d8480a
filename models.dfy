/**
 * The two configuration records the queue engine reads: the engine-wide
 * QueueOptions and the per-group ConsumerGroupOptions, each with the
 * defaults its property initialisers give.
 */
module Models {

  /**
   * Options of one consumer group. The two user handlers are foreign code;
   * the model keeps only whether each one is set. Delays are TimeSpan values
   * in ticks; a delay greater than zero makes the loop or task pause.
   */
  datatype ConsumerGroupOptions = ConsumerGroupOptions(
    name: string,
    processInBatch: bool,
    batchSize: int,
    maxParallelism: int,
    delayBetweenBatches: int,
    delayBetweenItems: int,
    hasBatchProcessor: bool,
    hasSingleProcessor: bool)

  /**
   * A freshly built ConsumerGroupOptions. Its Name defaults to a new GUID,
   * which the model takes as the parameter `name`.
   */
  function DefaultGroupOptions(name: string): (g: ConsumerGroupOptions)
    ensures g.name == name
    ensures !g.processInBatch
    ensures g.batchSize == 10
    ensures g.maxParallelism == 2
    ensures g.delayBetweenBatches == 0 && g.delayBetweenItems == 0
    ensures !g.hasBatchProcessor && !g.hasSingleProcessor
  {
    ConsumerGroupOptions(name, false, 10, 2, 0, 0, false, false)
  }

  /** Options of the engine as a whole. */
  datatype QueueOptions = QueueOptions(
    maxQueueSize: int,
    cpuThreshold: int,
    dropOnFullQueue: bool,
    autoDrainOnShutdown: bool,
    cpuCheckIntervalMs: int)

  /** A freshly built QueueOptions. */
  function DefaultQueueOptions(): (o: QueueOptions)
    ensures o.maxQueueSize == 10000
    ensures o.cpuThreshold == 75
    ensures !o.dropOnFullQueue && o.autoDrainOnShutdown
    ensures o.cpuCheckIntervalMs == 2000
  {
    QueueOptions(10000, 75, false, true, 2000)
  }
}
