/** `HBaseTweetBolt`: queues archive tuples in a `QueuedHBaseWriter` and writes
    them as one tweet batch when the queue holds more than 500 tuples or when a
    tick arrives. Tuples of every other stream are ignored. */
module HBaseTweetBolt {
  import opened Storm
  import opened HBaseWriter

  /** The queue count above which an archive tuple triggers a write. */
  const FLUSH_THRESHOLD := 500
  /** The tick period set when the configuration has none. */
  const DEFAULT_TICK_FREQUENCY_SECS := 300

  /** The tick period the bolt runs with. */
  function TickFrequency(configured: Option<int>): (secs: int)
    ensures configured.None? ==> secs == DEFAULT_TICK_FREQUENCY_SECS
    ensures configured.Some? ==> secs == configured.value
  {
    if configured.Some? then configured.value else DEFAULT_TICK_FREQUENCY_SECS
  }

  /** The bolt's queue after one `Execute`, and the batch it wrote, if any. */
  datatype Outcome = Outcome(queue: seq<Tuple>, batch: Option<Batch>)

  /** One `Execute` on the writer's queue. */
  function Step(queue: seq<Tuple>, tuple: Option<Tuple>, enableAck: bool, services: Services): Outcome {
    if IsTickTuple(tuple) then
      Outcome([], Some(WriteBatch(Tweets, queue, enableAck, services)))
    else if tuple.value.stream == ARCHIVE_STREAM then
      var q := queue + [tuple.value];
      if |q| > FLUSH_THRESHOLD then Outcome([], Some(WriteBatch(Tweets, q, enableAck, services)))
      else Outcome(q, None)
    else Outcome(queue, None)
  }

  /** Between calls the queue never holds more than 500 tuples. */
  lemma QueueBounded(queue: seq<Tuple>, tuple: Option<Tuple>, enableAck: bool, services: Services)
    requires |queue| <= FLUSH_THRESHOLD
    ensures |Step(queue, tuple, enableAck, services).queue| <= FLUSH_THRESHOLD
  {
  }

  /** The 500th queued archive tuple does not write; the 501st writes all 501,
      in arrival order. */
  lemma FlushAt501(queue: seq<Tuple>, t: Tuple, enableAck: bool, services: Services)
    requires !IsTickTuple(Some(t)) && t.stream == ARCHIVE_STREAM
    ensures |queue| == 499 ==> Step(queue, Some(t), enableAck, services) == Outcome(queue + [t], None)
    ensures |queue| == 500 ==>
      Step(queue, Some(t), enableAck, services) == Outcome([], Some(WriteBatch(Tweets, queue + [t], enableAck, services)))
  {
  }

  /** Queuing an archive tuple below the threshold acks and fails nothing: its
      ack or fail comes only with the batch that writes it. */
  lemma QueuingSettlesNothing(queue: seq<Tuple>, t: Tuple, enableAck: bool, services: Services)
    requires !IsTickTuple(Some(t)) && t.stream == ARCHIVE_STREAM && |queue| < FLUSH_THRESHOLD
    ensures Step(queue, Some(t), enableAck, services).batch.None?
    ensures Step(queue, Some(t), enableAck, services).queue == queue + [t]
  {
  }

  /** A tick writes the whole queue, however little it holds, and empties it. */
  lemma TickFlushes(queue: seq<Tuple>, tuple: Option<Tuple>, enableAck: bool, services: Services)
    requires IsTickTuple(tuple)
    ensures Step(queue, tuple, enableAck, services) == Outcome([], Some(WriteBatch(Tweets, queue, enableAck, services)))
  {
  }

  /** Any other stream, the topic stream included, is neither queued nor
      settled. */
  lemma OtherStreamsIgnored(queue: seq<Tuple>, t: Tuple, enableAck: bool, services: Services)
    requires !IsTickTuple(Some(t)) && t.stream != ARCHIVE_STREAM
    ensures Step(queue, Some(t), enableAck, services) == Outcome(queue, None)
  {
  }

  class HBaseTweetBolt {
    const enableAck: bool
    const tickFrequency: int
    var writer: QueuedHBaseWriter

    constructor (enableAck: bool, configuredTickFrequency: Option<int>)
      ensures this.enableAck == enableAck
      ensures tickFrequency == TickFrequency(configuredTickFrequency)
      ensures fresh(writer) && writer.queue == []
    {
      this.enableAck := enableAck;
      tickFrequency := TickFrequency(configuredTickFrequency);
      writer := new QueuedHBaseWriter();
    }

    /** An exception inside is only logged, so `Execute` itself never fails a
        tuple; a batch that throws fails its tuples itself. */
    method Execute(tuple: Option<Tuple>, services: Services) returns (batch: Option<Batch>)
      modifies writer
      ensures Outcome(writer.queue, batch) == Step(old(writer.queue), tuple, enableAck, services)
    {
      batch := None;
      if IsTickTuple(tuple) || tuple.value.stream == ARCHIVE_STREAM {
        if !IsTickTuple(tuple) {
          writer.QueueTuple(tuple.value);
          if writer.QueueCount() > FLUSH_THRESHOLD {
            var b := writer.WriteTweetBatch(enableAck, services);
            batch := Some(b);
          }
        } else {
          var b := writer.WriteTweetBatch(enableAck, services);
          batch := Some(b);
        }
      }
    }
  }
}
