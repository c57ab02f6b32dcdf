# TwitterStorm core, modelled in Dafny

TwitterStorm is a Storm (SCP.NET) topology that processes tweets:

- a spout reads tweets from a message queue;
- bolts score sentiment, geocode, count swear words, and join the sentiment and geography partials;
- a sliding window ranks trending topics;
- a batching writer archives tweets and topics in HBase.

This project models the sequential, stateful logic under those components and proves what it promises.

The files, one module each:

- `storm.dfy` (`Storm`):
  - tuples as records of typed values, plus the stream names;
  - the tick test, and the typed getters, which raise on a missing or wrongly typed field;
  - a bolt's side effects, each an emit, an ack or a fail;
  - the ack and fail loops.
- `slot_counter.dfy` (`SlotCounter`): `SlotBasedCounter<T>` as a class.
  - It holds a map from key to a fixed-length `array<int>` of per-slot counts, updated in place.
  - A ghost `Counts` map mirrors the arrays, and the methods are proved against functions on it.
- `window_counter.dfy` (`WindowCounter`): `SlidingWindowCounter<T>`.
  - A ring of slots with `head`/`tail` pointers over a `SlotBasedCounter`.
  - `Window` is its abstract value: the counts, `head`, `tail` and `length`.
  - Lemmas over `Window` trace an increment through later snapshots.
- `trending.dfy` (`Trending`): `SlidingWindowBolt`.
  - On a tick it snapshots, sorts descending, takes the top 50 and emits them ranked 1, 2, 3, ….
  - On data it counts field 0.
- `merge.dfy` (`Merge`): `MergeBolt` and `CachedTweet`.
  - A per-id cache joins a sentiment partial and a geography partial.
  - Once both are in, it emits the merged tuple and acks every cached input of that id.
- `row_key.dfy` (`RowKey`): the HBase row key `partition + "_" + PadLeft(20)(2^64-1 - ts) + id`, with its ordering property.
- `hbase_writer.dfy` (`HBaseWriter`): `QueuedHBaseWriter`.
  - A FIFO queue, drained into one batch.
  - The rows and cells built for each tuple.
  - The batch is acked in full after a successful store and failed in full otherwise.
- `hbase_bolt.dfy` (`HBaseTweetBolt`): queues archive tuples and flushes when the queue exceeds 500 or a tick arrives.
- `spout.dfy` (`Spout`): `TwitterSpout`.
  - Credit-based admission of receives.
  - A strictly increasing sequence id.
  - A map from sequence id to held message, released by `Ack`/`Fail`.
- `text.dfy` (`Text`): the .NET string operations the swear-word bolt applies: `Replace`, `ToLower`, `Split`, `Trim` and the digits test.
- `swear_words.dfy` (`SwearWords`): `SwearWordBolt.Execute`.
  - It cleans and tokenises the body, filters the words and counts dictionary hits.
  - It builds the de-duplicated topic list, bigrams included.
  - It emits one archive tuple and one topic tuple per topic, then acks; on any exception it fails.

Exceptions inside a bolt's `try` are modelled as the `Raised` case of `Result`.

Calls into code this model does not define are parameters:

- JSON parsing, `DateTime.Parse`/`ToBinary`, the emoji/URL/mention regexes and `NGram.Generate` are function fields of a `Services` record;
- the HBase store's outcome is a boolean;
- the message-queue receive is a `Receipt` value.

## Model

| member | source | states |
|---|---|---|
| Storm.GetStrings | TwitterStorm/Bolts/SwearWordBolt.cs:153-165 | reading fields `from .. from+n-1` succeeds iff every single getter succeeds, and then yields exactly their values in order |
| Storm.AckEach | TwitterStorm/Persistance/QueuedHBaseWriter.cs:153-159 | the ack loop over a batch produces `AckAll` of the batch, one ack per tuple in order |
| Storm.FailEach | TwitterStorm/Persistance/QueuedHBaseWriter.cs:164-172 | the fail loop over a batch produces `FailAll` of the batch, one fail per tuple in order |
| Storm.AckAllExactlyOnce | TwitterStorm/Persistance/QueuedHBaseWriter.cs:153-159 | over distinct tuples, each batch tuple is acked exactly once, nothing else is acked, and nothing is failed |
| Storm.FailAllExactlyOnce | TwitterStorm/Persistance/QueuedHBaseWriter.cs:164-172 | over distinct tuples, each batch tuple is failed exactly once, nothing else is failed, and nothing is acked |
| SlotCounter.SumNonNegative | TwitterStorm/Components/SlotBasedCounter.cs:34-40 | a slot array of non-negative counts has a non-negative total |
| SlotCounter.SumZeroIsZeros | TwitterStorm/Components/SlotBasedCounter.cs:61-62 | a non-negative slot array with total 0 is all zeros, so a removed key lost no counts |
| SlotCounter.IncrementedEffect | TwitterStorm/Components/SlotBasedCounter.cs:26-35 | an increment keeps every array at `slots` entries. It adds the key (all-zero first) if absent, raises only that key's count at `slot` by 1, leaves every other key's array unchanged and raises the key's total by exactly 1 |
| SlotCounter.CleanedUpEffect | TwitterStorm/Components/SlotBasedCounter.cs:55-64 | after cleanup: no new keys; every survivor has 0 at `slot`, its other slots unchanged and a positive total; every dropped key was all zero apart from `slot` |
| SlotCounter.TotalsOf | TwitterStorm/Components/SlotBasedCounter.cs:43-53 | the totals map has exactly the counter's keys, each mapped to the sum of its slots |
| SlotCounter.ArraySum | TwitterStorm/Components/SlotBasedCounter.cs:73 | the summing loop over a slot array returns the sum of its contents |
| SlotCounter.SlotBasedCounter.constructor | TwitterStorm/Components/SlotBasedCounter.cs:17-23 | a new counter has the given slot count and no keys |
| SlotCounter.SlotBasedCounter.Create | TwitterStorm/Components/SlotBasedCounter.cs:19-22 | construction throws iff `numSlots < 0` (0 is accepted); otherwise the counter is empty |
| SlotCounter.SlotBasedCounter.Increment | TwitterStorm/Components/SlotBasedCounter.cs:26-35 | the new counts are `Incremented(old counts)`: a fresh zero array for a new key, then `++` at `slot` |
| SlotCounter.SlotBasedCounter.AddKey | TwitterStorm/Components/SlotBasedCounter.cs:28-31 | an absent key gets a fresh all-zero array of length `slots` |
| SlotCounter.SlotBasedCounter.Bump | TwitterStorm/Components/SlotBasedCounter.cs:33-34 | exactly one count of one present key rises by 1 |
| SlotCounter.SlotBasedCounter.Reset | TwitterStorm/Components/SlotBasedCounter.cs:37-41 | for a present key, only `slot` of that key becomes 0; the key set is unchanged |
| SlotCounter.SlotBasedCounter.GetAll | TwitterStorm/Components/SlotBasedCounter.cs:43-53 | returns the per-key totals of exactly the present keys; the state is untouched |
| SlotCounter.SlotBasedCounter.SumTotal | TwitterStorm/Components/SlotBasedCounter.cs:66-77 | returns the key's total, and 0 for an absent key |
| SlotCounter.SlotBasedCounter.Remove | TwitterStorm/Components/SlotBasedCounter.cs:62 | the key is removed and every other key is unchanged |
| SlotCounter.SlotBasedCounter.CleanUp | TwitterStorm/Components/SlotBasedCounter.cs:55-64 | the new counts are `CleanedUp(old counts, slot)`, whose meaning `CleanedUpEffect` states |
| WindowCounter.NextSlot | TwitterStorm/Components/SlidingWindowCounter.cs:51-54 | the next slot stays inside the ring |
| WindowCounter.NextSlotIsModulo | TwitterStorm/Components/SlidingWindowCounter.cs:51-54 | the wrap-around step is `(slot + 1) mod length` |
| WindowCounter.Initial | TwitterStorm/Components/SlidingWindowCounter.cs:20-29 | a new window is valid, empty, with `head = 0` and `tail = 1` |
| WindowCounter.IncrPreserves | TwitterStorm/Components/SlidingWindowCounter.cs:40-43 | an increment keeps the ring invariant, `length` non-negative counts per key, and no key with a zero total |
| WindowCounter.Rotated | TwitterStorm/Components/SlidingWindowCounter.cs:45-49 | after a snapshot, `head` is the old `tail` and `tail` follows it round the ring |
| WindowCounter.RotatedPreserves | TwitterStorm/Components/SlidingWindowCounter.cs:32-49 | a snapshot with eviction and advance keeps the full window invariant |
| WindowCounter.Rotate | TwitterStorm/Components/SlidingWindowCounter.cs:32-49 | any number of snapshots keep the ring invariant and length |
| WindowCounter.IncrTimes | TwitterStorm/Components/SlidingWindowCounter.cs:40-43 | repeated increments never move the pointers |
| WindowCounter.IncrTimesEffect | TwitterStorm/Components/SlidingWindowCounter.cs:40-43 | `n` increments add `n` to the key's `head` slot only, and make the key present iff it was present or `n > 0` |
| WindowCounter.RotateKeepsAbsent | TwitterStorm/Components/SlidingWindowCounter.cs:32-49 | snapshots never bring an absent key back |
| WindowCounter.RotatedSpike | TwitterStorm/Components/SlidingWindowCounter.cs:34-36 | a key whose counts sit in one slot survives a snapshot unchanged unless that slot is the evicted tail, in which case it is dropped |
| WindowCounter.SpikeLifetime | TwitterStorm/Components/SlidingWindowCounter.cs:34-49 | counts placed in the head slot stay intact for the next `length - 1` rotations and are gone after `length` |
| WindowCounter.SingleIncrement | TwitterStorm/Components/SlidingWindowCounter.cs:34-49 | one increment of a new key is reported with count 1 by each of the next `length` snapshots and is absent from the one after |
| WindowCounter.EarlierIncrements | TwitterStorm/Components/SlidingWindowCounter.cs:34-49 | `n2` increments followed by fewer than `length` rotations still total `n2` |
| WindowCounter.Accumulates | TwitterStorm/Components/SlidingWindowCounter.cs:34-43 | `n1` increments in the current head plus `n2` in a not-yet-evicted earlier slot are reported as `n1 + n2` |
| WindowCounter.SlidingWindowCounter.constructor | TwitterStorm/Components/SlidingWindowCounter.cs:20-29 | a new counter is the initial window of the given length |
| WindowCounter.SlidingWindowCounter.Create | TwitterStorm/Components/SlidingWindowCounter.cs:22-23 | construction throws iff `slotLength < 2`; otherwise the window is initial |
| WindowCounter.SlidingWindowCounter.GetWindowedCounts | TwitterStorm/Components/SlidingWindowCounter.cs:32-38 | returns the totals as they were before eviction; the new window is the old one with its tail zeroed, zero-total keys dropped and the pointers advanced |
| WindowCounter.SlidingWindowCounter.Increment | TwitterStorm/Components/SlidingWindowCounter.cs:40-43 | the window becomes `Incr(old window)`: one more count for the key in the `head` slot |
| WindowCounter.SlidingWindowCounter.Advance | TwitterStorm/Components/SlidingWindowCounter.cs:45-49 | `head` becomes the old `tail` and `tail` the slot after it |
| Trending.Insert | TwitterStorm/Bolts/SlidingWindowBolt.cs:66-68 | insertion adds exactly one element and keeps the others (as a multiset) |
| Trending.SortDescending | TwitterStorm/Bolts/SlidingWindowBolt.cs:66-68 | sorting is a permutation of its input |
| Trending.SortDescendingIsDescending | TwitterStorm/Bolts/SlidingWindowBolt.cs:66-68 | the sorted entries have non-increasing counts |
| Trending.Top | TwitterStorm/Bolts/SlidingWindowBolt.cs:66-68 | `Take(n)` keeps `min(n, count)` entries |
| Trending.SortedFromSnapshot | TwitterStorm/Bolts/SlidingWindowBolt.cs:66-68 | every sorted entry is a snapshot key paired with its snapshot count |
| Trending.SortedDistinctKeys | TwitterStorm/Bolts/SlidingWindowBolt.cs:66-68 | no key appears twice among the sorted entries |
| Trending.LeftOutBounded | TwitterStorm/Bolts/SlidingWindowBolt.cs:66-68 | every count left out of the top `n` is at most every count kept |
| Trending.TopIsTop | TwitterStorm/Bolts/SlidingWindowBolt.cs:66-68 | the taken prefix of the sorted snapshot is a valid top-`n` of the snapshot: right size, right counts, distinct keys, descending, nothing larger left out |
| Trending.EnumerateEntries | TwitterStorm/Bolts/SlidingWindowBolt.cs:66 | enumerating the snapshot lists each key once with its count, and every key |
| Trending.Rank | TwitterStorm/Bolts/SlidingWindowBolt.cs:66-68 | the ranking query returns a valid top-`n` of the snapshot |
| Trending.Emissions | TwitterStorm/Bolts/SlidingWindowBolt.cs:70-76 | one emission per ranked entry |
| Trending.EmitRanked | TwitterStorm/Bolts/SlidingWindowBolt.cs:70-76 | the loop emits `(rank, key, count)` for each ranked entry, with ranks 1, 2, 3, … in order, anchored on the tick |
| Trending.SlidingWindowBolt.constructor | TwitterStorm/Bolts/SlidingWindowBolt.cs:20-22 | the window is 300 slots (5 chunks × 60) and the result size is 50, over an initial window |
| Trending.SlidingWindowBolt.Execute | TwitterStorm/Bolts/SlidingWindowBolt.cs:60-86 | a tick rotates the window once and emits a valid top-50 of the pre-eviction snapshot, ranked, without acking. A data tuple increments field 0's key and is acked iff `enableAck`. A missing or null field 0 throws and changes nothing |
| Merge.Contribution | TwitterStorm/Bolts/MergeBolt.cs:83-97 | a contribution never touches the cached tuple list |
| Merge.StepKeepsEntries | TwitterStorm/Bolts/MergeBolt.cs:71-79 | a tuple's id gains a cache entry if it had none; no entry is ever removed and other ids' entries are unchanged |
| Merge.SentimentOverwrites | TwitterStorm/Bolts/MergeBolt.cs:83-86 | a sentiment tuple sets the tweet JSON, the sentiment and the sentiment flag, overwriting earlier values, and leaves the geography fields and flag alone |
| Merge.GeographyOverwrites | TwitterStorm/Bolts/MergeBolt.cs:87-97 | a geography tuple sets the six location fields and the geography flag, overwriting earlier values, and leaves the sentiment fields and flag alone |
| Merge.OtherStreamChangesNoField | TwitterStorm/Bolts/MergeBolt.cs:83-97 | a tuple from any other stream changes no field |
| Merge.FlagsMonotone | TwitterStorm/Bolts/MergeBolt.cs:145-146 | neither flag is ever cleared, so a complete entry stays complete |
| Merge.ArrivalOrderIrrelevant | TwitterStorm/Bolts/MergeBolt.cs:172-194 | sentiment then geography gives the same entry as geography then sentiment, and it is complete |
| Merge.CompleteEmitsThenAcks | TwitterStorm/Bolts/MergeBolt.cs:106-119 | an incomplete entry emits nothing. A complete one emits exactly one merged 9-field tuple first, then acks every cached tuple of the id (this one included) iff `enableAck` |
| Merge.CompletedIdReacks | TwitterStorm/Bolts/MergeBolt.cs:71-74 | a later tuple for a completed id emits the merged tuple again and re-acks every earlier tuple of that id |
| Merge.FailureScoped | TwitterStorm/Bolts/MergeBolt.cs:122-133 | when the contribution throws, other ids' entries are untouched, and the effects are exactly one fail per tuple cached under the id, in order (the current tuple, never cached, is not failed) iff `enableAck`, each carrying that id |
| Merge.ConsistentPreserved | TwitterStorm/Bolts/MergeBolt.cs:100-103 | every cached tuple stays filed under its own id |
| Merge.NoAckWithoutEnable | TwitterStorm/Bolts/MergeBolt.cs:100-103 | with acking off nothing is cached, and only the merged tuple is ever emitted: no ack, no fail |
| Merge.CachedTweet.constructor | TwitterStorm/Bolts/MergeBolt.cs:150-154 | a new entry has both flags clear, no fields and no cached tuples |
| Merge.CachedTweet.SetSentiment | TwitterStorm/Bolts/MergeBolt.cs:172-178 | sets the JSON, the sentiment and the flag |
| Merge.CachedTweet.SetGeography | TwitterStorm/Bolts/MergeBolt.cs:179-189 | sets the six location fields and the flag |
| Merge.CachedTweet.AddTuple | TwitterStorm/Bolts/MergeBolt.cs:102 | appends the tuple to the cached list |
| Merge.CachedTweet.Contribute | TwitterStorm/Bolts/MergeBolt.cs:83-97 | applies the tuple's partial iff its fields can be read; a throw leaves the entry unchanged |
| Merge.CachedTweet.IsComplete | TwitterStorm/Bolts/MergeBolt.cs:191-194 | complete iff both flags are set |
| Merge.MergeBolt.constructor | TwitterStorm/Bolts/MergeBolt.cs:24-62 | the cache starts empty |
| Merge.MergeBolt.Lookup | TwitterStorm/Bolts/MergeBolt.cs:71-79 | returns the id's entry, creating a fresh one only if absent; other entries are unchanged |
| Merge.MergeBolt.Execute | TwitterStorm/Bolts/MergeBolt.cs:64-134 | throws iff `Step` raises; otherwise the cache and the effects are those of `Step`, whose properties the lemmas above state |
| Merge.MergeBolt.Merge | TwitterStorm/Bolts/MergeBolt.cs:83-119 | the entry and the effects are those of `Settle`: contribute, cache the tuple, and on completion emit then ack, or on a throw fail the id's tuples |
| RowKey.DecimalRoundTrip | TwitterStorm/Persistance/QueuedHBaseWriter.cs:88 | `ToString()` of a number reads back as that number, uses only digits and has no leading zero |
| RowKey.DecimalLength | TwitterStorm/Persistance/QueuedHBaseWriter.cs:88 | a number below `10^k` has at most `k` digits |
| RowKey.PaddedOrder | TwitterStorm/Persistance/QueuedHBaseWriter.cs:88 | left-padding with spaces to a common width makes numeric order lexicographic order |
| RowKey.TimeIndexWidth | TwitterStorm/Persistance/QueuedHBaseWriter.cs:88 | the padded time index is always exactly 20 characters |
| RowKey.LaterTimeIndexFirst | TwitterStorm/Persistance/QueuedHBaseWriter.cs:88 | a later timestamp gives a lexicographically smaller time index |
| RowKey.LaterSortsFirst | TwitterStorm/Persistance/QueuedHBaseWriter.cs:88-89 | within one partition, a later timestamp gives a smaller row key, whatever the ids |
| RowKey.KeyLayout | TwitterStorm/Persistance/QueuedHBaseWriter.cs:212-213 | the key is the partition, then `_`, then 20 index characters, then the decimal id, which reads back |
| HBaseWriter.Required | TwitterStorm/Persistance/QueuedHBaseWriter.cs:273-280 | cells for required columns are built iff no value is null, and then there is one cell per column, in order, holding its value |
| HBaseWriter.HashtagColumns | TwitterStorm/Persistance/QueuedHBaseWriter.cs:134-146 | one column name per hashtag |
| HBaseWriter.Rows | TwitterStorm/Persistance/QueuedHBaseWriter.cs:58-148 | building a batch's rows succeeds iff every tuple's row succeeds, and then gives those rows in queue order |
| HBaseWriter.BuildRows | TwitterStorm/Persistance/QueuedHBaseWriter.cs:58-148 | the row-building loop stops at the first throw and otherwise yields `Rows` |
| HBaseWriter.RowsRaised | TwitterStorm/Persistance/QueuedHBaseWriter.cs:58-148 | a throw on any prefix of the batch makes the whole batch throw |
| HBaseWriter.EmptyBatchDoesNothing | TwitterStorm/Persistance/QueuedHBaseWriter.cs:48 | a batch write on an empty queue stores nothing, acks nothing and fails nothing |
| HBaseWriter.StoredBatchAcksEach | TwitterStorm/Persistance/QueuedHBaseWriter.cs:151-159 | after a successful store with acking on, the built rows are stored, every drained tuple is acked exactly once and none is failed |
| HBaseWriter.FailedBatchFailsEach | TwitterStorm/Persistance/QueuedHBaseWriter.cs:164-172 | when building or storing throws with acking on, every drained tuple is failed exactly once and none is acked |
| HBaseWriter.NoAckWithoutEnable | TwitterStorm/Persistance/QueuedHBaseWriter.cs:153-172 | with acking off a batch write acks and fails nothing |
| HBaseWriter.LocationCellsPresence | TwitterStorm/Persistance/QueuedHBaseWriter.cs:94-112 | no location cell without coordinates; otherwise the coordinates cell comes first, and each of `admin_district1`, `admin_district2`, `country_region`, `locality` and `postalcode` holds a value iff that field is that non-null value |
| HBaseWriter.HashtagNaming | TwitterStorm/Persistance/QueuedHBaseWriter.cs:134-146 | hashtag cells are built iff no tag is null, named `ht:tag1`, `ht:tag2`, … in array order |
| HBaseWriter.QueuedHBaseWriter.constructor | TwitterStorm/Persistance/QueuedHBaseWriter.cs:30 | the queue starts empty |
| HBaseWriter.QueuedHBaseWriter.QueueTuple | TwitterStorm/Persistance/QueuedHBaseWriter.cs:32-38 | appends at the tail, and the count grows by exactly 1 |
| HBaseWriter.QueuedHBaseWriter.Drain | TwitterStorm/Persistance/QueuedHBaseWriter.cs:48-54 | every queued tuple moves to the batch in FIFO order and the queue is left empty |
| HBaseWriter.QueuedHBaseWriter.WriteBatchTo | TwitterStorm/Persistance/QueuedHBaseWriter.cs:41-176 | the queue is emptied and the batch is `WriteBatch` of the old queue; drained tuples are never re-queued |
| HBaseWriter.QueuedHBaseWriter.WriteTweetBatch | TwitterStorm/Persistance/QueuedHBaseWriter.cs:41-176 | the tweet-table batch write of the whole queue, which is left empty |
| HBaseWriter.QueuedHBaseWriter.WriteTopicBatch | TwitterStorm/Persistance/QueuedHBaseWriter.cs:180-269 | the topic-table batch write of the whole queue, which is left empty |
| HBaseTweetBolt.TickFrequency | TwitterStorm/Bolts/HBaseTweetBolt.cs:76-77 | the tick period is 300 s when unset, the configured value otherwise |
| HBaseTweetBolt.QueueBounded | TwitterStorm/Bolts/HBaseTweetBolt.cs:94-101 | between calls the queue never holds more than 500 tuples |
| HBaseTweetBolt.FlushAt501 | TwitterStorm/Bolts/HBaseTweetBolt.cs:94-101 | the 500th archive tuple is only queued; the 501st writes all 501 in arrival order |
| HBaseTweetBolt.QueuingSettlesNothing | TwitterStorm/Bolts/HBaseTweetBolt.cs:96-101 | queuing below the threshold writes nothing, so the tuple is neither acked nor failed yet |
| HBaseTweetBolt.TickFlushes | TwitterStorm/Bolts/HBaseTweetBolt.cs:103-106 | a tick (a null tuple included) writes the whole queue, whatever its size, as one tweet batch, and empties it |
| HBaseTweetBolt.OtherStreamsIgnored | TwitterStorm/Bolts/HBaseTweetBolt.cs:92 | a tuple of any other stream, the topic stream included, is neither queued nor settled |
| HBaseTweetBolt.HBaseTweetBolt.constructor | TwitterStorm/Bolts/HBaseTweetBolt.cs:76-77 | the tick period is the configured one or 300, and the writer starts empty |
| HBaseTweetBolt.HBaseTweetBolt.Execute | TwitterStorm/Bolts/HBaseTweetBolt.cs:86-113 | the new queue and the batch written are those of `Step` on the old queue |
| Spout.MaxPending | TwitterStorm/Spouts/TwitterSpout.cs:22 | the pending limit is 100 unless configured |
| Spout.PendingBounded | TwitterStorm/Spouts/TwitterSpout.cs:73 | the number of held messages never exceeds `max + 1` |
| Spout.SeqIdsFresh | TwitterStorm/Spouts/TwitterSpout.cs:75 | each admitted attempt takes the next sequence id, whatever it receives. An emitted id was never held before, and every held id has already been issued |
| Spout.OnlyEnglishEmitted | TwitterStorm/Spouts/TwitterSpout.cs:89-95 | only English messages are emitted, as `(id, body)`, and each admitted English message is emitted |
| Spout.NoAckKeepsState | TwitterStorm/Spouts/TwitterSpout.cs:113-139 | with acking off nothing is held, the sequence id never moves and no emission carries an id |
| Spout.NothingReceivedHoldsNothing | TwitterStorm/Spouts/TwitterSpout.cs:102-106 | an empty or failed receive emits nothing and leaves the held messages unchanged |
| Spout.ReleaseOnce | TwitterStorm/Spouts/TwitterSpout.cs:142-172 | release removes exactly the id's entry and keeps the others; it returns a message iff the id was held; a second release of the same id is a no-op |
| Spout.TwitterSpout.constructor | TwitterStorm/Spouts/TwitterSpout.cs:31-44 | the sequence id starts at 0 with nothing held, and the limit is the configured one or 100 |
| Spout.TwitterSpout.NextTuple | TwitterStorm/Spouts/TwitterSpout.cs:69-140 | the new state and the emission are those of `Next` on the old state |
| Spout.TwitterSpout.Ack | TwitterStorm/Spouts/TwitterSpout.cs:142-156 | the state and completed message are those of `Release` |
| Spout.TwitterSpout.Fail | TwitterStorm/Spouts/TwitterSpout.cs:158-172 | the state and abandoned message are those of `Release` |
| Text.ReplaceCrLfRemovesAll | TwitterStorm/Bolts/SwearWordBolt.cs:101 | no carriage-return/line-feed pair survives the replacement |
| Text.ReplaceCrLfNoPair | TwitterStorm/Bolts/SwearWordBolt.cs:101 | a string without a pair is left unchanged |
| Text.ReplaceCrLfAtPair | TwitterStorm/Bolts/SwearWordBolt.cs:101 | the first pair becomes one space, the text before it is kept, and the text after it is replaced in turn |
| Text.RemoveChar | TwitterStorm/Bolts/SwearWordBolt.cs:104 | removal never lengthens the string |
| Text.RemoveCharEffect | TwitterStorm/Bolts/SwearWordBolt.cs:104 | no single quote remains, and every other character keeps its multiplicity |
| Text.RemoveCharAppend | TwitterStorm/Bolts/SwearWordBolt.cs:104 | removal works piece by piece, so the kept characters stay in their order |
| Text.Lower | TwitterStorm/Bolts/SwearWordBolt.cs:126 | lowercasing keeps the length |
| Text.LowerEffect | TwitterStorm/Bolts/SwearWordBolt.cs:126 | each capital `A`–`Z` becomes the small letter at the same alphabet position, every other character is unchanged, and lowercasing twice equals lowercasing once |
| Text.Split | TwitterStorm/Bolts/SwearWordBolt.cs:126 | a split yields at least one piece |
| Text.SplitEffect | TwitterStorm/Bolts/SwearWordBolt.cs:26-28 | there is one more piece than delimiters, empty pieces included; no piece contains a delimiter; the pieces concatenated are the string without its delimiters |
| Text.SplitNoDelimiter | TwitterStorm/Bolts/SwearWordBolt.cs:126 | a string without a delimiter is a single piece |
| Text.SplitAtIndex | TwitterStorm/Bolts/SwearWordBolt.cs:26-28 | a delimiter with none before it ends the first piece, which is the text before that index, and the text after it is split in turn |
| Text.SplitAtDelimiter | TwitterStorm/Bolts/SwearWordBolt.cs:26-28 | the first delimiter ends the first piece, which is all the text before it, and the rest is split in turn |
| Text.TrimStartEffect | TwitterStorm/Bolts/SwearWordBolt.cs:135 | the result is a suffix of the input with all the leading whitespace gone, and no whitespace at its start |
| Text.TrimEndEffect | TwitterStorm/Bolts/SwearWordBolt.cs:135 | the result is a prefix of the input with all the trailing whitespace gone, and no whitespace at its end |
| Text.TrimEffect | TwitterStorm/Bolts/SwearWordBolt.cs:135 | `Trim` keeps a contiguous part that neither starts nor ends with whitespace, with only whitespace outside it |
| SwearWords.Qualifying | TwitterStorm/Bolts/SwearWordBolt.cs:133-139 | the qualifying words are never more than the words |
| SwearWords.QualifyingMembers | TwitterStorm/Bolts/SwearWordBolt.cs:133-139 | a word qualifies iff it is the trim of some token and is non-empty, not a noise word and not all digits |
| SwearWords.SwearCountPositive | TwitterStorm/Bolts/SwearWordBolt.cs:142-145 | the count is positive iff some qualifying occurrence is a dictionary word, and never exceeds the occurrences |
| SwearWords.CountInAppend | TwitterStorm/Bolts/SwearWordBolt.cs:142-145 | the count is additive over concatenation, so every occurrence counts and duplicates count separately |
| SwearWords.TopicsAreQualifyingWords | TwitterStorm/Bolts/SwearWordBolt.cs:148-149 | the topic list holds each qualifying word, dictionary words included, exactly once |
| SwearWords.AddNewEffect | TwitterStorm/Bolts/SwearWordBolt.cs:148-149 | appending only absent candidates keeps the list distinct, keeps the earlier topics as a prefix, and adds exactly the candidates |
| SwearWords.AddNewOrder | TwitterStorm/Bolts/SwearWordBolt.cs:148-149 | the added topics appear in the order of their first occurrence among the candidates |
| SwearWords.FirstIndex | TwitterStorm/Bolts/SwearWordBolt.cs:148-149 | the first index of a word holds it, and no earlier index does |
| SwearWords.Normalized | TwitterStorm/Bolts/SwearWordBolt.cs:168-172 | one normalized bigram per bigram |
| SwearWords.ScanWords | TwitterStorm/Bolts/SwearWordBolt.cs:133-151 | the token loop yields exactly `SwearCount` and the topic list `Topics` |
| SwearWords.AppendBigrams | TwitterStorm/Bolts/SwearWordBolt.cs:168-174 | the bigram loop appends the lowercased, trimmed bigrams not already present |
| SwearWords.AllTopicsEffect | TwitterStorm/Bolts/SwearWordBolt.cs:148-174 | the final topics are distinct, begin with the word topics, and are exactly the qualifying words and the normalized bigrams |
| SwearWords.TopicEmits | TwitterStorm/Bolts/SwearWordBolt.cs:176-191 | one topic-stream emission per topic, anchored on the input, carrying that topic |
| SwearWords.EmitTopics | TwitterStorm/Bolts/SwearWordBolt.cs:176-191 | the emission loop yields `TopicEmits` |
| SwearWords.EmittedShape | TwitterStorm/Bolts/SwearWordBolt.cs:153-194 | on success: one archive emission ending in the swear-word count; then one topic emission per topic, in order, carrying the topic and ending in `count > 0`; then an ack iff `enableAck`; never a fail |
| SwearWords.AnalysisFailure | TwitterStorm/Bolts/SwearWordBolt.cs:196-202 | when reading or parsing the tuple throws, the only effect is a fail iff `enableAck` |
| SwearWords.VulgarIffSwearWord | TwitterStorm/Bolts/SwearWordBolt.cs:142-149 | the vulgar flag holds iff some topic word is in the dictionary |
| SwearWords.SwearWordBolt.constructor | TwitterStorm/Bolts/SwearWordBolt.cs:75-81 | the bolt keeps the acking flag, the dictionary and the noise words |
| SwearWords.SwearWordBolt.Execute | TwitterStorm/Bolts/SwearWordBolt.cs:84-203 | the effects are those of `Analysis`: the emissions `EmittedShape` describes on success, a fail on a throw |

## Left out

- Logging (`Context.Logger`), schema declaration and the topology wiring (TwitterStorm.cs, Program.cs, TwitterTest.cs) are not modelled: they carry no logic.
- The join assumes all tuples of one id reach one `MergeBolt` instance, through the fields grouping on field 0 in TwitterStorm.cs. The model has one bolt and does not state the grouping.
- GeographyBolt, SentimentBolt and BlobWriterBolt are thin wrappers over HTTP and blob storage. They are not part of this model.
- JSON parsing (Newtonsoft), `DateTime.Parse`, `DateTime.ToBinary`, the emoji, URL and mention regexes and `NGram.Generate` are not part of this model. They are function fields of `Services`, and a throw in them is their `Raised` result.
- The HBase client (`StoreCells`, `ListTables`, `CreateTable`, `EnsureTweetTable`/`EnsureTopicTable`) is not modelled; a store's outcome is the boolean `storeOk`.
- The Service Bus client, `Complete`/`Abandon`, `Thread.Sleep` and the receive timeout are not modelled: a receive is a `Receipt` value. A throw from `Complete` or `Abandon` in `Ack`/`Fail` is not modelled.
- Locks and concurrency are not modelled: `lock(queue)` and the unlocked `queue.Count > 0` check. Enqueue and drain are atomic steps.
- Reading configuration, and loading the dictionary and noise-word files, are not modelled: their values are constructor parameters.
- Spout.TwitterSpout.NextTuple: `lastSeqId` is an unbounded integer; `long` overflow after 2^63 attempts is not modelled.
- SlotCounter.SlotBasedCounter.Increment: counts are unbounded integers; `long` overflow of a slot count is not modelled.
- RowKey.Key: the timestamp is a number in 0 .. 2^64-1. The `(ulong)` cast of a negative `ToBinary()` value is not modelled.
- Text.Lower: `ToLower()` is modelled on ASCII letters only, and the `\d` test on ASCII digits only.
- Trending.Rank: `Dictionary` enumeration order is unspecified, and so is the order among equal counts after the stable sort. The model fixes one enumeration and proves the top-`n` property for it rather than one exact order. The tick then emits in the order of the keys of the dictionary built by `ToDictionary`; the model assumes that dictionary enumerates in insertion order, that is, in sorted order, which .NET does not document.
- Trending.SlidingWindowBolt.Execute: a null tick tuple anchors its emissions on nothing.
- Trending.SlidingWindowBolt.Execute: the emissions follow the ranked order, which assumes that the `ToDictionary` result enumerates its keys in insertion order.
- The bigram list holds no null entries, so a null bigram's throw in `ToLower()` is not modelled.
- SwearWords.SwearWordBolt.Execute: the archive emission happens before the bigrams are generated, so a throw in `NGram.Generate` would follow an emission with a fail. `bigrams` is total in the model, so that interleaving cannot arise.
- Where the code and the intended design differ, the model follows the code:
  - A counted key is reported by `length` snapshots, and gone from the next.
  - Join entries and their cached tuples are never removed, so a completed id re-emits and re-acks.
  - The row key's time index is padded with spaces, not zeros.
  - `SlotBasedCounter` accepts 0 slots and `SlidingWindowCounter` accepts 2, although their messages say "greater than".
