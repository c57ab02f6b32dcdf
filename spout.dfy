/** `TwitterSpout`: reads tweets from a message queue and emits the English
    ones as `(id, tweet JSON)`. With acking on, each emission carries a fresh
    sequence id and its message is held until the topology acks or fails that
    id; at most `MAX_PENDING_TUPLE_NUM + 1` messages are ever held. */
module Spout {
  import opened Storm

  const DEFAULT_MAX_PENDING_TUPLE_NUM := 100
  const ENGLISH := "English"

  /** A received queue message, by identity. */
  type MessageRef = nat

  /** What one receive attempt gave: nothing within the timeout, an exception
      (from the receive or from parsing the body), or a message with the body
      and the two JSON fields the spout reads. */
  datatype Receipt =
    | Empty
    | Broken
    | Message(message: MessageRef, body: string, id: int, language: NullableString)

  /** An emission: the values and, with acking on, the sequence id. */
  datatype SpoutEmit = SpoutEmit(values: seq<Value>, seqId: Option<int>)

  datatype SpoutState = SpoutState(lastSeqId: int, cachedTuples: map<int, MessageRef>)

  /** The configured pending limit, or 100. */
  function MaxPending(configured: Option<int>): (max: int)
    ensures configured.None? ==> max == DEFAULT_MAX_PENDING_TUPLE_NUM
    ensures configured.Some? ==> max == configured.value
  {
    if configured.Some? then configured.value else DEFAULT_MAX_PENDING_TUPLE_NUM
  }

  predicate IsEnglish(r: Receipt) {
    r.Message? && !IsNullOrEmpty(r.language) && r.language.value == ENGLISH
  }

  /** One `NextTuple`. With acking on, a receive is attempted only while at most
      `max` messages are pending, and each attempt takes the next sequence id,
      whatever it receives; an English message is emitted under that id and
      held. With acking off, nothing is numbered or held. */
  function Next(s: SpoutState, enableAck: bool, max: int, r: Receipt): (SpoutState, Option<SpoutEmit>) {
    if enableAck then
      if |s.cachedTuples| <= max then
        var seqId := s.lastSeqId + 1;
        if IsEnglish(r) then
          (SpoutState(seqId, s.cachedTuples[seqId := r.message]),
           Some(SpoutEmit([LongV(r.id), StrV(r.body)], Some(seqId))))
        else (s.(lastSeqId := seqId), None)
      else (s, None)
    else if IsEnglish(r) then (s, Some(SpoutEmit([LongV(r.id), StrV(r.body)], None)))
    else (s, None)
  }

  /** `Ack` and `Fail` alike: release the held message of `seqId`, if any. */
  function Release(s: SpoutState, seqId: int): (SpoutState, Option<MessageRef>) {
    if seqId in s.cachedTuples then (s.(cachedTuples := s.cachedTuples - {seqId}), Some(s.cachedTuples[seqId]))
    else (s, None)
  }

  /** How many messages can be pending with limit `max`. */
  function PendingBound(max: int): nat {
    if max < 0 then 0 else max + 1
  }

  /** Every held message is under a sequence id already handed out. */
  ghost predicate SeqIdsIssued(s: SpoutState) {
    forall k :: k in s.cachedTuples ==> k <= s.lastSeqId
  }

  /** The pending count never exceeds `max + 1`. */
  lemma PendingBounded(s: SpoutState, enableAck: bool, max: int, r: Receipt)
    requires |s.cachedTuples| <= PendingBound(max)
    ensures |Next(s, enableAck, max, r).0.cachedTuples| <= PendingBound(max)
  {
    if enableAck && |s.cachedTuples| <= max && IsEnglish(r) {
      var seqId := s.lastSeqId + 1;
      assert s.cachedTuples[seqId := r.message].Keys == s.cachedTuples.Keys + {seqId};
    }
  }

  /** Each attempt in ack mode takes a new sequence id above every id handed
      out before, so a held message never shares its id with another, and an
      emitted id was never used before. */
  lemma SeqIdsFresh(s: SpoutState, max: int, r: Receipt)
    requires SeqIdsIssued(s)
    ensures var (s2, e) := Next(s, true, max, r);
      && SeqIdsIssued(s2)
      && s2.lastSeqId >= s.lastSeqId
      && (|s.cachedTuples| <= max ==> s2.lastSeqId == s.lastSeqId + 1)
      && (e.Some? ==> e.value.seqId == Some(s2.lastSeqId) && s2.lastSeqId !in s.cachedTuples
                      && s2.cachedTuples == s.cachedTuples[s2.lastSeqId := r.message])
  {
  }

  /** Only English messages are emitted, as `(id, body)`. */
  lemma OnlyEnglishEmitted(s: SpoutState, enableAck: bool, max: int, r: Receipt)
    ensures var e := Next(s, enableAck, max, r).1;
      e.Some? ==> IsEnglish(r) && e.value.values == [LongV(r.id), StrV(r.body)]
    ensures IsEnglish(r) && (!enableAck || |s.cachedTuples| <= max) ==> Next(s, enableAck, max, r).1.Some?
  {
  }

  /** With acking off, nothing is held and the sequence id never moves. */
  lemma NoAckKeepsState(s: SpoutState, max: int, r: Receipt)
    ensures Next(s, false, max, r).0 == s
    ensures Next(s, false, max, r).1.Some? ==> Next(s, false, max, r).1.value.seqId.None?
  {
  }

  /** An empty or failed receive holds nothing new. */
  lemma NothingReceivedHoldsNothing(s: SpoutState, enableAck: bool, max: int, r: Receipt)
    requires !r.Message?
    ensures Next(s, enableAck, max, r).0.cachedTuples == s.cachedTuples
    ensures Next(s, enableAck, max, r).1.None?
  {
  }

  /** Releasing removes exactly the id's entry; an unknown id changes nothing,
      so a second ack or fail of the same id is a no-op. */
  lemma ReleaseOnce(s: SpoutState, seqId: int)
    ensures var (s2, m) := Release(s, seqId);
      && seqId !in s2.cachedTuples
      && (forall k :: k in s.cachedTuples && k != seqId ==> k in s2.cachedTuples && s2.cachedTuples[k] == s.cachedTuples[k])
      && s2.cachedTuples.Keys <= s.cachedTuples.Keys
      && (m.Some? <==> seqId in s.cachedTuples)
      && Release(s2, seqId) == (s2, None)
  {
  }

  class TwitterSpout {
    const enableAck: bool
    const maxPending: int
    var lastSeqId: int
    var cachedTuples: map<int, MessageRef>

    function State(): SpoutState
      reads this
    {
      SpoutState(lastSeqId, cachedTuples)
    }

    constructor (enableAck: bool, configuredMax: Option<int>)
      ensures this.enableAck == enableAck && maxPending == MaxPending(configuredMax)
      ensures State() == SpoutState(0, map[])
    {
      this.enableAck := enableAck;
      maxPending := MaxPending(configuredMax);
      lastSeqId := 0;
      cachedTuples := map[];
    }

    /** `r` is what `Receive` gives if it is called. */
    method NextTuple(r: Receipt) returns (emitted: Option<SpoutEmit>)
      modifies this
      ensures (State(), emitted) == Next(old(State()), enableAck, maxPending, r)
    {
      emitted := None;
      if enableAck {
        if |cachedTuples| <= maxPending {
          lastSeqId := lastSeqId + 1;
          if r.Message? && !IsNullOrEmpty(r.language) && r.language.value == ENGLISH {
            emitted := Some(SpoutEmit([LongV(r.id), StrV(r.body)], Some(lastSeqId)));
            cachedTuples := cachedTuples[lastSeqId := r.message];
          }
        }
      } else {
        if r.Message? && !IsNullOrEmpty(r.language) && r.language.value == ENGLISH {
          emitted := Some(SpoutEmit([LongV(r.id), StrV(r.body)], None));
        }
      }
    }

    /** Completes the held message of `seqId`, if any. */
    method Ack(seqId: int) returns (completed: Option<MessageRef>)
      modifies this
      ensures (State(), completed) == Release(old(State()), seqId)
    {
      completed := None;
      if seqId in cachedTuples {
        completed := Some(cachedTuples[seqId]);
        cachedTuples := cachedTuples - {seqId};
      }
    }

    /** Abandons the held message of `seqId`, if any. */
    method Fail(seqId: int) returns (abandoned: Option<MessageRef>)
      modifies this
      ensures (State(), abandoned) == Release(old(State()), seqId)
    {
      abandoned := None;
      if seqId in cachedTuples {
        abandoned := Some(cachedTuples[seqId]);
        cachedTuples := cachedTuples - {seqId};
      }
    }
  }
}
