/** `MergeBolt`: the fan-in join. Per tweet id it caches the partial from the
    "sentiment" stream and the partial from the "geography" stream, emits the
    merged nine-field tuple once both are present, and acks (or, on an exception,
    fails) the tuples it cached for that id. Entries are never removed. */
module Merge {
  import opened Storm

  /** The abstract value of a `CachedTweet`. */
  datatype Entry = Entry(
    tweetJson: NullableString,
    sentiment: NullableString,
    coordinates: NullableString,
    adminDistrict: NullableString,
    adminDistrict2: NullableString,
    countryRegion: NullableString,
    locality: NullableString,
    postalCode: NullableString,
    hasSentiment: bool,
    hasGeography: bool,
    cachedTuples: seq<Tuple>)

  /** A new `CachedTweet`: every field null, no flag, no cached tuple. */
  const Fresh := Entry(None, None, None, None, None, None, None, None, false, false, [])

  predicate Complete(e: Entry) {
    e.hasSentiment && e.hasGeography
  }

  function WithSentiment(e: Entry, json: NullableString, mood: NullableString): Entry {
    e.(hasSentiment := true, tweetJson := json, sentiment := mood)
  }

  function WithGeography(e: Entry, coords: NullableString, adminDistrict: NullableString,
                         adminDistrict2: NullableString, countryRegion: NullableString,
                         locality: NullableString, postalCode: NullableString): Entry
  {
    e.(hasGeography := true, coordinates := coords, adminDistrict := adminDistrict,
       adminDistrict2 := adminDistrict2, countryRegion := countryRegion,
       locality := locality, postalCode := postalCode)
  }

  /** The field updates of the `try` block: a sentiment tuple sets the JSON and
      the sentiment, a geography tuple the six location fields, any other stream
      nothing. A getter that throws does so before any field is set. */
  function Contribution(e: Entry, t: Tuple): (r: Result<Entry>)
    ensures r.Ok? ==> r.value.cachedTuples == e.cachedTuples
  {
    if t.stream == SENTIMENT_STREAM then
      match GetStrings(t, 1, 2)
      case Raised => Raised
      case Ok(f) => Ok(WithSentiment(e, f[0], f[1]))
    else if t.stream == GEOGRAPHY_STREAM then
      match GetStrings(t, 1, 6)
      case Raised => Raised
      case Ok(f) => Ok(WithGeography(e, f[0], f[1], f[2], f[3], f[4], f[5]))
    else Ok(e)
  }

  /** The merged tuple: id, coordinates, tweet JSON, the four place names, postal
      code and sentiment. */
  function Merged(id: int, e: Entry): seq<Value> {
    [LongV(id), StringValue(e.coordinates), StringValue(e.tweetJson),
     StringValue(e.adminDistrict), StringValue(e.adminDistrict2), StringValue(e.countryRegion),
     StringValue(e.locality), StringValue(e.postalCode), StringValue(e.sentiment)]
  }

  /** An entry after the `try`/`catch` block, and what the block did. */
  datatype Settled = Settled(entry: Entry, effects: seq<Effect>)

  /** The `try`/`catch` block for the id's entry `e`. On success the tuple is
      cached (when acking) and, if the entry is complete, the merged tuple is
      emitted anchored on it and every cached tuple is acked. On an exception the
      entry is unchanged and its cached tuples are failed (when acking). */
  function Settle(id: int, e: Entry, t: Tuple, enableAck: bool): Settled {
    match Contribution(e, t)
    case Raised =>
      Settled(e, if enableAck then FailAll(e.cachedTuples) else [])
    case Ok(e1) =>
      var e2 := if enableAck then e1.(cachedTuples := e1.cachedTuples + [t]) else e1;
      Settled(e2,
        if Complete(e2) then [Emit(DEFAULT_STREAM, [t], Merged(id, e2))] + (if enableAck then AckAll(e2.cachedTuples) else [])
        else [])
  }

  datatype Outcome = Outcome(cache: map<int, Entry>, effects: seq<Effect>)

  /** One `Execute` on the abstract cache. A field 0 that is not a long throws out
      of `Execute` with nothing changed; otherwise the id's entry exists from then
      on, even when the `try` block throws. */
  function Step(cache: map<int, Entry>, t: Tuple, enableAck: bool): Result<Outcome> {
    match GetLong(t, 0)
    case Raised => Raised
    case Ok(id) =>
      var s := Settle(id, if id in cache then cache[id] else Fresh, t, enableAck);
      Ok(Outcome(cache[id := s.entry], s.effects))
  }

  /** Every tuple cached under an id carries that id in field 0. */
  ghost predicate Consistent(cache: map<int, Entry>) {
    forall id, u :: id in cache && u in cache[id].cachedTuples ==> GetLong(u, 0) == Ok(id)
  }

  /** Without acking, nothing is ever cached. */
  ghost predicate NothingCached(cache: map<int, Entry>) {
    forall id :: id in cache ==> cache[id].cachedTuples == []
  }

  /** The first tuple for an id creates its entry; no entry is ever removed, and
      no other id's entry changes. */
  lemma StepKeepsEntries(cache: map<int, Entry>, t: Tuple, enableAck: bool)
    requires Step(cache, t, enableAck).Ok?
    ensures var c := Step(cache, t, enableAck).value.cache;
      && GetLong(t, 0).Ok?
      && c.Keys == cache.Keys + {GetLong(t, 0).value}
      && forall k :: k in cache && k != GetLong(t, 0).value ==> c[k] == cache[k]
  {
  }

  /** A sentiment tuple whose fields read sets the JSON, the sentiment and the
      flag, whatever they were before, and no location field. */
  lemma SentimentOverwrites(id: int, e: Entry, t: Tuple, enableAck: bool)
    requires t.stream == SENTIMENT_STREAM
    requires GetString(t, 1).Ok? && GetString(t, 2).Ok?
    ensures var e2 := Settle(id, e, t, enableAck).entry;
      && e2.hasSentiment && e2.hasGeography == e.hasGeography
      && e2.tweetJson == GetString(t, 1).value && e2.sentiment == GetString(t, 2).value
      && e2.coordinates == e.coordinates && e2.adminDistrict == e.adminDistrict
      && e2.adminDistrict2 == e.adminDistrict2 && e2.countryRegion == e.countryRegion
      && e2.locality == e.locality && e2.postalCode == e.postalCode
  {
    var f := GetStrings(t, 1, 2);
    assert GetString(t, 1 + 0) == Ok(f.value[0]);
    assert GetString(t, 1 + 1) == Ok(f.value[1]);
  }

  /** A geography tuple whose fields read sets the six location fields and the
      flag, and neither the JSON nor the sentiment. */
  lemma GeographyOverwrites(id: int, e: Entry, t: Tuple, enableAck: bool)
    requires t.stream == GEOGRAPHY_STREAM
    requires forall i :: 1 <= i <= 6 ==> GetString(t, i).Ok?
    ensures var e2 := Settle(id, e, t, enableAck).entry;
      && e2.hasGeography && e2.hasSentiment == e.hasSentiment
      && e2.coordinates == GetString(t, 1).value && e2.adminDistrict == GetString(t, 2).value
      && e2.adminDistrict2 == GetString(t, 3).value && e2.countryRegion == GetString(t, 4).value
      && e2.locality == GetString(t, 5).value && e2.postalCode == GetString(t, 6).value
      && e2.tweetJson == e.tweetJson && e2.sentiment == e.sentiment
  {
    var f := GetStrings(t, 1, 6);
    assert forall i :: 0 <= i < 6 ==> GetString(t, 1 + i) == Ok(f.value[i]);
  }

  /** A tuple from any other stream sets no field and no flag. */
  lemma OtherStreamChangesNoField(id: int, e: Entry, t: Tuple, enableAck: bool)
    requires t.stream != SENTIMENT_STREAM && t.stream != GEOGRAPHY_STREAM
    ensures Settle(id, e, t, enableAck).entry.(cachedTuples := e.cachedTuples) == e
  {
  }

  /** The flags are never cleared, in any entry. */
  lemma FlagsMonotone(cache: map<int, Entry>, t: Tuple, enableAck: bool)
    requires Step(cache, t, enableAck).Ok?
    ensures var c := Step(cache, t, enableAck).value.cache;
      forall k :: k in cache ==>
        (cache[k].hasSentiment ==> c[k].hasSentiment) && (cache[k].hasGeography ==> c[k].hasGeography)
  {
    var id := GetLong(t, 0).value;
    var e := if id in cache then cache[id] else Fresh;
    var r := Contribution(e, t);
    assert r.Ok? ==> (e.hasSentiment ==> r.value.hasSentiment) && (e.hasGeography ==> r.value.hasGeography);
  }

  /** The sentiment and the geography partials touch disjoint fields, so the
      merged entry does not depend on which arrives first. */
  lemma ArrivalOrderIrrelevant(e: Entry, s: Tuple, g: Tuple)
    requires s.stream == SENTIMENT_STREAM && g.stream == GEOGRAPHY_STREAM
    requires Contribution(e, s).Ok? && Contribution(e, g).Ok?
    ensures Contribution(Contribution(e, s).value, g).Ok?
    ensures Contribution(Contribution(e, g).value, s).Ok?
    ensures Contribution(Contribution(e, s).value, g) == Contribution(Contribution(e, g).value, s)
    ensures Complete(Contribution(Contribution(e, s).value, g).value)
  {
  }

  /** When the entry is complete after a contribution, exactly one merged tuple
      is emitted, anchored on the current tuple, followed by one ack per cached
      tuple of the id, the current one last; an incomplete entry emits nothing. */
  lemma CompleteEmitsThenAcks(id: int, e: Entry, t: Tuple, enableAck: bool)
    requires Contribution(e, t).Ok?
    ensures var st := Settle(id, e, t, enableAck);
      && (!Complete(st.entry) ==> st.effects == [])
      && (Complete(st.entry) ==>
            && |st.effects| >= 1
            && st.effects[0] == Emit(DEFAULT_STREAM, [t], Merged(id, st.entry))
            && (forall i :: 1 <= i < |st.effects| ==> st.effects[i].Ack?)
            && st.effects[1..] == (if enableAck then AckAll(e.cachedTuples + [t]) else []))
  {
    var st := Settle(id, e, t, enableAck);
    if Complete(st.entry) {
      assert st.effects[1..] == (if enableAck then AckAll(e.cachedTuples + [t]) else []);
    }
  }

  /** Cached tuples are never dropped, so every later contribution to a complete
      id emits again and acks again every tuple cached for it before. */
  lemma CompletedIdReacks(cache: map<int, Entry>, t: Tuple, u: Tuple)
    requires Step(cache, t, true).Ok?
    requires GetLong(t, 0).value in cache && Complete(cache[GetLong(t, 0).value])
    requires Contribution(cache[GetLong(t, 0).value], t).Ok?
    requires u in cache[GetLong(t, 0).value].cachedTuples
    ensures var effects := Step(cache, t, true).value.effects;
      && effects[0] == Emit(DEFAULT_STREAM, [t], Merged(GetLong(t, 0).value, Step(cache, t, true).value.cache[GetLong(t, 0).value]))
      && Ack(u) in effects
  {
    var id := GetLong(t, 0).value;
    var e := cache[id];
    var e1 := Contribution(e, t).value;
    assert e1.hasSentiment && e1.hasGeography by {
      if t.stream == SENTIMENT_STREAM {
      } else if t.stream == GEOGRAPHY_STREAM {
      }
    }
    var i :| 0 <= i < |e.cachedTuples| && e.cachedTuples[i] == u;
    var effects := Step(cache, t, true).value.effects;
    assert effects[1 + i] == Ack(u);
  }

  /** A contribution that throws fails exactly the tuples cached under the
      current id, in order (the current tuple was never cached), and changes no
      entry. */
  lemma FailureScoped(cache: map<int, Entry>, t: Tuple, enableAck: bool)
    requires Consistent(cache)
    requires Step(cache, t, enableAck).Ok?
    requires var id := GetLong(t, 0).value;
      Contribution(if id in cache then cache[id] else Fresh, t).Raised?
    ensures var o := Step(cache, t, enableAck).value;
      var id := GetLong(t, 0).value;
      && (forall k :: k in cache ==> o.cache[k] == cache[k])
      && o.effects == (if enableAck then FailAll((if id in cache then cache[id] else Fresh).cachedTuples) else [])
      && forall i :: 0 <= i < |o.effects| ==> o.effects[i].Fail? && GetLong(o.effects[i].tuple, 0) == Ok(id)
  {
    var id := GetLong(t, 0).value;
    var e := if id in cache then cache[id] else Fresh;
    var o := Step(cache, t, enableAck).value;
    forall i | 0 <= i < |o.effects|
      ensures o.effects[i].Fail? && GetLong(o.effects[i].tuple, 0) == Ok(id)
    {
      assert o.effects[i] == Fail(e.cachedTuples[i]);
      assert e.cachedTuples[i] in e.cachedTuples;
    }
  }

  /** Every tuple cached under an id carries that id, from any start where that
      already holds. */
  lemma ConsistentPreserved(cache: map<int, Entry>, t: Tuple, enableAck: bool)
    requires Consistent(cache)
    requires Step(cache, t, enableAck).Ok?
    ensures Consistent(Step(cache, t, enableAck).value.cache)
  {
    var id := GetLong(t, 0).value;
    var e := if id in cache then cache[id] else Fresh;
    var c := Step(cache, t, enableAck).value.cache;
    forall k, u | k in c && u in c[k].cachedTuples
      ensures GetLong(u, 0) == Ok(k)
    {
      if k == id && u !in e.cachedTuples {
        assert u == t;
      }
    }
  }

  /** With acking off, nothing is cached, acked or failed. */
  lemma NoAckWithoutEnable(cache: map<int, Entry>, t: Tuple)
    requires NothingCached(cache)
    requires Step(cache, t, false).Ok?
    ensures NothingCached(Step(cache, t, false).value.cache)
    ensures forall i :: 0 <= i < |Step(cache, t, false).value.effects| ==>
      Step(cache, t, false).value.effects[i].Emit?
  {
  }

  class CachedTweet {
    const id: int
    var tweetJson: NullableString
    var sentiment: NullableString
    var coordinates: NullableString
    var adminDistrict: NullableString
    var adminDistrict2: NullableString
    var countryRegion: NullableString
    var locality: NullableString
    var postalCode: NullableString
    var hasSentiment: bool
    var hasGeography: bool
    var cachedTuples: seq<Tuple>

    function Model(): Entry
      reads this
    {
      Entry(tweetJson, sentiment, coordinates, adminDistrict, adminDistrict2, countryRegion,
            locality, postalCode, hasSentiment, hasGeography, cachedTuples)
    }

    constructor (id: int)
      ensures this.id == id && Model() == Fresh
    {
      this.id := id;
      tweetJson, sentiment := None, None;
      coordinates, adminDistrict, adminDistrict2 := None, None, None;
      countryRegion, locality, postalCode := None, None, None;
      hasSentiment, hasGeography := false, false;
      cachedTuples := [];
    }

    method SetSentiment(json: NullableString, mood: NullableString)
      modifies this
      ensures Model() == WithSentiment(old(Model()), json, mood)
    {
      hasSentiment := true;
      tweetJson := json;
      sentiment := mood;
    }

    method SetGeography(coords: NullableString, adminDistrict: NullableString,
                        adminDistrict2: NullableString, countryRegion: NullableString,
                        locality: NullableString, postalCode: NullableString)
      modifies this
      ensures Model() == WithGeography(old(Model()), coords, adminDistrict, adminDistrict2,
                                       countryRegion, locality, postalCode)
    {
      hasGeography := true;
      this.coordinates := coords;
      this.adminDistrict := adminDistrict;
      this.adminDistrict2 := adminDistrict2;
      this.countryRegion := countryRegion;
      this.locality := locality;
      this.postalCode := postalCode;
    }

    /** `CachedTuples.Add(tuple)`. */
    method AddTuple(t: Tuple)
      modifies this
      ensures Model() == old(Model()).(cachedTuples := old(cachedTuples) + [t])
    {
      cachedTuples := cachedTuples + [t];
    }

    /** The `try` block's field updates for one input tuple; `failed` is a getter
        that threw, before any field was set. */
    method Contribute(t: Tuple) returns (failed: bool)
      modifies this
      ensures failed <==> Contribution(old(Model()), t).Raised?
      ensures failed ==> Model() == old(Model())
      ensures !failed ==> Model() == Contribution(old(Model()), t).value
    {
      failed := false;
      if t.stream == SENTIMENT_STREAM {
        var f := GetStrings(t, 1, 2);
        if f.Raised? {
          failed := true;
        } else {
          SetSentiment(f.value[0], f.value[1]);
        }
      } else if t.stream == GEOGRAPHY_STREAM {
        var f := GetStrings(t, 1, 6);
        if f.Raised? {
          failed := true;
        } else {
          SetGeography(f.value[0], f.value[1], f.value[2], f.value[3], f.value[4], f.value[5]);
        }
      }
    }

    predicate IsComplete()
      reads this
      ensures IsComplete() <==> Complete(Model())
    {
      hasSentiment && hasGeography
    }
  }

  class MergeBolt {
    const enableAck: bool
    var tweetCache: map<int, CachedTweet>
    ghost var Repr: set<object>
    /** The id owning each cached tweet: no two ids share one. */
    ghost var owner: map<CachedTweet, int>

    /** Each id has its own cached tweet, which carries that id. */
    ghost predicate Valid()
      reads this
    {
      && this in Repr
      && forall id :: id in tweetCache ==>
           && tweetCache[id] in Repr && tweetCache[id] in owner && owner[tweetCache[id]] == id
           && tweetCache[id].id == id
    }

    /** The abstract value: each id's entry. */
    ghost function Cache(): map<int, Entry>
      reads this, tweetCache.Values
    {
      map id | id in tweetCache :: tweetCache[id].Model()
    }

    constructor (enableAck: bool)
      ensures Valid() && fresh(Repr)
      ensures this.enableAck == enableAck && Cache() == map[]
    {
      this.enableAck := enableAck;
      tweetCache := map[];
      Repr := {this};
      owner := map[];
    }

    /** The id's cached tweet, created and cached on first sight. */
    method Lookup(id: int) returns (cached: CachedTweet)
      requires Valid()
      modifies this
      ensures Valid() && fresh(Repr - old(Repr))
      ensures id in tweetCache && tweetCache[id] == cached
      ensures Cache() == old(Cache())[id := if id in old(Cache()) then old(Cache())[id] else Fresh]
    {
      if id in tweetCache {
        cached := tweetCache[id];
      } else {
        cached := new CachedTweet(id);
        tweetCache := tweetCache[id := cached];
        Repr := Repr + {cached};
        owner := owner[cached := id];
      }
    }

    /** Only the id's cached tweet changed. */
    twostate lemma OnlyOneChanged(id: int)
      requires old(Valid()) && unchanged(this) && id in tweetCache
      requires forall k :: k in tweetCache && k != id ==> unchanged(tweetCache[k])
      ensures Cache() == old(Cache())[id := tweetCache[id].Model()]
    {
      assert Cache().Keys == old(Cache())[id := tweetCache[id].Model()].Keys;
      forall k | k in tweetCache && k != id
        ensures Cache()[k] == old(Cache())[k]
      {
        assert tweetCache[k].Model() == old(tweetCache[k].Model());
      }
    }

    /** `raised` is an exception escaping `Execute` (field 0 not a long); one
        inside the `try` block is caught and fails the id's cached tuples. */
    method Execute(t: Tuple) returns (effects: seq<Effect>, raised: bool)
      requires Valid()
      modifies Repr
      ensures Valid() && fresh(Repr - old(Repr))
      ensures raised <==> Step(old(Cache()), t, enableAck).Raised?
      ensures !raised ==> Cache() == Step(old(Cache()), t, enableAck).value.cache
      ensures !raised ==> effects == Step(old(Cache()), t, enableAck).value.effects
    {
      var idField := GetLong(t, 0);
      if idField.Raised? {
        return [], true;
      }
      raised := false;
      var id := idField.value;
      ghost var c0 := old(Cache());
      ghost var e := if id in c0 then c0[id] else Fresh;
      var cached := Lookup(id);
      assert cached.Model() == Cache()[id] == e;
      ghost var c1 := Cache();
      label looked:
      effects := Merge(id, cached, t);
      ghost var s := Settle(id, e, t, enableAck);
      assert forall k :: k in tweetCache && k != id ==> tweetCache[k] != cached;
      OnlyOneChanged@looked(id);
      assert Cache() == c1[id := s.entry] == c0[id := s.entry];
      assert Step(c0, t, enableAck) == Ok(Outcome(c0[id := s.entry], s.effects));
    }

    /** The `try`/`catch` block of `Execute` on the id's cached tweet. */
    method Merge(id: int, cached: CachedTweet, t: Tuple) returns (effects: seq<Effect>)
      modifies cached
      ensures cached.Model() == Settle(id, old(cached.Model()), t, enableAck).entry
      ensures effects == Settle(id, old(cached.Model()), t, enableAck).effects
    {
      effects := [];
      var failed := cached.Contribute(t);
      if !failed {
        if enableAck {
          cached.AddTuple(t);
        }
        if cached.IsComplete() {
          effects := [Emit(DEFAULT_STREAM, [t], Merged(id, cached.Model()))];
          if enableAck {
            var acks := AckEach(cached.cachedTuples);
            effects := effects + acks;
          }
        }
      } else if enableAck {
        effects := FailEach(cached.cachedTuples);
      }
    }
  }
}
