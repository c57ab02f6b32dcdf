/** `QueuedHBaseWriter`: a FIFO queue of tuples, drained as a whole into one
    batch of HBase rows. The batch is stored with one call; then every drained
    tuple is acked, or, if anything threw first, every drained tuple is failed.
    Drained tuples are never queued again. */
module HBaseWriter {
  import opened Storm
  import opened RowKey

  const TWEET_TABLE := "tweets"
  const TOPIC_TABLE := "topics"

  /** A `(ulong)` value. */
  type ULong = x: nat | x <= ULONG_MAX

  /** A parsed `DateTime`: its binary form as a `ulong`, and its `ToString()`. */
  datatype Date = Date(binary: ULong, text: string)

  /** The fields the writer reads from the tweet's JSON; a JSON null reads as
      null. A missing `Text` token, or a missing token looked up with
      `errorWhenNoMatch`, makes the parse throw instead. */
  datatype TweetJson = TweetJson(
    text: NullableString,
    isRetweet: NullableString,
    retweeted: NullableString,
    retweetCount: NullableString,
    source: NullableString,
    profileId: NullableString,
    profileCreatedAt: NullableString,
    screenName: NullableString,
    followersCount: NullableString,
    friendsCount: NullableString,
    statusesCount: NullableString,
    hashtags: Option<seq<NullableString>>)

  /** What the writer calls but the model does not contain: `DateTime.Parse`,
      `JObject.Parse` with its token lookups (which throw on a required token
      that is missing), and whether `StoreCells` returns or throws. */
  datatype Services = Services(
    parseDate: string -> Result<Date>,
    parseJson: string -> Result<TweetJson>,
    storeOk: bool)

  datatype Table = Tweets | Topics

  function TableName(table: Table): string {
    match table
    case Tweets => TWEET_TABLE
    case Topics => TOPIC_TABLE
  }

  datatype Cell = Cell(column: string, data: string)
  datatype Row = Row(key: string, cells: seq<Cell>)

  /** One `CreateCell` per column, in order; `value.ToString()` on a null value
      throws. */
  function Required(columns: seq<string>, values: seq<NullableString>): (r: Result<seq<Cell>>)
    requires |columns| == |values|
    ensures r.Ok? <==> forall i :: 0 <= i < |values| ==> values[i].Some?
    ensures r.Ok? ==> |r.value| == |values|
    ensures r.Ok? ==> forall i :: 0 <= i < |values| ==> r.value[i] == Cell(columns[i], values[i].value)
  {
    if values == [] then Ok([])
    else if values[0].None? then Raised
    else
      match Required(columns[1..], values[1..])
      case Raised => Raised
      case Ok(rest) => Ok([Cell(columns[0], values[0].value)] + rest)
  }

  /** A cell added only when its value is not null. */
  function Optional(column: string, value: NullableString): seq<Cell> {
    if value.Some? then [Cell(column, value.value)] else []
  }

  /** The location cells of a family: none without coordinates; otherwise the
      coordinates and each place name that is not null. */
  function LocationCells(family: string, coordinates: NullableString, adminDistrict: NullableString,
                         adminDistrict2: NullableString, countryRegion: NullableString,
                         locality: NullableString, postalCode: NullableString): seq<Cell>
  {
    if IsNullOrEmpty(coordinates) then []
    else
      [Cell(family + ":coordinates", coordinates.value)]
      + Optional(family + ":admin_district1", adminDistrict)
      + Optional(family + ":admin_district2", adminDistrict2)
      + Optional(family + ":country_region", countryRegion)
      + Optional(family + ":locality", locality)
      + Optional(family + ":postalcode", postalCode)
  }

  /** `ht:tag1`, `ht:tag2`, … */
  function HashtagColumns(n: nat): (r: seq<string>)
    ensures |r| == n
  {
    seq(n, i requires 0 <= i < n => "ht:tag" + Decimal(i + 1))
  }

  /** The hashtag cells, in array order; no hashtag array adds none. */
  function HashtagCells(hashtags: Option<seq<NullableString>>): Result<seq<Cell>> {
    if hashtags.None? then Ok([])
    else Required(HashtagColumns(|hashtags.value|), hashtags.value)
  }

  function Concat3(a: Result<seq<Cell>>, b: Result<seq<Cell>>, c: Result<seq<Cell>>): Result<seq<Cell>> {
    if a.Raised? || b.Raised? || c.Raised? then Raised else Ok(a.value + b.value + c.value)
  }

  /** A date field: `DateTime.Parse(null)` throws. */
  function ParseDate(s: NullableString, services: Services): Result<Date> {
    if s.None? then Raised else services.parseDate(s.value)
  }

  /** The row of an archive tuple `(id, created, coordinates, tweet JSON,
      admin district, admin district 2, country/region, locality, postal code,
      sentiment, swear word count)`, keyed by the author's screen name. */
  function TweetRow(t: Tuple, services: Services): Result<Row> {
    var strs := GetStrings(t, 1, 9);
    if GetLong(t, 0).Raised? || strs.Raised? || GetInteger(t, 10).Raised? then Raised
    else
      var id := GetLong(t, 0).value;
      var f := strs.value;
      var swearWordCount := GetInteger(t, 10).value;
      match ParseDate(f[0], services)
      case Raised => Raised
      case Ok(date) =>
        if f[2].None? then Raised
        else
          match services.parseJson(f[2].value)
          case Raised => Raised
          case Ok(j) =>
            var cells := Concat3(
              Ok(LocationCells("loc", f[1], f[3], f[4], f[5], f[6], f[7])),
              Required(["user:profile_id", "user:screenname", "user:profile_created_dt",
                        "user:followers_count", "user:friends_count", "user:statuses_count",
                        "tweet:id", "tweet:created_dt", "tweet:text", "tweet:is_retweet",
                        "tweet:retweeted", "tweet:retweet_count", "tweet:source",
                        "tweet:sentiment", "tweet:swear_word_count"],
                       [j.profileId, j.screenName, j.profileCreatedAt,
                        j.followersCount, j.friendsCount, j.statusesCount,
                        Some(LongString(id)), Some(date.text), j.text, j.isRetweet,
                        j.retweeted, j.retweetCount, j.source,
                        f[8], Some(LongString(swearWordCount))]),
              HashtagCells(j.hashtags));
            if cells.Raised? then Raised
            else Ok(Row(Key(j.screenName, date.binary, id), cells.value))
  }

  /** The row of a topic tuple `(id, created, coordinates, topic, admin district,
      admin district 2, country/region, locality, postal code, sentiment,
      vulgar)`, keyed by the topic. */
  function TopicRow(t: Tuple, services: Services): Result<Row> {
    var strs := GetStrings(t, 1, 9);
    if GetLong(t, 0).Raised? || strs.Raised? || GetBoolean(t, 10).Raised? then Raised
    else
      var id := GetLong(t, 0).value;
      var f := strs.value;
      var vulgarTweet := GetBoolean(t, 10).value;
      match ParseDate(f[0], services)
      case Raised => Raised
      case Ok(date) =>
        var cells := Concat3(
          Ok(LocationCells("tp", f[1], f[3], f[4], f[5], f[6], f[7])),
          Required(["tp:created_dt", "tp:sentiment", "tp:vulgar_tweet"],
                   [Some(date.text), f[8], Some(BoolString(vulgarTweet))]),
          Ok([]));
        if cells.Raised? then Raised
        else Ok(Row(Key(f[2], date.binary, id), cells.value))
  }

  function RowOf(table: Table, t: Tuple, services: Services): Result<Row> {
    match table
    case Tweets => TweetRow(t, services)
    case Topics => TopicRow(t, services)
  }

  /** The row builder of a table. */
  function RowBuilder(table: Table, services: Services): Tuple -> Result<Row> {
    t => RowOf(table, t, services)
  }

  /** The cell set of a batch: one row per tuple, in order; any row that throws
      makes the whole batch throw. */
  function Rows(rowOf: Tuple -> Result<Row>, tuples: seq<Tuple>): (r: Result<seq<Row>>)
    ensures r.Ok? <==> forall i :: 0 <= i < |tuples| ==> rowOf(tuples[i]).Ok?
    ensures r.Ok? ==> |r.value| == |tuples|
    ensures r.Ok? ==> forall i :: 0 <= i < |tuples| ==> r.value[i] == rowOf(tuples[i]).value
  {
    if tuples == [] then Ok([])
    else
      match Rows(rowOf, tuples[..|tuples| - 1])
      case Raised => Raised
      case Ok(init) =>
        match rowOf(tuples[|tuples| - 1])
        case Raised => Raised
        case Ok(row) => Ok(init + [row])
  }

  /** What one batch write did: the cell set handed to `StoreCells` (if it got
      that far) and the acks and fails. */
  datatype Batch = Batch(stored: Option<seq<Row>>, effects: seq<Effect>)

  /** A batch write of the drained `tuples`. An empty queue does nothing at all. */
  function WriteBatch(table: Table, tuples: seq<Tuple>, enableAck: bool, services: Services): Batch {
    if tuples == [] then Batch(None, [])
    else
      match Rows(RowBuilder(table, services), tuples)
      case Raised => Batch(None, if enableAck then FailAll(tuples) else [])
      case Ok(rows) =>
        Batch(Some(rows),
          if !enableAck then []
          else if services.storeOk then AckAll(tuples)
          else FailAll(tuples))
  }

  /** The `foreach` over the drained tuples that fills the cell set. */
  method BuildRows(rowOf: Tuple -> Result<Row>, tuples: seq<Tuple>) returns (rows: Result<seq<Row>>)
    ensures rows == Rows(rowOf, tuples)
  {
    var acc: seq<Row> := [];
    for i := 0 to |tuples|
      invariant Rows(rowOf, tuples[..i]) == Ok(acc)
    {
      assert tuples[..i + 1][..i] == tuples[..i];
      var row := rowOf(tuples[i]);
      if row.Raised? {
        RowsRaised(rowOf, tuples, i + 1);
        return Raised;
      }
      acc := acc + [row.value];
    }
    assert tuples[..|tuples|] == tuples;
    return Ok(acc);
  }

  /** A prefix that throws makes the whole batch throw. */
  lemma RowsRaised(rowOf: Tuple -> Result<Row>, tuples: seq<Tuple>, n: nat)
    requires n <= |tuples| && Rows(rowOf, tuples[..n]).Raised?
    ensures Rows(rowOf, tuples).Raised?
  {
    var i :| 0 <= i < n && rowOf(tuples[..n][i]).Raised?;
    assert tuples[..n][i] == tuples[i];
  }

  /** An empty queue: nothing stored, acked or failed. */
  lemma EmptyBatchDoesNothing(table: Table, enableAck: bool, services: Services)
    ensures WriteBatch(table, [], enableAck, services) == Batch(None, [])
  {
  }

  /** A stored batch acks each drained tuple exactly once and fails none. */
  lemma StoredBatchAcksEach(table: Table, tuples: seq<Tuple>, services: Services, u: Tuple)
    requires tuples != [] && Distinct(tuples)
    requires Rows(RowBuilder(table, services), tuples).Ok? && services.storeOk
    ensures var b := WriteBatch(table, tuples, true, services);
      && b.stored == Some(Rows(RowBuilder(table, services), tuples).value)
      && Occurrences(b.effects, Ack(u)) == (if u in tuples then 1 else 0)
      && Occurrences(b.effects, Fail(u)) == 0
  {
    AckAllExactlyOnce(tuples, u);
  }

  /** A batch that throws before the store returns fails each drained tuple
      exactly once and acks none. */
  lemma FailedBatchFailsEach(table: Table, tuples: seq<Tuple>, services: Services, u: Tuple)
    requires tuples != [] && Distinct(tuples)
    requires Rows(RowBuilder(table, services), tuples).Raised? || !services.storeOk
    ensures var b := WriteBatch(table, tuples, true, services);
      && Occurrences(b.effects, Fail(u)) == (if u in tuples then 1 else 0)
      && Occurrences(b.effects, Ack(u)) == 0
  {
    FailAllExactlyOnce(tuples, u);
  }

  /** Without acking, a batch write neither acks nor fails anything. */
  lemma NoAckWithoutEnable(table: Table, tuples: seq<Tuple>, services: Services)
    ensures WriteBatch(table, tuples, false, services).effects == []
  {
  }

  /** The location family holds nothing without coordinates; with coordinates,
      an optional place-name cell is there exactly when its value is not null,
      carrying that value. */
  lemma LocationCellsPresence(family: string, coordinates: NullableString, adminDistrict: NullableString,
                              adminDistrict2: NullableString, countryRegion: NullableString,
                              locality: NullableString, postalCode: NullableString, v: string)
    ensures IsNullOrEmpty(coordinates) ==>
      LocationCells(family, coordinates, adminDistrict, adminDistrict2, countryRegion, locality, postalCode) == []
    ensures !IsNullOrEmpty(coordinates) ==>
      var cells := LocationCells(family, coordinates, adminDistrict, adminDistrict2, countryRegion, locality, postalCode);
      && cells[0] == Cell(family + ":coordinates", coordinates.value)
      && (Cell(family + ":admin_district1", v) in cells <==> adminDistrict == Some(v))
      && (Cell(family + ":admin_district2", v) in cells <==> adminDistrict2 == Some(v))
      && (Cell(family + ":country_region", v) in cells <==> countryRegion == Some(v))
      && (Cell(family + ":locality", v) in cells <==> locality == Some(v))
      && (Cell(family + ":postalcode", v) in cells <==> postalCode == Some(v))
  {
    if !IsNullOrEmpty(coordinates) {
      var co, a1, a2, cr, lo, pc :=
        family + ":coordinates", family + ":admin_district1", family + ":admin_district2",
        family + ":country_region", family + ":locality", family + ":postalcode";
      assert |co| == |family| + 12 && |a1| == |family| + 16 && |a2| == |family| + 16;
      assert |cr| == |family| + 15 && |lo| == |family| + 9 && |pc| == |family| + 11;
      assert a1 != a2 by {
        assert a1[|family| + 15] == '1' && a2[|family| + 15] == '2';
      }
      var cells := [Cell(co, coordinates.value)] + Optional(a1, adminDistrict) + Optional(a2, adminDistrict2)
        + Optional(cr, countryRegion) + Optional(lo, locality) + Optional(pc, postalCode);
      assert LocationCells(family, coordinates, adminDistrict, adminDistrict2, countryRegion, locality, postalCode) == cells;
      InOptional(a1, adminDistrict, v);
      InOptional(a2, adminDistrict2, v);
      InOptional(cr, countryRegion, v);
      InOptional(lo, locality, v);
      InOptional(pc, postalCode, v);
      assert Cell(a1, v) in cells <==> adminDistrict == Some(v);
      assert Cell(a2, v) in cells <==> adminDistrict2 == Some(v);
      assert Cell(cr, v) in cells <==> countryRegion == Some(v);
      assert Cell(lo, v) in cells <==> locality == Some(v);
      assert Cell(pc, v) in cells <==> postalCode == Some(v);
    }
  }

  /** Whether an optional cell holds a given value. */
  lemma InOptional(column: string, value: NullableString, v: string)
    ensures forall c :: Cell(c, v) in Optional(column, value) <==> c == column && value == Some(v)
  {
  }

  /** Hashtag cells are named `ht:tag1`, `ht:tag2`, … in array order and carry
      the hashtags; a null hashtag throws. */
  lemma HashtagNaming(tags: seq<NullableString>)
    ensures HashtagCells(Some(tags)).Ok? <==> forall i :: 0 <= i < |tags| ==> tags[i].Some?
    ensures HashtagCells(Some(tags)).Ok? ==>
      var cells := HashtagCells(Some(tags)).value;
      |cells| == |tags| &&
      forall i :: 0 <= i < |tags| ==> cells[i] == Cell("ht:tag" + Decimal(i + 1), tags[i].value)
  {
  }

  class QueuedHBaseWriter {
    var queue: seq<Tuple>

    constructor ()
      ensures queue == []
    {
      queue := [];
    }

    function QueueCount(): nat
      reads this
    {
      |queue|
    }

    /** `Enqueue` at the tail. */
    method QueueTuple(t: Tuple)
      modifies this
      ensures queue == old(queue) + [t]
      ensures QueueCount() == old(QueueCount()) + 1
    {
      queue := queue + [t];
    }

    /** `while (queue.Count > 0) tuples.Add(queue.Dequeue());` */
    method Drain() returns (tuples: seq<Tuple>)
      modifies this
      ensures tuples == old(queue) && queue == []
    {
      tuples := [];
      while |queue| > 0
        invariant tuples + queue == old(queue)
        decreases |queue|
      {
        tuples := tuples + [queue[0]];
        queue := queue[1..];
      }
    }

    /** The body shared by `WriteTweetBatch` and `WriteTopicBatch`. */
    method WriteBatchTo(table: Table, enableAck: bool, services: Services) returns (b: Batch)
      modifies this
      ensures queue == []
      ensures b == WriteBatch(table, old(queue), enableAck, services)
    {
      var tuples: seq<Tuple> := [];
      b := Batch(None, []);
      if |queue| > 0 {
        tuples := Drain();
        var rows := BuildRows(RowBuilder(table, services), tuples);
        if rows.Raised? {
          if enableAck {
            var fails := FailEach(tuples);
            b := Batch(None, fails);
          }
          return;
        }
        var effects: seq<Effect> := [];
        if services.storeOk {
          if enableAck {
            effects := AckEach(tuples);
          }
        } else if enableAck {
          effects := FailEach(tuples);
        }
        b := Batch(Some(rows.value), effects);
      }
    }

    method WriteTweetBatch(enableAck: bool, services: Services) returns (b: Batch)
      modifies this
      ensures queue == []
      ensures b == WriteBatch(Tweets, old(queue), enableAck, services)
    {
      b := WriteBatchTo(Tweets, enableAck, services);
    }

    method WriteTopicBatch(enableAck: bool, services: Services) returns (b: Batch)
      modifies this
      ensures queue == []
      ensures b == WriteBatch(Topics, old(queue), enableAck, services)
    {
      b := WriteBatchTo(Topics, enableAck, services);
    }
  }
}
