/** `SwearWordBolt`: cleans a tweet's text, splits it into words, counts the
    words found in the swear-word dictionary, and emits the tweet once on the
    archive stream (with that count) and once per distinct topic on the topic
    stream (with whether the count is positive). Topics are the qualifying
    words in first-occurrence order followed by the body's new bigrams. */
module SwearWords {
  import opened Storm
  import opened Text

  /** The two JSON tokens the bolt reads from the tweet. */
  datatype TweetText = TweetText(text: NullableString, createdAt: NullableString)

  /** What the bolt calls but this model does not define: the JSON parser
      (`Raised` for malformed JSON or a missing token), the emoji regex, the
      URL and mention regexes together, and `NGram.Generate(body, 2)`. */
  datatype Services = Services(
    parseJson: string -> Result<TweetText>,
    stripEmoji: string -> string,
    stripLinks: string -> string,
    bigrams: string -> seq<string>)

  /** The body after every cleanup step, in the bolt's order. */
  function Clean(text: string, services: Services): string {
    services.stripLinks(RemoveChar(ReplaceCrLf(services.stripEmoji(text)), '\''))
  }

  /** The lowercased body split on the punctuation delimiters. */
  function Words(body: string): seq<string> {
    Split(Lower(body))
  }

  /** A trimmed word is kept iff it is non-empty, no noise word and not all digits. */
  predicate Qualifies(clean: string, noise: set<string>) {
    clean != "" && clean !in noise && !AllDigits(clean)
  }

  /** The trimmed qualifying words, in order, repeats kept. */
  function Qualifying(words: seq<string>, noise: set<string>): (r: seq<string>)
    ensures |r| <= |words|
  {
    if words == [] then []
    else
      var clean := Trim(words[|words| - 1]);
      Qualifying(words[..|words| - 1], noise) + (if Qualifies(clean, noise) then [clean] else [])
  }

  /** How many of `ws` are in `dictionary`, repeats counted. */
  function CountIn(ws: seq<string>, dictionary: set<string>): nat {
    if ws == [] then 0
    else CountIn(ws[..|ws| - 1], dictionary) + (if ws[|ws| - 1] in dictionary then 1 else 0)
  }

  /** `topics` extended by each candidate not already present, in order. */
  function AddNew(topics: seq<string>, candidates: seq<string>): seq<string> {
    if candidates == [] then topics
    else
      var r := AddNew(topics, candidates[..|candidates| - 1]);
      var c := candidates[|candidates| - 1];
      if c in r then r else r + [c]
  }

  /** `topic.ToLower().Trim()` for each bigram. */
  function Normalized(bigrams: seq<string>): (r: seq<string>)
    ensures |r| == |bigrams|
  {
    seq(|bigrams|, i requires 0 <= i < |bigrams| => Trim(Lower(bigrams[i])))
  }

  /** Where `w` first occurs in `s`. */
  function FirstIndex(s: seq<string>, w: string): (k: nat)
    requires w in s
    ensures k < |s| && s[k] == w && w !in s[..k]
  {
    if s[0] == w then 0 else 1 + FirstIndex(s[1..], w)
  }

  /** A candidate already present is skipped: the result is `topics` followed
      by the new candidates, each once, and nothing else. */
  lemma {:induction false} AddNewEffect(topics: seq<string>, candidates: seq<string>)
    requires Distinct(topics)
    ensures var r := AddNew(topics, candidates);
      && Distinct(r)
      && |topics| <= |r| && r[..|topics|] == topics
      && (forall w :: w in r <==> w in topics || w in candidates)
  {
    if candidates != [] {
      var init := candidates[..|candidates| - 1];
      AddNewEffect(topics, init);
      var p := AddNew(topics, init);
      var c := candidates[|candidates| - 1];
      assert candidates == init + [c];
      if c !in p {
        assert (p + [c])[..|topics|] == p[..|topics|];
      }
    }
  }

  /** The new elements come in the order their first occurrences have among
      the candidates. */
  lemma {:induction false} AddNewOrder(topics: seq<string>, candidates: seq<string>)
    requires Distinct(topics)
    ensures var r := AddNew(topics, candidates);
      forall i, j :: |topics| <= i < j < |r| ==>
        r[i] in candidates && r[j] in candidates && FirstIndex(candidates, r[i]) < FirstIndex(candidates, r[j])
  {
    if candidates != [] {
      var init := candidates[..|candidates| - 1];
      AddNewOrder(topics, init);
      AddNewEffect(topics, init);
      AddNewEffect(topics, candidates);
      var p := AddNew(topics, init);
      var r := AddNew(topics, candidates);
      var c := candidates[|candidates| - 1];
      assert candidates == init + [c];
      forall w | w in init
        ensures FirstIndex(candidates, w) == FirstIndex(init, w)
      {
        FirstIndexPrefix(init, [c], w);
      }
      forall i, j | |topics| <= i < j < |r|
        ensures r[i] in candidates && r[j] in candidates && FirstIndex(candidates, r[i]) < FirstIndex(candidates, r[j])
      {
        assert r[i] !in topics by {
          assert r[..|topics|] == topics;
        }
        if j < |p| {
          assert r[i] == p[i] && r[j] == p[j];
        } else {
          assert c !in p && r[j] == c && r[i] == p[i];
          assert p[i] in init;
          FirstIndexBefore(init, c, p[i]);
        }
      }
    }
  }

  lemma {:induction false} FirstIndexPrefix(s: seq<string>, t: seq<string>, w: string)
    requires w in s
    ensures FirstIndex(s + t, w) == FirstIndex(s, w)
  {
    if s[0] != w {
      assert (s + t)[1..] == s[1..] + t;
      FirstIndexPrefix(s[1..], t, w);
    }
  }

  /** A word absent from `s` first occurs after everything in `s`. */
  lemma FirstIndexBefore(s: seq<string>, c: string, w: string)
    requires w in s && c !in s
    ensures FirstIndex(s + [c], w) < FirstIndex(s + [c], c)
  {
    FirstIndexPrefix(s, [c], w);
    assert forall k :: 0 <= k < |s| ==> (s + [c])[k] == s[k];
  }

  /** The word topics: each qualifying word once, in first-occurrence order. */
  function Topics(words: seq<string>, noise: set<string>): seq<string> {
    AddNew([], Qualifying(words, noise))
  }

  /** `swearWordCount`: the qualifying words found in the dictionary. */
  function SwearCount(words: seq<string>, noise: set<string>, dictionary: set<string>): nat {
    CountIn(Qualifying(words, noise), dictionary)
  }

  /** A qualifying word is a topic whether or not it is a swear word, and the
      topics are exactly the qualifying words, without repeats. */
  lemma TopicsAreQualifyingWords(words: seq<string>, noise: set<string>)
    ensures Distinct(Topics(words, noise))
    ensures forall w :: w in Topics(words, noise) <==> w in Qualifying(words, noise)
  {
    AddNewEffect([], Qualifying(words, noise));
  }

  /** Exactly the trimmed words that pass the test are kept. */
  lemma {:induction false} QualifyingMembers(words: seq<string>, noise: set<string>)
    ensures forall w :: w in Qualifying(words, noise) <==>
      exists i :: 0 <= i < |words| && w == Trim(words[i]) && Qualifies(w, noise)
  {
    if words != [] {
      var init := words[..|words| - 1];
      QualifyingMembers(init, noise);
      forall w | exists i :: 0 <= i < |words| && w == Trim(words[i]) && Qualifies(w, noise)
        ensures w in Qualifying(words, noise)
      {
        var i :| 0 <= i < |words| && w == Trim(words[i]) && Qualifies(w, noise);
        if i < |words| - 1 {
          assert words[i] == init[i];
        }
      }
      forall w | w in Qualifying(words, noise)
        ensures exists i :: 0 <= i < |words| && w == Trim(words[i]) && Qualifies(w, noise)
      {
        if w in Qualifying(init, noise) {
          var i :| 0 <= i < |init| && w == Trim(init[i]) && Qualifies(w, noise);
          assert words[i] == init[i];
        }
      }
    }
  }

  /** The count is positive iff some qualifying word is in the dictionary. */
  lemma {:induction false} SwearCountPositive(ws: seq<string>, dictionary: set<string>)
    ensures CountIn(ws, dictionary) > 0 <==> exists i :: 0 <= i < |ws| && ws[i] in dictionary
    ensures CountIn(ws, dictionary) <= |ws|
  {
    if ws != [] {
      var init := ws[..|ws| - 1];
      SwearCountPositive(init, dictionary);
      if exists i :: 0 <= i < |init| && init[i] in dictionary {
        var i :| 0 <= i < |init| && init[i] in dictionary;
        assert ws[i] == init[i];
      }
      if exists i :: 0 <= i < |ws| && ws[i] in dictionary {
        var i :| 0 <= i < |ws| && ws[i] in dictionary;
        if i < |init| {
          assert init[i] == ws[i];
        }
      }
    }
  }

  /** Every repeat counts: two qualifying swear words count two, not one. */
  lemma {:induction false} CountInAppend(a: seq<string>, b: seq<string>, dictionary: set<string>)
    ensures CountIn(a + b, dictionary) == CountIn(a, dictionary) + CountIn(b, dictionary)
  {
    if b != [] {
      var init := b[..|b| - 1];
      assert (a + b)[..|a + b| - 1] == a + init;
      CountInAppend(a, init, dictionary);
    } else {
      assert a + b == a;
    }
  }

  /** The token loop: trims each word, and for a qualifying one counts a
      dictionary hit and appends it to the topics if new. */
  method ScanWords(words: seq<string>, noise: set<string>, dictionary: set<string>)
    returns (swearWordCount: nat, topics: seq<string>)
    ensures swearWordCount == SwearCount(words, noise, dictionary)
    ensures topics == Topics(words, noise)
  {
    swearWordCount := 0;
    topics := [];
    for i := 0 to |words|
      invariant swearWordCount == SwearCount(words[..i], noise, dictionary)
      invariant topics == Topics(words[..i], noise)
    {
      var cleanWord := Trim(words[i]);
      ghost var q := Qualifying(words[..i], noise);
      assert words[..i + 1][..i] == words[..i];
      if Qualifies(cleanWord, noise) {
        assert Qualifying(words[..i + 1], noise) == q + [cleanWord];
        if cleanWord in dictionary {
          swearWordCount := swearWordCount + 1;
        }
        if cleanWord !in topics {
          topics := topics + [cleanWord];
        }
      } else {
        assert Qualifying(words[..i + 1], noise) == q;
      }
    }
    assert words[..|words|] == words;
  }

  /** The bigram loop: each bigram, lowercased and trimmed, is appended if new. */
  method AppendBigrams(topics: seq<string>, bigrams: seq<string>) returns (all: seq<string>)
    ensures all == AddNew(topics, Normalized(bigrams))
  {
    all := topics;
    for i := 0 to |bigrams|
      invariant all == AddNew(topics, Normalized(bigrams[..i]))
    {
      var t := Trim(Lower(bigrams[i]));
      assert Normalized(bigrams[..i + 1]) == Normalized(bigrams[..i]) + [t];
      assert Normalized(bigrams[..i + 1])[..i] == Normalized(bigrams[..i]);
      if t !in all {
        all := all + [t];
      }
    }
    assert bigrams[..|bigrams|] == bigrams;
  }

  /** The archive tuple: id, creation date, fields 1 to 8, swear-word count. */
  function ArchiveValues(id: int, createdAt: NullableString, fields: seq<NullableString>, count: nat): seq<Value>
    requires |fields| == 8
  {
    [LongV(id), StringValue(createdAt),
     StringValue(fields[0]), StringValue(fields[1]), StringValue(fields[2]), StringValue(fields[3]),
     StringValue(fields[4]), StringValue(fields[5]), StringValue(fields[6]), StringValue(fields[7]),
     IntV(count)]
  }

  /** A topic tuple: as the archive tuple, with the topic in place of the tweet
      JSON and whether any swear word was found in place of the count. */
  function TopicValues(id: int, createdAt: NullableString, fields: seq<NullableString>, topic: string, count: nat): seq<Value>
    requires |fields| == 8
  {
    [LongV(id), StringValue(createdAt),
     StringValue(fields[0]), StrV(topic), StringValue(fields[2]), StringValue(fields[3]),
     StringValue(fields[4]), StringValue(fields[5]), StringValue(fields[6]), StringValue(fields[7]),
     BoolV(count > 0)]
  }

  /** One topic tuple per topic, in order. */
  function TopicEmits(t: Tuple, id: int, createdAt: NullableString, fields: seq<NullableString>, topics: seq<string>, count: nat): (r: seq<Effect>)
    requires |fields| == 8
    ensures |r| == |topics|
    ensures forall i :: 0 <= i < |topics| ==> r[i] == Emit(TOPIC_STREAM, [t], TopicValues(id, createdAt, fields, topics[i], count))
  {
    if topics == [] then []
    else
      TopicEmits(t, id, createdAt, fields, topics[..|topics| - 1], count)
        + [Emit(TOPIC_STREAM, [t], TopicValues(id, createdAt, fields, topics[|topics| - 1], count))]
  }

  /** The tweet's text and date, or `Raised` where the bolt would throw before
      its first emission: a wrong-typed id or tweet, a null tweet, JSON the
      parser rejects, or a null text. */
  function Parsed(t: Tuple, services: Services): Result<(int, TweetText)> {
    var id := GetLong(t, 0);
    var tweet := GetString(t, 2);
    if id.Raised? || tweet.Raised? || tweet.value.None? then Raised
    else match services.parseJson(tweet.value.value)
      case Raised => Raised
      case Ok(j) => if j.text.None? then Raised else Ok((id.value, j))
  }

  /** The topics of a body: its qualifying words, then its new normalized bigrams. */
  function AllTopics(body: string, noise: set<string>, services: Services): seq<string> {
    AddNew(Topics(Words(body), noise), Normalized(services.bigrams(body)))
  }

  /** The topics are distinct: the word topics first, then each normalized
      bigram that is not already a topic. */
  lemma AllTopicsEffect(body: string, noise: set<string>, services: Services)
    ensures var words := Topics(Words(body), noise);
      var topics := AllTopics(body, noise, services);
      && Distinct(topics)
      && |words| <= |topics| && topics[..|words|] == words
      && forall w :: w in topics <==> w in Qualifying(Words(body), noise) || w in Normalized(services.bigrams(body))
  {
    TopicsAreQualifyingWords(Words(body), noise);
    AddNewEffect(Topics(Words(body), noise), Normalized(services.bigrams(body)));
  }

  /** The archive tuple, the topic tuples, then the ack if acking is on. */
  function Emitted(t: Tuple, id: int, createdAt: NullableString, fields: seq<NullableString>,
                   topics: seq<string>, count: nat, enableAck: bool): seq<Effect>
    requires |fields| == 8
  {
    [Emit(ARCHIVE_STREAM, [t], ArchiveValues(id, createdAt, fields, count))]
      + TopicEmits(t, id, createdAt, fields, topics, count)
      + (if enableAck then [Ack(t)] else [])
  }

  /** One archive tuple first, ending in the count, then one topic tuple per
      topic, each ending in whether the count is positive, then the ack if
      acking is on; nothing is failed. */
  lemma EmittedShape(t: Tuple, id: int, createdAt: NullableString, fields: seq<NullableString>,
                     topics: seq<string>, count: nat, enableAck: bool)
    requires |fields| == 8
    ensures var effects := Emitted(t, id, createdAt, fields, topics, count, enableAck);
      && |effects| == 1 + |topics| + (if enableAck then 1 else 0)
      && effects[0] == Emit(ARCHIVE_STREAM, [t], effects[0].values)
      && effects[0].values[|effects[0].values| - 1] == IntV(count)
      && (forall i :: 1 <= i <= |topics| ==>
            && effects[i] == Emit(TOPIC_STREAM, [t], effects[i].values)
            && effects[i].values[3] == StrV(topics[i - 1])
            && effects[i].values[|effects[i].values| - 1] == BoolV(count > 0))
      && (enableAck ==> effects[|effects| - 1] == Ack(t))
      && (forall e :: e in effects ==> !e.Fail?)
      && (!enableAck ==> forall e :: e in effects ==> e.Emit?)
  {
    var emits := TopicEmits(t, id, createdAt, fields, topics, count);
    var effects := Emitted(t, id, createdAt, fields, topics, count, enableAck);
    forall i | 1 <= i <= |topics|
      ensures effects[i] == emits[i - 1]
    {
    }
    forall e | e in effects
      ensures !e.Fail? && (!enableAck ==> e.Emit?)
    {
      var k :| 0 <= k < |effects| && effects[k] == e;
      if 1 <= k <= |topics| {
        assert e == emits[k - 1];
      }
    }
  }

  /** Everything one `Execute` does to its context. */
  function Analysis(t: Tuple, noise: set<string>, dictionary: set<string>, enableAck: bool, services: Services): seq<Effect> {
    var failed := if enableAck then [Fail(t)] else [];
    match Parsed(t, services)
    case Raised => failed
    case Ok(p) =>
      match GetStrings(t, 1, 8)
      case Raised => failed
      case Ok(fields) =>
        var body := Clean(p.1.text.value, services);
        Emitted(t, p.0, p.1.createdAt, fields, AllTopics(body, noise, services),
                SwearCount(Words(body), noise, dictionary), enableAck)
  }

  /** An exception before the archive emission fails the tuple, if acking is
      on, and emits nothing. */
  lemma AnalysisFailure(t: Tuple, noise: set<string>, dictionary: set<string>, enableAck: bool, services: Services)
    requires Parsed(t, services).Raised? || GetStrings(t, 1, 8).Raised?
    ensures Analysis(t, noise, dictionary, enableAck, services) == if enableAck then [Fail(t)] else []
  {
  }

  /** The topic tuples say "vulgar" iff some qualifying word is a swear word. */
  lemma VulgarIffSwearWord(words: seq<string>, noise: set<string>, dictionary: set<string>)
    ensures SwearCount(words, noise, dictionary) > 0 <==> exists w :: w in Topics(words, noise) && w in dictionary
  {
    var q := Qualifying(words, noise);
    SwearCountPositive(q, dictionary);
    TopicsAreQualifyingWords(words, noise);
    if exists w :: w in Topics(words, noise) && w in dictionary {
      var w :| w in Topics(words, noise) && w in dictionary;
      var i :| 0 <= i < |q| && q[i] == w;
    }
  }

  /** The topic emission loop. */
  method EmitTopics(t: Tuple, id: int, createdAt: NullableString, fields: seq<NullableString>, topics: seq<string>, count: nat)
    returns (effects: seq<Effect>)
    requires |fields| == 8
    ensures effects == TopicEmits(t, id, createdAt, fields, topics, count)
  {
    effects := [];
    for i := 0 to |topics|
      invariant effects == TopicEmits(t, id, createdAt, fields, topics[..i], count)
    {
      assert topics[..i + 1][..i] == topics[..i];
      effects := effects + [Emit(TOPIC_STREAM, [t], TopicValues(id, createdAt, fields, topics[i], count))];
    }
    assert topics[..|topics|] == topics;
  }

  class SwearWordBolt {
    const enableAck: bool
    /** The lines of the dictionary and noise-word files. */
    const dictionary: set<string>
    const noiseWords: set<string>

    constructor (enableAck: bool, dictionary: set<string>, noiseWords: set<string>)
      ensures this.enableAck == enableAck && this.dictionary == dictionary && this.noiseWords == noiseWords
    {
      this.enableAck := enableAck;
      this.dictionary := dictionary;
      this.noiseWords := noiseWords;
    }

    method Execute(t: Tuple, services: Services) returns (effects: seq<Effect>)
      ensures effects == Analysis(t, noiseWords, dictionary, enableAck, services)
    {
      effects := if enableAck then [Fail(t)] else [];
      var parsed := Parsed(t, services);
      if parsed.Raised? {
        return;
      }
      var id, j := parsed.value.0, parsed.value.1;
      var body := Clean(j.text.value, services);
      var words := Words(body);
      var swearWordCount, topics := ScanWords(words, noiseWords, dictionary);
      var fields := GetStrings(t, 1, 8);
      if fields.Raised? {
        return;
      }
      var archive := Emit(ARCHIVE_STREAM, [t], ArchiveValues(id, j.createdAt, fields.value, swearWordCount));
      topics := AppendBigrams(topics, services.bigrams(body));
      var topicEffects := EmitTopics(t, id, j.createdAt, fields.value, topics, swearWordCount);
      effects := [archive] + topicEffects + if enableAck then [Ack(t)] else [];
    }
  }
}
