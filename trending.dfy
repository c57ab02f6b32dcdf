/** `SlidingWindowBolt`: counts hashtags over a sliding window and, on every tick,
    emits the top entries of the window as `(rank, hashtag, count)`. */
module Trending {
  import opened Storm
  import opened SlotCounter
  import opened WindowCounter

  const DEFAULT_NUM_WINDOW_CHUNKS := 5
  /** 5 * 60 = 300 slots, one per tick. */
  const DEFAULT_SLIDING_WINDOW_IN_SECONDS := DEFAULT_NUM_WINDOW_CHUNKS * 60
  const DEFAULT_RESULT_SIZE := 50

  /** A `KeyValuePair<string, long>` of the snapshot. */
  type Entry = (string, int)

  ghost predicate Descending(s: seq<Entry>) {
    forall i, j :: 0 <= i < j < |s| ==> s[i].1 >= s[j].1
  }

  /** Places `x` before the first entry whose count is not larger, so that among
      equal counts the earlier input entry stays first. */
  function Insert(x: Entry, s: seq<Entry>): (r: seq<Entry>)
    ensures |r| == |s| + 1
    ensures multiset(r) == multiset(s) + multiset{x}
  {
    if s == [] then [x]
    else if x.1 >= s[0].1 then [x] + s
    else
      assert s == [s[0]] + s[1..];
      [s[0]] + Insert(x, s[1..])
  }

  /** `orderby entry.Value descending`: a stable sort by decreasing count. */
  function SortDescending(s: seq<Entry>): (r: seq<Entry>)
    ensures |r| == |s|
    ensures multiset(r) == multiset(s)
  {
    if s == [] then []
    else
      assert s == [s[0]] + s[1..];
      Insert(s[0], SortDescending(s[1..]))
  }

  function Min(a: int, b: int): int {
    if a < b then a else b
  }

  /** `.Take(resultSize)` of the sorted snapshot. */
  function Top(s: seq<Entry>, n: nat): (r: seq<Entry>)
    ensures |r| == Min(n, |s|)
  {
    SortDescending(s)[..Min(n, |s|)]
  }

  lemma {:induction false} InsertDescending(x: Entry, s: seq<Entry>)
    requires Descending(s)
    ensures Descending(Insert(x, s))
    ensures |Insert(x, s)| > 0 && (Insert(x, s)[0] == x || (s != [] && Insert(x, s)[0] == s[0]))
  {
    if s != [] && x.1 < s[0].1 {
      var r := Insert(x, s[1..]);
      InsertDescending(x, s[1..]);
      var t := Insert(x, s);
      assert t == [s[0]] + r;
      assert r[0].1 <= s[0].1;
      forall i, j | 0 <= i < j < |t|
        ensures t[i].1 >= t[j].1
      {
        assert t[j] == r[j - 1];
        if i == 0 {
          assert r[0].1 >= r[j - 1].1;
        } else {
          assert t[i] == r[i - 1];
        }
      }
    }
  }

  lemma {:induction false} SortDescendingIsDescending(s: seq<Entry>)
    ensures Descending(SortDescending(s))
  {
    if s != [] {
      SortDescendingIsDescending(s[1..]);
      InsertDescending(s[0], SortDescending(s[1..]));
    }
  }

  /** Two equal positions in a sequence make its element occur twice. */
  lemma TwiceInMultiset<T>(s: seq<T>, i: nat, j: nat)
    requires i < j < |s| && s[i] == s[j]
    ensures multiset(s)[s[i]] >= 2
  {
    assert s == s[..j] + [s[j]] + s[j + 1..];
    assert s[..j][i] == s[i];
    assert multiset(s[..j])[s[i]] >= 1;
  }

  /** With distinct keys, an entry occurs at most once. */
  lemma {:induction false} DistinctKeysOnce(es: seq<Entry>, e: Entry)
    requires forall i, j :: 0 <= i < j < |es| ==> es[i].0 != es[j].0
    ensures multiset(es)[e] <= 1
  {
    if es != [] {
      var init := es[..|es| - 1];
      assert es == init + [es[|es| - 1]];
      DistinctKeysOnce(init, e);
      if e == es[|es| - 1] {
        forall i | 0 <= i < |init|
          ensures init[i] != e
        {
          assert es[i].0 != es[|es| - 1].0;
        }
        assert e !in init;
      }
    }
  }

  /** A snapshot listed as entries: every key once, with its count. */
  ghost predicate Enumerates(es: seq<Entry>, m: map<string, int>) {
    && |es| == |m|
    && (forall i :: 0 <= i < |es| ==> es[i].0 in m && es[i].1 == m[es[i].0])
    && (forall i, j :: 0 <= i < j < |es| ==> es[i].0 != es[j].0)
    && (forall k :: k in m ==> exists i :: 0 <= i < |es| && es[i].0 == k)
  }

  /** What the tick emits from: at most `n` entries of `m`, each key once, in
      non-increasing order of count, and no key left out has a larger count than
      an emitted one. */
  ghost predicate IsTop(top: seq<Entry>, m: map<string, int>, n: nat) {
    && |top| == Min(n, |m|)
    && (forall i :: 0 <= i < |top| ==> top[i].0 in m && top[i].1 == m[top[i].0])
    && (forall i, j :: 0 <= i < j < |top| ==> top[i].0 != top[j].0)
    && Descending(top)
    && (forall k, i :: k in m && 0 <= i < |top| && (forall j :: 0 <= j < |top| ==> top[j].0 != k) ==> m[k] <= top[i].1)
  }

  /** Every sorted entry is an entry of the snapshot. */
  lemma SortedFromSnapshot(es: seq<Entry>, m: map<string, int>)
    requires Enumerates(es, m)
    ensures forall i :: 0 <= i < |SortDescending(es)| ==>
      SortDescending(es)[i].0 in m && SortDescending(es)[i].1 == m[SortDescending(es)[i].0]
  {
    var sorted := SortDescending(es);
    forall i | 0 <= i < |sorted|
      ensures sorted[i].0 in m && sorted[i].1 == m[sorted[i].0]
    {
      assert sorted[i] in multiset(es);
    }
  }

  /** Sorting keeps the keys distinct. */
  lemma SortedDistinctKeys(es: seq<Entry>, m: map<string, int>)
    requires Enumerates(es, m)
    ensures forall i, j :: 0 <= i < j < |SortDescending(es)| ==>
      SortDescending(es)[i].0 != SortDescending(es)[j].0
  {
    var sorted := SortDescending(es);
    SortedFromSnapshot(es, m);
    forall i, j | 0 <= i < j < |sorted|
      ensures sorted[i].0 != sorted[j].0
    {
      if sorted[i].0 == sorted[j].0 {
        TwiceInMultiset(sorted, i, j);
        DistinctKeysOnce(es, sorted[i]);
      }
    }
  }

  /** No key left out of `Top(es, n)` has a larger count than a kept one. */
  lemma LeftOutBounded(es: seq<Entry>, m: map<string, int>, n: nat)
    requires Enumerates(es, m)
    requires Descending(SortDescending(es))
    ensures var top := Top(es, n);
      forall k, i :: k in m && 0 <= i < |top| && (forall j :: 0 <= j < |top| ==> top[j].0 != k) ==> m[k] <= top[i].1
  {
    var sorted := SortDescending(es);
    var top := Top(es, n);
    forall k, i | k in m && 0 <= i < |top| && (forall j :: 0 <= j < |top| ==> top[j].0 != k)
      ensures m[k] <= top[i].1
    {
      var p :| 0 <= p < |es| && es[p].0 == k;
      assert es[p] in multiset(sorted);
      var q :| 0 <= q < |sorted| && sorted[q] == es[p];
      assert sorted[q].0 == k;
      assert forall j :: 0 <= j < |top| ==> top[j] == sorted[j];
    }
  }

  /** Sorting an enumeration of the snapshot and taking `n` gives the top `n`. */
  lemma TopIsTop(es: seq<Entry>, m: map<string, int>, n: nat)
    requires Enumerates(es, m)
    ensures IsTop(Top(es, n), m, n)
  {
    SortDescendingIsDescending(es);
    SortedFromSnapshot(es, m);
    SortedDistinctKeys(es, m);
    LeftOutBounded(es, m, n);
  }

  /** Lists the snapshot's entries in the dictionary's enumeration order, which
      the model leaves unspecified. */
  method EnumerateEntries(m: map<string, int>) returns (es: seq<Entry>)
    ensures Enumerates(es, m)
  {
    es := [];
    var keys := m.Keys;
    while keys != {}
      invariant keys <= m.Keys
      invariant |es| + |keys| == |m|
      invariant forall i :: 0 <= i < |es| ==> es[i].0 in m && es[i].0 !in keys && es[i].1 == m[es[i].0]
      invariant forall i, j :: 0 <= i < j < |es| ==> es[i].0 != es[j].0
      invariant forall k :: k in m && k !in keys ==> exists i :: 0 <= i < |es| && es[i].0 == k
      decreases keys
    {
      var k :| k in keys;
      ghost var before := es;
      es := es + [(k, m[k])];
      assert es[|es| - 1].0 == k;
      assert forall i :: 0 <= i < |before| ==> es[i] == before[i];
      keys := keys - {k};
    }
  }

  /** The ranking query: the snapshot's top `n` entries, highest count first. */
  method Rank(m: map<string, int>, n: nat) returns (top: seq<Entry>)
    ensures IsTop(top, m, n)
  {
    var es := EnumerateEntries(m);
    top := Top(es, n);
    TopIsTop(es, m, n);
  }

  /** The tuples a tick emits: `(rank, key, count)` with ranks 1, 2, 3, …,
      each anchored on the tick tuple. */
  function Emissions(anchors: seq<Tuple>, top: seq<Entry>, m: map<string, int>): (effects: seq<Effect>)
    requires forall i :: 0 <= i < |top| ==> top[i].0 in m
    ensures |effects| == |top|
  {
    seq(|top|, i requires 0 <= i < |top| =>
      Emit(DEFAULT_STREAM, anchors, [IntV(i + 1), StrV(top[i].0), LongV(m[top[i].0])]))
  }

  /** The emission loop of a tick: `order` counts up from 1. */
  method EmitRanked(anchors: seq<Tuple>, top: seq<Entry>, m: map<string, int>) returns (effects: seq<Effect>)
    requires forall i :: 0 <= i < |top| ==> top[i].0 in m
    ensures effects == Emissions(anchors, top, m)
  {
    effects := [];
    var order := 1;
    for i := 0 to |top|
      invariant order == i + 1
      invariant effects == Emissions(anchors, top[..i], m)
    {
      effects := effects + [Emit(DEFAULT_STREAM, anchors, [IntV(order), StrV(top[i].0), LongV(m[top[i].0])])];
      order := order + 1;
    }
    assert top[..|top|] == top;
  }

  /** The tick tuple as an anchor list (a null tick anchors nothing). */
  function AnchorsOf(t: Option<Tuple>): seq<Tuple> {
    if t.Some? then [t.value] else []
  }

  class SlidingWindowBolt {
    const enableAck: bool
    const windowLength: nat
    const resultSize: nat
    var counter: SlidingWindowCounter<string>
    ghost var Repr: set<object>

    ghost predicate Valid()
      reads this, Repr
    {
      && this in Repr
      && counter in Repr
      && counter.Repr <= Repr
      && this !in counter.Repr
      && counter.Valid()
      && counter.length == windowLength
    }

    constructor (enableAck: bool)
      ensures Valid() && fresh(Repr)
      ensures this.enableAck == enableAck
      ensures windowLength == 300 && resultSize == 50
      ensures counter.Model() == Initial(300)
    {
      this.enableAck := enableAck;
      windowLength := DEFAULT_SLIDING_WINDOW_IN_SECONDS;
      resultSize := DEFAULT_RESULT_SIZE;
      counter := new SlidingWindowCounter<string>(DEFAULT_SLIDING_WINDOW_IN_SECONDS);
      new;
      Repr := {this} + counter.Repr;
    }

    /** A tick rotates the window once and emits its top `resultSize` entries,
        ranked; it is never acked. A data tuple counts its field 0 and is acked
        when `enableAck`; a field 0 that is missing, not a string or null makes
        `Execute` throw, with nothing changed. The ranked entries pass through
        `ToDictionary` before they are emitted; its keys are taken to enumerate
        in insertion order. */
    method Execute(tuple: Option<Tuple>) returns (effects: seq<Effect>, raised: bool)
      requires Valid()
      modifies Repr
      ensures Valid() && fresh(Repr - old(Repr))
      ensures IsTickTuple(tuple) ==>
        && !raised
        && counter.Model() == Rotated(old(counter.Model()))
        && exists top :: IsTop(top, Snapshot(old(counter.Model())), resultSize) &&
             effects == Emissions(AnchorsOf(tuple), top, Snapshot(old(counter.Model())))
      ensures !IsTickTuple(tuple) ==>
        var key := GetString(tuple.value, 0);
        && (raised <==> key.Raised? || key.value.None?)
        && (raised ==> effects == [] && counter.Model() == old(counter.Model()))
        && (!raised ==> counter.Model() == Incr(old(counter.Model()), key.value.value))
        && (!raised ==> effects == if enableAck then [Ack(tuple.value)] else [])
    {
      effects := [];
      raised := false;
      if IsTickTuple(tuple) {
        var results := counter.GetWindowedCounts();
        Repr := Repr + counter.Repr;
        var top := Rank(results, resultSize);
        effects := EmitRanked(AnchorsOf(tuple), top, results);
      } else {
        var hashtag := GetString(tuple.value, 0);
        if hashtag.Raised? || hashtag.value.None? {
          raised := true;
          return;
        }
        counter.Increment(hashtag.value.value);
        Repr := Repr + counter.Repr;
        if enableAck {
          effects := [Ack(tuple.value)];
        }
      }
    }
  }
}
