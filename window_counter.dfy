/** `SlidingWindowCounter<T>`: a `SlotBasedCounter` driven as a ring of slots.
    Increments go to the `head` slot; a snapshot reports the totals, then zeroes
    the `tail` slot (the oldest), drops keys whose total became zero, and moves
    `head` to the old `tail`. */
module WindowCounter {
  import opened Storm
  import opened SlotCounter

  /** The slot after `slot` on a ring of `length` slots. */
  function NextSlot(slot: nat, length: nat): (next: nat)
    requires slot < length
    ensures next < length
  {
    if slot + 1 < length then slot + 1 else 0
  }

  /** `NextSlot` is the source's `(slot + 1) % length`. */
  lemma NextSlotIsModulo(slot: nat, length: nat)
    requires slot < length
    ensures NextSlot(slot, length) == (slot + 1) % length
  {
  }

  /** The abstract state of a window counter. */
  datatype Window<K> = Window(counts: Counts<K>, head: nat, tail: nat, length: nat)

  /** The ring: `0 <= head < length` and `tail = (head + 1) % length`. */
  ghost predicate Ring<K>(w: Window<K>) {
    && w.length >= 2
    && w.head < w.length
    && w.tail == NextSlot(w.head, w.length)
  }

  /** No key is kept with a zero total. */
  ghost predicate NoZeroTotals<K>(c: Counts<K>) {
    forall k :: k in c ==> Sum(c[k]) > 0
  }

  /** The counter's invariant: the ring, `length` non-negative counts per key,
      and no key with a zero total. */
  ghost predicate WindowValid<K>(w: Window<K>) {
    Ring(w) && WellFormed(w.counts, w.length) && NoZeroTotals(w.counts)
  }

  /** A fresh window: empty, `head = 0`, `tail = 1`. */
  function Initial<K>(length: nat): (w: Window<K>)
    requires length >= 2
    ensures WindowValid(w) && w.counts == map[] && w.head == 0 && w.tail == 1
  {
    Window(map[], 0, NextSlot(0, length), length)
  }

  /** `Increment(obj)`: one more occurrence of `obj`, counted in the `head` slot. */
  function Incr<K>(w: Window<K>, obj: K): Window<K> {
    w.(counts := Incremented(w.counts, obj, w.head, w.length))
  }

  /** `Increment` keeps the invariant. */
  lemma IncrPreserves<K>(w: Window<K>, obj: K)
    requires WindowValid(w)
    ensures WindowValid(Incr(w, obj))
  {
    IncrementedEffect(w.counts, obj, w.head, w.length);
    var e := EntryOf(w.counts, obj, w.length);
    assert NonNegative(e) by {
      if obj !in w.counts {
        assert e == Zeros(w.length);
      }
    }
    SumNonNegative(e);
  }

  /** What `GetWindowedCounts` returns: every key with its total over all slots. */
  function Snapshot<K>(w: Window<K>): map<K, int> {
    Totals(w.counts)
  }

  /** The state `GetWindowedCounts` leaves: the `tail` slot cleaned up, then the
      ring advanced so that the old `tail` is the new `head`. */
  function Rotated<K>(w: Window<K>): (r: Window<K>)
    requires Ring(w)
    ensures Ring(r) && r.head == w.tail && r.length == w.length
  {
    Window(CleanedUp(w.counts, w.tail), w.tail, NextSlot(w.tail, w.length), w.length)
  }

  /** A snapshot keeps the invariant: the clean-up removes every key whose total
      would be zero. */
  lemma RotatedPreserves<K>(w: Window<K>)
    requires WindowValid(w)
    ensures WindowValid(Rotated(w))
  {
    CleanedUpEffect(w.counts, w.tail, w.length);
  }

  /** `n` snapshots in a row. */
  function Rotate<K>(w: Window<K>, n: nat): (r: Window<K>)
    requires Ring(w)
    ensures Ring(r) && r.length == w.length
  {
    if n == 0 then w else Rotated(Rotate(w, n - 1))
  }

  /** `n` increments of `obj` in a row. */
  function IncrTimes<K>(w: Window<K>, obj: K, n: nat): (r: Window<K>)
    ensures r.head == w.head && r.tail == w.tail && r.length == w.length
  {
    if n == 0 then w else Incr(IncrTimes(w, obj, n - 1), obj)
  }

  /** `(h + j) % length` for `h < length` and `j <= length`. */
  function Shift(h: nat, j: nat, length: nat): nat
    requires h < length && j <= length
  {
    if h + j < length then h + j else h + j - length
  }

  /** A slot array holding `n` at slot `h` and zero elsewhere. */
  function Spike(slots: nat, h: nat, n: int): seq<int>
    requires h < slots
  {
    Zeros(slots)[h := n]
  }

  lemma {:induction false} SumSpike(slots: nat, h: nat, n: int)
    requires h < slots
    ensures Sum(Spike(slots, h, n)) == n
  {
    SumZeros(slots);
    SumUpdate(Zeros(slots), h, n);
  }

  /** `e` with `n` added at slot `h`. */
  function Bumped(e: seq<int>, h: nat, n: int): seq<int>
    requires h < |e|
  {
    e[h := e[h] + n]
  }

  lemma {:induction false} BumpedTwice(e: seq<int>, h: nat, a: int, b: int)
    requires h < |e|
    ensures Bumped(Bumped(e, h, a), h, b) == Bumped(e, h, a + b)
  {
    assert forall i :: 0 <= i < |e| ==> Bumped(Bumped(e, h, a), h, b)[i] == Bumped(e, h, a + b)[i];
  }

  lemma {:induction false} SumBumped(e: seq<int>, h: nat, n: int)
    requires h < |e|
    ensures Sum(Bumped(e, h, n)) == Sum(e) + n
  {
    var v := e[h] + n;
    SumUpdate(e, h, v);
    assert Bumped(e, h, n) == e[h := v];
  }

  /** `n` increments add `n` at `head` to `obj`'s slots. */
  lemma {:induction false} IncrTimesEffect<K>(w: Window<K>, obj: K, n: nat)
    requires w.head < w.length && |EntryOf(w.counts, obj, w.length)| == w.length
    ensures obj in IncrTimes(w, obj, n).counts <==> obj in w.counts || n > 0
    ensures EntryOf(IncrTimes(w, obj, n).counts, obj, w.length)
         == Bumped(EntryOf(w.counts, obj, w.length), w.head, n)
  {
    var e := EntryOf(w.counts, obj, w.length);
    if n > 0 {
      IncrTimesEffect(w, obj, n - 1);
      BumpedTwice(e, w.head, n - 1, 1);
    } else {
      assert Bumped(e, w.head, 0) == e;
    }
  }

  /** A key absent from the window stays absent through snapshots. */
  lemma {:induction false} RotateKeepsAbsent<K>(w: Window<K>, obj: K, n: nat)
    requires Ring(w) && obj !in w.counts
    ensures obj !in Rotate(w, n).counts
  {
    if n > 0 {
      RotateKeepsAbsent(w, obj, n - 1);
    }
  }

  /** One snapshot leaves a spike alone unless it cleans the spike's slot,
      which evicts the key. */
  lemma RotatedSpike<K>(w: Window<K>, obj: K, h: nat, n: int)
    requires Ring(w) && h < w.length && n > 0
    requires obj in w.counts && w.counts[obj] == Spike(w.length, h, n)
    ensures w.tail != h ==> obj in Rotated(w).counts && Rotated(w).counts[obj] == Spike(w.length, h, n)
    ensures w.tail == h ==> obj !in Rotated(w).counts
  {
    var s := Spike(w.length, h, n);
    if w.tail != h {
      assert ZeroSlot(s, w.tail) == s;
      SumSpike(w.length, h, n);
    } else {
      assert ZeroSlot(s, h) == Zeros(w.length);
      SumZeros(w.length);
    }
  }

  /** A key whose only non-zero slot is the `head` it was counted in survives
      `j < length` snapshots untouched, while `head` moves `j` slots on; the
      `length`-th snapshot cleans that slot and evicts the key. */
  lemma {:induction false} SpikeLifetime<K>(w: Window<K>, obj: K, n: int, j: nat)
    requires Ring(w) && n > 0 && obj in w.counts && w.counts[obj] == Spike(w.length, w.head, n)
    requires j <= w.length
    ensures j < w.length ==> obj in Rotate(w, j).counts && Rotate(w, j).counts[obj] == Spike(w.length, w.head, n)
    ensures j < w.length ==> Rotate(w, j).head == Shift(w.head, j, w.length)
    ensures j == w.length ==> obj !in Rotate(w, j).counts
  {
    if j > 0 {
      SpikeLifetime(w, obj, n, j - 1);
      SpikeStep(w, obj, n, j);
    }
  }

  /** One more snapshot in `SpikeLifetime`. */
  lemma SpikeStep<K>(w: Window<K>, obj: K, n: int, j: nat)
    requires Ring(w) && n > 0 && 0 < j <= w.length
    requires obj in Rotate(w, j - 1).counts && Rotate(w, j - 1).counts[obj] == Spike(w.length, w.head, n)
    requires Rotate(w, j - 1).head == Shift(w.head, j - 1, w.length)
    ensures j < w.length ==> obj in Rotate(w, j).counts && Rotate(w, j).counts[obj] == Spike(w.length, w.head, n)
    ensures j < w.length ==> Rotate(w, j).head == Shift(w.head, j, w.length)
    ensures j == w.length ==> obj !in Rotate(w, j).counts
  {
    var prev := Rotate(w, j - 1);
    assert prev.tail == Shift(w.head, j, w.length);
    RotatedSpike(prev, obj, w.head, n);
    assert Rotate(w, j) == Rotated(prev);
  }

  /** A key incremented once into an empty window is reported with count 1 by the
      next `length` snapshots (`j = 0 .. length - 1` rotations before the snapshot)
      and is absent from the one after. */
  lemma SingleIncrement<K>(w: Window<K>, obj: K, j: nat)
    requires Ring(w) && obj !in w.counts && j <= w.length
    ensures var s := Snapshot(Rotate(Incr(w, obj), j));
            if j < w.length then obj in s && s[obj] == 1 else obj !in s
  {
    var w1 := Incr(w, obj);
    assert w1.counts[obj] == Spike(w.length, w.head, 1);
    if j < w.length {
      SumSpike(w.length, w.head, 1);
    }
    SpikeLifetime(w1, obj, 1, j);
  }

  /** The key's slots after `n2` increments and `d < length` snapshots. */
  lemma EarlierIncrements<K>(w: Window<K>, obj: K, n2: nat, d: nat)
    requires Ring(w) && obj !in w.counts && d < w.length
    ensures var wd := Rotate(IncrTimes(w, obj, n2), d);
            && (obj in wd.counts <==> n2 > 0)
            && |EntryOf(wd.counts, obj, w.length)| == w.length
            && Sum(EntryOf(wd.counts, obj, w.length)) == n2
  {
    var w2 := IncrTimes(w, obj, n2);
    IncrTimesEffect(w, obj, n2);
    if n2 > 0 {
      assert Bumped(Zeros(w.length), w.head, n2) == Spike(w.length, w.head, n2);
      SpikeLifetime(w2, obj, n2, d);
      SumSpike(w.length, w.head, n2);
    } else {
      RotateKeepsAbsent(w2, obj, d);
      SumZeros(w.length);
    }
  }

  /** `n2` increments, then `d < length` snapshots, then `n1` increments: the next
      snapshot reports `n1 + n2`, and reports the key at all exactly when that sum
      is positive. */
  lemma Accumulates<K>(w: Window<K>, obj: K, n2: nat, d: nat, n1: nat)
    requires Ring(w) && obj !in w.counts && d < w.length
    ensures var s := Snapshot(IncrTimes(Rotate(IncrTimes(w, obj, n2), d), obj, n1));
            && (obj in s <==> n1 + n2 > 0)
            && (obj in s ==> s[obj] == n1 + n2)
  {
    var wd := Rotate(IncrTimes(w, obj, n2), d);
    EarlierIncrements(w, obj, n2, d);
    var wn := IncrTimes(wd, obj, n1);
    IncrTimesEffect(wd, obj, n1);
    var e := EntryOf(wd.counts, obj, w.length);
    if obj in wn.counts {
      SumBumped(e, wd.head, n1);
    }
  }

  class SlidingWindowCounter<K(==)> {
    var counter: SlotBasedCounter<K>
    var head: nat
    var tail: nat
    const length: nat
    ghost var Repr: set<object>

    /** The abstract window this counter represents. */
    ghost function Model(): Window<K>
      reads this, counter
    {
      Window(counter.Counts, head, tail, length)
    }

    ghost predicate Valid()
      reads this, Repr
    {
      && this in Repr
      && counter in Repr
      && counter.Repr <= Repr
      && this !in counter.Repr
      && counter.Valid()
      && counter.slots == length
      && WindowValid(Model())
    }

    constructor (slotLength: int)
      requires slotLength >= 2
      ensures Valid() && fresh(Repr)
      ensures Model() == Initial(slotLength)
    {
      length := slotLength;
      counter := new SlotBasedCounter<K>(slotLength);
      head := 0;
      tail := NextSlot(0, slotLength);
      new;
      Repr := {this} + counter.Repr;
    }

    /** The constructor's guard: a window shorter than 2 slots throws. */
    static method Create(slotLength: int) returns (r: Result<SlidingWindowCounter<K>>)
      ensures r.Raised? <==> slotLength < 2
      ensures r.Ok? ==> r.value.Valid() && fresh(r.value.Repr)
      ensures r.Ok? ==> r.value.Model() == Initial(slotLength)
    {
      if slotLength < 2 {
        return Raised;
      }
      var c := new SlidingWindowCounter<K>(slotLength);
      return Ok(c);
    }

    method GetWindowedCounts() returns (results: map<K, int>)
      requires Valid()
      modifies Repr
      ensures Valid() && fresh(Repr - old(Repr))
      ensures results == Snapshot(old(Model()))
      ensures Model() == Rotated(old(Model()))
    {
      ghost var w0 := Model();
      results := counter.GetAll();
      counter.CleanUp(tail);
      Advance();
      assert Model() == Rotated(w0);
      RotatedPreserves(w0);
    }

    method Increment(obj: K)
      requires Valid()
      modifies Repr
      ensures Valid() && fresh(Repr - old(Repr))
      ensures Model() == Incr(old(Model()), obj)
    {
      ghost var w0 := Model();
      counter.Increment(obj, head);
      Repr := Repr + counter.Repr;
      assert Model() == Incr(w0, obj);
      IncrPreserves(w0, obj);
    }

    method Advance()
      requires tail < length
      modifies this
      ensures counter == old(counter) && Repr == old(Repr)
      ensures head == old(tail) && tail == NextSlot(head, length)
    {
      head := tail;
      tail := NextSlot(head, length);
    }
  }
}
