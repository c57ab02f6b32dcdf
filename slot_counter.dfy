/** `SlotBasedCounter<T>`: per key, a fixed-length array of counts, one per time slot. */
module SlotCounter {
  import opened Storm

  /** The abstract state: each key's slot array as a sequence. */
  type Counts<K> = map<K, seq<int>>

  /** `long[].Sum()`, left to right (the model's integers are unbounded). */
  function Sum(s: seq<int>): int {
    if s == [] then 0 else Sum(s[..|s| - 1]) + s[|s| - 1]
  }

  function Zeros(n: nat): (z: seq<int>)
    ensures |z| == n
  {
    seq(n, _ => 0)
  }

  ghost predicate NonNegative(s: seq<int>) {
    forall i :: 0 <= i < |s| ==> s[i] >= 0
  }

  /** Every key has exactly `slots` counts, none of them negative. */
  ghost predicate WellFormed<K>(c: Counts<K>, slots: nat) {
    forall k :: k in c ==> |c[k]| == slots && NonNegative(c[k])
  }

  /** A key's counts, with an absent key reading as all zero. */
  function EntryOf<K>(c: Counts<K>, k: K, slots: nat): seq<int> {
    if k in c then c[k] else Zeros(slots)
  }

  /** `counts[slot]++` on one key's array. The spec functions are total: a slot
      outside the array (where the source would throw) leaves the array as is. */
  function AddOne(e: seq<int>, slot: nat): seq<int> {
    if slot < |e| then e[slot := e[slot] + 1] else e
  }

  /** `counts[slot] = 0` on one key's array. */
  function ZeroSlot(e: seq<int>, slot: nat): seq<int> {
    if slot < |e| then e[slot := 0] else e
  }

  /** The state after `Increment(obj, slot)`. */
  function Incremented<K>(c: Counts<K>, obj: K, slot: nat, slots: nat): Counts<K> {
    c[obj := AddOne(EntryOf(c, obj, slots), slot)]
  }

  /** The result of `GetAll()`: every key with the sum of its slots. */
  function Totals<K>(c: Counts<K>): map<K, int> {
    map k | k in c :: Sum(c[k])
  }

  /** The state after `CleanUp(slot)`: `slot` zeroed in every key, then every key
      whose total became zero removed. */
  function CleanedUp<K>(c: Counts<K>, slot: nat): Counts<K> {
    map k | k in c && Sum(ZeroSlot(c[k], slot)) != 0 :: ZeroSlot(c[k], slot)
  }

  lemma {:induction false} SumNonNegative(s: seq<int>)
    requires NonNegative(s)
    ensures Sum(s) >= 0
  {
    if s != [] {
      SumNonNegative(s[..|s| - 1]);
    }
  }

  /** Overwriting one slot changes the sum by the difference. */
  lemma {:induction false} SumUpdate(s: seq<int>, i: nat, v: int)
    requires i < |s|
    ensures Sum(s[i := v]) == Sum(s) - s[i] + v
  {
    var n := |s| - 1;
    if i < n {
      assert s[i := v][..n] == s[..n][i := v];
      SumUpdate(s[..n], i, v);
    } else {
      assert s[i := v][..n] == s[..n];
    }
  }

  lemma {:induction false} SumZeros(n: nat)
    ensures Sum(Zeros(n)) == 0
  {
    if n > 0 {
      assert Zeros(n)[..n - 1] == Zeros(n - 1);
      SumZeros(n - 1);
    }
  }

  /** A non-negative array sums to zero only when every slot is zero. */
  lemma {:induction false} SumZeroIsZeros(s: seq<int>)
    requires NonNegative(s) && Sum(s) == 0
    ensures s == Zeros(|s|)
  {
    if s != [] {
      var n := |s| - 1;
      SumNonNegative(s[..n]);
      SumZeroIsZeros(s[..n]);
      assert s == s[..n] + [s[n]];
    }
  }

  /** `Increment` adds exactly one to `obj` at `slot` and touches nothing else;
      a new key starts from all zeros. */
  lemma IncrementedEffect<K>(c: Counts<K>, obj: K, slot: nat, slots: nat)
    requires WellFormed(c, slots) && slot < slots
    ensures WellFormed(Incremented(c, obj, slot, slots), slots)
    ensures Incremented(c, obj, slot, slots).Keys == c.Keys + {obj}
    ensures forall i :: 0 <= i < slots ==>
      Incremented(c, obj, slot, slots)[obj][i] == EntryOf(c, obj, slots)[i] + (if i == slot then 1 else 0)
    ensures forall k :: k in c && k != obj ==> Incremented(c, obj, slot, slots)[k] == c[k]
    ensures Sum(Incremented(c, obj, slot, slots)[obj]) == Sum(EntryOf(c, obj, slots)) + 1
  {
    var e := EntryOf(c, obj, slots);
    SumUpdate(e, slot, e[slot] + 1);
  }

  /** After `CleanUp(slot)`: survivors have zero at `slot`, no survivor totals
      zero, the other slots of survivors are unchanged, and a key is dropped
      exactly when its only non-zero counts were at `slot`. */
  lemma CleanedUpEffect<K>(c: Counts<K>, slot: nat, slots: nat)
    requires WellFormed(c, slots) && slot < slots
    ensures WellFormed(CleanedUp(c, slot), slots)
    ensures CleanedUp(c, slot).Keys <= c.Keys
    ensures forall k :: k in CleanedUp(c, slot) ==>
      CleanedUp(c, slot)[k][slot] == 0 && Sum(CleanedUp(c, slot)[k]) > 0 &&
      forall i :: 0 <= i < slots && i != slot ==> CleanedUp(c, slot)[k][i] == c[k][i]
    ensures forall k :: k in c && k !in CleanedUp(c, slot) ==> c[k][slot := 0] == Zeros(slots)
  {
    forall k | k in c
      ensures ZeroSlot(c[k], slot) == c[k][slot := 0]
      ensures Sum(c[k][slot := 0]) >= 0
      ensures Sum(c[k][slot := 0]) == 0 ==> c[k][slot := 0] == Zeros(slots)
    {
      assert NonNegative(c[k][slot := 0]);
      SumNonNegative(c[k][slot := 0]);
      if Sum(c[k][slot := 0]) == 0 {
        SumZeroIsZeros(c[k][slot := 0]);
      }
    }
  }

  /** `GetAll` reports the sum of the slots of exactly the keys present. */
  lemma TotalsOf<K>(c: Counts<K>, k: K)
    ensures k in Totals(c) <==> k in c
    ensures k in c ==> Totals(c)[k] == Sum(c[k])
  {
  }

  /** Sums an array left to right, as `Sum()` does. */
  method ArraySum(a: array<int>) returns (total: int)
    ensures total == Sum(a[..])
  {
    total := 0;
    for i := 0 to a.Length
      invariant total == Sum(a[..i])
    {
      assert a[..i + 1][..i] == a[..i];
      total := total + a[i];
    }
    assert a[..a.Length] == a[..];
  }

  /** `CleanUp(slot)` part way: the keys in `pending` are not yet visited. */
  function PartlyCleaned<K>(c: Counts<K>, slot: nat, pending: set<K>): Counts<K> {
    map k | k in c && (k in pending || Sum(ZeroSlot(c[k], slot)) != 0) ::
      if k in pending then c[k] else ZeroSlot(c[k], slot)
  }

  /** Visiting one more key resets its slot and drops it if its total is now zero. */
  lemma PartlyCleanedStep<K>(c: Counts<K>, slot: nat, pending: set<K>, obj: K)
    requires obj in pending && pending <= c.Keys
    ensures var before := PartlyCleaned(c, slot, pending);
            var reset := before[obj := ZeroSlot(c[obj], slot)];
            PartlyCleaned(c, slot, pending - {obj})
              == if Sum(ZeroSlot(c[obj], slot)) == 0 then reset - {obj} else reset
  {
  }

  class SlotBasedCounter<K(==)> {
    var objectCounts: map<K, array<int>>
    const slots: nat
    /** The abstract value: each key's array contents. */
    ghost var Counts: Counts<K>
    ghost var Repr: set<object>
    /** The key owning each array: no two keys share an array. */
    ghost var owner: map<array<int>, K>

    /** Each key owns its own array of `slots` non-negative counts. */
    ghost predicate Valid()
      reads this, Repr
    {
      && this in Repr
      && objectCounts.Keys == Counts.Keys
      && WellFormed(Counts, slots)
      && forall k :: k in objectCounts ==>
           && objectCounts[k] in Repr && objectCounts[k] in owner && owner[objectCounts[k]] == k
           && objectCounts[k][..] == Counts[k]
    }

    constructor (numSlots: int)
      requires numSlots >= 0
      ensures Valid() && fresh(Repr)
      ensures slots == numSlots && Counts == map[]
    {
      slots := numSlots;
      objectCounts := map[];
      Counts := map[];
      Repr := {this};
      owner := map[];
    }

    /** The constructor's guard: a negative slot count throws, zero is accepted. */
    static method Create(numSlots: int) returns (r: Result<SlotBasedCounter<K>>)
      ensures r.Raised? <==> numSlots < 0
      ensures r.Ok? ==> r.value.Valid() && fresh(r.value.Repr)
      ensures r.Ok? ==> r.value.slots == numSlots && r.value.Counts == map[]
    {
      if numSlots < 0 {
        return Raised;
      }
      var c := new SlotBasedCounter<K>(numSlots);
      return Ok(c);
    }

    method Increment(obj: K, slot: nat)
      requires Valid() && slot < slots
      modifies Repr
      ensures Valid() && fresh(Repr - old(Repr))
      ensures Counts == Incremented(old(Counts), obj, slot, slots)
    {
      if obj !in objectCounts {
        AddKey(obj);
      }
      Bump(obj, slot);
    }

    /** A first increment of `obj` allocates its all-zero array. */
    method AddKey(obj: K)
      requires Valid() && obj !in objectCounts
      modifies this
      ensures Valid() && fresh(Repr - old(Repr))
      ensures Counts == old(Counts)[obj := Zeros(slots)]
    {
      var counts := new int[slots](_ => 0);
      assert counts[..] == Zeros(slots);
      objectCounts := objectCounts[obj := counts];
      Counts := Counts[obj := Zeros(slots)];
      Repr := Repr + {counts};
      owner := owner[counts := obj];
    }

    method Bump(obj: K, slot: nat)
      requires Valid() && obj in objectCounts && slot < slots
      modifies Repr
      ensures Valid() && Repr == old(Repr)
      ensures Counts == old(Counts)[obj := old(Counts)[obj][slot := old(Counts)[obj][slot] + 1]]
    {
      var counts := objectCounts[obj];
      counts[slot] := counts[slot] + 1;
      Counts := Counts[obj := counts[..]];
    }

    method Reset(obj: K, slot: nat)
      requires Valid() && obj in objectCounts && slot < slots
      modifies Repr
      ensures Valid() && Repr == old(Repr) && objectCounts.Keys == old(objectCounts.Keys)
      ensures Counts == old(Counts)[obj := ZeroSlot(old(Counts)[obj], slot)]
    {
      var counts := objectCounts[obj];
      counts[slot] := 0;
      Counts := Counts[obj := counts[..]];
    }

    method GetAll() returns (results: map<K, int>)
      requires Valid()
      ensures results == Totals(Counts)
    {
      results := map[];
      var keys := objectCounts.Keys;
      while keys != {}
        invariant keys <= objectCounts.Keys
        invariant results.Keys == objectCounts.Keys - keys
        invariant forall k :: k in results ==> results[k] == Sum(Counts[k])
        decreases keys
      {
        var key :| key in keys;
        var total := ArraySum(objectCounts[key]);
        results := results[key := total];
        keys := keys - {key};
      }
    }

    method SumTotal(obj: K) returns (count: int)
      requires Valid()
      ensures count == Sum(EntryOf(Counts, obj, slots))
    {
      count := 0;
      if obj in objectCounts {
        count := ArraySum(objectCounts[obj]);
      } else {
        SumZeros(slots);
      }
    }

    method Remove(obj: K)
      requires Valid()
      modifies this
      ensures Valid() && Repr == old(Repr)
      ensures Counts == old(Counts) - {obj}
    {
      objectCounts := objectCounts - {obj};
      Counts := Counts - {obj};
    }

    method CleanUp(slot: nat)
      requires Valid() && slot < slots
      modifies Repr
      ensures Valid() && Repr == old(Repr)
      ensures Counts == CleanedUp(old(Counts), slot)
    {
      ghost var c0 := Counts;
      var keys := objectCounts.Keys;
      while keys != {}
        invariant Valid() && Repr == old(Repr)
        invariant keys <= c0.Keys
        invariant Counts == PartlyCleaned(c0, slot, keys)
        decreases keys
      {
        var obj :| obj in keys;
        PartlyCleanedStep(c0, slot, keys, obj);
        Reset(obj, slot);
        var total := SumTotal(obj);
        if total == 0 {
          Remove(obj);
        }
        keys := keys - {obj};
      }
    }
  }
}
