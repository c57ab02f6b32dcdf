/** HBase row keys of the tweet and topic tables: the partition (screen name or
    topic), `_`, the reversed timestamp in decimal left-padded with spaces to
    width 20, and the tweet id in decimal. Rows of one partition thus sort
    newest first. */
module RowKey {
  import opened Storm

  /** `ulong.MaxValue`. */
  const ULONG_MAX: nat := 18446744073709551615
  const TIME_INDEX_WIDTH: nat := 20

  function Pow10(k: nat): (p: nat)
    ensures p >= 1
  {
    if k == 0 then 1 else 10 * Pow10(k - 1)
  }

  function DigitChar(d: nat): (c: char)
    requires d < 10
    ensures '0' <= c <= '9'
  {
    ('0' as int + d) as char
  }

  /** `n.ToString()` for a non-negative integer: decimal, no leading zeros. */
  function Decimal(n: nat): seq<char> {
    if n < 10 then [DigitChar(n)] else Decimal(n / 10) + [DigitChar(n % 10)]
  }

  /** `id.ToString()` for a `long`, minus sign first. */
  function LongString(i: int): seq<char> {
    if i < 0 then ['-'] + Decimal(-i) else Decimal(i)
  }

  /** `bool.ToString()`. */
  function BoolString(b: bool): seq<char> {
    if b then "True" else "False"
  }

  function Spaces(k: nat): (r: seq<char>)
    ensures |r| == k && forall i :: 0 <= i < k ==> r[i] == ' '
  {
    seq(k, _ => ' ')
  }

  /** `s.PadLeft(w)`: spaces in front up to width `w`; a longer `s` is kept. */
  function PadLeft(s: seq<char>, w: nat): seq<char> {
    if |s| >= w then s else Spaces(w - |s|) + s
  }

  /** The 20-character reversed timestamp of a `(ulong)` timestamp. */
  function TimeIndex(ts: nat): seq<char>
    requires ts <= ULONG_MAX
  {
    PadLeft(Decimal(ULONG_MAX - ts), TIME_INDEX_WIDTH)
  }

  /** `partition + "_" + time_index`; a null partition concatenates as empty. */
  function Key(partition: NullableString, ts: nat, id: int): seq<char>
    requires ts <= ULONG_MAX
  {
    (if partition.Some? then partition.value else "") + "_" + TimeIndex(ts) + LongString(id)
  }

  /** Reading decimal digits back, most significant first. */
  function ValueOf(s: seq<char>): nat {
    if s == [] then 0
    else ValueOf(s[..|s| - 1]) * 10 + (if '0' <= s[|s| - 1] <= '9' then (s[|s| - 1] - '0') as nat else 0)
  }

  predicate IsDigit(c: char) {
    '0' <= c <= '9'
  }

  lemma {:induction false} DecimalRoundTrip(n: nat)
    ensures ValueOf(Decimal(n)) == n
    ensures forall i :: 0 <= i < |Decimal(n)| ==> IsDigit(Decimal(n)[i])
    ensures |Decimal(n)| == 1 || Decimal(n)[0] != '0'
  {
    if n >= 10 {
      DecimalRoundTrip(n / 10);
      var s := Decimal(n);
      assert s[..|s| - 1] == Decimal(n / 10);
    }
  }

  lemma {:induction false} DecimalLength(n: nat, k: nat)
    requires n < Pow10(k)
    ensures |Decimal(n)| <= k || (n == 0 && k == 0)
    ensures k >= 1 ==> |Decimal(n)| <= k
  {
    if n >= 10 {
      DecimalLength(n / 10, k - 1);
    }
  }

  /** Strict lexicographic order, the order HBase keeps row keys in. */
  ghost predicate LexLess(a: seq<char>, b: seq<char>) {
    exists i :: 0 <= i < |a| && i < |b| && a[..i] == b[..i] && a[i] < b[i]
  }

  /** Appending to two strings of the same length keeps their order. */
  lemma LexLessAppend(a: seq<char>, b: seq<char>, x: seq<char>, y: seq<char>)
    requires LexLess(a, b) && |a| == |b|
    ensures LexLess(a + x, b + y)
  {
    var i :| 0 <= i < |a| && i < |b| && a[..i] == b[..i] && a[i] < b[i];
    assert (a + x)[..i] == a[..i] && (b + y)[..i] == b[..i];
    assert (a + x)[i] == a[i] && (b + y)[i] == b[i];
  }

  /** A common prefix keeps the order. */
  lemma LexLessPrefix(c: seq<char>, a: seq<char>, b: seq<char>)
    requires LexLess(a, b)
    ensures LexLess(c + a, c + b)
  {
    var i :| 0 <= i < |a| && i < |b| && a[..i] == b[..i] && a[i] < b[i];
    assert (c + a)[..|c| + i] == c + a[..i];
    assert (c + b)[..|c| + i] == c + b[..i];
    assert (c + a)[|c| + i] == a[i] && (c + b)[|c| + i] == b[i];
  }

  /** The leading `k` characters of a padded decimal whose value is `m` after
      dropping the last digit: spaces where the number has no digit. */
  function High(m: nat, k: nat): (r: seq<char>)
    ensures |r| == k
  {
    if k == 0 then [] else High(m / 10, k - 1) + [if m == 0 then ' ' else DigitChar(m % 10)]
  }

  lemma {:induction false} HighZero(k: nat)
    ensures High(0, k) == Spaces(k)
  {
    if k > 0 {
      HighZero(k - 1);
    }
  }

  /** A padded decimal is its high part followed by its last digit. */
  lemma {:induction false} PadDecimal(n: nat, w: nat)
    requires 1 <= w && n < Pow10(w)
    ensures PadLeft(Decimal(n), w) == High(n / 10, w - 1) + [DigitChar(n % 10)]
  {
    if n < 10 {
      HighZero(w - 1);
    } else {
      DecimalLength(n / 10, w - 1);
      PadDecimal(n / 10, w - 1);
      var d := Decimal(n / 10);
      assert PadLeft(Decimal(n), w) == PadLeft(d, w - 1) + [DigitChar(n % 10)];
    }
  }

  lemma {:induction false} HighOrder(m1: nat, m2: nat, k: nat)
    requires m1 < m2 < Pow10(k)
    ensures LexLess(High(m1, k), High(m2, k))
  {
    var c1 := if m1 == 0 then ' ' else DigitChar(m1 % 10);
    var c2 := if m2 == 0 then ' ' else DigitChar(m2 % 10);
    DropLastDigit(m1, m2, k);
    if m1 / 10 < m2 / 10 {
      HighOrder(m1 / 10, m2 / 10, k - 1);
      LexLessAppend(High(m1 / 10, k - 1), High(m2 / 10, k - 1), [c1], [c2]);
    } else {
      assert c1 < c2;
      LastCharOrder(High(m1 / 10, k - 1), c1, c2);
    }
  }

  /** Dropping the last digit of a smaller number leaves a number no larger. */
  lemma DropLastDigit(a: nat, b: nat, w: nat)
    requires a < b < Pow10(w)
    ensures 1 <= w && a / 10 <= b / 10 < Pow10(w - 1)
    ensures a / 10 == b / 10 ==> a % 10 < b % 10
  {
    assert Pow10(w) == 10 * Pow10(w - 1);
  }

  /** Padded to the same width, a smaller number sorts first. */
  lemma PaddedOrder(a: nat, b: nat, w: nat)
    requires 1 <= w && a < b < Pow10(w)
    ensures LexLess(PadLeft(Decimal(a), w), PadLeft(Decimal(b), w))
  {
    PadDecimal(a, w);
    PadDecimal(b, w);
    DropLastDigit(a, b, w);
    SplitOrder(a / 10, b / 10, a % 10, b % 10, w - 1);
  }

  /** The order of two padded decimals from their high parts and last digits. */
  lemma SplitOrder(qa: nat, qb: nat, ra: nat, rb: nat, k: nat)
    requires qa <= qb < Pow10(k) && ra < 10 && rb < 10
    requires qa == qb ==> ra < rb
    ensures LexLess(High(qa, k) + [DigitChar(ra)], High(qb, k) + [DigitChar(rb)])
  {
    if qa < qb {
      HighOrder(qa, qb, k);
      LexLessAppend(High(qa, k), High(qb, k), [DigitChar(ra)], [DigitChar(rb)]);
    } else {
      LastCharOrder(High(qa, k), DigitChar(ra), DigitChar(rb));
    }
  }

  /** Strings that differ only in a last character are ordered by it. */
  lemma LastCharOrder(p: seq<char>, c1: char, c2: char)
    requires c1 < c2
    ensures LexLess(p + [c1], p + [c2])
  {
    assert (p + [c1])[..|p|] == p == (p + [c2])[..|p|];
    assert (p + [c1])[|p|] == c1 && (p + [c2])[|p|] == c2;
  }

  lemma ULongMaxDigits()
    ensures ULONG_MAX < Pow10(TIME_INDEX_WIDTH)
  {
    assert Pow10(20) == 100000000000000000000 by {
      assert Pow10(10) == 10000000000;
      assert Pow10(20) == Pow10(10) * Pow10(10) by {
        Pow10Add(10, 10);
      }
    }
  }

  lemma {:induction false} Pow10Add(a: nat, b: nat)
    ensures Pow10(a + b) == Pow10(a) * Pow10(b)
  {
    if a > 0 {
      Pow10Add(a - 1, b);
    }
  }

  /** The time index is always exactly 20 characters. */
  lemma TimeIndexWidth(ts: nat)
    requires ts <= ULONG_MAX
    ensures |TimeIndex(ts)| == TIME_INDEX_WIDTH
  {
    ULongMaxDigits();
    DecimalLength(ULONG_MAX - ts, TIME_INDEX_WIDTH);
  }

  /** A later timestamp gives a smaller time index. */
  lemma LaterTimeIndexFirst(ts1: nat, ts2: nat)
    requires ts1 < ts2 <= ULONG_MAX
    ensures LexLess(TimeIndex(ts2), TimeIndex(ts1))
  {
    ULongMaxDigits();
    PaddedOrder(ULONG_MAX - ts2, ULONG_MAX - ts1, TIME_INDEX_WIDTH);
  }

  /** A shared prefix and equal-width middles ordered one way order the whole. */
  lemma MiddleOrder(prefix: seq<char>, m1: seq<char>, m2: seq<char>, s1: seq<char>, s2: seq<char>)
    requires LexLess(m1, m2) && |m1| == |m2|
    ensures LexLess(prefix + m1 + s1, prefix + m2 + s2)
  {
    LexLessAppend(m1, m2, s1, s2);
    LexLessPrefix(prefix, m1 + s1, m2 + s2);
    assert prefix + m1 + s1 == prefix + (m1 + s1);
    assert prefix + m2 + s2 == prefix + (m2 + s2);
  }

  /** Within a partition, a later timestamp gives a smaller key, whatever the ids. */
  lemma LaterSortsFirst(partition: NullableString, ts1: nat, id1: int, ts2: nat, id2: int)
    requires ts1 < ts2 <= ULONG_MAX
    ensures LexLess(Key(partition, ts2, id2), Key(partition, ts1, id1))
  {
    TimeIndexWidth(ts1);
    TimeIndexWidth(ts2);
    LaterTimeIndexFirst(ts1, ts2);
    var prefix := (if partition.Some? then partition.value else "") + "_";
    MiddleOrder(prefix, TimeIndex(ts2), TimeIndex(ts1), LongString(id2), LongString(id1));
  }

  /** The key reads back as partition, `_`, a 20-wide reversed timestamp and the id. */
  lemma KeyLayout(partition: string, ts: nat, id: nat)
    requires ts <= ULONG_MAX
    ensures var k := Key(Some(partition), ts, id);
      && k[..|partition|] == partition
      && k[|partition|] == '_'
      && ValueOf(k[|partition| + 1 + TIME_INDEX_WIDTH..]) == id
  {
    TimeIndexWidth(ts);
    DecimalRoundTrip(id);
    var k := Key(Some(partition), ts, id);
    assert k == partition + "_" + TimeIndex(ts) + Decimal(id);
    assert k[|partition| + 1 + TIME_INDEX_WIDTH..] == Decimal(id);
  }
}
