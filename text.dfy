/** The string operations `SwearWordBolt` applies to a tweet's body:
    `Replace("\r\n", " ")`, `Replace("'", "")`, `ToLower()`, `Split` on the
    punctuation delimiters, `Trim()` and the `^\d+$` test. */
module Text {

  /** `PUNCTUATION_DELIMITERS`. */
  const DELIMITERS: seq<char> := [
    ' ', '!', '"', '#', '$', '%', '&', '\'', '(', ')', '*', '+', ',', '-', '.', '/',
    ':', ';', '<', '=', '>', '?', '@', '[', ']', '^', '_', '`', '{', '|', '}', '~']

  predicate IsDelimiter(c: char) {
    c in DELIMITERS
  }

  /** `char.IsWhiteSpace`: the Unicode space, line and paragraph separators and
      the control characters tab to carriage return and next line. */
  predicate IsWhiteSpace(c: char) {
    || '\t' <= c <= '\r' || c == ' ' || c == '\U{0085}' || c == '\U{00A0}' || c == '\U{1680}'
    || '\U{2000}' <= c <= '\U{200A}' || c == '\U{2028}' || c == '\U{2029}' || c == '\U{202F}'
    || c == '\U{205F}' || c == '\U{3000}'
  }

  /** `s.Replace("\r\n", " ")`, scanning left to right. */
  function ReplaceCrLf(s: string): string {
    if |s| >= 2 && s[0] == '\r' && s[1] == '\n' then " " + ReplaceCrLf(s[2..])
    else if s == [] then []
    else [s[0]] + ReplaceCrLf(s[1..])
  }

  predicate HasCrLf(s: string) {
    exists i :: 0 <= i < |s| - 1 && s[i] == '\r' && s[i + 1] == '\n'
  }

  lemma {:induction false} ReplaceCrLfHead(s: string)
    ensures |ReplaceCrLf(s)| <= |s|
    ensures s != [] ==> ReplaceCrLf(s) != [] && (ReplaceCrLf(s)[0] == ' ' || ReplaceCrLf(s)[0] == s[0])
    ensures s != [] && s[0] == '\r' && (|s| < 2 || s[1] != '\n') ==> ReplaceCrLf(s)[0] == '\r'
    ensures s != [] && s[0] == '\r' && |s| >= 2 && s[1] == '\n' ==> ReplaceCrLf(s)[0] == ' '
  {
    if |s| >= 2 && s[0] == '\r' && s[1] == '\n' {
      ReplaceCrLfHead(s[2..]);
    } else if s != [] {
      ReplaceCrLfHead(s[1..]);
    }
  }

  /** No carriage return and line feed pair survives the replacement. */
  lemma {:induction false} ReplaceCrLfRemovesAll(s: string)
    ensures !HasCrLf(ReplaceCrLf(s))
  {
    if |s| >= 2 && s[0] == '\r' && s[1] == '\n' {
      ReplaceCrLfRemovesAll(s[2..]);
      var r := ReplaceCrLf(s[2..]);
      assert forall i :: 1 <= i < |r| + 1 ==> (" " + r)[i] == r[i - 1];
    } else if s != [] {
      ReplaceCrLfRemovesAll(s[1..]);
      ReplaceCrLfHead(s[1..]);
      var r := ReplaceCrLf(s[1..]);
      assert forall i :: 1 <= i < |r| + 1 ==> ([s[0]] + r)[i] == r[i - 1];
      if s[0] == '\r' && r != [] {
        assert r[0] != '\n';
      }
    }
  }

  /** A string without a carriage return and line feed pair is unchanged. */
  lemma {:induction false} ReplaceCrLfNoPair(s: string)
    requires !HasCrLf(s)
    ensures ReplaceCrLf(s) == s
  {
    if s != [] {
      assert !HasCrLf(s[1..]) by {
        forall i | 0 <= i < |s[1..]| - 1
          ensures !(s[1..][i] == '\r' && s[1..][i + 1] == '\n')
        {
          assert s[1..][i] == s[i + 1] && s[1..][i + 1] == s[i + 2];
        }
      }
      ReplaceCrLfNoPair(s[1..]);
      assert s == [s[0]] + s[1..];
    }
  }

  /** The first pair becomes one space; what precedes it is kept and what
      follows it is replaced in turn. */
  lemma {:induction false} ReplaceCrLfAtPair(a: string, b: string)
    requires !HasCrLf(a)
    ensures ReplaceCrLf(a + "\r\n" + b) == a + " " + ReplaceCrLf(b)
  {
    var s := a + "\r\n" + b;
    if a == [] {
      assert s[2..] == b;
    } else {
      assert !HasCrLf(a[1..]) by {
        forall i | 0 <= i < |a[1..]| - 1
          ensures !(a[1..][i] == '\r' && a[1..][i + 1] == '\n')
        {
          assert a[1..][i] == a[i + 1] && a[1..][i + 1] == a[i + 2];
        }
      }
      ReplaceCrLfAtPair(a[1..], b);
      assert s[1..] == a[1..] + "\r\n" + b;
      assert s[0] == a[0];
      if |a| == 1 {
        assert s[1] == '\r';
      } else {
        assert s[1] == a[1];
        assert !(a[0] == '\r' && a[1] == '\n');
      }
      assert a == [a[0]] + a[1..];
    }
  }

  /** `s.Replace(c.ToString(), string.Empty)`. */
  function RemoveChar(s: string, c: char): (r: string)
    ensures |r| <= |s|
  {
    if s == [] then []
    else (if s[0] == c then [] else [s[0]]) + RemoveChar(s[1..], c)
  }

  /** Removal leaves no `c` and every other character, in order. */
  lemma {:induction false} RemoveCharEffect(s: string, c: char)
    ensures c !in RemoveChar(s, c)
    ensures forall d :: d != c ==> multiset(RemoveChar(s, c))[d] == multiset(s)[d]
  {
    if s != [] {
      RemoveCharEffect(s[1..], c);
      assert s == [s[0]] + s[1..];
    }
  }

  /** Removal works piecewise, so the kept characters stay in their order. */
  lemma {:induction false} RemoveCharAppend(a: string, b: string, c: char)
    ensures RemoveChar(a + b, c) == RemoveChar(a, c) + RemoveChar(b, c)
  {
    if a != [] {
      RemoveCharAppend(a[1..], b, c);
      assert (a + b)[1..] == a[1..] + b;
    } else {
      assert a + b == b;
    }
  }

  /** `ToLower()` on the ASCII letters. */
  function LowerChar(c: char): char {
    if 'A' <= c <= 'Z' then (c as int + 32) as char else c
  }

  function Lower(s: string): (r: string)
    ensures |r| == |s|
  {
    seq(|s|, i requires 0 <= i < |s| => LowerChar(s[i]))
  }

  /** Lowercasing turns each capital into its small letter, changes nothing
      else, and is idempotent. */
  lemma LowerEffect(s: string)
    ensures forall i :: 0 <= i < |s| ==> !('A' <= Lower(s)[i] <= 'Z')
    ensures forall i :: 0 <= i < |s| && !('A' <= s[i] <= 'Z') ==> Lower(s)[i] == s[i]
    ensures forall i :: 0 <= i < |s| && 'A' <= s[i] <= 'Z' ==>
      Lower(s)[i] == "abcdefghijklmnopqrstuvwxyz"[s[i] as int - 'A' as int]
    ensures Lower(Lower(s)) == Lower(s)
  {
  }

  /** `s.Split(DELIMITERS)`: the pieces between delimiters, empty ones included. */
  function Split(s: string): (r: seq<string>)
    ensures |r| >= 1
  {
    if s == [] then [""]
    else
      var rest := Split(s[1..]);
      if IsDelimiter(s[0]) then [""] + rest
      else [[s[0]] + rest[0]] + rest[1..]
  }

  function CountDelimiters(s: string): nat {
    if s == [] then 0 else (if IsDelimiter(s[0]) then 1 else 0) + CountDelimiters(s[1..])
  }

  function RemoveDelimiters(s: string): string {
    if s == [] then [] else (if IsDelimiter(s[0]) then [] else [s[0]]) + RemoveDelimiters(s[1..])
  }

  function Concat(pieces: seq<string>): string {
    if pieces == [] then [] else pieces[0] + Concat(pieces[1..])
  }

  /** One more piece than delimiters; no piece holds a delimiter; the pieces
      together are the string without its delimiters. */
  lemma {:induction false} SplitEffect(s: string)
    ensures |Split(s)| == CountDelimiters(s) + 1
    ensures forall i, j :: 0 <= i < |Split(s)| && 0 <= j < |Split(s)[i]| ==> !IsDelimiter(Split(s)[i][j])
    ensures Concat(Split(s)) == RemoveDelimiters(s)
  {
    if s != [] {
      SplitEffect(s[1..]);
      var rest := Split(s[1..]);
      if IsDelimiter(s[0]) {
        assert Concat([""] + rest) == Concat(rest) by {
          assert ([""] + rest)[1..] == rest;
        }
      } else {
        var r := Split(s);
        assert r == [[s[0]] + rest[0]] + rest[1..];
        assert Concat(rest) == rest[0] + Concat(rest[1..]);
        assert r[1..] == rest[1..];
        forall i, j | 0 <= i < |r| && 0 <= j < |r[i]|
          ensures !IsDelimiter(r[i][j])
        {
          if i == 0 {
            if j > 0 {
              assert r[0][j] == rest[0][j - 1];
            }
          } else {
            assert r[i] == rest[i];
          }
        }
      }
    }
  }

  /** A string without a delimiter is one piece. */
  lemma {:induction false} SplitNoDelimiter(s: string)
    requires forall i :: 0 <= i < |s| ==> !IsDelimiter(s[i])
    ensures Split(s) == [s]
  {
    if s != [] {
      SplitNoDelimiter(s[1..]);
      assert s == [s[0]] + s[1..];
    }
  }

  /** A delimiter at index `k`, with none before it, ends the first piece. */
  lemma {:induction false} SplitAtIndex(s: string, k: nat)
    requires k < |s| && IsDelimiter(s[k])
    requires forall i :: 0 <= i < k ==> !IsDelimiter(s[i])
    ensures Split(s) == [s[..k]] + Split(s[k + 1..])
  {
    if k > 0 {
      var t := s[1..];
      assert t[k - 1] == s[k];
      assert forall i :: 0 <= i < k - 1 ==> t[i] == s[i + 1];
      SplitAtIndex(t, k - 1);
      assert t[k..] == s[k + 1..];
      assert [s[0]] + t[..k - 1] == s[..k];
    }
  }

  /** The first delimiter ends the first piece; the rest is split in turn. */
  lemma SplitAtDelimiter(a: string, d: char, b: string)
    requires forall i :: 0 <= i < |a| ==> !IsDelimiter(a[i])
    requires IsDelimiter(d)
    ensures Split(a + [d] + b) == [a] + Split(b)
  {
    var s := a + [d] + b;
    assert s[..|a|] == a && s[|a|] == d && s[|a| + 1..] == b;
    SplitAtIndex(s, |a|);
  }

  function TrimStart(s: string): string {
    if s != [] && IsWhiteSpace(s[0]) then TrimStart(s[1..]) else s
  }

  function TrimEnd(s: string): string {
    if s != [] && IsWhiteSpace(s[|s| - 1]) then TrimEnd(s[..|s| - 1]) else s
  }

  /** `Trim()`. */
  function Trim(s: string): string {
    TrimEnd(TrimStart(s))
  }

  /** The part of `s` that `TrimStart` keeps: all the leading whitespace goes. */
  lemma {:induction false} TrimStartEffect(s: string)
    ensures var r := TrimStart(s);
      && (r == [] || !IsWhiteSpace(r[0]))
      && |r| <= |s| && r == s[|s| - |r|..]
      && forall k :: 0 <= k < |s| - |r| ==> IsWhiteSpace(s[k])
  {
    if s != [] && IsWhiteSpace(s[0]) {
      TrimStartEffect(s[1..]);
      var r := TrimStart(s[1..]);
      assert s[1..][|s| - 1 - |r|..] == s[|s| - |r|..];
      forall k | 0 <= k < |s| - |r|
        ensures IsWhiteSpace(s[k])
      {
        if k > 0 {
          assert s[k] == s[1..][k - 1];
        }
      }
    }
  }

  lemma {:induction false} TrimEndEffect(s: string)
    ensures var r := TrimEnd(s);
      && (r == [] || !IsWhiteSpace(r[|r| - 1]))
      && |r| <= |s| && r == s[..|r|]
      && forall k :: |r| <= k < |s| ==> IsWhiteSpace(s[k])
  {
    if s != [] && IsWhiteSpace(s[|s| - 1]) {
      TrimEndEffect(s[..|s| - 1]);
      var r := TrimEnd(s[..|s| - 1]);
      assert s[..|s| - 1][..|r|] == s[..|r|];
      forall k | |r| <= k < |s|
        ensures IsWhiteSpace(s[k])
      {
        if k < |s| - 1 {
          assert s[k] == s[..|s| - 1][k];
        }
      }
    }
  }

  /** `Trim()` keeps a contiguous part of `s` that neither starts nor ends with
      whitespace, and only whitespace lies outside it. */
  lemma TrimEffect(s: string)
    ensures var r := Trim(s);
      && (r == [] || (!IsWhiteSpace(r[0]) && !IsWhiteSpace(r[|r| - 1])))
      && exists i, j :: 0 <= i <= j <= |s| && r == s[i..j]
           && (forall k :: 0 <= k < i ==> IsWhiteSpace(s[k]))
           && (forall k :: j <= k < |s| ==> IsWhiteSpace(s[k]))
  {
    var t := TrimStart(s);
    TrimStartEffect(s);
    TrimEndEffect(t);
    var r := TrimEnd(t);
    var i := |s| - |t|;
    var j := i + |r|;
    assert r == s[i..j];
    if r != [] {
      assert r[0] == t[0];
    }
    forall k | j <= k < |s|
      ensures IsWhiteSpace(s[k])
    {
      assert s[k] == t[k - i];
    }
  }

  /** `^\d+$` on a trimmed word: one or more ASCII digits. */
  predicate AllDigits(s: string) {
    |s| > 0 && forall i :: 0 <= i < |s| ==> '0' <= s[i] <= '9'
  }
}
