/** Shapes shared by every component of the topology: SCP tuples with their typed
    fields, the typed field accessors (which throw on a wrong type or a missing
    field), and what a component does to its host context (emit, ack, fail). */
module Storm {

  datatype Option<+T> = None | Some(value: T)

  /** The outcome of an accessor or parser that may throw: `Raised` stands for the
      exception, which the caller either catches or lets escape. */
  datatype Result<+T> = Ok(value: T) | Raised

  /** One field of a tuple; `Null` is a C# null reference. */
  datatype Value = Null | LongV(l: int) | IntV(i: int) | BoolV(b: bool) | StrV(s: string)

  /** An SCP tuple. `handle` stands for the object's identity, which is what the
      host's Ack and Fail are keyed by. */
  datatype Tuple = Tuple(handle: nat, stream: string, values: seq<Value>)

  /** A call a component makes on its host context. */
  datatype Effect =
    | Emit(stream: string, anchors: seq<Tuple>, values: seq<Value>)
    | Ack(tuple: Tuple)
    | Fail(tuple: Tuple)

  /** Stream ids of the platform and of the topology. */
  const TICK_STREAM := "__tick"
  const DEFAULT_STREAM := "default"
  const GEOGRAPHY_STREAM := "geography"
  const SENTIMENT_STREAM := "sentiment"
  const ARCHIVE_STREAM := "archive"
  const TOPIC_STREAM := "topic"

  /** A missing (null) tuple counts as a tick. */
  predicate IsTickTuple(t: Option<Tuple>) {
    t.None? || t.value.stream == TICK_STREAM
  }

  /** A C# string, which may be null. */
  type NullableString = Option<string>

  predicate IsNullOrEmpty(s: NullableString) {
    s.None? || s.value == ""
  }

  /** A nullable string as a tuple field. */
  function StringValue(s: NullableString): Value {
    match s
    case None => Null
    case Some(v) => StrV(v)
  }

  /** `GetLong(i)`: an unboxing cast, so null and other types throw. */
  function GetLong(t: Tuple, i: nat): Result<int> {
    if i < |t.values| && t.values[i].LongV? then Ok(t.values[i].l) else Raised
  }

  function GetInteger(t: Tuple, i: nat): Result<int> {
    if i < |t.values| && t.values[i].IntV? then Ok(t.values[i].i) else Raised
  }

  function GetBoolean(t: Tuple, i: nat): Result<bool> {
    if i < |t.values| && t.values[i].BoolV? then Ok(t.values[i].b) else Raised
  }

  /** `GetString(i)`: a reference cast, so null is returned as null. */
  function GetString(t: Tuple, i: nat): Result<NullableString> {
    if i < |t.values| && t.values[i].Null? then Ok(None)
    else if i < |t.values| && t.values[i].StrV? then Ok(Some(t.values[i].s))
    else Raised
  }

  /** Fields `from`, …, `from + n - 1` read with `GetString`; the first that is
      missing or not a string throws. */
  function GetStrings(t: Tuple, from: nat, n: nat): (r: Result<seq<NullableString>>)
    ensures r.Ok? <==> forall i :: from <= i < from + n ==> GetString(t, i).Ok?
    ensures r.Ok? ==> |r.value| == n && forall i :: 0 <= i < n ==> GetString(t, from + i) == Ok(r.value[i])
    decreases n
  {
    if n == 0 then Ok([])
    else
      match GetString(t, from)
      case Raised => Raised
      case Ok(s) =>
        match GetStrings(t, from + 1, n - 1)
        case Raised => Raised
        case Ok(rest) => Ok([s] + rest)
  }

  /** The effects of acking, respectively failing, each tuple of `ts` in order. */
  function AckAll(ts: seq<Tuple>): seq<Effect> {
    seq(|ts|, i requires 0 <= i < |ts| => Ack(ts[i]))
  }

  function FailAll(ts: seq<Tuple>): seq<Effect> {
    seq(|ts|, i requires 0 <= i < |ts| => Fail(ts[i]))
  }

  /** How many times `e` occurs in `effects`. */
  function Occurrences(effects: seq<Effect>, e: Effect): nat {
    if effects == [] then 0
    else Occurrences(effects[..|effects| - 1], e) + (if effects[|effects| - 1] == e then 1 else 0)
  }

  predicate Distinct<T(==)>(ts: seq<T>) {
    forall i, j :: 0 <= i < j < |ts| ==> ts[i] != ts[j]
  }

  /** `foreach (var t in ts) ctx.Ack(t);` */
  method AckEach(ts: seq<Tuple>) returns (effects: seq<Effect>)
    ensures effects == AckAll(ts)
  {
    effects := [];
    for i := 0 to |ts|
      invariant effects == AckAll(ts[..i])
    {
      effects := effects + [Ack(ts[i])];
    }
    assert ts[..|ts|] == ts;
  }

  /** `foreach (var t in ts) ctx.Fail(t);` */
  method FailEach(ts: seq<Tuple>) returns (effects: seq<Effect>)
    ensures effects == FailAll(ts)
  {
    effects := [];
    for i := 0 to |ts|
      invariant effects == FailAll(ts[..i])
    {
      effects := effects + [Fail(ts[i])];
    }
    assert ts[..|ts|] == ts;
  }

  /** Acking a batch of distinct tuples acks each exactly once and fails none. */
  lemma {:induction false} AckAllExactlyOnce(ts: seq<Tuple>, t: Tuple)
    requires Distinct(ts)
    ensures |AckAll(ts)| == |ts|
    ensures Occurrences(AckAll(ts), Ack(t)) == (if t in ts then 1 else 0)
    ensures Occurrences(AckAll(ts), Fail(t)) == 0
  {
    if ts != [] {
      var init := ts[..|ts| - 1];
      assert AckAll(ts)[..|ts| - 1] == AckAll(init);
      AckAllExactlyOnce(init, t);
      assert t in ts <==> t in init || t == ts[|ts| - 1];
    }
  }

  /** Failing a batch of distinct tuples fails each exactly once and acks none. */
  lemma {:induction false} FailAllExactlyOnce(ts: seq<Tuple>, t: Tuple)
    requires Distinct(ts)
    ensures |FailAll(ts)| == |ts|
    ensures Occurrences(FailAll(ts), Fail(t)) == (if t in ts then 1 else 0)
    ensures Occurrences(FailAll(ts), Ack(t)) == 0
  {
    if ts != [] {
      var init := ts[..|ts| - 1];
      assert FailAll(ts)[..|ts| - 1] == FailAll(init);
      FailAllExactlyOnce(init, t);
      assert t in ts <==> t in init || t == ts[|ts| - 1];
    }
  }
}
