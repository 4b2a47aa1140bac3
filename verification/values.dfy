/**
 * JavaScript values as far as the shared-worker protocol inspects them,
 * the Option wrapper, and the opaque serialization boundary.
 */
module Values {

  datatype Option<+T> = None | Some(value: T)

  /** A JavaScript value. Objects are plain records of named fields. */
  datatype Value =
    | Undefined
    | Null
    | Bool(b: bool)
    | Num(n: int)
    | Str(s: string)
    | Obj(fields: map<string, Value>)

  /** The outcome of reading `v.key`: reading a property of `undefined` or `null` throws a TypeError. */
  datatype Access = Got(got: Value) | AccessThrew

  /** Property access `v.key` with JavaScript's rules: a missing property reads as `undefined`. */
  function Field(v: Value, key: string): Access
  {
    match v
    case Undefined => AccessThrew
    case Null => AccessThrew
    case Obj(fields) => Got(if key in fields then fields[key] else Undefined)
    case _ => Got(Undefined)
  }

  /** What an event handler did: it completed, or it threw a TypeError. */
  datatype Outcome = Handled | ThrewTypeError

  /** `v.key === Str(s)`, where a throwing access is reported separately by `Field`. */
  predicate FieldIs(v: Value, key: string, s: string)
  {
    Field(v, key) == Got(Str(s))
  }

  /**
   * The serialized form of a value (v8.serialize). The byte encoding is not
   * modelled: a serialized value keeps the value it encodes.
   */
  datatype Bytes = Serialized(decoded: Value)

  function Serialize(v: Value): Bytes
  {
    Serialized(v)
  }

  function Deserialize(b: Bytes): Value
  {
    b.decoded
  }

  /** A sequence of integers that only goes up. */
  ghost predicate StrictlyIncreasing(s: seq<int>)
  {
    forall i, j :: 0 <= i < j < |s| ==> s[i] < s[j]
  }

  /** The elements of `s` that satisfy `p`, in their original order. */
  function Filter<T>(p: T -> bool, s: seq<T>): (r: seq<T>)
    ensures |r| <= |s|
    ensures forall x :: x in r ==> x in s && p(x)
  {
    if s == [] then []
    else if p(s[0]) then [s[0]] + Filter(p, s[1..])
    else Filter(p, s[1..])
  }

  /** Nothing that satisfies `p` is dropped. */
  lemma {:induction false} FilterKeeps<T>(p: T -> bool, s: seq<T>, x: T)
    requires x in s && p(x)
    ensures x in Filter(p, s)
  {
    if s[0] != x {
      FilterKeeps(p, s[1..], x);
    }
  }

  /** Filtering one more element appends it exactly when it satisfies `p`. */
  lemma {:induction false} FilterSnoc<T>(p: T -> bool, s: seq<T>, x: T)
    ensures Filter(p, s + [x]) == Filter(p, s) + (if p(x) then [x] else [])
  {
    if s == [] {
      assert s + [x] == [x];
    } else {
      assert (s + [x])[1..] == s[1..] + [x];
      FilterSnoc(p, s[1..], x);
    }
  }

  /** Filtering a prefix of `s` gives a prefix of the filtered `s`. */
  lemma {:induction false} FilterPrefix<T>(p: T -> bool, s: seq<T>, n: nat)
    requires n <= |s|
    ensures Filter(p, s[..n]) <= Filter(p, s)
    decreases |s| - n
  {
    if n == |s| {
      assert s[..n] == s;
    } else {
      assert s[..n + 1] == s[..n] + [s[n]];
      FilterSnoc(p, s[..n], s[n]);
      FilterPrefix(p, s, n + 1);
    }
  }

  /** `msgs` are the cached objects of the first `|msgs|` events of `matching`. */
  ghost predicate Delivered<E, M>(msgs: seq<M>, matching: seq<E>, cache: map<E, M>)
  {
    && |msgs| <= |matching|
    && forall k :: 0 <= k < |msgs| ==> matching[k] in cache && msgs[k] == cache[matching[k]]
  }

  /** `grown` keeps every entry of `cache`. */
  ghost predicate Grown<K, V>(cache: map<K, V>, grown: map<K, V>)
  {
    forall e :: e in cache ==> e in grown && grown[e] == cache[e]
  }

  lemma DeliveredPrefix<E, M>(msgs: seq<M>, matching: seq<E>, longer: seq<E>, cache: map<E, M>)
    requires Delivered(msgs, matching, cache) && matching <= longer
    ensures Delivered(msgs, longer, cache)
  {
    assert forall k :: 0 <= k < |msgs| ==> longer[k] == matching[k];
  }

  /** One more delivered object, under a cache that only grew. */
  lemma DeliveredSnoc<E, M>(msgs: seq<M>, matching: seq<E>, cache: map<E, M>, grown: map<E, M>, evt: E, message: M)
    requires Delivered(msgs, matching, cache) && |msgs| == |matching|
    requires Grown(cache, grown)
    requires evt in grown && grown[evt] == message
    ensures Delivered(msgs + [message], matching + [evt], grown)
  {
  }
}
