/**
 * What Foundation's `JSONDecoder` does with one JSON value when a
 * `Decodable` initializer asks for a field of a given type: the typed
 * decoders, keyed `decode` and `decodeIfPresent`, arrays and string-keyed
 * dictionaries. Swift's `Int` is 64 bits wide.
 */
module SwiftJson {
  import opened Wrappers
  import opened Json

  /** The kinds of `DecodingError`. */
  datatype DecodeError = KeyNotFound(key: string) | ValueNotFound | TypeMismatch | DataCorrupted

  type Decoder<T> = Value -> Result<T, DecodeError>

  const Int64Min: int := -0x8000_0000_0000_0000
  const Int64Max: int := 0x7FFF_FFFF_FFFF_FFFF

  predicate InInt64(i: int) { Int64Min <= i <= Int64Max }

  /** A JSON number that is a whole number within the range of `Int`. */
  predicate IsSwiftInt(v: Value)
  {
    (v.Int? && InInt64(v.i)) || (v.Float? && v.r.Floor as real == v.r && InInt64(v.r.Floor))
  }

  predicate IsNumber(v: Value) { v.Int? || v.Float? }

  /** `decode(Int.self)`: a whole number that fits in 64 bits. */
  function DecodeInt(v: Value): (r: Result<int, DecodeError>)
    ensures r.Ok? <==> IsSwiftInt(v)
    ensures r.Ok? ==> InInt64(r.value) && (v.Int? ==> r.value == v.i) && (v.Float? ==> r.value as real == v.r)
    ensures v.Null? ==> r == Err(ValueNotFound)
  {
    match v
    case Null => Err(ValueNotFound)
    case Int(i) => if InInt64(i) then Ok(i) else Err(DataCorrupted)
    case Float(x) => if x.Floor as real == x && InInt64(x.Floor) then Ok(x.Floor) else Err(DataCorrupted)
    case _ => Err(TypeMismatch)
  }

  /** `decode(Double.self)`: any JSON number. */
  function DecodeDouble(v: Value): (r: Result<real, DecodeError>)
    ensures r.Ok? <==> IsNumber(v)
    ensures v.Int? ==> r == Ok(v.i as real)
    ensures v.Float? ==> r == Ok(v.r)
    ensures v.Null? ==> r == Err(ValueNotFound)
  {
    match v
    case Null => Err(ValueNotFound)
    case Int(i) => Ok(i as real)
    case Float(x) => Ok(x)
    case _ => Err(TypeMismatch)
  }

  /** `decode(String.self)`: a JSON string only; numbers are not converted. */
  function DecodeString(v: Value): (r: Result<string, DecodeError>)
    ensures r.Ok? <==> v.Str?
    ensures r.Ok? ==> r.value == v.s
    ensures v.Null? ==> r == Err(ValueNotFound)
  {
    match v
    case Null => Err(ValueNotFound)
    case Str(s) => Ok(s)
    case _ => Err(TypeMismatch)
  }

  /** `container.decode(T.self, forKey: key)`. */
  function DecodeKey<T>(ms: seq<Member>, key: string, decode: Decoder<T>): (r: Result<T, DecodeError>)
    ensures key !in Keys(ms) ==> r == Err(KeyNotFound(key))
    ensures key in Keys(ms) ==> r == decode(GetOrNull(ms, key))
    ensures r.Ok? ==> r == decode(GetOrNull(ms, key))
  {
    match Get(ms, key)
    case None => Err(KeyNotFound(key))
    case Some(v) => decode(v)
  }

  /** `container.decodeIfPresent(T.self, forKey: key)`: a missing key and a null both give nil. */
  function DecodeKeyIfPresent<T>(ms: seq<Member>, key: string, decode: Decoder<T>): (r: Result<Option<T>, DecodeError>)
    ensures GetOrNull(ms, key).Null? ==> r == Ok(None)
    ensures !GetOrNull(ms, key).Null? ==> (r.Ok? <==> decode(GetOrNull(ms, key)).Ok?)
    ensures r.Ok? && r.value.Some? ==> decode(GetOrNull(ms, key)) == Ok(r.value.value)
  {
    match Get(ms, key)
    case None => Ok(None)
    case Some(v) =>
      if v.Null? then Ok(None)
      else match decode(v)
        case Ok(x) => Ok(Some(x))
        case Err(e) => Err(e)
  }

  /** `[T]`: every element in order; the first failure ends decoding. */
  function DecodeArray<T>(v: Value, decode: Decoder<T>): (r: Result<seq<T>, DecodeError>)
    ensures !v.Array? ==> r.Err?
    ensures r.Ok? ==> |r.value| == |v.items| && forall i :: 0 <= i < |v.items| ==> decode(v.items[i]) == Ok(r.value[i])
    ensures v.Array? && (forall i :: 0 <= i < |v.items| ==> decode(v.items[i]).Ok?) ==> r.Ok?
  {
    match v
    case Array(items) => DecodeItems(items, decode)
    case Null => Err(ValueNotFound)
    case _ => Err(TypeMismatch)
  }

  function DecodeItems<T>(items: seq<Value>, decode: Decoder<T>): (r: Result<seq<T>, DecodeError>)
    ensures r.Ok? ==> |r.value| == |items| && forall i :: 0 <= i < |items| ==> decode(items[i]) == Ok(r.value[i])
    ensures (forall i :: 0 <= i < |items| ==> decode(items[i]).Ok?) ==> r.Ok?
  {
    if items == [] then Ok([])
    else
      var x :- decode(items[0]);
      var rest :- DecodeItems(items[1..], decode);
      assert forall i :: 1 <= i < |items| ==> items[i] == items[1..][i - 1];
      Ok([x] + rest)
  }

  /** Two decodable elements decode to their values, in order. */
  lemma DecodeArrayTwo<T>(a: Value, b: Value, decode: Decoder<T>)
    requires decode(a).Ok? && decode(b).Ok?
    ensures DecodeArray(Array([a, b]), decode) == Ok([decode(a).value, decode(b).value])
  {
    var x, y := decode(a).value, decode(b).value;
    assert DecodeItems([b], decode) == Ok([y]) by {
      assert [b][1..] == [];
      assert DecodeItems([], decode) == Ok([]);
      assert [y] + [] == [y];
    }
    assert [a, b][1..] == [b];
    assert [x] + [y] == [x, y];
  }

  /** `[String: T]`: every member's value; a repeated key keeps its last value. */
  function DecodeMembers<T>(ms: seq<Member>, decode: Decoder<T>): (r: Result<map<string, T>, DecodeError>)
    ensures r.Ok? ==> r.value.Keys == set k | k in Keys(ms)
    ensures r.Ok? ==> forall k :: k in r.value ==> Get(ms, k).Some? && decode(Get(ms, k).value) == Ok(r.value[k])
    ensures (forall i :: 0 <= i < |ms| ==> decode(ms[i].value).Ok?) <==> r.Ok?
    decreases |ms|
  {
    if ms == [] then Ok(map[])
    else
      var front, m := ms[..|ms| - 1], ms[|ms| - 1];
      assert Keys(ms) == Keys(front) + [m.key];
      assert forall i :: 0 <= i < |front| ==> ms[i] == front[i];
      var d :- DecodeMembers(front, decode);
      var x :- decode(m.value);
      Ok(d[m.key := x])
  }

  /** `[String: T]` of a value. */
  function DecodeDictionary<T>(v: Value, decode: Decoder<T>): (r: Result<map<string, T>, DecodeError>)
    ensures r.Ok? <==> v.Object? && forall i :: 0 <= i < |v.members| ==> decode(v.members[i].value).Ok?
    ensures r.Ok? ==> r.value.Keys == set k | k in Keys(v.members)
    ensures r.Ok? ==> forall k :: k in r.value ==> decode(GetOrNull(v.members, k)) == Ok(r.value[k])
  {
    match v
    case Object(ms) => DecodeMembers(ms, decode)
    case Null => Err(ValueNotFound)
    case _ => Err(TypeMismatch)
  }

  /** With distinct keys, the dictionary holds each member's decoded value. */
  lemma {:induction false} DecodeMembersAt<T>(ms: seq<Member>, decode: Decoder<T>, i: nat)
    requires DistinctKeys(ms) && i < |ms|
    requires DecodeMembers(ms, decode).Ok?
    ensures decode(ms[i].value).Ok?
    ensures ms[i].key in DecodeMembers(ms, decode).value
    ensures DecodeMembers(ms, decode).value[ms[i].key] == decode(ms[i].value).value
    decreases |ms|
  {
    if i < |ms| - 1 {
      var front := ms[..|ms| - 1];
      assert front[i] == ms[i];
      DecodeMembersAt(front, decode, i);
    }
  }

  /** The dictionary holds, under each key, the decoded value a lookup of that key finds. */
  lemma {:induction false} DecodeMembersGet<T>(ms: seq<Member>, decode: Decoder<T>, key: string)
    requires DecodeMembers(ms, decode).Ok? && key in Keys(ms)
    ensures key in DecodeMembers(ms, decode).value
    ensures decode(Get(ms, key).value).Ok?
    ensures DecodeMembers(ms, decode).value[key] == decode(Get(ms, key).value).value
    decreases |ms|
  {
    var front, m := ms[..|ms| - 1], ms[|ms| - 1];
    assert Keys(ms) == Keys(front) + [m.key];
    if m.key != key {
      DecodeMembersGet(front, decode, key);
    }
  }
}
