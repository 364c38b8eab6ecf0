/**
 * The JSON data model shared by both sides of the system: the documents the
 * app decodes, the bodies the server reads with `request.get_json()`, and the
 * dictionaries it returns through `jsonify`.
 *
 * Objects keep their members in order (a Python dict keeps insertion order);
 * looking a key up finds its LAST occurrence, which is what building a
 * dictionary member by member gives.
 *
 * Below the values sits a token-level syntax: a recursive-descent parser over
 * already-lexed tokens, a serializer, and the proof that parsing a serialized
 * value gives the value back.
 */
module Json {
  import opened Wrappers

  datatype Value =
    | Null
    | Bool(b: bool)
    | Int(i: int)
    | Float(r: real)
    | Str(s: string)
    | Array(items: seq<Value>)
    | Object(members: seq<Member>)

  datatype Member = Member(key: string, value: Value)

  /** The keys of an object's members, in order. */
  function Keys(ms: seq<Member>): (ks: seq<string>)
    ensures |ks| == |ms| && forall i :: 0 <= i < |ms| ==> ks[i] == ms[i].key
  {
    seq(|ms|, i requires 0 <= i < |ms| => ms[i].key)
  }

  lemma KeysAppend(ms: seq<Member>, m: Member)
    ensures Keys(ms + [m]) == Keys(ms) + [m.key]
  {
  }

  /** The value under `key`: its last occurrence, or nothing when the key is absent. */
  function Get(ms: seq<Member>, key: string): (r: Option<Value>)
    ensures r.Some? <==> key in Keys(ms)
    ensures r.Some? ==> exists i :: 0 <= i < |ms| && ms[i] == Member(key, r.value)
  {
    if ms == [] then None
    else if ms[|ms| - 1].key == key then Some(ms[|ms| - 1].value)
    else
      var r := Get(ms[..|ms| - 1], key);
      assert Keys(ms) == Keys(ms[..|ms| - 1]) + [ms[|ms| - 1].key];
      r
  }

  /** Python's `d.get(key)`: the value, or `None` (JSON null) when the key is absent. */
  function GetOrNull(ms: seq<Member>, key: string): Value
  {
    match Get(ms, key)
    case Some(v) => v
    case None => Null
  }

  /** A Python dict: no key occurs twice. */
  predicate DistinctKeys(ms: seq<Member>)
  {
    forall i, j :: 0 <= i < j < |ms| ==> ms[i].key != ms[j].key
  }

  /** With distinct keys, the member at position `i` is what a lookup of its key finds. */
  lemma {:induction false} GetDistinct(ms: seq<Member>, i: nat)
    requires DistinctKeys(ms) && i < |ms|
    ensures Get(ms, ms[i].key) == Some(ms[i].value)
  {
    if i < |ms| - 1 {
      GetDistinct(ms[..|ms| - 1], i);
    }
  }

  /** Members appended after `a` shadow `a`'s members of the same key; `a` answers the others. */
  lemma {:induction false} GetConcat(a: seq<Member>, b: seq<Member>, key: string)
    ensures Get(a + b, key) == if key in Keys(b) then Get(b, key) else Get(a, key)
    decreases |b|
  {
    if b != [] {
      var front, m := b[..|b| - 1], b[|b| - 1];
      assert (a + b)[..|a + b| - 1] == a + front;
      assert Keys(b) == Keys(front) + [m.key];
      GetConcat(a, front, key);
    } else {
      assert a + b == a;
    }
  }

  // ---------------------------------------------------------------------
  // Token-level syntax

  datatype Token =
    | LBrace | RBrace | LBracket | RBracket | Colon | Comma
    | TNull | TTrue | TFalse
    | TInt(i: int) | TFloat(r: real) | TStr(s: string)

  datatype SyntaxError = UnexpectedEnd | UnexpectedToken(found: Token) | TrailingTokens

  type Parsed = Result<(Value, seq<Token>), SyntaxError>

  /** One value from the front of `ts`, and the tokens after it. */
  function ParseValue(ts: seq<Token>): (r: Parsed)
    ensures r.Ok? ==> |r.value.1| < |ts|
    decreases |ts|, 0
  {
    if ts == [] then Err(UnexpectedEnd)
    else match ts[0]
      case TNull => Ok((Null, ts[1..]))
      case TTrue => Ok((Bool(true), ts[1..]))
      case TFalse => Ok((Bool(false), ts[1..]))
      case TInt(i) => Ok((Int(i), ts[1..]))
      case TFloat(x) => Ok((Float(x), ts[1..]))
      case TStr(s) => Ok((Str(s), ts[1..]))
      case LBrace =>
        if |ts| > 1 && ts[1] == RBrace then Ok((Object([]), ts[2..])) else ParseMembers(ts[1..], [])
      case LBracket =>
        if |ts| > 1 && ts[1] == RBracket then Ok((Array([]), ts[2..])) else ParseItems(ts[1..], [])
      case _ => Err(UnexpectedToken(ts[0]))
  }

  /** Inside an object, after `{` or `,`: `"key" : value` then `,` or `}`. */
  function ParseMembers(ts: seq<Token>, acc: seq<Member>): (r: Parsed)
    ensures r.Ok? ==> |r.value.1| < |ts|
    decreases |ts|, 1
  {
    if ts == [] then Err(UnexpectedEnd)
    else if !ts[0].TStr? then Err(UnexpectedToken(ts[0]))
    else if |ts| < 2 then Err(UnexpectedEnd)
    else if ts[1] != Colon then Err(UnexpectedToken(ts[1]))
    else match ParseValue(ts[2..])
      case Err(e) => Err(e)
      case Ok((v, rest)) =>
        var acc' := acc + [Member(ts[0].s, v)];
        if rest == [] then Err(UnexpectedEnd)
        else if rest[0] == Comma then ParseMembers(rest[1..], acc')
        else if rest[0] == RBrace then Ok((Object(acc'), rest[1..]))
        else Err(UnexpectedToken(rest[0]))
  }

  /** Inside an array, after `[` or `,`: a value then `,` or `]`. */
  function ParseItems(ts: seq<Token>, acc: seq<Value>): (r: Parsed)
    ensures r.Ok? ==> |r.value.1| < |ts|
    decreases |ts|, 1
  {
    match ParseValue(ts)
    case Err(e) => Err(e)
    case Ok((v, rest)) =>
      if rest == [] then Err(UnexpectedEnd)
      else if rest[0] == Comma then ParseItems(rest[1..], acc + [v])
      else if rest[0] == RBracket then Ok((Array(acc + [v]), rest[1..]))
      else Err(UnexpectedToken(rest[0]))
  }

  /** A whole document: one value and nothing after it. */
  function ParseDocument(ts: seq<Token>): Result<Value, SyntaxError>
  {
    match ParseValue(ts)
    case Err(e) => Err(e)
    case Ok((v, rest)) => if rest == [] then Ok(v) else Err(TrailingTokens)
  }

  predicate Opens(t: Token)
  {
    !(t.RBrace? || t.RBracket? || t.Colon? || t.Comma?)
  }

  /** The tokens of a value. */
  function Serialize(v: Value): (ts: seq<Token>)
    ensures ts != [] && Opens(ts[0])
  {
    match v
    case Null => [TNull]
    case Bool(b) => if b then [TTrue] else [TFalse]
    case Int(i) => [TInt(i)]
    case Float(x) => [TFloat(x)]
    case Str(s) => [TStr(s)]
    case Array(items) => [LBracket] + SerializeItems(items) + [RBracket]
    case Object(ms) => [LBrace] + SerializeMembers(ms) + [RBrace]
  }

  function SerializeItems(items: seq<Value>): (ts: seq<Token>)
    ensures items != [] ==> ts != [] && Opens(ts[0])
  {
    if items == [] then []
    else Serialize(items[0]) + (if |items| == 1 then [] else [Comma] + SerializeItems(items[1..]))
  }

  function SerializeMembers(ms: seq<Member>): (ts: seq<Token>)
    ensures ms != [] ==> ts != [] && ts[0].TStr?
  {
    if ms == [] then []
    else [TStr(ms[0].key), Colon] + Serialize(ms[0].value)
         + (if |ms| == 1 then [] else [Comma] + SerializeMembers(ms[1..]))
  }

  /** Parsing the tokens of a value gives the value back, whatever follows it. */
  lemma {:induction false} ParseSerialized(v: Value, rest: seq<Token>)
    ensures ParseValue(Serialize(v) + rest) == Ok((v, rest))
    decreases v
  {
    match v
    case Array(items) =>
      if items == [] {
        EmptyBrackets(LBracket, RBracket, v, rest);
      } else {
        ParseSerializedItems(items, [], rest);
        ArrayOpens(items, rest);
      }
    case Object(ms) =>
      if ms == [] {
        EmptyBrackets(LBrace, RBrace, v, rest);
      } else {
        ParseSerializedMembers(ms, [], rest);
        ObjectOpens(ms, rest);
      }
    case _ =>
      ScalarParses(v, rest);
  }

  lemma ScalarParses(v: Value, rest: seq<Token>)
    requires !v.Array? && !v.Object?
    ensures ParseValue(Serialize(v) + rest) == Ok((v, rest))
  {
    assert (Serialize(v) + rest)[1..] == rest;
  }

  /** `[]` and `{}`. */
  lemma EmptyBrackets(open: Token, close: Token, v: Value, rest: seq<Token>)
    requires (open, close, v) == (LBracket, RBracket, Array([])) || (open, close, v) == (LBrace, RBrace, Object([]))
    ensures ParseValue(Serialize(v) + rest) == Ok((v, rest))
  {
    var ts := Serialize(v) + rest;
    assert Serialize(v) == [open] + [] + [close];
    assert ts == [open, close] + rest;
    assert ts[2..] == rest;
  }

  /** `[` followed by the items of a non-empty array. */
  lemma ArrayOpens(items: seq<Value>, rest: seq<Token>)
    requires items != []
    requires ParseItems(SerializeItems(items) + [RBracket] + rest, []) == Ok((Array([] + items), rest))
    ensures ParseValue(Serialize(Array(items)) + rest) == Ok((Array(items), rest))
  {
    var body := SerializeItems(items) + [RBracket];
    var ts := Serialize(Array(items)) + rest;
    assert ts == [LBracket] + (body + rest);
    assert ts[1..] == body + rest;
    assert [] + items == items;
  }

  /** `{` followed by the members of a non-empty object. */
  lemma ObjectOpens(ms: seq<Member>, rest: seq<Token>)
    requires ms != []
    requires ParseMembers(SerializeMembers(ms) + [RBrace] + rest, []) == Ok((Object([] + ms), rest))
    ensures ParseValue(Serialize(Object(ms)) + rest) == Ok((Object(ms), rest))
  {
    var body := SerializeMembers(ms) + [RBrace];
    var ts := Serialize(Object(ms)) + rest;
    assert ts == [LBrace] + (body + rest);
    assert ts[1..] == body + rest;
    assert [] + ms == ms;
  }

  lemma {:induction false} ParseSerializedItems(items: seq<Value>, acc: seq<Value>, rest: seq<Token>)
    requires items != []
    ensures ParseItems(SerializeItems(items) + [RBracket] + rest, acc) == Ok((Array(acc + items), rest))
    decreases items
  {
    if |items| == 1 {
      ParseSerialized(items[0], [RBracket] + rest);
      ItemsOne(items, acc, rest);
    } else {
      ParseSerialized(items[0], [Comma] + (SerializeItems(items[1..]) + [RBracket] + rest));
      ParseSerializedItems(items[1..], acc + [items[0]], rest);
      ItemsCons(items, acc, rest);
    }
  }

  /** A one-item array body. */
  lemma ItemsOne(items: seq<Value>, acc: seq<Value>, rest: seq<Token>)
    requires |items| == 1
    requires ParseValue(Serialize(items[0]) + ([RBracket] + rest)) == Ok((items[0], [RBracket] + rest))
    ensures ParseItems(SerializeItems(items) + [RBracket] + rest, acc) == Ok((Array(acc + items), rest))
  {
    SerializeItemsSplit(items, rest);
    ItemsLast(Serialize(items[0]), items[0], rest, acc);
    assert items == [items[0]];
  }

  /** The first item of a longer array body, then the others. */
  lemma ItemsCons(items: seq<Value>, acc: seq<Value>, rest: seq<Token>)
    requires |items| > 1
    requires var after := SerializeItems(items[1..]) + [RBracket] + rest;
      ParseValue(Serialize(items[0]) + ([Comma] + after)) == Ok((items[0], [Comma] + after))
    requires ParseItems(SerializeItems(items[1..]) + [RBracket] + rest, acc + [items[0]])
      == Ok((Array(acc + [items[0]] + items[1..]), rest))
    ensures ParseItems(SerializeItems(items) + [RBracket] + rest, acc) == Ok((Array(acc + items), rest))
  {
    var after := SerializeItems(items[1..]) + [RBracket] + rest;
    SerializeItemsSplit(items, rest);
    ItemsMore(Serialize(items[0]), items[0], after, acc);
    assert acc + [items[0]] + items[1..] == acc + items;
  }

  /** The last value of an array, then `]`. */
  lemma ItemsLast(vs: seq<Token>, v: Value, rest: seq<Token>, acc: seq<Value>)
    requires ParseValue(vs + ([RBracket] + rest)) == Ok((v, [RBracket] + rest))
    ensures ParseItems(vs + ([RBracket] + rest), acc) == Ok((Array(acc + [v]), rest))
  {
    assert ([RBracket] + rest)[1..] == rest;
  }

  /** A value of an array, then `,` and the rest of the array. */
  lemma ItemsMore(vs: seq<Token>, v: Value, after: seq<Token>, acc: seq<Value>)
    requires ParseValue(vs + ([Comma] + after)) == Ok((v, [Comma] + after))
    ensures ParseItems(vs + ([Comma] + after), acc) == ParseItems(after, acc + [v])
  {
    assert ([Comma] + after)[1..] == after;
  }

  lemma {:induction false} ParseSerializedMembers(ms: seq<Member>, acc: seq<Member>, rest: seq<Token>)
    requires ms != []
    ensures ParseMembers(SerializeMembers(ms) + [RBrace] + rest, acc) == Ok((Object(acc + ms), rest))
    decreases ms
  {
    if |ms| == 1 {
      ParseSerialized(ms[0].value, [RBrace] + rest);
      MembersOne(ms, acc, rest);
    } else {
      ParseSerialized(ms[0].value, [Comma] + (SerializeMembers(ms[1..]) + [RBrace] + rest));
      ParseSerializedMembers(ms[1..], acc + [ms[0]], rest);
      MembersCons(ms, acc, rest);
    }
  }

  /** A one-member object body. */
  lemma MembersOne(ms: seq<Member>, acc: seq<Member>, rest: seq<Token>)
    requires |ms| == 1
    requires ParseValue(Serialize(ms[0].value) + ([RBrace] + rest)) == Ok((ms[0].value, [RBrace] + rest))
    ensures ParseMembers(SerializeMembers(ms) + [RBrace] + rest, acc) == Ok((Object(acc + ms), rest))
  {
    var m := ms[0];
    SerializeMembersSplit(ms, rest);
    MembersLast(m.key, Serialize(m.value), m.value, rest, acc);
    assert ms == [m];
  }

  /** The first member of a longer object body, then the others. */
  lemma MembersCons(ms: seq<Member>, acc: seq<Member>, rest: seq<Token>)
    requires |ms| > 1
    requires var after := SerializeMembers(ms[1..]) + [RBrace] + rest;
      ParseValue(Serialize(ms[0].value) + ([Comma] + after)) == Ok((ms[0].value, [Comma] + after))
    requires ParseMembers(SerializeMembers(ms[1..]) + [RBrace] + rest, acc + [ms[0]])
      == Ok((Object(acc + [ms[0]] + ms[1..]), rest))
    ensures ParseMembers(SerializeMembers(ms) + [RBrace] + rest, acc) == Ok((Object(acc + ms), rest))
  {
    var m := ms[0];
    var after := SerializeMembers(ms[1..]) + [RBrace] + rest;
    SerializeMembersSplit(ms, rest);
    MembersMore(m.key, Serialize(m.value), m.value, after, acc);
    assert acc + [m] + ms[1..] == acc + ms;
  }

  /** The last `"key" : value` of an object, then `}`. */
  lemma MembersLast(k: string, vs: seq<Token>, v: Value, rest: seq<Token>, acc: seq<Member>)
    requires ParseValue(vs + ([RBrace] + rest)) == Ok((v, [RBrace] + rest))
    ensures ParseMembers([TStr(k), Colon] + (vs + ([RBrace] + rest)), acc) == Ok((Object(acc + [Member(k, v)]), rest))
  {
    assert ([TStr(k), Colon] + (vs + ([RBrace] + rest)))[2..] == vs + ([RBrace] + rest);
    assert ([RBrace] + rest)[1..] == rest;
  }

  /** A `"key" : value` of an object, then `,` and the rest of the object. */
  lemma MembersMore(k: string, vs: seq<Token>, v: Value, after: seq<Token>, acc: seq<Member>)
    requires ParseValue(vs + ([Comma] + after)) == Ok((v, [Comma] + after))
    ensures ParseMembers([TStr(k), Colon] + (vs + ([Comma] + after)), acc) == ParseMembers(after, acc + [Member(k, v)])
  {
    assert ([TStr(k), Colon] + (vs + ([Comma] + after)))[2..] == vs + ([Comma] + after);
    assert ([Comma] + after)[1..] == after;
  }

  lemma SerializeItemsSplit(items: seq<Value>, rest: seq<Token>)
    requires items != []
    ensures |items| == 1 ==>
      SerializeItems(items) + [RBracket] + rest == Serialize(items[0]) + ([RBracket] + rest)
    ensures |items| > 1 ==>
      SerializeItems(items) + [RBracket] + rest
        == Serialize(items[0]) + ([Comma] + (SerializeItems(items[1..]) + [RBracket] + rest))
  {
    var b, e := Serialize(items[0]), [RBracket];
    if |items| == 1 {
      assert SerializeItems(items) == b + [];
      assert b + [] == b;
      SeqAssoc(b, e, rest);
    } else {
      var c, d := [Comma], SerializeItems(items[1..]);
      assert SerializeItems(items) == b + (c + d);
      calc {
        SerializeItems(items) + e + rest;
        (b + (c + d)) + e + rest;
        { SeqAssoc(b + (c + d), e, rest); }
        (b + (c + d)) + (e + rest);
        { SeqAssoc(b, c + d, e + rest); }
        b + ((c + d) + (e + rest));
        { SeqAssoc(c, d, e + rest); SeqAssoc(d, e, rest); }
        b + (c + ((d + e) + rest));
      }
    }
  }

  lemma SerializeMembersSplit(ms: seq<Member>, rest: seq<Token>)
    requires ms != []
    ensures |ms| == 1 ==>
      SerializeMembers(ms) + [RBrace] + rest == [TStr(ms[0].key), Colon] + (Serialize(ms[0].value) + ([RBrace] + rest))
    ensures |ms| > 1 ==>
      SerializeMembers(ms) + [RBrace] + rest
        == [TStr(ms[0].key), Colon] + (Serialize(ms[0].value) + ([Comma] + (SerializeMembers(ms[1..]) + [RBrace] + rest)))
  {
    var a, b, e := [TStr(ms[0].key), Colon], Serialize(ms[0].value), [RBrace];
    if |ms| == 1 {
      assert SerializeMembers(ms) == a + b + [];
      assert a + b + [] == a + b;
      SeqAssoc(a + b, e, rest);
      SeqAssoc(a, b, e + rest);
    } else {
      var c, d := [Comma], SerializeMembers(ms[1..]);
      assert SerializeMembers(ms) == a + b + (c + d);
      calc {
        SerializeMembers(ms) + e + rest;
        (a + b + (c + d)) + e + rest;
        { SeqAssoc(a + b + (c + d), e, rest); }
        (a + b + (c + d)) + (e + rest);
        { SeqAssoc(a + b, c + d, e + rest); }
        (a + b) + ((c + d) + (e + rest));
        { SeqAssoc(a, b, (c + d) + (e + rest)); }
        a + (b + ((c + d) + (e + rest)));
        { SeqAssoc(c, d, e + rest); SeqAssoc(d, e, rest); }
        a + (b + (c + ((d + e) + rest)));
      }
    }
  }

  lemma SeqAssoc<T>(a: seq<T>, b: seq<T>, c: seq<T>)
    ensures a + b + c == a + (b + c)
  {
  }

  /** Every serialized value is a well-formed document that parses back to itself. */
  lemma DocumentRoundTrip(v: Value)
    ensures ParseDocument(Serialize(v)) == Ok(v)
  {
    ParseSerialized(v, []);
    assert Serialize(v) + [] == Serialize(v);
  }
}
