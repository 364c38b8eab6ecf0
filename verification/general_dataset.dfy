/**
 * The app's planet record and its tolerant decoder: the identifier may come
 * as a number or as text, the display name falls back to the Kepler name and
 * then to the KOI name, and every other field is required.
 */
module GeneralDataset {
  import opened Wrappers
  import opened Text
  import opened Json
  import opened SwiftJson

  datatype GeneralDataset = GeneralDataset(
    id: string,
    keplerName: Option<string>,
    kepoiName: string,
    name: string,
    koiSteff: real,
    koiDisposition: string,
    koiDuration: real,
    koiSrad: real,
    koiSlogg: real,
    koiModelSnr: real,
    koiDepth: real,
    koiPeriod: real)

  /** The record's coding keys. */
  datatype CodingKey =
    | Id | KeplerName | KepoiName | Name | KoiSteff | KoiDisposition
    | KoiDuration | KoiSrad | KoiSlogg | KoiModelSnr | KoiDepth | KoiPeriod

  /** The JSON name of each coding key. */
  function StringValue(k: CodingKey): string
  {
    match k
    case Id => "kepid"
    case KeplerName => "kepler_name"
    case KepoiName => "kepoi_name"
    case Name => "name"
    case KoiSteff => "koi_steff"
    case KoiDisposition => "koi_disposition"
    case KoiDuration => "koi_duration"
    case KoiSrad => "koi_srad"
    case KoiSlogg => "koi_slogg"
    case KoiModelSnr => "koi_model_snr"
    case KoiDepth => "koi_depth"
    case KoiPeriod => "koi_period"
  }

  /** No two fields share a JSON name. */
  lemma StringValueInjective(a: CodingKey, b: CodingKey)
    ensures StringValue(a) == StringValue(b) ==> a == b
  {
  }

  /** The JSON names of the fields that must be present, numbers and the disposition. */
  const RequiredNumbers: seq<string> :=
    ["koi_steff", "koi_duration", "koi_srad", "koi_slogg", "koi_model_snr", "koi_depth", "koi_period"]

  /** `kepid` as an `Int` written in decimal, else as a `String`. */
  function DecodeId(ms: seq<Member>): (r: Result<string, DecodeError>)
    ensures IsSwiftInt(GetOrNull(ms, "kepid")) ==> r.Ok?
    ensures GetOrNull(ms, "kepid").Str? ==> r == Ok(GetOrNull(ms, "kepid").s)
    ensures r.Ok? <==> IsSwiftInt(GetOrNull(ms, "kepid")) || GetOrNull(ms, "kepid").Str?
  {
    match DecodeKey(ms, "kepid", DecodeInt)
    case Ok(i) => Ok(Decimal(i))
    case Err(_) => DecodeKey(ms, "kepid", DecodeString)
  }

  /** An integer `kepid` is the identifier, written in decimal. */
  lemma DecodeIdOfInt(ms: seq<Member>)
    requires GetOrNull(ms, "kepid").Int? && InInt64(GetOrNull(ms, "kepid").i)
    ensures DecodeId(ms) == Ok(Decimal(GetOrNull(ms, "kepid").i))
  {
    assert "kepid" in Keys(ms);
  }

  /** An optional text field: missing, null, or a string. */
  predicate OptionalText(v: Value) { v.Null? || v.Str? }

  /** The text of an optional text field. */
  function OptionalTextValue(v: Value): Option<string>
  {
    if v.Str? then Some(v.s) else None
  }

  /** The identifying fields hold the right types. */
  predicate IdentityDecodable(ms: seq<Member>)
  {
    && (IsSwiftInt(GetOrNull(ms, "kepid")) || GetOrNull(ms, "kepid").Str?)
    && OptionalText(GetOrNull(ms, "kepler_name"))
    && GetOrNull(ms, "kepoi_name").Str?
    && OptionalText(GetOrNull(ms, "name"))
  }

  /** The measured fields are present and hold the right types. */
  predicate MeasurementsDecodable(ms: seq<Member>)
  {
    && IsNumber(GetOrNull(ms, "koi_steff"))
    && GetOrNull(ms, "koi_disposition").Str?
    && IsNumber(GetOrNull(ms, "koi_duration"))
    && IsNumber(GetOrNull(ms, "koi_srad"))
    && IsNumber(GetOrNull(ms, "koi_slogg"))
    && IsNumber(GetOrNull(ms, "koi_model_snr"))
    && IsNumber(GetOrNull(ms, "koi_depth"))
    && IsNumber(GetOrNull(ms, "koi_period"))
  }

  /**
   * The first half of the custom `init(from:)`: identifier, Kepler name, KOI
   * name and the display name derived from them.
   */
  function DecodeIdentity(ms: seq<Member>): (r: Result<(string, Option<string>, string, string), DecodeError>)
    ensures r.Ok? <==> IdentityDecodable(ms)
    ensures r.Ok? ==>
      && DecodeId(ms) == Ok(r.value.0)
      && r.value.1 == OptionalTextValue(GetOrNull(ms, "kepler_name"))
      && r.value.2 == GetOrNull(ms, "kepoi_name").s
      && r.value.3 == OptionalTextValue(GetOrNull(ms, "name")).GetOr(r.value.1.GetOr(r.value.2))
  {
    var id :- DecodeId(ms);
    var keplerName :- DecodeKeyIfPresent(ms, "kepler_name", DecodeString);
    var kepoiName :- DecodeKey(ms, "kepoi_name", DecodeString);
    var providedName :- DecodeKeyIfPresent(ms, "name", DecodeString);
    Ok((id, keplerName, kepoiName, providedName.GetOr(keplerName.GetOr(kepoiName))))
  }

  /** The second half of the custom `init(from:)`: the required measurements. */
  function DecodeMeasurements(ms: seq<Member>): (r: Result<seq<real>, DecodeError>)
    ensures r.Ok? <==> MeasurementsDecodable(ms)
    ensures r.Ok? ==> |r.value| == 7
    ensures r.Ok? ==>
      && DecodeKey(ms, "koi_steff", DecodeDouble) == Ok(r.value[0])
      && DecodeKey(ms, "koi_duration", DecodeDouble) == Ok(r.value[1])
      && DecodeKey(ms, "koi_srad", DecodeDouble) == Ok(r.value[2])
      && DecodeKey(ms, "koi_slogg", DecodeDouble) == Ok(r.value[3])
      && DecodeKey(ms, "koi_model_snr", DecodeDouble) == Ok(r.value[4])
      && DecodeKey(ms, "koi_depth", DecodeDouble) == Ok(r.value[5])
      && DecodeKey(ms, "koi_period", DecodeDouble) == Ok(r.value[6])
  {
    var koiSteff :- DecodeKey(ms, "koi_steff", DecodeDouble);
    var koiDisposition :- DecodeKey(ms, "koi_disposition", DecodeString);
    var koiDuration :- DecodeKey(ms, "koi_duration", DecodeDouble);
    var koiSrad :- DecodeKey(ms, "koi_srad", DecodeDouble);
    var koiSlogg :- DecodeKey(ms, "koi_slogg", DecodeDouble);
    var koiModelSnr :- DecodeKey(ms, "koi_model_snr", DecodeDouble);
    var koiDepth :- DecodeKey(ms, "koi_depth", DecodeDouble);
    var koiPeriod :- DecodeKey(ms, "koi_period", DecodeDouble);
    Ok([koiSteff, koiDuration, koiSrad, koiSlogg, koiModelSnr, koiDepth, koiPeriod])
  }

  /** The custom `init(from:)`, field by field in its order. */
  function DecodeRecord(v: Value): (r: Result<GeneralDataset, DecodeError>)
    ensures r.Ok? <==> v.Object? && IdentityDecodable(v.members) && MeasurementsDecodable(v.members)
    ensures r.Ok? ==>
      && DecodeId(v.members) == Ok(r.value.id)
      && r.value.keplerName == OptionalTextValue(GetOrNull(v.members, "kepler_name"))
      && r.value.kepoiName == GetOrNull(v.members, "kepoi_name").s
      && r.value.name == OptionalTextValue(GetOrNull(v.members, "name")).GetOr(r.value.keplerName.GetOr(r.value.kepoiName))
      && r.value.koiDisposition == GetOrNull(v.members, "koi_disposition").s
    ensures r.Ok? ==>
      && DecodeKey(v.members, "koi_steff", DecodeDouble) == Ok(r.value.koiSteff)
      && DecodeKey(v.members, "koi_duration", DecodeDouble) == Ok(r.value.koiDuration)
      && DecodeKey(v.members, "koi_srad", DecodeDouble) == Ok(r.value.koiSrad)
      && DecodeKey(v.members, "koi_slogg", DecodeDouble) == Ok(r.value.koiSlogg)
      && DecodeKey(v.members, "koi_model_snr", DecodeDouble) == Ok(r.value.koiModelSnr)
      && DecodeKey(v.members, "koi_depth", DecodeDouble) == Ok(r.value.koiDepth)
      && DecodeKey(v.members, "koi_period", DecodeDouble) == Ok(r.value.koiPeriod)
  {
    if !v.Object? then Err(TypeMismatch)
    else
      var ms := v.members;
      var identity :- DecodeIdentity(ms);
      var m :- DecodeMeasurements(ms);
      Ok(GeneralDataset(identity.0, identity.1, identity.2, identity.3, m[0], GetOrNull(ms, "koi_disposition").s,
                        m[1], m[2], m[3], m[4], m[5], m[6]))
  }

  /** A missing measurement makes decoding fail. */
  lemma MissingMeasurementRejected(ms: seq<Member>, k: string)
    requires k in RequiredNumbers + ["koi_disposition", "kepoi_name"] && k !in Keys(ms)
    ensures DecodeRecord(Object(ms)).Err?
  {
    assert GetOrNull(ms, k) == Null;
  }

  /** A numeric `kepid` is stored as its decimal text. */
  lemma NumericIdIsDecimal(ms: seq<Member>, i: int)
    requires GetOrNull(ms, "kepid") == Int(i) && InInt64(i)
    requires DecodeRecord(Object(ms)).Ok?
    ensures DecodeRecord(Object(ms)).value.id == Decimal(i)
  {
  }

  /** `kepid` written as a number or as its decimal text gives the same record. */
  lemma IdEncodingsAgree(ms: seq<Member>, i: int)
    requires InInt64(i)
    ensures DecodeRecord(Object(ms + [Member("kepid", Int(i))])) == DecodeRecord(Object(ms + [Member("kepid", Str(Decimal(i)))]))
  {
    var a, b := ms + [Member("kepid", Int(i))], ms + [Member("kepid", Str(Decimal(i)))];
    forall c | c != Id
      ensures Get(a, StringValue(c)) == Get(b, StringValue(c))
    {
      StringValueInjective(c, Id);
      assert a[..|ms|] == ms && b[..|ms|] == ms;
    }
    assert DecodeId(a) == DecodeId(b);
    SameFieldsSameRecord(a, b);
  }

  /** `a` and `b` hold the same value under every coding key but `kepid`. */
  predicate AgreeOffId(a: seq<Member>, b: seq<Member>)
  {
    forall c :: c != Id ==> Get(a, StringValue(c)) == Get(b, StringValue(c))
  }

  /** Objects that agree on every coding key but `kepid`, and decode `kepid` alike, decode alike. */
  lemma SameFieldsSameRecord(a: seq<Member>, b: seq<Member>)
    requires AgreeOffId(a, b)
    requires DecodeId(a) == DecodeId(b)
    ensures DecodeRecord(Object(a)) == DecodeRecord(Object(b))
  {
    MeasuredKeysAgree(a, b);
    SameMeasurements(a, b);
    NamedKeysAgree(a, b);
    SameIdentity(a, b);
  }

  lemma KeyAgrees(a: seq<Member>, b: seq<Member>, c: CodingKey)
    requires AgreeOffId(a, b) && c != Id
    ensures Get(a, StringValue(c)) == Get(b, StringValue(c))
  {
  }

  lemma MeasuredKeysAgree(a: seq<Member>, b: seq<Member>)
    requires AgreeOffId(a, b)
    ensures Get(a, "koi_steff") == Get(b, "koi_steff") && Get(a, "koi_disposition") == Get(b, "koi_disposition")
    ensures Get(a, "koi_duration") == Get(b, "koi_duration") && Get(a, "koi_srad") == Get(b, "koi_srad")
    ensures Get(a, "koi_slogg") == Get(b, "koi_slogg") && Get(a, "koi_model_snr") == Get(b, "koi_model_snr")
    ensures Get(a, "koi_depth") == Get(b, "koi_depth") && Get(a, "koi_period") == Get(b, "koi_period")
  {
    KeyAgrees(a, b, KoiSteff);
    KeyAgrees(a, b, KoiDisposition);
    KeyAgrees(a, b, KoiDuration);
    KeyAgrees(a, b, KoiSrad);
    KeyAgrees(a, b, KoiSlogg);
    KeyAgrees(a, b, KoiModelSnr);
    KeyAgrees(a, b, KoiDepth);
    KeyAgrees(a, b, KoiPeriod);
  }

  lemma NamedKeysAgree(a: seq<Member>, b: seq<Member>)
    requires AgreeOffId(a, b)
    ensures Get(a, "kepler_name") == Get(b, "kepler_name") && Get(a, "kepoi_name") == Get(b, "kepoi_name")
    ensures Get(a, "name") == Get(b, "name")
  {
    KeyAgrees(a, b, KeplerName);
    KeyAgrees(a, b, KepoiName);
    KeyAgrees(a, b, Name);
  }

  lemma SameKey<T>(a: seq<Member>, b: seq<Member>, k: string, decode: Decoder<T>)
    requires Get(a, k) == Get(b, k)
    ensures DecodeKey(a, k, decode) == DecodeKey(b, k, decode)
    ensures DecodeKeyIfPresent(a, k, decode) == DecodeKeyIfPresent(b, k, decode)
  {
  }

  lemma SameMeasurements(a: seq<Member>, b: seq<Member>)
    requires Get(a, "koi_steff") == Get(b, "koi_steff") && Get(a, "koi_disposition") == Get(b, "koi_disposition")
    requires Get(a, "koi_duration") == Get(b, "koi_duration") && Get(a, "koi_srad") == Get(b, "koi_srad")
    requires Get(a, "koi_slogg") == Get(b, "koi_slogg") && Get(a, "koi_model_snr") == Get(b, "koi_model_snr")
    requires Get(a, "koi_depth") == Get(b, "koi_depth") && Get(a, "koi_period") == Get(b, "koi_period")
    ensures DecodeMeasurements(a) == DecodeMeasurements(b)
  {
    SameKey(a, b, "koi_steff", DecodeDouble);
    SameKey(a, b, "koi_disposition", DecodeString);
    SameKey(a, b, "koi_duration", DecodeDouble);
    SameKey(a, b, "koi_srad", DecodeDouble);
    SameKey(a, b, "koi_slogg", DecodeDouble);
    SameKey(a, b, "koi_model_snr", DecodeDouble);
    SameKey(a, b, "koi_depth", DecodeDouble);
    SameKey(a, b, "koi_period", DecodeDouble);
  }

  lemma SameIdentity(a: seq<Member>, b: seq<Member>)
    requires Get(a, "kepler_name") == Get(b, "kepler_name") && Get(a, "kepoi_name") == Get(b, "kepoi_name")
    requires Get(a, "name") == Get(b, "name")
    requires DecodeId(a) == DecodeId(b)
    ensures DecodeIdentity(a) == DecodeIdentity(b)
  {
    SameKey(a, b, "kepler_name", DecodeString);
    SameKey(a, b, "kepoi_name", DecodeString);
    SameKey(a, b, "name", DecodeString);
  }

  /** A `kepid` that is neither a whole number nor text makes decoding fail. */
  lemma OtherIdRejected(ms: seq<Member>)
    requires !IsSwiftInt(GetOrNull(ms, "kepid")) && !GetOrNull(ms, "kepid").Str?
    ensures DecodeRecord(Object(ms)).Err?
  {
  }

  /**
   * The display name is the provided `name`, else the Kepler name, else the
   * KOI name; an empty Kepler name is kept.
   */
  lemma NameFallback(ms: seq<Member>)
    requires DecodeRecord(Object(ms)).Ok?
    ensures var r := DecodeRecord(Object(ms)).value;
      var provided := GetOrNull(ms, "name");
      var kepler := GetOrNull(ms, "kepler_name");
      r.name ==
        if provided.Str? then provided.s
        else if kepler.Str? then kepler.s
        else GetOrNull(ms, "kepoi_name").s
  {
  }

  /** `kepler_name` may be missing or null; the record then has no Kepler name. */
  lemma KeplerNameOptional(ms: seq<Member>)
    requires DecodeRecord(Object(ms)).Ok? && GetOrNull(ms, "kepler_name").Null?
    ensures DecodeRecord(Object(ms)).value.keplerName == None
  {
  }

  /** The records of a JSON array, in order; one bad record fails the whole array. */
  function DecodeDatasets(v: Value): (r: Result<seq<GeneralDataset>, DecodeError>)
    ensures r.Ok? <==> v.Array? && forall i :: 0 <= i < |v.items| ==> DecodeRecord(v.items[i]).Ok?
    ensures r.Ok? ==> |r.value| == |v.items|
  {
    DecodeArray(v, DecodeRecord)
  }
}
