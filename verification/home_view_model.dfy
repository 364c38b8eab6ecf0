/**
 * The home screen's view model: the list of data files, the file selected
 * in it, and the planet record loaded from the document the view model
 * carries.
 *
 * Documents are given as their token sequence; reading bytes into tokens is
 * not part of this model.
 */
module HomeViewModel {
  import opened Wrappers
  import opened Text
  import opened Json
  import opened SwiftJson
  import opened GeneralDataset

  /** One data file; its identifier is generated when the entry is made. */
  datatype FileEntry = FileEntry(id: string, name: string)

  /** The files the view model lists, in order. */
  const FileNames: seq<string> := ["hola.csv", "1.csv", "2.csv", "3.csv"]

  /** Why loading a document fails. */
  datatype LoadError = Syntax(syntaxError: SyntaxError) | Decoding(decodeError: DecodeError)

  /** `JSONDecoder().decode([GeneralDataset].self, from:)` of a document. */
  function DecodeDocument(ts: seq<Token>): (r: Result<seq<GeneralDataset>, LoadError>)
    ensures r.Ok? <==> ParseDocument(ts).Ok? && DecodeDatasets(ParseDocument(ts).value).Ok?
  {
    match ParseDocument(ts)
    case Err(e) => Err(Syntax(e))
    case Ok(v) =>
      match DecodeDatasets(v)
      case Err(e) => Err(Decoding(e))
      case Ok(ds) => Ok(ds)
  }

  class HomeViewModel {
    var files: seq<FileEntry>
    var fileSelected: Option<string>
    var dataset: Option<GeneralDataset>

    /** The stored properties' initial values; the file fetch the initializer starts runs later. */
    constructor ()
      ensures files == [] && fileSelected == None && dataset == None
    {
      files, fileSelected, dataset := [], None, None;
    }

    /** Select the first file, or nothing when there are none. */
    method AutomaticSelection()
      modifies this`fileSelected
      ensures files == [] ==> fileSelected == None
      ensures files != [] ==> fileSelected == Some(files[0].id)
    {
      if files == [] {
        fileSelected := None;
      } else {
        fileSelected := Some(files[0].id);
      }
    }

    /** List the four files, with the identifiers `ids` they are given, and select the first. */
    method FetchFiles(ids: seq<string>)
      requires |ids| == |FileNames|
      modifies this`files, this`fileSelected
      ensures |files| == |FileNames|
      ensures forall i :: 0 <= i < |files| ==> files[i] == FileEntry(ids[i], FileNames[i])
      ensures fileSelected == Some(ids[0])
    {
      files := [FileEntry(ids[0], "hola.csv"), FileEntry(ids[1], "1.csv"),
                FileEntry(ids[2], "2.csv"), FileEntry(ids[3], "3.csv")];
      AutomaticSelection();
    }

    /** Decode `document` and keep its first record; on an error keep what was there. */
    method FetchDataset(document: seq<Token>)
      modifies this`dataset
      ensures DecodeDocument(document).Ok? ==>
        dataset == (if DecodeDocument(document).value == [] then None else Some(DecodeDocument(document).value[0]))
      ensures DecodeDocument(document).Err? ==> dataset == old(dataset)
    {
      var decoded := DecodeDocument(document);
      if decoded.Ok? {
        dataset := if decoded.value == [] then None else Some(decoded.value[0]);
      }
    }
  }

  // ---------------------------------------------------------------------
  // The document the view model carries

  /** The first record's fields. */
  const FirstRecord: seq<Member> := [
    Member("kepid", Int(1234567)),
    Member("kepler_name", Str("Kepler-22 b")),
    Member("kepoi_name", Str("K02200.01")),
    Member("name", Str("Kepler-22 b")),
    Member("koi_steff", Int(5778)),
    Member("koi_disposition", Str("CANDIDATE")),
    Member("koi_duration", Float(3.7)),
    Member("koi_srad", Float(1.02)),
    Member("koi_slogg", Float(4.44)),
    Member("koi_model_snr", Float(12.3)),
    Member("koi_depth", Float(850.0)),
    Member("koi_period", Float(12.345))]

  /** The second record's fields, with `kepid` given. */
  function SecondRecord(kepid: Value): seq<Member>
  {
    [ Member("kepid", kepid),
      Member("kepler_name", Null),
      Member("kepoi_name", Str("KOI-351.01")),
      Member("name", Str("KOI-351.01")),
      Member("koi_steff", Int(6100)),
      Member("koi_disposition", Str("CONFIRMED")),
      Member("koi_duration", Float(5.1)),
      Member("koi_srad", Float(1.3)),
      Member("koi_slogg", Float(4.2)),
      Member("koi_model_snr", Float(18.9)),
      Member("koi_depth", Float(520.0)),
      Member("koi_period", Float(331.6)) ]
  }

  /**
   * The tokens the carried document starts with, as written: the first
   * record's `kepid` value is not followed by a comma.
   */
  const EmbeddedStart: seq<Token> := [LBracket, LBrace, TStr("kepid"), Colon, TInt(1234567), TStr("kepler_name")]

  /** As written the document does not parse, whatever follows its start: it breaks at the key after `kepid`. */
  lemma EmbeddedDocumentRejected(rest: seq<Token>)
    ensures ParseDocument(EmbeddedStart + rest) == Err(UnexpectedToken(TStr("kepler_name")))
    ensures DecodeDocument(EmbeddedStart + rest).Err?
  {
    var ts := EmbeddedStart + rest;
    assert ts[0] == LBracket && ts[1] == LBrace && ts[2] == TStr("kepid") && ts[3] == Colon;
    assert ts[4] == TInt(1234567) && ts[5] == TStr("kepler_name");
    assert ts[1..][1..][2..] == ts[4..];
    assert ts[4..][1..] == ts[5..];
    assert ParseValue(ts[4..]) == Ok((Int(1234567), ts[5..]));
    assert ts[1..][1..] == ts[2..];
    assert ParseMembers(ts[2..], []) == Err(UnexpectedToken(TStr("kepler_name")));
    assert ParseValue(ts[1..]) == Err(UnexpectedToken(TStr("kepler_name")));
    assert ParseItems(ts[1..], []) == Err(UnexpectedToken(TStr("kepler_name")));
    assert ParseValue(ts) == Err(UnexpectedToken(TStr("kepler_name")));
  }

  /**
   * An integer lexeme in the number grammar of section 6 of RFC 8259: an
   * optional minus, then a single zero or digits that do not start with zero.
   */
  predicate IsJsonInteger(lexeme: string)
  {
    var digits := if lexeme != [] && lexeme[0] == '-' then lexeme[1..] else lexeme;
    digits != [] && AllDigits(digits) && (digits[0] == '0' ==> |digits| == 1)
  }

  /** The second record's identifier as written is not a JSON number; without the leading zero it is. */
  lemma LeadingZeroRejected()
    ensures !IsJsonInteger("09876543")
    ensures IsJsonInteger("9876543") && IsJsonInteger("1234567")
  {
  }

  /** The document with the commas in place and the second identifier written 9876543. */
  const CorrectedDocument: Value := Array([Object(FirstRecord), Object(SecondRecord(Int(9876543)))])

  lemma FirstRecordKeysDistinct()
    ensures DistinctKeys(FirstRecord)
  {
    forall i, j | 0 <= i < j < |FirstRecord|
      ensures FirstRecord[i].key != FirstRecord[j].key
    {
      var ks := ["kepid", "kepler_name", "kepoi_name", "name", "koi_steff", "koi_disposition",
        "koi_duration", "koi_srad", "koi_slogg", "koi_model_snr", "koi_depth", "koi_period"];
      assert FirstRecord[i].key == ks[i] && FirstRecord[j].key == ks[j];
    }
  }

  lemma FirstRecordFields()
    ensures GetOrNull(FirstRecord, "kepid") == Int(1234567)
    ensures GetOrNull(FirstRecord, "kepler_name") == Str("Kepler-22 b")
    ensures GetOrNull(FirstRecord, "kepoi_name") == Str("K02200.01")
    ensures GetOrNull(FirstRecord, "name") == Str("Kepler-22 b")
    ensures GetOrNull(FirstRecord, "koi_steff") == Int(5778)
    ensures GetOrNull(FirstRecord, "koi_disposition") == Str("CANDIDATE")
    ensures GetOrNull(FirstRecord, "koi_duration").Float?
    ensures GetOrNull(FirstRecord, "koi_srad").Float?
    ensures GetOrNull(FirstRecord, "koi_slogg").Float?
    ensures GetOrNull(FirstRecord, "koi_model_snr").Float?
    ensures GetOrNull(FirstRecord, "koi_depth").Float?
    ensures GetOrNull(FirstRecord, "koi_period").Float?
  {
    FirstRecordKeysDistinct();
    var ms := FirstRecord;
    GetDistinct(ms, 0);
    GetDistinct(ms, 1);
    GetDistinct(ms, 2);
    GetDistinct(ms, 3);
    GetDistinct(ms, 4);
    GetDistinct(ms, 5);
    GetDistinct(ms, 6);
    GetDistinct(ms, 7);
    GetDistinct(ms, 8);
    GetDistinct(ms, 9);
    GetDistinct(ms, 10);
    GetDistinct(ms, 11);
  }

  lemma DecimalOfFirstId()
    ensures Decimal(1234567) == "1234567"
  {
    assert NatToDigits(1) == "1";
    assert NatToDigits(12) == NatToDigits(1) + ['2'];
    assert NatToDigits(123) == NatToDigits(12) + ['3'];
    assert NatToDigits(1234) == NatToDigits(123) + ['4'];
    assert NatToDigits(12345) == NatToDigits(1234) + ['5'];
    assert NatToDigits(123456) == NatToDigits(12345) + ['6'];
    assert NatToDigits(1234567) == NatToDigits(123456) + ['7'];
  }

  /** The first record decodes to the planet the screen shows. */
  lemma FirstRecordDecodes()
    ensures DecodeRecord(Object(FirstRecord)).Ok?
    ensures var r := DecodeRecord(Object(FirstRecord)).value;
      r.id == "1234567" && r.name == "Kepler-22 b" && r.keplerName == Some("Kepler-22 b") && r.kepoiName == "K02200.01"
  {
    FirstRecordFields();
    assert IdentityDecodable(FirstRecord) && MeasurementsDecodable(FirstRecord);
    DecodeIdOfInt(FirstRecord);
    DecimalOfFirstId();
  }

  lemma SecondRecordKeysDistinct(kepid: Value)
    ensures DistinctKeys(SecondRecord(kepid))
  {
    var ms := SecondRecord(kepid);
    forall i, j | 0 <= i < j < |ms|
      ensures ms[i].key != ms[j].key
    {
      var ks := ["kepid", "kepler_name", "kepoi_name", "name", "koi_steff", "koi_disposition",
        "koi_duration", "koi_srad", "koi_slogg", "koi_model_snr", "koi_depth", "koi_period"];
      assert ms[i].key == ks[i] && ms[j].key == ks[j];
    }
  }

  lemma SecondRecordFields(kepid: Value)
    ensures GetOrNull(SecondRecord(kepid), "kepid") == kepid
    ensures GetOrNull(SecondRecord(kepid), "kepler_name") == Null
    ensures GetOrNull(SecondRecord(kepid), "kepoi_name") == Str("KOI-351.01")
    ensures GetOrNull(SecondRecord(kepid), "name") == Str("KOI-351.01")
    ensures GetOrNull(SecondRecord(kepid), "koi_steff") == Int(6100)
    ensures GetOrNull(SecondRecord(kepid), "koi_disposition") == Str("CONFIRMED")
    ensures GetOrNull(SecondRecord(kepid), "koi_duration").Float?
    ensures GetOrNull(SecondRecord(kepid), "koi_srad").Float?
    ensures GetOrNull(SecondRecord(kepid), "koi_slogg").Float?
    ensures GetOrNull(SecondRecord(kepid), "koi_model_snr").Float?
    ensures GetOrNull(SecondRecord(kepid), "koi_depth").Float?
    ensures GetOrNull(SecondRecord(kepid), "koi_period").Float?
  {
    var ms := SecondRecord(kepid);
    SecondRecordKeysDistinct(kepid);
    GetDistinct(ms, 0);
    GetDistinct(ms, 1);
    GetDistinct(ms, 2);
    GetDistinct(ms, 3);
    GetDistinct(ms, 4);
    GetDistinct(ms, 5);
    GetDistinct(ms, 6);
    GetDistinct(ms, 7);
    GetDistinct(ms, 8);
    GetDistinct(ms, 9);
    GetDistinct(ms, 10);
    GetDistinct(ms, 11);
  }

  /** With the identifier written without its leading zero, the second record decodes; it has no Kepler name. */
  lemma SecondRecordDecodes()
    ensures DecodeRecord(Object(SecondRecord(Int(9876543)))).Ok?
    ensures var r := DecodeRecord(Object(SecondRecord(Int(9876543)))).value;
      r.keplerName == None && r.name == "KOI-351.01" && r.kepoiName == "KOI-351.01"
  {
    SecondRecordFields(Int(9876543));
  }

  /** Serializing a value and loading the text gives back what decoding the value gives. */
  lemma LoadSerialized(v: Value)
    ensures DecodeDocument(Serialize(v)) == match DecodeDatasets(v)
      case Ok(ds) => Ok(ds)
      case Err(e) => Err(Decoding(e))
  {
    DocumentRoundTrip(v);
  }

  /** A two-element array of decodable records decodes to both, in order. */
  lemma DecodeTwo(a: Value, b: Value)
    requires DecodeRecord(a).Ok? && DecodeRecord(b).Ok?
    ensures DecodeDatasets(Array([a, b])) == Ok([DecodeRecord(a).value, DecodeRecord(b).value])
  {
    DecodeArrayTwo(a, b, DecodeRecord);
  }

  /** Both records of the corrected document decode, in order. */
  lemma CorrectedDocumentDecodes()
    ensures var first := DecodeRecord(Object(FirstRecord));
      var second := DecodeRecord(Object(SecondRecord(Int(9876543))));
      && first.Ok? && second.Ok?
      && DecodeDatasets(CorrectedDocument) == Ok([first.value, second.value])
  {
    FirstRecordDecodes();
    SecondRecordDecodes();
    DecodeTwo(Object(FirstRecord), Object(SecondRecord(Int(9876543))));
  }

  /**
   * The corrected document is well-formed and decodes to both records, so
   * loading it shows the first planet, Kepler-22 b.
   */
  lemma CorrectedDocumentLoads()
    ensures var first := DecodeRecord(Object(FirstRecord));
      var second := DecodeRecord(Object(SecondRecord(Int(9876543))));
      && first.Ok? && second.Ok?
      && DecodeDocument(Serialize(CorrectedDocument)) == Ok([first.value, second.value])
      && first.value.name == "Kepler-22 b"
  {
    CorrectedDocumentDecodes();
    FirstRecordDecodes();
    LoadSerialized(CorrectedDocument);
  }
}
