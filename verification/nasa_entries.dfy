/**
 * The server's view of the planet table: one row of the processed data
 * frame projected to the twelve-field entry the app consumes, and the lookup
 * of planets by their KOI name, which ignores case and surrounding
 * whitespace.
 *
 * A row maps column names to cells; a missing cell (pandas' NaN) is `Null`.
 */
module NasaEntries {
  import opened Wrappers
  import opened Text
  import opened Json
  import opened Py

  type Row = map<string, Value>

  /** The processed data frame: every row has exactly the frame's columns. */
  datatype Frame = Frame(columns: set<string>, rows: seq<Row>)

  predicate WellFormed(f: Frame)
  {
    forall i :: 0 <= i < |f.rows| ==> f.rows[i].Keys == f.columns
  }

  /** A handler's answer: a status code and a JSON body. */
  datatype Reply = Reply(status: nat, body: Value)

  function ErrorReply(status: nat, message: string): Reply
  {
    Reply(status, Object([Member("error", Str(message))]))
  }

  /** An exception the handler does not catch: the framework answers 500 without a JSON body. */
  const Uncaught: Reply := Reply(500, Null)

  // ---------------------------------------------------------------------
  // Null-safe cell conversion

  predicate Present(row: Row, col: string)
  {
    col in row && row[col] != Null
  }

  /** `safe_str`: the text of a present cell. */
  function SafeStr(conv: Conversions, row: Row, col: string): (r: Option<string>)
    ensures r.Some? <==> Present(row, col)
  {
    if Present(row, col) then Some(ToStr(conv, row[col])) else None
  }

  /** `safe_num`: an integer cell as it is, anything else through `float()`; null when absent or unconvertible. */
  function SafeNum(conv: Conversions, row: Row, col: string): (r: Value)
    ensures r.Null? || r.Int? || r.Float?
    ensures !Present(row, col) ==> r.Null?
  {
    if !Present(row, col) then Null
    else
      var v := row[col];
      if v.Int? then v
      else match ToFloat(conv, v)
        case Some(x) => Float(x)
        case None => Null
  }

  /** `safe_id`: an integer cell as it is, anything else through `float()` then `int()`. */
  function SafeId(conv: Conversions, row: Row, col: string): (r: Value)
    ensures r.Null? || r.Int?
    ensures !Present(row, col) ==> r.Null?
  {
    if !Present(row, col) then Null
    else
      var v := row[col];
      if v.Int? then v
      else match ToFloat(conv, v)
        case Some(x) => Int(Trunc(x))
        case None => Null
  }

  /** A non-integral float identifier is truncated toward zero, not rejected. */
  lemma SafeIdTruncates(conv: Conversions, row: Row, col: string, x: real)
    requires col in row && row[col] == Float(x)
    ensures SafeId(conv, row, col).Int?
    ensures 0.0 <= x ==> SafeId(conv, row, col).i as real <= x < SafeId(conv, row, col).i as real + 1.0
    ensures x < 0.0 ==> SafeId(conv, row, col).i as real - 1.0 < x <= SafeId(conv, row, col).i as real
  {
  }

  function OptText(o: Option<string>): Value
  {
    match o
    case Some(s) => Str(s)
    case None => Null
  }

  /** The keys of an entry, in the order the server writes them. */
  const EntryKeys: seq<string> := [
    "kepid", "kepler_name", "kepoi_name", "name", "koi_steff", "koi_disposition",
    "koi_duration", "koi_srad", "koi_slogg", "koi_model_snr", "koi_depth", "koi_period"]

  /** `row_to_general_entry`: the entry the app reads for one row. */
  function RowToGeneralEntry(conv: Conversions, row: Row): (e: seq<Member>)
    ensures Keys(e) == EntryKeys
  {
    var keplerName := SafeStr(conv, row, "kepler_name");
    var kepoiName := SafeStr(conv, row, "kepoi_name");
    var name := if keplerName.Some? && keplerName.value != "" then keplerName else kepoiName;
    [ Member("kepid", SafeId(conv, row, "kepid")),
      Member("kepler_name", OptText(keplerName)),
      Member("kepoi_name", OptText(kepoiName)),
      Member("name", OptText(name)),
      Member("koi_steff", SafeNum(conv, row, "koi_steff")),
      Member("koi_disposition", OptText(SafeStr(conv, row, "koi_disposition"))),
      Member("koi_duration", SafeNum(conv, row, "koi_duration")),
      Member("koi_srad", SafeNum(conv, row, "koi_srad")),
      Member("koi_slogg", SafeNum(conv, row, "koi_slogg")),
      Member("koi_model_snr", SafeNum(conv, row, "koi_model_snr")),
      Member("koi_depth", SafeNum(conv, row, "koi_depth")),
      Member("koi_period", SafeNum(conv, row, "koi_period")) ]
  }

  lemma EntryKeysDistinct(conv: Conversions, row: Row)
    ensures DistinctKeys(RowToGeneralEntry(conv, row))
  {
    var e := RowToGeneralEntry(conv, row);
    forall i, j | 0 <= i < j < |e|
      ensures e[i].key != e[j].key
    {
      assert e[i].key == EntryKeys[i] && e[j].key == EntryKeys[j];
    }
  }

  /** The value the entry holds under the `i`-th key. */
  lemma EntryField(conv: Conversions, row: Row, i: nat)
    requires i < |EntryKeys|
    ensures Get(RowToGeneralEntry(conv, row), EntryKeys[i]) == Some(RowToGeneralEntry(conv, row)[i].value)
  {
    EntryKeysDistinct(conv, row);
    GetDistinct(RowToGeneralEntry(conv, row), i);
  }

  /**
   * The entry's display name is its `kepler_name` unless that is null or
   * empty, and then its `kepoi_name`.
   */
  lemma EntryNameFallback(conv: Conversions, row: Row)
    ensures var e := RowToGeneralEntry(conv, row);
      GetOrNull(e, "name") ==
        if GetOrNull(e, "kepler_name").Str? && GetOrNull(e, "kepler_name").s != ""
        then GetOrNull(e, "kepler_name") else GetOrNull(e, "kepoi_name")
  {
    EntryKeplerName(conv, row);
    EntryKoiName(conv, row);
    EntryDisplayName(conv, row);
  }

  lemma EntryKeplerName(conv: Conversions, row: Row)
    ensures GetOrNull(RowToGeneralEntry(conv, row), "kepler_name") == OptText(SafeStr(conv, row, "kepler_name"))
  {
    EntryField(conv, row, 1);
    assert EntryKeys[1] == "kepler_name";
  }

  lemma EntryKoiName(conv: Conversions, row: Row)
    ensures GetOrNull(RowToGeneralEntry(conv, row), "kepoi_name") == OptText(SafeStr(conv, row, "kepoi_name"))
  {
    EntryField(conv, row, 2);
    assert EntryKeys[2] == "kepoi_name";
  }

  lemma EntryDisplayName(conv: Conversions, row: Row)
    ensures var keplerName := SafeStr(conv, row, "kepler_name");
      GetOrNull(RowToGeneralEntry(conv, row), "name")
        == OptText(if keplerName.Some? && keplerName.value != "" then keplerName else SafeStr(conv, row, "kepoi_name"))
  {
    EntryField(conv, row, 3);
    assert EntryKeys[3] == "name";
  }

  // ---------------------------------------------------------------------
  // KOI lookup

  /** The form both sides of a KOI comparison are brought to: stripped and upper-cased. */
  function KoiKey(s: string): string
  {
    Upper(Strip(s))
  }

  /** `astype(str)` of a cell: a missing cell reads "nan". */
  function CellText(conv: Conversions, v: Value): string
  {
    if v == Null then "nan" else ToStr(conv, v)
  }

  predicate KoiMatches(conv: Conversions, requested: string, row: Row)
  {
    "kepoi_name" in row && KoiKey(CellText(conv, row["kepoi_name"])) == KoiKey(requested)
  }

  /**
   * The rows whose KOI name matches, in frame order: every matching row and
   * only those, as many as the frame holds.
   */
  function MatchingRows(conv: Conversions, f: Frame, requested: string): (m: seq<Row>)
    ensures forall i :: 0 <= i < |m| ==> KoiMatches(conv, requested, m[i])
    ensures forall i :: 0 <= i < |f.rows| && KoiMatches(conv, requested, f.rows[i]) ==> f.rows[i] in m
    ensures |m| == Count(f.rows, row => KoiMatches(conv, requested, row))
    ensures IsSubsequence(m, f.rows)
  {
    FilterIsSubsequence(f.rows, row => KoiMatches(conv, requested, row));
    FilterComplete(f.rows, row => KoiMatches(conv, requested, row));
    FilterKeepsCount(f.rows, row => KoiMatches(conv, requested, row));
    Filter(f.rows, row => KoiMatches(conv, requested, row))
  }

  /** Asking in upper case finds the same rows. */
  lemma KoiLookupIgnoresCase(conv: Conversions, f: Frame, requested: string)
    ensures MatchingRows(conv, f, Upper(requested)) == MatchingRows(conv, f, requested)
  {
    UpperStripCommute(requested);
    UpperIdempotent(Strip(requested));
    assert KoiKey(Upper(requested)) == KoiKey(requested);
    FilterAgree(f.rows, row => KoiMatches(conv, Upper(requested), row), row => KoiMatches(conv, requested, row));
  }

  /** Whitespace around the requested name does not change which rows match. */
  lemma KoiLookupIgnoresSurroundingSpace(conv: Conversions, f: Frame, a: string, requested: string, b: string)
    requires AllSpace(a) && AllSpace(b)
    ensures MatchingRows(conv, f, a + requested + b) == MatchingRows(conv, f, requested)
  {
    StripIgnoresSurroundingSpace(a, requested, b);
    FilterAgree(f.rows, row => KoiMatches(conv, a + requested + b, row), row => KoiMatches(conv, requested, row));
  }

  /** A row whose KOI name is missing reads "nan", so asking for "nan" in any case finds it. */
  lemma MissingKoiMatchesNan(conv: Conversions, requested: string, row: Row)
    requires "kepoi_name" in row && row["kepoi_name"] == Null
    requires KoiKey(requested) == "NAN"
    ensures KoiMatches(conv, requested, row)
  {
    assert NoSpace("nan");
    StripNoSpace("nan");
  }

  function Entries(conv: Conversions, rows: seq<Row>): (es: seq<Value>)
    ensures |es| == |rows|
    ensures forall i :: 0 <= i < |rows| ==> es[i] == Object(RowToGeneralEntry(conv, rows[i]))
  {
    seq(|rows|, i requires 0 <= i < |rows| => Object(RowToGeneralEntry(conv, rows[i])))
  }

  /** `GET /planet/kepoi/<name>`: the entries of every matching row. */
  function PlanetByKoi(conv: Conversions, frame: Option<Frame>, requested: string): (r: Reply)
    requires frame.Some? ==> WellFormed(frame.value)
    ensures r.status == 400 <==> frame.None?
    ensures r.status == 404 <==>
      frame.Some? && "kepoi_name" in frame.value.columns && MatchingRows(conv, frame.value, requested) == []
    ensures r == Uncaught <==> frame.Some? && "kepoi_name" !in frame.value.columns
    ensures r.status == 200 <==>
      frame.Some? && "kepoi_name" in frame.value.columns && MatchingRows(conv, frame.value, requested) != []
    ensures r.status == 200 ==>
      && r.body.Array? && r.body.items != []
      && r.body.items == Entries(conv, MatchingRows(conv, frame.value, requested))
  {
    match frame
    case None => ErrorReply(400, "Data not loaded / model not trained")
    case Some(f) =>
      if "kepoi_name" !in f.columns then Uncaught
      else
        var matches := MatchingRows(conv, f, requested);
        if matches == [] then ErrorReply(404, "No planet found with kepoi_name: " + requested)
        else Reply(200, Array(Entries(conv, matches)))
  }

  /** A lookup that succeeds answers the same entries whatever the case of the request. */
  lemma PlanetByKoiIgnoresCase(conv: Conversions, frame: Option<Frame>, requested: string)
    requires frame.Some? ==> WellFormed(frame.value)
    ensures PlanetByKoi(conv, frame, Upper(requested)).status == PlanetByKoi(conv, frame, requested).status
    ensures PlanetByKoi(conv, frame, requested).status == 200 ==>
      PlanetByKoi(conv, frame, Upper(requested)) == PlanetByKoi(conv, frame, requested)
  {
    if frame.Some? {
      KoiLookupIgnoresCase(conv, frame.value, requested);
    }
  }
}
