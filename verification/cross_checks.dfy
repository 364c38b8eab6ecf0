/**
 * What the app sends and what the server reads, side by side: the raw
 * upload's file name, the hyper-parameter body, the planet entries and the
 * precision report.
 */
module CrossChecks {
  import opened Wrappers
  import opened Text
  import opened Json
  import opened Py
  import opened SwiftJson
  import opened NasaEntries
  import NasaRequests
  import NasaConfig
  import NasaPrecision
  import Repository
  import GeneralDataset
  import ModelPrecision

  // ---------------------------------------------------------------------
  // The raw upload's file name

  /** `pairs` carries exactly the headers of `h`, in some order. */
  predicate ListsHeaders(pairs: seq<(string, string)>, h: Repository.Headers)
  {
    && (forall i :: 0 <= i < |pairs| ==> pairs[i].0 in h && h[pairs[i].0] == pairs[i].1)
    && (forall k :: k in h ==> exists i :: 0 <= i < |pairs| && pairs[i].0 == k)
  }

  lemma HeaderNames()
    ensures Lower("X-Filename") == "x-filename"
    ensures Lower("X-File-Name") == "x-file-name"
    ensures Lower("Content-Type") == "content-type"
  {
  }

  /**
   * The app's upload request, however its headers are ordered on the wire,
   * is refused by the server: it names the file in `X-File-Name`, the server
   * reads `X-Filename`, and the app sends no `filename` argument.
   */
  lemma ClientUploadRejected(f: string, body: Option<seq<bv8>>, pairs: seq<(string, string)>)
    requires ListsHeaders(pairs, Repository.BuildRequest(Repository.UploadCsv(f), body, map[], map[]).headers)
    ensures Repository.BuildRequest(Repository.UploadCsv(f), body, map[], map[]).url.queryItems.None?
    ensures NasaRequests.UploadFilename(pairs, []) == Err(NasaRequests.MissingFilename)
  {
    var h := Repository.DefaultHeaders(Repository.UploadCsv(f));
    assert Repository.BuildRequest(Repository.UploadCsv(f), body, map[], map[]).headers == h;
    Repository.UploadHeaders(f);
    HeaderNames();
    forall i | 0 <= i < |pairs|
      ensures Lower(pairs[i].0) != Lower("X-Filename")
    {
      assert pairs[i].0 == "Content-Type" || pairs[i].0 == "X-File-Name";
    }
    assert NasaRequests.HeaderGet(pairs, "X-Filename") == None;
  }

  /** The upload's default headers with the file name under the header the server reads. */
  function CorrectedUploadHeaders(f: string): (h: Repository.Headers)
    ensures h.Keys == Repository.DefaultHeaders(Repository.UploadCsv(f)).Keys - {"X-File-Name"} + {"X-Filename"}
  {
    map["Content-Type" := "application/octet-stream", "X-Filename" := f]
  }

  /** With the corrected header the server takes the app's file name, whatever the header order. */
  lemma CorrectedUploadAccepted(f: string, pairs: seq<(string, string)>)
    requires f != "" && ListsHeaders(pairs, CorrectedUploadHeaders(f))
    ensures NasaRequests.UploadFilename(pairs, []) == Ok(f)
  {
    var h := CorrectedUploadHeaders(f);
    HeaderNames();
    assert "X-Filename" in h;
    var j :| 0 <= j < |pairs| && pairs[j].0 == "X-Filename";
    forall i | 0 <= i < |pairs| && Lower(pairs[i].0) == Lower("X-Filename")
      ensures pairs[i].1 == f
    {
      assert pairs[i].0 in h;
    }
    NasaRequests.HeaderGetAgreeing(pairs, "X-Filename", f, j);
  }

  // ---------------------------------------------------------------------
  // The hyper-parameter body

  /** After visiting the first `n` of a dictionary body's own keys, the update holds its first `n` members. */
  lemma {:induction false} PrefixCopied(ms: seq<Member>, n: nat)
    requires DistinctKeys(ms) && n <= |ms|
    ensures NasaConfig.Updated(Object(ms), Keys(ms)[..n]) == Some(ms[..n])
    decreases n
  {
    if n > 0 {
      var keys := Keys(ms)[..n];
      assert keys[..n - 1] == Keys(ms)[..n - 1];
      PrefixCopied(ms, n - 1);
      var k := ms[n - 1].key;
      assert keys[n - 1] == k;
      GetDistinct(ms, n - 1);
      assert NasaConfig.Updated(Object(ms), keys) == NasaConfig.Step(Object(ms), k, Some(ms[..n - 1]));
      assert ms[..n] == ms[..n - 1] + [ms[n - 1]];
    }
  }

  /** A dictionary body whose keys are exactly the visited keys, in order, is copied whole. */
  lemma WholeBodyCopied(ms: seq<Member>, keys: seq<string>)
    requires Keys(ms) == keys && DistinctKeys(ms)
    ensures NasaConfig.Updated(Object(ms), keys) == Some(ms)
  {
    PrefixCopied(ms, |ms|);
    assert Keys(ms)[..|ms|] == keys && ms[..|ms|] == ms;
  }

  /** A body naming exactly the three settings, in order, is copied whole. */
  lemma FullBodyUpdate(ms: seq<Member>)
    requires Keys(ms) == NasaConfig.HyperparamKeys
    ensures NasaConfig.HyperparamUpdate(Object(ms)) == Some(ms)
  {
    assert DistinctKeys(ms);
    WholeBodyCopied(ms, NasaConfig.HyperparamKeys);
  }

  /**
   * The body the app's `Hyperparams` encodes to updates all three settings on
   * the server, with the app's values.
   */
  lemma ClientBodyUpdatesAll(h: Repository.Hyperparams)
    ensures NasaConfig.HyperparamUpdate(Repository.EncodeHyperparams(h)) == Some(Repository.EncodeHyperparams(h).members)
  {
    FullBodyUpdate(Repository.EncodeHyperparams(h).members);
  }

  // ---------------------------------------------------------------------
  // Planet entries

  /** The server's identifier is a whole number the app's `Int` holds. */
  predicate IdFits(conv: Conversions, row: Row)
  {
    SafeId(conv, row, "kepid").Int? && InInt64(SafeId(conv, row, "kepid").i)
  }

  /** The measured cells the app requires are all present and numeric on the server. */
  predicate MeasurementsPresent(conv: Conversions, row: Row)
  {
    && !SafeNum(conv, row, "koi_steff").Null?
    && !SafeNum(conv, row, "koi_duration").Null?
    && !SafeNum(conv, row, "koi_srad").Null?
    && !SafeNum(conv, row, "koi_slogg").Null?
    && !SafeNum(conv, row, "koi_model_snr").Null?
    && !SafeNum(conv, row, "koi_depth").Null?
    && !SafeNum(conv, row, "koi_period").Null?
  }

  /** The display name the server computes for a row. */
  function ServerName(conv: Conversions, row: Row): Option<string>
  {
    var keplerName := SafeStr(conv, row, "kepler_name");
    if keplerName.Some? && keplerName.value != "" then keplerName else SafeStr(conv, row, "kepoi_name")
  }

  /** What the app reads under the identifying keys of a server entry. */
  lemma EntryIdentityLookups(conv: Conversions, row: Row)
    ensures var e := RowToGeneralEntry(conv, row);
      && GetOrNull(e, "kepid") == SafeId(conv, row, "kepid")
      && GetOrNull(e, "kepler_name") == OptText(SafeStr(conv, row, "kepler_name"))
      && GetOrNull(e, "kepoi_name") == OptText(SafeStr(conv, row, "kepoi_name"))
      && GetOrNull(e, "name") == OptText(ServerName(conv, row))
  {
    EntryField(conv, row, 0);
    assert EntryKeys[0] == "kepid";
    EntryKeplerName(conv, row);
    EntryKoiName(conv, row);
    EntryDisplayName(conv, row);
  }

  /** What the app reads under the measured keys of a server entry. */
  lemma EntryMeasurementLookups(conv: Conversions, row: Row)
    ensures var e := RowToGeneralEntry(conv, row);
      && GetOrNull(e, "koi_steff") == SafeNum(conv, row, "koi_steff")
      && GetOrNull(e, "koi_disposition") == OptText(SafeStr(conv, row, "koi_disposition"))
      && GetOrNull(e, "koi_duration") == SafeNum(conv, row, "koi_duration")
      && GetOrNull(e, "koi_srad") == SafeNum(conv, row, "koi_srad")
      && GetOrNull(e, "koi_slogg") == SafeNum(conv, row, "koi_slogg")
      && GetOrNull(e, "koi_model_snr") == SafeNum(conv, row, "koi_model_snr")
      && GetOrNull(e, "koi_depth") == SafeNum(conv, row, "koi_depth")
      && GetOrNull(e, "koi_period") == SafeNum(conv, row, "koi_period")
  {
    EntryField(conv, row, 4);
    assert EntryKeys[4] == "koi_steff";
    EntryField(conv, row, 5);
    assert EntryKeys[5] == "koi_disposition";
    EntryField(conv, row, 6);
    assert EntryKeys[6] == "koi_duration";
    EntryField(conv, row, 7);
    assert EntryKeys[7] == "koi_srad";
    EntryField(conv, row, 8);
    assert EntryKeys[8] == "koi_slogg";
    EntryField(conv, row, 9);
    assert EntryKeys[9] == "koi_model_snr";
    EntryField(conv, row, 10);
    assert EntryKeys[10] == "koi_depth";
    EntryField(conv, row, 11);
    assert EntryKeys[11] == "koi_period";
  }

  lemma EntryIdentity(conv: Conversions, row: Row)
    ensures GeneralDataset.IdentityDecodable(RowToGeneralEntry(conv, row)) <==> IdFits(conv, row) && Present(row, "kepoi_name")
  {
    EntryIdentityLookups(conv, row);
  }

  lemma EntryMeasurements(conv: Conversions, row: Row)
    ensures GeneralDataset.MeasurementsDecodable(RowToGeneralEntry(conv, row)) <==>
      Present(row, "koi_disposition") && MeasurementsPresent(conv, row)
  {
    var e := RowToGeneralEntry(conv, row);
    EntryMeasurementLookups(conv, row);
    assert GetOrNull(e, "koi_disposition").Str? <==> Present(row, "koi_disposition");
    NumberIffPresent(conv, row, "koi_steff");
    NumberIffPresent(conv, row, "koi_duration");
    NumberIffPresent(conv, row, "koi_srad");
    NumberIffPresent(conv, row, "koi_slogg");
    NumberIffPresent(conv, row, "koi_model_snr");
    NumberIffPresent(conv, row, "koi_depth");
    NumberIffPresent(conv, row, "koi_period");
  }

  lemma NumberIffPresent(conv: Conversions, row: Row, col: string)
    ensures IsNumber(SafeNum(conv, row, col)) <==> !SafeNum(conv, row, col).Null?
  {
  }

  /**
   * An entry the server sends decodes on the app exactly when its identifier
   * fits, its KOI name and disposition are present and every measurement is
   * a number; the app then shows the server's display name and identifier.
   */
  lemma ServerEntryOnClient(conv: Conversions, row: Row)
    ensures var r := GeneralDataset.DecodeRecord(Object(RowToGeneralEntry(conv, row)));
      r.Ok? <==>
        IdFits(conv, row) && Present(row, "kepoi_name") && Present(row, "koi_disposition") && MeasurementsPresent(conv, row)
    ensures var r := GeneralDataset.DecodeRecord(Object(RowToGeneralEntry(conv, row)));
      r.Ok? ==>
        && Some(r.value.name) == ServerName(conv, row)
        && r.value.id == Decimal(SafeId(conv, row, "kepid").i)
        && r.value.kepoiName == SafeStr(conv, row, "kepoi_name").value
  {
    var e := RowToGeneralEntry(conv, row);
    EntryIdentityLookups(conv, row);
    var r := GeneralDataset.DecodeRecord(Object(e));
    EntryIdentity(conv, row);
    EntryMeasurements(conv, row);
    if r.Ok? {
      assert GetOrNull(e, "kepid").Int?;
      assert ServerName(conv, row).Some?;
    }
  }

  // ---------------------------------------------------------------------
  // The precision report

  /** The body of a successful `GET /model_precision` for the report `cr`. */
  function PrecisionBody(conv: Conversions, cr: seq<Member>, accuracy: Value): Value
  {
    Object([
      Member("per_class", Object(NasaPrecision.PerClassOf(conv, cr))),
      Member("aggregates", Object(NasaPrecision.AggregatesOf(cr))),
      Member("accuracy", accuracy)])
  }

  /** What the app decodes out of the body. */
  lemma DecodedPrecision(conv: Conversions, cr: seq<Member>, accuracy: Value)
    requires ModelPrecision.DecodeModelPrecision(PrecisionBody(conv, cr, accuracy)).Ok?
    ensures var m := ModelPrecision.DecodeModelPrecision(PrecisionBody(conv, cr, accuracy)).value;
      DecodeDictionary(Object(NasaPrecision.PerClassOf(conv, cr)), ModelPrecision.DecodeClassStats) == Ok(m.perClass)
  {
    var ms := PrecisionBody(conv, cr, accuracy).members;
    var pc := Object(NasaPrecision.PerClassOf(conv, cr));
    assert ms[..1] == [Member("per_class", pc)] && ms[..2][..1] == ms[..1];
    assert Get(ms, "per_class") == Some(pc) by {
      assert Get(ms, "per_class") == Get(ms[..2], "per_class") == Get(ms[..1], "per_class");
    }
    assert "per_class" in Keys(ms);
  }

  /**
   * Every class entry of the server's report, the averages included, is a
   * row the app finds under its own name: the accessors for "CONFIRMED",
   * "FALSE POSITIVE", "macro avg" and "weighted avg" read what the server
   * wrote under those names.
   */
  lemma ClientReadsServerRow(conv: Conversions, cr: seq<Member>, accuracy: Value, i: nat)
    requires DistinctKeys(cr) && i < |cr| && NasaPrecision.IsClassEntry(cr[i].value)
    requires ModelPrecision.DecodeModelPrecision(PrecisionBody(conv, cr, accuracy)).Ok?
    ensures var m := ModelPrecision.DecodeModelPrecision(PrecisionBody(conv, cr, accuracy)).value;
      var stats := ModelPrecision.DecodeClassStats(NasaPrecision.ClassValue(conv, cr[i].value));
      stats.Ok? && ModelPrecision.Row(m, cr[i].key) == Some(stats.value)
  {
    DecodedPrecision(conv, cr, accuracy);
    var pc := NasaPrecision.PerClassOf(conv, cr);
    NasaPrecision.ClassEntryValue(conv, cr, i);
    assert cr[i].key in Keys(pc);
    DecodeMembersGet(pc, ModelPrecision.DecodeClassStats, cr[i].key);
  }

  /** What the app reads under each key of converted statistics. */
  lemma ConvertedLookups(conv: Conversions, ms: seq<Member>)
    requires NasaPrecision.ConvertStats(conv, ms).Some?
    ensures var stats := NasaPrecision.ConvertStats(conv, ms).value;
      && GetOrNull(stats, "precision") == NasaPrecision.OptFloat(conv, GetOrNull(ms, "precision")).value
      && GetOrNull(stats, "recall") == NasaPrecision.OptFloat(conv, GetOrNull(ms, "recall")).value
      && GetOrNull(stats, "f1-score") == NasaPrecision.OptFloat(conv, GetOrNull(ms, "f1-score")).value
      && GetOrNull(stats, "support") == NasaPrecision.OptInt(conv, GetOrNull(ms, "support")).value
  {
    var stats := NasaPrecision.ConvertStats(conv, ms).value;
    StatsLookups(stats[0].value, stats[1].value, stats[2].value, stats[3].value);
  }

  /**
   * Helper for `NumericStatsReadable`: lookups in the four statistics, in the
   * order the server writes them.
   */
  lemma StatsLookups(p: Value, r: Value, f: Value, s: Value)
    ensures var stats := [Member("precision", p), Member("recall", r), Member("f1-score", f), Member("support", s)];
      && GetOrNull(stats, "precision") == p && GetOrNull(stats, "recall") == r
      && GetOrNull(stats, "f1-score") == f && GetOrNull(stats, "support") == s
  {
    var stats := [Member("precision", p), Member("recall", r), Member("f1-score", f), Member("support", s)];
    var s3, s2, s1 := stats[..3], stats[..2], stats[..1];
    assert s3 == [Member("precision", p), Member("recall", r), Member("f1-score", f)];
    assert s3[..2] == s2 == [Member("precision", p), Member("recall", r)];
    assert s2[..1] == s1 == [Member("precision", p)];
    assert Get(stats, "f1-score") == Get(s3, "f1-score");
    assert Get(stats, "recall") == Get(s3, "recall") == Get(s2, "recall");
    assert Get(stats, "precision") == Get(s3, "precision") == Get(s2, "precision") == Get(s1, "precision");
  }

  /** A class entry whose four statistics are present numbers reaches the app as numbers. */
  lemma NumericStatsReadable(conv: Conversions, v: Value)
    requires NasaPrecision.IsClassEntry(v)
    requires forall k :: k in NasaPrecision.StatKeys ==> var s := GetOrNull(v.members, k); s.Int? || s.Float?
    requires var n := NasaPrecision.OptInt(conv, GetOrNull(v.members, "support")); n.Some? && n.value.Int? && InInt64(n.value.i)
    ensures ModelPrecision.DecodeClassStats(NasaPrecision.ClassValue(conv, v)).Ok?
  {
    var ms := v.members;
    NasaPrecision.NumbersConvert(conv, ms);
    var stats := NasaPrecision.ConvertStats(conv, ms).value;
    assert NasaPrecision.ClassValue(conv, v) == Object(stats);
    ConvertedLookups(conv, ms);
    assert "precision" in NasaPrecision.StatKeys && "recall" in NasaPrecision.StatKeys && "f1-score" in NasaPrecision.StatKeys;
    FloatStaysNumber(conv, GetOrNull(ms, "precision"));
    FloatStaysNumber(conv, GetOrNull(ms, "recall"));
    FloatStaysNumber(conv, GetOrNull(ms, "f1-score"));
    assert ModelPrecision.ReadableStats(Object(stats));
  }

  lemma FloatStaysNumber(conv: Conversions, x: Value)
    requires x.Int? || x.Float?
    ensures NasaPrecision.OptFloat(conv, x).Some? ==> IsNumber(NasaPrecision.OptFloat(conv, x).value)
  {
  }
}
