/**
 * The app's endpoint table: for every endpoint of the backend, the path, the
 * HTTP method and the default headers a request carries, the URL built for
 * it, and the request assembled from those defaults and the caller's
 * additions.
 *
 * Dictionaries of the client (`[String: String]`) are Dafny maps; the order
 * in which a dictionary is walked is not part of this model.
 */
module Repository {
  import opened Wrappers
  import opened Json
  import opened SwiftJson

  datatype Endpoint =
    | GeneralData
    | PlanetKoi(id: string)
    | SelectCsv(name: string)
    | UploadCsv(filename: string)
    | ListCsvs
    | GeminiExplainGeneral
    | GeminiExplainSpecific(koiName: string)
    | UpdateHyperparams
    | GeneratePlanetImage
    | ExoplanetImage(kepoiName: string)
    | ModelPrecision

  const Scheme: string := "http"
  const Host: string := "18.188.234.218"

  type Headers = map<string, string>

  // ---------------------------------------------------------------------
  // The table

  /** The path of an endpoint; a KOI name is put in the path without percent-encoding. */
  function Path(e: Endpoint): (p: string)
    ensures |p| > 1 && p[0] == '/'
  {
    match e
    case GeneralData => "/GeneralData"
    case PlanetKoi(id) => "/planet/kepoi/" + id
    case SelectCsv(name) => "/csvs/select/" + name + ".csv"
    case UploadCsv(_) => "/upload_raw"
    case ListCsvs => "/csvs"
    case GeminiExplainGeneral => "/Gemini/ExplainGeneral"
    case GeminiExplainSpecific(koiName) => "/Gemini/ExplainSpecific/" + koiName
    case UpdateHyperparams => "/config/hyperparams"
    case GeneratePlanetImage => "/GeneratePlanetImage"
    case ExoplanetImage(kepoiName) => "/ExoplanetImage/" + kepoiName
    case ModelPrecision => "/model_precision"
  }

  predicate SendsData(e: Endpoint)
  {
    e.UploadCsv? || e.UpdateHyperparams? || e.SelectCsv? || e.GeneratePlanetImage?
  }

  /** The method a request uses unless the caller names one. */
  function DefaultMethod(e: Endpoint): (m: string)
    ensures m == "POST" || m == "GET"
  {
    match e
    case UploadCsv(_) => "POST"
    case UpdateHyperparams => "POST"
    case SelectCsv(_) => "POST"
    case GeneratePlanetImage => "POST"
    case ExoplanetImage(_) => "GET"
    case ModelPrecision => "GET"
    case _ => "GET"
  }

  const JsonType: string := "application/json"

  /** The headers a request carries unless the caller overrides them. */
  function DefaultHeaders(e: Endpoint): (h: Headers)
    ensures h.Keys <= {"Content-Type", "X-File-Name", "Accept"} && |h.Keys| <= 2
    ensures "X-File-Name" in h <==> e.UploadCsv?
  {
    match e
    case UploadCsv(filename) => map["Content-Type" := "application/octet-stream", "X-File-Name" := filename]
    case UpdateHyperparams => map["Content-Type" := JsonType]
    case GeneratePlanetImage => map["Content-Type" := JsonType]
    case ModelPrecision => map["Accept" := JsonType]
    case _ => map[]
  }

  // ---------------------------------------------------------------------
  // Reading an endpoint back off its path

  /** The rest of `s` after `prefix`, when `s` starts with it. */
  function After(prefix: string, s: string): (r: Option<string>)
    ensures r.Some? <==> prefix <= s
    ensures r.Some? ==> s == prefix + r.value
  {
    if prefix <= s then Some(s[|prefix|..]) else None
  }

  /**
   * The endpoint a path names. The upload endpoint's file name travels in a
   * header, not in the path, so it reads back as the empty name.
   */
  function RouteOf(p: string): Option<Endpoint>
  {
    if p == "/GeneralData" then Some(GeneralData)
    else if p == "/upload_raw" then Some(UploadCsv(""))
    else if p == "/csvs" then Some(ListCsvs)
    else if p == "/Gemini/ExplainGeneral" then Some(GeminiExplainGeneral)
    else if p == "/config/hyperparams" then Some(UpdateHyperparams)
    else if p == "/GeneratePlanetImage" then Some(GeneratePlanetImage)
    else if p == "/model_precision" then Some(ModelPrecision)
    else if After("/planet/kepoi/", p).Some? then Some(PlanetKoi(After("/planet/kepoi/", p).value))
    else if After("/Gemini/ExplainSpecific/", p).Some? then Some(GeminiExplainSpecific(After("/Gemini/ExplainSpecific/", p).value))
    else if After("/ExoplanetImage/", p).Some? then Some(ExoplanetImage(After("/ExoplanetImage/", p).value))
    else if After("/csvs/select/", p).Some? && |p| >= 17 && p[|p| - 4..] == ".csv" then Some(SelectCsv(p[13..|p| - 4]))
    else None
  }

  /** Two texts that differ at a position both have are different. */
  lemma DiffersAt(s: string, t: string, i: nat)
    requires i < |s| && i < |t| && s[i] != t[i]
    ensures s != t
  {
  }

  /** The path of a fixed endpoint is none of the other fixed paths. */
  lemma PrefixedPathsAreNotFixed(prefix: string, rest: string, c: char)
    requires |prefix| > 2 && prefix[1] == c
    requires c != 'G' && c != 'u' && c != 'c' && c != 'm'
    ensures var p := prefix + rest;
      p != "/GeneralData" && p != "/upload_raw" && p != "/csvs" && p != "/Gemini/ExplainGeneral"
      && p != "/config/hyperparams" && p != "/GeneratePlanetImage" && p != "/model_precision"
  {
    var p := prefix + rest;
    assert p[1] == c;
  }

  lemma KoiPathRoundTrip(id: string)
    ensures RouteOf(Path(PlanetKoi(id))) == Some(PlanetKoi(id))
  {
    PrefixedPathsAreNotFixed("/planet/kepoi/", id, 'p');
  }

  lemma SpecificPathRoundTrip(k: string)
    ensures RouteOf(Path(GeminiExplainSpecific(k))) == Some(GeminiExplainSpecific(k))
  {
    var p := Path(GeminiExplainSpecific(k));
    assert p[..23] == "/Gemini/ExplainSpecific";
    DiffersAt(p, "/Gemini/ExplainGeneral", 15);
    assert p != "/GeneralData" && p != "/GeneratePlanetImage" by {
      assert p[2] == 'e';
    }
    assert p[1] == 'G';
    assert !("/planet/kepoi/" <= p);
  }

  lemma ImagePathRoundTrip(k: string)
    ensures RouteOf(Path(ExoplanetImage(k))) == Some(ExoplanetImage(k))
  {
    var p := Path(ExoplanetImage(k));
    PrefixedPathsAreNotFixed("/ExoplanetImage/", k, 'E');
    assert p[1] == 'E';
    assert !("/planet/kepoi/" <= p) && !("/Gemini/ExplainSpecific/" <= p);
  }

  lemma SelectPathRoundTrip(name: string)
    ensures RouteOf(Path(SelectCsv(name))) == Some(SelectCsv(name))
  {
    var p := Path(SelectCsv(name));
    var pre, suf := "/csvs/select/", ".csv";
    assert p == pre + (name + suf);
    assert |p| >= 17 && p[1] == 'c' && p[2] == 's';
    assert pre <= p by {
      assert p[..13] == pre;
    }
    DiffersAt(p, "/GeneralData", 1);
    DiffersAt(p, "/upload_raw", 1);
    DiffersAt(p, "/Gemini/ExplainGeneral", 1);
    DiffersAt(p, "/config/hyperparams", 2);
    DiffersAt(p, "/GeneratePlanetImage", 1);
    DiffersAt(p, "/model_precision", 1);
    NotPrefixAt("/planet/kepoi/", p, 1);
    NotPrefixAt("/Gemini/ExplainSpecific/", p, 1);
    NotPrefixAt("/ExoplanetImage/", p, 1);
    assert p[|p| - 4..] == suf && p[13..|p| - 4] == name;
  }

  /** A text that differs from `prefix` at a position both have does not start with it. */
  lemma NotPrefixAt(prefix: string, s: string, i: nat)
    requires i < |prefix| && i < |s| && prefix[i] != s[i]
    ensures !(prefix <= s)
  {
  }

  /**
   * Every endpoint can be read back off its path, so no two endpoints share
   * a path; only the upload endpoint's file name is not in it.
   */
  lemma PathRoundTrip(e: Endpoint)
    ensures RouteOf(Path(e)) == Some(if e.UploadCsv? then UploadCsv("") else e)
  {
    match e
    case PlanetKoi(id) => KoiPathRoundTrip(id);
    case GeminiExplainSpecific(k) => SpecificPathRoundTrip(k);
    case ExoplanetImage(k) => ImagePathRoundTrip(k);
    case SelectCsv(name) => SelectPathRoundTrip(name);
    case _ =>
  }

  /** The paths of two endpoints agree only when the endpoints do, up to the upload file name. */
  lemma PathInjective(a: Endpoint, b: Endpoint)
    requires Path(a) == Path(b)
    ensures a == b || (a.UploadCsv? && b.UploadCsv?)
  {
    PathRoundTrip(a);
    PathRoundTrip(b);
  }

  /** Every endpoint that sends a content type is one that sends data with POST. */
  lemma ContentTypeOnlyWhenPosting(e: Endpoint)
    ensures "Content-Type" in DefaultHeaders(e) ==> SendsData(e) && DefaultMethod(e) == "POST"
    ensures DefaultMethod(e) == "POST" <==> SendsData(e)
  {
  }

  /** The upload's headers are exactly its content type and its file name. */
  lemma UploadHeaders(f: string)
    ensures DefaultHeaders(UploadCsv(f)).Keys == {"Content-Type", "X-File-Name"}
    ensures DefaultHeaders(UploadCsv(f))["Content-Type"] == "application/octet-stream"
    ensures DefaultHeaders(UploadCsv(f))["X-File-Name"] == f
  {
  }

  /**
   * The two JSON senders declare a JSON body, the precision report asks for
   * JSON back, and no other endpoint besides the upload has default headers.
   */
  lemma NonUploadHeaders(e: Endpoint)
    ensures e.UpdateHyperparams? || e.GeneratePlanetImage? ==> DefaultHeaders(e) == map["Content-Type" := "application/json"]
    ensures e.ModelPrecision? ==> DefaultHeaders(e) == map["Accept" := "application/json"]
    ensures DefaultHeaders(e) == map[] <==>
      !(e.UploadCsv? || e.UpdateHyperparams? || e.GeneratePlanetImage? || e.ModelPrecision?)
  {
    if e.UploadCsv? {
      assert "X-File-Name" in DefaultHeaders(e);
    } else if e.UpdateHyperparams? || e.GeneratePlanetImage? || e.ModelPrecision? {
      assert DefaultHeaders(e).Keys != {};
    }
  }

  // ---------------------------------------------------------------------
  // URLs and requests

  /** The parts of a URL; no query items at all when the query is empty. */
  datatype Url = Url(scheme: string, host: string, path: string, queryItems: Option<map<string, string>>)

  function UrlOf(e: Endpoint, query: map<string, string>): (u: Url)
    ensures u.scheme == Scheme && u.host == Host && u.path == Path(e)
    ensures u.queryItems.None? <==> query == map[]
    ensures u.queryItems.Some? ==> u.queryItems.value == query
  {
    Url(Scheme, Host, Path(e), if query == map[] then None else Some(query))
  }

  /** `defaults.merging(extra) { _, new in new }`. */
  function Merge(defaults: Headers, extra: Headers): (h: Headers)
    ensures h.Keys == defaults.Keys + extra.Keys
    ensures forall k :: k in extra ==> h[k] == extra[k]
    ensures forall k :: k in defaults && k !in extra ==> h[k] == defaults[k]
  {
    defaults + extra
  }

  /** Merging nothing keeps the defaults; merging the same headers twice changes nothing more. */
  lemma MergeLaws(defaults: Headers, extra: Headers)
    ensures Merge(defaults, map[]) == defaults
    ensures Merge(map[], extra) == extra
    ensures Merge(Merge(defaults, extra), extra) == Merge(defaults, extra)
  {
  }

  datatype Request = Request(url: Url, verb: string, headers: Headers, body: Option<seq<bv8>>)

  /** `request(body:query:extraHeaders:)`: the endpoint's method, its headers under the caller's. */
  function BuildRequest(e: Endpoint, body: Option<seq<bv8>>, query: map<string, string>, extra: Headers): (r: Request)
    ensures r.url == UrlOf(e, query) && r.verb == DefaultMethod(e) && r.body == body
    ensures r.headers == Merge(DefaultHeaders(e), extra)
  {
    Request(UrlOf(e, query), DefaultMethod(e), Merge(DefaultHeaders(e), extra), body)
  }

  /** `request(method:headers:body:query:)`: the caller's method, whatever the endpoint's would be. */
  function BuildLegacyRequest(e: Endpoint, verb: string, headers: Headers, body: Option<seq<bv8>>, query: map<string, string>): (r: Request)
    ensures r.url == UrlOf(e, query) && r.verb == verb && r.body == body
    ensures r.headers == Merge(DefaultHeaders(e), headers)
  {
    Request(UrlOf(e, query), verb, Merge(DefaultHeaders(e), headers), body)
  }

  /** The two ways of building a request agree exactly when the caller names the endpoint's own method. */
  lemma LegacyAgreesOnDefaultMethod(e: Endpoint, verb: string, headers: Headers, body: Option<seq<bv8>>, query: map<string, string>)
    ensures BuildLegacyRequest(e, verb, headers, body, query) == BuildRequest(e, body, query, headers)
      <==> verb == DefaultMethod(e)
  {
  }

  /**
   * The legacy overload with its default GET builds the same request as the
   * endpoint's own builder exactly for the endpoints that do not post.
   */
  lemma LegacyDefaultIsGet(e: Endpoint, body: Option<seq<bv8>>)
    ensures BuildLegacyRequest(e, "GET", map[], body, map[]) == BuildRequest(e, body, map[], map[])
      <==> DefaultMethod(e) == "GET"
  {
    LegacyAgreesOnDefaultMethod(e, "GET", map[], body, map[]);
  }

  /** A caller's header replaces the default of the same name and keeps the others. */
  lemma CallerHeaderWins(e: Endpoint, body: Option<seq<bv8>>, name: string, value: string)
    ensures BuildRequest(e, body, map[], map[name := value]).headers == DefaultHeaders(e)[name := value]
  {
    MergeOne(DefaultHeaders(e), name, value);
  }

  lemma MergeOne(defaults: Headers, name: string, value: string)
    ensures Merge(defaults, map[name := value]) == defaults[name := value]
  {
  }

  // ---------------------------------------------------------------------
  // The hyper-parameter body

  /** The body of a hyper-parameter update. */
  datatype Hyperparams = Hyperparams(numest: int, mxdepth: int, randstate: int)

  /** The synthesized `encode(to:)`: one member per field, under the field's name. */
  function EncodeHyperparams(h: Hyperparams): (v: Value)
    ensures v.Object? && Keys(v.members) == ["numest", "mxdepth", "randstate"]
  {
    Object([Member("numest", Int(h.numest)), Member("mxdepth", Int(h.mxdepth)), Member("randstate", Int(h.randstate))])
  }

  /** The synthesized `init(from:)`. */
  function DecodeHyperparams(v: Value): (r: Result<Hyperparams, DecodeError>)
    ensures r.Ok? <==>
      v.Object? && IsSwiftInt(GetOrNull(v.members, "numest")) && IsSwiftInt(GetOrNull(v.members, "mxdepth"))
      && IsSwiftInt(GetOrNull(v.members, "randstate"))
  {
    if !v.Object? then Err(TypeMismatch)
    else
      var numest :- DecodeKey(v.members, "numest", DecodeInt);
      var mxdepth :- DecodeKey(v.members, "mxdepth", DecodeInt);
      var randstate :- DecodeKey(v.members, "randstate", DecodeInt);
      Ok(Hyperparams(numest, mxdepth, randstate))
  }

  /** Decoding an encoded body gives the same values back, for values a Swift `Int` holds. */
  lemma HyperparamsRoundTrip(h: Hyperparams)
    requires InInt64(h.numest) && InInt64(h.mxdepth) && InInt64(h.randstate)
    ensures DecodeHyperparams(EncodeHyperparams(h)) == Ok(h)
  {
    var ms := EncodeHyperparams(h).members;
    assert DistinctKeys(ms);
    GetDistinct(ms, 0);
    GetDistinct(ms, 1);
    GetDistinct(ms, 2);
  }
}
