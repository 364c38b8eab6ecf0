/**
 * How the server's handlers read their request parameters: the `retrain`
 * flag of the upload and selection endpoints, and the file name of
 * `POST /upload_raw`.
 *
 * Headers and query arguments are lists of name/value pairs in the order the
 * request carries them; a lookup answers the first pair that matches.
 */
module NasaRequests {
  import opened Wrappers
  import opened Text
  import opened Json
  import opened Py
  import opened NasaEntries

  // ---------------------------------------------------------------------
  // The retrain flag

  /** The lower-cased texts that ask for a retrain. */
  const TrueWords: set<string> := {"1", "true", "yes"}

  /** `str(x).lower() in ('1', 'true', 'yes')` for a text `x`. */
  predicate IsTrueWord(text: string)
  {
    Lower(text) in TrueWords
  }

  /** The form field of the multipart upload: a missing field reads as the empty text. */
  function FormRetrain(field: Option<string>): (r: bool)
    ensures r ==> field.Some? && 1 <= |field.value| <= 4
  {
    IsTrueWord(field.GetOr(""))
  }

  /** The query argument of `/upload_raw` and `/csvs/select/<name>`: a missing argument is false. */
  function QueryRetrain(arg: Option<string>): (r: bool)
    ensures r ==> arg.Some? && 1 <= |arg.value| <= 4
  {
    match arg
    case None => false
    case Some(q) => IsTrueWord(q)
  }

  /** The two spellings of the flag agree on every input, the missing one included. */
  lemma FormAndQueryAgree(arg: Option<string>)
    ensures FormRetrain(arg) == QueryRetrain(arg)
  {
    if arg.None? {
      assert Lower("") == "";
    }
  }

  lemma LowerOfUpper(s: string)
    ensures Lower(Upper(s)) == Lower(s)
  {
    forall i | 0 <= i < |s|
      ensures Lower(Upper(s))[i] == Lower(s)[i]
    {
      var c := s[i];
      if 'a' <= c <= 'z' {
        assert UpperChar(c) == (c as int - 32) as char;
      }
    }
  }

  /** The flag ignores case: "TRUE", "Yes" and "true" all ask for a retrain. */
  lemma RetrainIgnoresCase(text: string)
    ensures IsTrueWord(Upper(text)) == IsTrueWord(text)
  {
    LowerOfUpper(text);
  }

  /**
   * Surrounding whitespace is not stripped: no word with a leading or a
   * trailing space asks for a retrain, and neither does "on".
   */
  lemma RetrainNeedsExactWord(t: string)
    ensures !IsTrueWord(" " + t) && !IsTrueWord(t + " ")
    ensures !IsTrueWord("on")
  {
    var lead, trail := Lower(" " + t), Lower(t + " ");
    assert lead[0] == ' ' && trail[|trail| - 1] == ' ';
    assert Lower("on") == "on";
  }

  /** `bool(body.get('retrain', False))` of a JSON object body. */
  function BodyRetrain(ms: seq<Member>): (r: bool)
    ensures r ==> "retrain" in Keys(ms)
  {
    match Get(ms, "retrain")
    case None => false
    case Some(v) => Truthy(v)
  }

  /** The body of a request to `/csvs/select/<name>`. */
  datatype JsonRequest = NotJson | BadJson | JsonBody(value: Value)

  /**
   * The flag of `POST /csvs/select/<name>`: the query argument when there is
   * one, else the JSON body's `retrain`, else false. `None` is the request
   * whose body makes the handler raise (malformed JSON, or JSON that is not
   * an object).
   */
  function SelectByNameRetrain(arg: Option<string>, body: JsonRequest): (r: Option<bool>)
    ensures arg.Some? ==> r == Some(IsTrueWord(arg.value))
    ensures r.None? <==> arg.None? && (body.BadJson? || (body.JsonBody? && !body.value.Object?))
    ensures arg.None? && body.NotJson? ==> r == Some(false)
    ensures arg.None? && body.JsonBody? && body.value.Object? ==> r == Some(BodyRetrain(body.value.members))
  {
    match arg
    case Some(q) => Some(IsTrueWord(q))
    case None =>
      match body
      case NotJson => Some(false)
      case BadJson => None
      case JsonBody(v) => if v.Object? then Some(BodyRetrain(v.members)) else None
  }

  /** A query argument wins over whatever the body says. */
  lemma QueryWinsOverBody(q: string, body: JsonRequest)
    ensures SelectByNameRetrain(Some(q), body) == SelectByNameRetrain(Some(q), NotJson)
  {
  }

  /** Without a query argument an object body decides, by Python truthiness. */
  lemma BodyDecidesWithoutQuery(ms: seq<Member>, v: Value)
    ensures SelectByNameRetrain(None, JsonBody(Object(ms + [Member("retrain", v)]))) == Some(Truthy(v))
  {
  }

  // ---------------------------------------------------------------------
  // The file name of a raw upload

  /** The value of the first pair whose name satisfies `matches`. */
  function FirstValue(pairs: seq<(string, string)>, matches: string -> bool): (r: Option<string>)
    ensures r.None? <==> forall i :: 0 <= i < |pairs| ==> !matches(pairs[i].0)
    ensures r.Some? ==>
      exists i :: (0 <= i < |pairs| && matches(pairs[i].0) && pairs[i].1 == r.value
                   && forall j :: 0 <= j < i ==> !matches(pairs[j].0))
  {
    if pairs == [] then None
    else if matches(pairs[0].0) then Some(pairs[0].1)
    else
      var r := FirstValue(pairs[1..], matches);
      assert forall i :: 1 <= i < |pairs| ==> pairs[i] == pairs[1..][i - 1];
      r
  }

  /** `request.headers.get(name)`: header names compare without regard to case. */
  function HeaderGet(headers: seq<(string, string)>, name: string): Option<string>
  {
    FirstValue(headers, n => Lower(n) == Lower(name))
  }

  /** When every pair named like `name` carries `v`, and one does, the lookup finds `v`. */
  lemma HeaderGetAgreeing(headers: seq<(string, string)>, name: string, v: string, j: nat)
    requires j < |headers| && Lower(headers[j].0) == Lower(name)
    requires forall i :: 0 <= i < |headers| && Lower(headers[i].0) == Lower(name) ==> headers[i].1 == v
    ensures HeaderGet(headers, name) == Some(v)
  {
  }

  /** `request.args.get(name)`: argument names compare exactly. */
  function ArgGet(args: seq<(string, string)>, name: string): Option<string>
  {
    FirstValue(args, n => n == name)
  }

  const MissingFilename: Reply :=
    ErrorReply(400, "Missing filename. Provide X-Filename header or ?filename query parameter.")

  /**
   * The file name `/upload_raw` saves under, before it is secured: the
   * `X-Filename` header unless empty, else the `filename` argument unless
   * empty; with neither the request is refused.
   */
  function UploadFilename(headers: seq<(string, string)>, args: seq<(string, string)>): (r: Result<string, Reply>)
    ensures r.Ok? ==> r.value != ""
    ensures r.Err? ==> r.error == MissingFilename
    ensures r.Ok? ==> r.value == HeaderGet(headers, "X-Filename").GetOr("") || r.value == ArgGet(args, "filename").GetOr("")
  {
    var header := HeaderGet(headers, "X-Filename").GetOr("");
    if header != "" then Ok(header)
    else
      var arg := ArgGet(args, "filename").GetOr("");
      if arg != "" then Ok(arg) else Err(MissingFilename)
  }

  /** A non-empty header wins over the query argument. */
  lemma HeaderWinsOverQuery(headers: seq<(string, string)>, args: seq<(string, string)>, f: string)
    requires HeaderGet(headers, "X-Filename") == Some(f) && f != ""
    ensures UploadFilename(headers, args) == Ok(f)
  {
  }

  /** The request is refused exactly when neither source gives a non-empty name. */
  lemma FilenameMissingExactly(headers: seq<(string, string)>, args: seq<(string, string)>)
    ensures UploadFilename(headers, args).Err? <==>
      HeaderGet(headers, "X-Filename").GetOr("") == "" && ArgGet(args, "filename").GetOr("") == ""
  {
  }

  /** The header's name may be written in any case. */
  lemma HeaderNameIgnoresCase(f: string)
    requires f != ""
    ensures UploadFilename([("x-filename", f)], []) == Ok(f)
    ensures UploadFilename([("X-FILENAME", f)], []) == Ok(f)
  {
    assert Lower("x-filename") == Lower("X-Filename") == Lower("X-FILENAME") == "x-filename";
  }

  /** `?retrain=` of `/upload_raw`. */
  function UploadRetrain(args: seq<(string, string)>): bool
  {
    QueryRetrain(ArgGet(args, "retrain"))
  }
}
