/**
 * The image generator's client side: the file name an exoplanet's image is
 * saved under, the reading of the inference service's response, and the
 * decisions `generate_image` takes before and after its one request.
 *
 * The request itself, image decoding and file writes are outside the model:
 * the outcome of the request is a parameter, and a successful call ends in
 * `Save`, naming the file the image is written to.
 */
module ImageGen {
  import opened Wrappers
  import opened Text
  import opened Json
  import opened Py

  // ---------------------------------------------------------------------
  // File names

  /** The characters `[A-Za-z0-9._-]` a saved file name may contain. */
  predicate IsSafeChar(c: char)
  {
    ('A' <= c <= 'Z') || ('a' <= c <= 'z') || ('0' <= c <= '9') || c == '.' || c == '_' || c == '-'
  }

  predicate AllSafe(s: string) { forall i :: 0 <= i < |s| ==> IsSafeChar(s[i]) }

  /** `s.replace(' ', '_')`. */
  function SpacesToUnderscores(s: string): (r: string)
    ensures |r| == |s|
    ensures forall i :: 0 <= i < |s| ==> r[i] == if s[i] == ' ' then '_' else s[i]
  {
    seq(|s|, i requires 0 <= i < |s| => if s[i] == ' ' then '_' else s[i])
  }

  /** `_sanitize_name`: strip, spaces to underscores, drop unsafe characters, and never empty. */
  function SanitizeName(name: string): (r: string)
    ensures r != []
    ensures AllSafe(r)
  {
    var kept := Filter(SpacesToUnderscores(Strip(name)), IsSafeChar);
    if kept == [] then "image" else kept
  }

  /**
   * The name is what is left of the stripped, underscored text once the
   * unsafe characters are dropped, in order; every safe character stays.
   */
  lemma SanitizeKeepsSafeCharacters(name: string)
    ensures var u := SpacesToUnderscores(Strip(name));
      || (SanitizeName(name) == "image" && Count(u, IsSafeChar) == 0)
      || (IsSubsequence(SanitizeName(name), u) && |SanitizeName(name)| == Count(u, IsSafeChar))
  {
    var u := SpacesToUnderscores(Strip(name));
    FilterIsSubsequence(u, IsSafeChar);
    FilterKeepsCount(u, IsSafeChar);
  }

  lemma SafeIsNotSpace(c: char)
    requires IsSafeChar(c)
    ensures !IsSpace(c) && c != ' '
  {
  }

  lemma SafeHasNoSpace(s: string)
    requires AllSafe(s)
    ensures NoSpace(s) && forall i :: 0 <= i < |s| ==> s[i] != ' '
  {
    forall i | 0 <= i < |s|
      ensures !IsSpace(s[i]) && s[i] != ' '
    {
      SafeIsNotSpace(s[i]);
    }
  }

  lemma UnderscoresWithoutSpaces(s: string)
    requires forall i :: 0 <= i < |s| ==> s[i] != ' '
    ensures SpacesToUnderscores(s) == s
  {
  }

  /** Stripping and underscoring leave a text of safe characters as it is. */
  lemma PrepareSafe(s: string)
    requires AllSafe(s)
    ensures SpacesToUnderscores(Strip(s)) == s
  {
    SafeHasNoSpace(s);
    StripNoSpace(s);
    UnderscoresWithoutSpaces(s);
  }

  /** A text of safe characters is its own sanitised name. */
  lemma SanitizeSafe(s: string)
    requires s != [] && AllSafe(s)
    ensures SanitizeName(s) == s
  {
    PrepareSafe(s);
    FilterAll(s, IsSafeChar);
  }

  /** Sanitising twice gives what sanitising once gives. */
  lemma SanitizeIdempotent(name: string)
    ensures SanitizeName(SanitizeName(name)) == SanitizeName(name)
  {
    SanitizeSafe(SanitizeName(name));
  }

  /** Stripping leaves a text alone when it starts and ends with a safe character. */
  lemma StripSafeEnds(s: string)
    requires s != [] && IsSafeChar(s[0]) && IsSafeChar(s[|s| - 1])
    ensures Strip(s) == s
  {
    SafeIsNotSpace(s[0]);
    SafeIsNotSpace(s[|s| - 1]);
    TrimStartNoSpace(s);
  }

  lemma UnderscoreInside(a: string, b: string)
    requires forall i :: 0 <= i < |a| ==> a[i] != ' '
    requires forall i :: 0 <= i < |b| ==> b[i] != ' '
    ensures SpacesToUnderscores(a + " " + b) == a + "_" + b
  {
  }

  /** An inner space becomes an underscore: "Kepler 22b" is saved as "Kepler_22b". */
  lemma InnerSpaceBecomesUnderscore(a: string, b: string)
    requires a != [] && b != [] && AllSafe(a) && AllSafe(b)
    ensures SanitizeName(a + " " + b) == a + "_" + b
  {
    var s := a + " " + b;
    assert s[0] == a[0] && s[|s| - 1] == b[|b| - 1];
    StripSafeEnds(s);
    SafeHasNoSpace(a);
    SafeHasNoSpace(b);
    var u := a + "_" + b;
    UnderscoreInside(a, b);
    assert AllSafe(u);
    FilterAll(u, IsSafeChar);
  }

  // ---------------------------------------------------------------------
  // Reading the response

  /** What the request returned; `json` is `None` where `response.json()` raises. */
  datatype ApiResponse = ApiResponse(status: int, contentType: string, text: string, content: seq<bv8>, json: Option<Value>)

  /** What `_detect_content_type_and_return` gives back. */
  datatype Classified = ErrorDict(error: string, details: string) | Parsed(value: Value) | Raw(content: seq<bv8>)

  /** `_detect_content_type_and_return`. */
  function Classify(resp: ApiResponse): (r: Classified)
    ensures r.ErrorDict? ==> r.error != "" && r.details == resp.text
    ensures r.Parsed? ==> resp.json == Some(r.value) && IsSubstring("application/json", resp.contentType)
    ensures r.Raw? ==>
      && r.content == resp.content
      && !IsSubstring("text/plain", resp.contentType) && !IsSubstring("application/json", resp.contentType)
      && (IsSubstring("image", resp.contentType) || resp.status == 200)
  {
    var ct := resp.contentType;
    if IsSubstring("text/plain", ct) then ErrorDict("Plain text error from API", resp.text)
    else if IsSubstring("application/json", ct) then
      match resp.json
      case Some(v) => Parsed(v)
      case None => ErrorDict("Invalid JSON from API", resp.text)
    else if IsSubstring("image", ct) || resp.status == 200 then Raw(resp.content)
    else ErrorDict("Unexpected content type: " + ct, resp.text)
  }

  /** Plain text is an error even with status 200 and whatever else the content type names. */
  lemma PlainTextIsError(resp: ApiResponse, before: string, after: string)
    requires resp.contentType == before + "text/plain" + after
    ensures Classify(resp) == ErrorDict("Plain text error from API", resp.text)
  {
    SubstringOfConcat(before, "text/plain", after);
  }

  /**
   * A response is read as raw image bytes exactly when it is neither plain
   * text nor JSON, and names an image or has status 200.
   */
  lemma RawExactly(resp: ApiResponse)
    ensures Classify(resp).Raw? <==>
      && !IsSubstring("text/plain", resp.contentType) && !IsSubstring("application/json", resp.contentType)
      && (IsSubstring("image", resp.contentType) || resp.status == 200)
  {
  }

  /** JSON that does not parse is reported, never passed on. */
  lemma InvalidJsonReported(resp: ApiResponse)
    requires !IsSubstring("text/plain", resp.contentType) && IsSubstring("application/json", resp.contentType)
    ensures Classify(resp).Parsed? <==> resp.json.Some?
    ensures resp.json.None? ==> Classify(resp) == ErrorDict("Invalid JSON from API", resp.text)
  {
  }

  // ---------------------------------------------------------------------
  // generate_image

  /** The outcome of `requests.post`: an exception's message, or the response. */
  datatype PostOutcome = PostFailed(reason: string) | Responded(resp: ApiResponse)

  /** What `generate_image` ends in: a dictionary it returns, or the file an image is written to. */
  datatype Generation = Return(value: Value) | Save(target: string, content: seq<bv8>)

  function Failure(error: string): Value
  {
    Object([Member("ok", Bool(false)), Member("error", Str(error))])
  }

  function FailureWith(error: string, details: Value): Value
  {
    Object([Member("ok", Bool(false)), Member("error", Str(error)), Member("details", details)])
  }

  const NoTokenError: string := "No HuggingFace token provided. Set HF_TOKEN env var or pass hf_token."

  /** `hf_token or DEFAULT_HF_TOKEN`, then whether it is usable. */
  function Token(hfToken: Option<string>, defaultToken: Option<string>): Option<string>
  {
    if hfToken.Some? && hfToken.value != "" then hfToken else defaultToken
  }

  function StatusError(status: int): string
  {
    "Model call failed (status " + Decimal(status) + ")"
  }

  /** The directory images named after an exoplanet go to. */
  function ExoplanetDir(cwd: string): string
  {
    Join(cwd, "exoplanets")
  }

  /** Where the image bytes are written: under the exoplanet directory when a name is given. */
  function Target(cwd: string, outputPath: Option<string>, exoplanetName: Option<string>, now: int): string
  {
    if exoplanetName.Some? && exoplanetName.value != "" then Join(ExoplanetDir(cwd), SanitizeName(exoplanetName.value) + ".png")
    else outputPath.GetOr("generated_image_" + Decimal(now) + ".png")
  }

  /**
   * `generate_image` given the outcome of its request. `now` is `time.time()`
   * truncated to seconds.
   */
  function GenerateImage(hfToken: Option<string>, defaultToken: Option<string>, post: PostOutcome,
                         cwd: string, outputPath: Option<string>, exoplanetName: Option<string>, now: int): (g: Generation)
    ensures Token(hfToken, defaultToken).GetOr("") == "" ==> g == Return(Failure(NoTokenError))
    ensures g.Save? <==>
      Token(hfToken, defaultToken).GetOr("") != "" && post.Responded? && post.resp.status < 400 && Classify(post.resp).Raw?
    ensures g.Save? ==> Classify(post.resp) == Raw(g.content) && g.target == Target(cwd, outputPath, exoplanetName, now)
  {
    var token := Token(hfToken, defaultToken);
    if token.None? || token.value == "" then Return(Failure(NoTokenError))
    else match post
      case PostFailed(reason) => Return(Failure("Request failed: " + reason))
      case Responded(resp) =>
        if resp.status >= 400 then
          var detail := match resp.json case Some(v) => v case None => Str(resp.text);
          Return(FailureWith(StatusError(resp.status), detail))
        else match Classify(resp)
          case ErrorDict(e, d) => Return(FailureWith(e, Str(d)))
          case Parsed(v) =>
            if v.Object? && Truthy(GetOrNull(v.members, "error")) then Return(Object([Member("ok", Bool(false))] + v.members))
            else Return(FailureWith("Unexpected JSON response", v))
          case Raw(content) => Save(Target(cwd, outputPath, exoplanetName, now), content)
  }

  /** Without a token nothing is requested: the outcome of the request does not matter. */
  lemma NoTokenBeforeRequest(hfToken: Option<string>, defaultToken: Option<string>, p1: PostOutcome, p2: PostOutcome,
                             cwd: string, outputPath: Option<string>, exoplanetName: Option<string>, now: int)
    requires Token(hfToken, defaultToken).GetOr("") == ""
    ensures GenerateImage(hfToken, defaultToken, p1, cwd, outputPath, exoplanetName, now)
         == GenerateImage(hfToken, defaultToken, p2, cwd, outputPath, exoplanetName, now)
  {
  }

  /** A failing status is reported with `ok` false and the status written out in the message. */
  lemma FailingStatusReported(token: string, resp: ApiResponse, cwd: string, outputPath: Option<string>, exoplanetName: Option<string>, now: int)
    requires token != "" && resp.status >= 400
    ensures var g := GenerateImage(Some(token), None, Responded(resp), cwd, outputPath, exoplanetName, now);
      && g.Return? && g.value.Object?
      && GetOrNull(g.value.members, "ok") == Bool(false)
      && GetOrNull(g.value.members, "error").Str?
      && IsSubstring(Decimal(resp.status), GetOrNull(g.value.members, "error").s)
  {
    var g := GenerateImage(Some(token), None, Responded(resp), cwd, outputPath, exoplanetName, now);
    var ms := g.value.members;
    assert ms[0] == Member("ok", Bool(false)) && ms[1].key == "error" && ms[2].key == "details";
    assert DistinctKeys(ms);
    GetDistinct(ms, 0);
    GetDistinct(ms, 1);
    SubstringOfConcat("Model call failed (status ", Decimal(resp.status), ")");
  }

  /**
   * An error dictionary from the service is passed on with every one of its
   * fields, and `ok` is false unless the dictionary sets `ok` itself.
   */
  lemma ServiceErrorKept(token: string, resp: ApiResponse, ms: seq<Member>, key: string,
                         cwd: string, outputPath: Option<string>, exoplanetName: Option<string>, now: int)
    requires token != "" && resp.status < 400
    requires Classify(resp) == Parsed(Object(ms)) && Truthy(GetOrNull(ms, "error"))
    ensures var g := GenerateImage(Some(token), None, Responded(resp), cwd, outputPath, exoplanetName, now);
      && g.Return? && g.value.Object?
      && (key in Keys(ms) ==> Get(g.value.members, key) == Get(ms, key))
      && ("ok" !in Keys(ms) ==> Get(g.value.members, "ok") == Some(Bool(false)))
  {
    var g := GenerateImage(Some(token), None, Responded(resp), cwd, outputPath, exoplanetName, now);
    assert g == Return(Object([Member("ok", Bool(false))] + ms));
    GetConcat([Member("ok", Bool(false))], ms, key);
    GetConcat([Member("ok", Bool(false))], ms, "ok");
  }

  /**
   * With an exoplanet name the image goes to `exoplanets/<sanitised name>.png`
   * under the working directory, and the file name holds no separator, so
   * the file cannot land outside that directory.
   */
  lemma ExoplanetTarget(cwd: string, outputPath: Option<string>, name: string, now: int)
    requires name != ""
    ensures var safe := SanitizeName(name);
      && Target(cwd, outputPath, Some(name), now) == ExoplanetDir(cwd) + "/" + safe + ".png"
      && '/' !in safe
  {
    var safe := SanitizeName(name);
    SafeHasNoSlash(safe);
    ExoplanetDirEnds(cwd);
    assert Target(cwd, outputPath, Some(name), now) == Join(ExoplanetDir(cwd), safe + ".png");
  }

  lemma SafeHasNoSlash(safe: string)
    requires safe != [] && AllSafe(safe)
    ensures (safe + ".png")[0] != '/' && '/' !in safe
  {
    assert (safe + ".png")[0] == safe[0] && IsSafeChar(safe[0]);
    forall i | 0 <= i < |safe|
      ensures safe[i] != '/'
    {
      assert IsSafeChar(safe[i]);
    }
  }

  lemma ExoplanetDirEnds(cwd: string)
    ensures var dir := ExoplanetDir(cwd); dir != [] && dir[|dir| - 1] == 's'
  {
    var sub := "exoplanets";
    var dir := Join(cwd, sub);
    assert dir == cwd + sub || dir == cwd + "/" + sub;
    assert dir[|dir| - 1] == sub[|sub| - 1];
  }
}
