/**
 * The server's planet-image endpoints: choosing the planet and the file name
 * for a generated image (`POST /GeneratePlanetImage`), and finding a stored
 * image for a KOI name (`GET /ExoplanetImage/<name>`).
 *
 * Prompt building and the image generator itself are not part of this
 * module: a lookup that succeeds ends in `Generate`, carrying the planet's
 * entry and the name to save under.
 */
module NasaImages {
  import opened Wrappers
  import opened Text
  import opened Json
  import opened Py
  import opened NasaEntries

  // ---------------------------------------------------------------------
  // Choosing the planet

  /** pandas' `cell == k` for an integer `k`. */
  predicate CellEqualsInt(v: Value, k: int)
  {
    match v
    case Int(i) => i == k
    case Float(x) => x == k as real
    case Bool(b) => (if b then 1 else 0) == k
    case _ => false
  }

  /**
   * The rows whose `kepid` equals `k`, in frame order: every such row and
   * only those, as many as the frame holds.
   */
  function RowsWithKepid(f: Frame, k: int): (m: seq<Row>)
    ensures forall i :: 0 <= i < |m| ==> "kepid" in m[i] && CellEqualsInt(m[i]["kepid"], k)
    ensures forall i :: 0 <= i < |f.rows| && "kepid" in f.rows[i] && CellEqualsInt(f.rows[i]["kepid"], k) ==> f.rows[i] in m
    ensures |m| == Count(f.rows, row => "kepid" in row && CellEqualsInt(row["kepid"], k))
    ensures IsSubsequence(m, f.rows)
  {
    FilterIsSubsequence(f.rows, row => "kepid" in row && CellEqualsInt(row["kepid"], k));
    FilterComplete(f.rows, row => "kepid" in row && CellEqualsInt(row["kepid"], k));
    FilterKeepsCount(f.rows, row => "kepid" in row && CellEqualsInt(row["kepid"], k));
    Filter(f.rows, row => "kepid" in row && CellEqualsInt(row["kepid"], k))
  }

  /**
   * The name a generated image is saved under: the entry's KOI name, else its
   * display name. With neither, the handler's timestamp fallback fails, so
   * there is no name.
   */
  function SaveName(entry: seq<Member>): (r: Option<string>)
    ensures r.Some? ==> r.value != ""
  {
    var koi := GetOrNull(entry, "kepoi_name");
    var name := GetOrNull(entry, "name");
    if koi.Str? && koi.s != "" then Some(koi.s)
    else if name.Str? && name.s != "" then Some(name.s)
    else None
  }

  /** What the handler does once it has read the body. */
  datatype ImageJob = Rejected(reply: Reply) | Generate(entry: seq<Member>, saveName: string)

  /** The rows the body selects, or the reply that ends the request first. */
  function SelectedRows(conv: Conversions, f: Frame, body: seq<Member>): Result<seq<Row>, Reply>
  {
    var kepid := GetOrNull(body, "kepid");
    var koi := GetOrNull(body, "kepoi_name");
    if kepid != Null then
      match ToInt(conv, kepid)
      case None => Err(ErrorReply(400, "Invalid kepid"))
      case Some(k) => if "kepid" in f.columns then Ok(RowsWithKepid(f, k)) else Err(Uncaught)
    else if Truthy(koi) then
      if "kepoi_name" in f.columns then Ok(MatchingRows(conv, f, ToStr(conv, koi))) else Err(Uncaught)
    else Err(ErrorReply(400, "Provide 'kepid' or 'kepoi_name' in body"))
  }

  /** `POST /GeneratePlanetImage` up to the call of the image generator. */
  function PlanetImageJob(conv: Conversions, frame: Option<Frame>, body: Value): (r: ImageJob)
    ensures frame.None? ==> r == Rejected(ErrorReply(400, "Data not loaded / model not trained"))
    ensures r.Generate? ==>
      && frame.Some? && body.Object?
      && var rows := SelectedRows(conv, frame.value, body.members);
      && rows.Ok? && rows.value != []
      && r.entry == RowToGeneralEntry(conv, rows.value[0])
      && SaveName(r.entry) == Some(r.saveName)
    ensures r.Generate? <==>
      && frame.Some? && body.Object?
      && var rows := SelectedRows(conv, frame.value, body.members);
      && rows.Ok? && rows.value != []
      && SaveName(RowToGeneralEntry(conv, rows.value[0])).Some?
    ensures frame.Some? && !body.Object? ==> r == Rejected(Uncaught)
    ensures frame.Some? && body.Object? && SelectedRows(conv, frame.value, body.members).Err? ==>
      r == Rejected(SelectedRows(conv, frame.value, body.members).error)
    ensures r == Rejected(ErrorReply(404, "No matching planet found")) <==>
      frame.Some? && body.Object? && SelectedRows(conv, frame.value, body.members) == Ok([])
    ensures (frame.Some? && body.Object? &&
      var rows := SelectedRows(conv, frame.value, body.members);
      rows.Ok? && rows.value != [] && SaveName(RowToGeneralEntry(conv, rows.value[0])).None?) ==>
      r == Rejected(Uncaught)
  {
    match frame
    case None => Rejected(ErrorReply(400, "Data not loaded / model not trained"))
    case Some(f) =>
      if !body.Object? then Rejected(Uncaught)
      else match SelectedRows(conv, f, body.members)
        case Err(reply) => Rejected(reply)
        case Ok(rows) =>
          if rows == [] then Rejected(ErrorReply(404, "No matching planet found"))
          else
            var entry := RowToGeneralEntry(conv, rows[0]);
            match SaveName(entry)
            case None => Rejected(Uncaught)
            case Some(name) => Generate(entry, name)
  }

  /** A body with neither a `kepid` nor a non-empty `kepoi_name` is refused with 400. */
  lemma MissingQueryRejected(conv: Conversions, f: Frame, body: seq<Member>)
    ensures PlanetImageJob(conv, Some(f), Object(body)) == Rejected(ErrorReply(400, "Provide 'kepid' or 'kepoi_name' in body"))
      <==> GetOrNull(body, "kepid") == Null && !Truthy(GetOrNull(body, "kepoi_name"))
  {
  }

  lemma GetAppendOther(ms: seq<Member>, m: Member, key: string)
    requires m.key != key
    ensures Get(ms + [m], key) == Get(ms, key)
  {
    assert (ms + [m])[..|ms|] == ms;
  }

  /** With a `kepid` in the body, a `kepoi_name` beside it is ignored. */
  lemma KepidTakesPrecedence(conv: Conversions, frame: Option<Frame>, body: seq<Member>, koi: Value)
    requires GetOrNull(body, "kepid") != Null
    ensures PlanetImageJob(conv, frame, Object(body + [Member("kepoi_name", koi)]))
         == PlanetImageJob(conv, frame, Object(body))
  {
    GetAppendOther(body, Member("kepoi_name", koi), "kepid");
  }

  /**
   * The save name of a row's entry: its KOI name if non-empty, else its
   * Kepler name if non-empty; with neither there is none.
   */
  lemma SaveNameOfRow(conv: Conversions, row: Row)
    ensures var koi := SafeStr(conv, row, "kepoi_name");
      var kepler := SafeStr(conv, row, "kepler_name");
      SaveName(RowToGeneralEntry(conv, row)) ==
        if koi.Some? && koi.value != "" then koi
        else if kepler.Some? && kepler.value != "" then kepler
        else None
  {
    EntryKoiName(conv, row);
    EntryDisplayName(conv, row);
  }

  // ---------------------------------------------------------------------
  // Finding a stored image

  /** One entry of the image directory. */
  datatype DirEntry = DirEntry(name: string, isFile: bool)

  datatype ImageLookup = NoDirectory | Serve(file: string) | NotFound

  /** The file names tried first, in order. */
  function Candidates(safe: string): seq<string>
  {
    [safe + ".png", safe + ".jpg", safe + ".jpeg", safe]
  }

  predicate IsFile(listing: seq<DirEntry>, name: string)
  {
    DirEntry(name, true) in listing
  }

  /** The first of `names` that is a file of the directory. */
  function FirstFile(names: seq<string>, listing: seq<DirEntry>): (r: Option<string>)
    ensures r.Some? ==> r.value in names && IsFile(listing, r.value)
    ensures r.None? <==> forall i :: 0 <= i < |names| ==> !IsFile(listing, names[i])
  {
    if names == [] then None
    else if IsFile(listing, names[0]) then Some(names[0])
    else FirstFile(names[1..], listing)
  }

  predicate HasPrefix(e: DirEntry, lowerPrefix: string)
  {
    lowerPrefix <= Lower(e.name)
  }

  /**
   * The first entry of `listing` whose lower-cased name starts with
   * `lowerPrefix`. The listing's order is whatever `os.listdir` returns, which
   * is arbitrary: when several entries match, which one is served is not
   * determined by the server.
   */
  function FirstWithPrefix(listing: seq<DirEntry>, lowerPrefix: string): (r: Option<string>)
    ensures r.Some? ==> exists i :: 0 <= i < |listing| && listing[i].name == r.value && HasPrefix(listing[i], lowerPrefix)
    ensures r.None? <==> forall i :: 0 <= i < |listing| ==> !HasPrefix(listing[i], lowerPrefix)
  {
    if listing == [] then None
    else if HasPrefix(listing[0], lowerPrefix) then Some(listing[0].name)
    else
      var r := FirstWithPrefix(listing[1..], lowerPrefix);
      assert forall i :: 1 <= i < |listing| ==> listing[i] == listing[1..][i - 1];
      r
  }

  /** The file served for the secured name `safe`. */
  function ImageChoice(dirExists: bool, listing: seq<DirEntry>, safe: string): ImageLookup
  {
    if !dirExists then NoDirectory
    else match FirstFile(Candidates(safe), listing)
      case Some(n) => Serve(n)
      case None =>
        match FirstWithPrefix(listing, Lower(safe))
        case Some(n) => Serve(n)
        case None => NotFound
  }

  /** `GET /ExoplanetImage/<name>` after the name has been secured. */
  method FindImage(dirExists: bool, listing: seq<DirEntry>, safe: string) returns (r: ImageLookup)
    ensures r == ImageChoice(dirExists, listing, safe)
  {
    if !dirExists {
      return NoDirectory;
    }
    var candidates := Candidates(safe);
    for i := 0 to |candidates|
      invariant FirstFile(candidates, listing) == FirstFile(candidates[i..], listing)
    {
      assert candidates[i..][1..] == candidates[i + 1..];
      if DirEntry(candidates[i], true) in listing {
        return Serve(candidates[i]);
      }
    }
    var lowerSafe := Lower(safe);
    for j := 0 to |listing|
      invariant FirstWithPrefix(listing, lowerSafe) == FirstWithPrefix(listing[j..], lowerSafe)
    {
      assert listing[j..][1..] == listing[j + 1..];
      if lowerSafe <= Lower(listing[j].name) {
        return Serve(listing[j].name);
      }
    }
    return NotFound;
  }

  /** A `.png` file with the name is preferred over every other match. */
  lemma PngPreferred(listing: seq<DirEntry>, safe: string)
    requires IsFile(listing, safe + ".png")
    ensures ImageChoice(true, listing, safe) == Serve(safe + ".png")
  {
  }

  /** The candidates are tried in order: the first that is a file is served. */
  lemma CandidateOrder(listing: seq<DirEntry>, safe: string, j: nat)
    requires j < 4 && IsFile(listing, Candidates(safe)[j])
    requires forall k :: 0 <= k < j ==> !IsFile(listing, Candidates(safe)[k])
    ensures ImageChoice(true, listing, safe) == Serve(Candidates(safe)[j])
  {
    FirstFileAt(Candidates(safe), listing, j);
  }

  lemma {:induction false} FirstFileAt(names: seq<string>, listing: seq<DirEntry>, j: nat)
    requires j < |names| && IsFile(listing, names[j])
    requires forall k :: 0 <= k < j ==> !IsFile(listing, names[k])
    ensures FirstFile(names, listing) == Some(names[j])
    decreases j
  {
    if j > 0 {
      FirstFileAt(names[1..], listing, j - 1);
    }
  }

  /** Whatever is served is an entry of the directory. */
  lemma ServedIsListed(dirExists: bool, listing: seq<DirEntry>, safe: string)
    ensures ImageChoice(dirExists, listing, safe).Serve? ==>
      exists i :: 0 <= i < |listing| && listing[i].name == ImageChoice(dirExists, listing, safe).file
  {
    var c := FirstFile(Candidates(safe), listing);
    if dirExists && c.Some? {
      var i :| 0 <= i < |listing| && listing[i] == DirEntry(c.value, true);
    }
  }

  /**
   * Nothing is found exactly when no candidate is a file and no entry starts
   * with the name, ignoring case.
   */
  lemma NotFoundExactly(dirExists: bool, listing: seq<DirEntry>, safe: string)
    ensures ImageChoice(dirExists, listing, safe) == NotFound <==>
      && dirExists
      && (forall i :: 0 <= i < 4 ==> !IsFile(listing, Candidates(safe)[i]))
      && (forall i :: 0 <= i < |listing| ==> !(Lower(safe) <= Lower(listing[i].name)))
  {
  }
}
