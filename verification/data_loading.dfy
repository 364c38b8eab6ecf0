/**
 * The data-loading guide: four explanatory steps, a form for the three
 * hyper-parameters whose text fields are sanitised as the user types, a
 * loading pause, and a prompt to pick a CSV file.
 *
 * `Double(String)` is the parameter `parse` of the screen; the pause is the
 * single transition `LoadingFinished`.
 */
module DataLoadingView {
  import opened Wrappers
  import opened Text
  import OnboardingView

  // ---------------------------------------------------------------------
  // Numeric-input sanitiser

  predicate IsNumericChar(c: char) { IsDigit(c) || c == '.' }

  predicate IsDot(c: char) { c == '.' }

  predicate NotDot(c: char) { c != '.' }

  /** The loop's effect on what is left of the text: a dot after the first is skipped. */
  function DropLaterDots(s: string, dotFound: bool): (r: string)
    ensures |r| <= |s|
    ensures forall i :: 0 <= i < |r| ==> r[i] in s
    decreases |s|
  {
    if s == [] then []
    else if s[0] == '.' && dotFound then DropLaterDots(s[1..], true)
    else [s[0]] + DropLaterDots(s[1..], dotFound || s[0] == '.')
  }

  /** The sanitised text: digits and dots only, then only the first dot. */
  function Sanitized(text: string): string
  {
    DropLaterDots(Filter(text, IsNumericChar), false)
  }

  /** One character of the loop, seen from position `i`: `whole` is what the loop builds. */
  lemma SanitizeStep(s: string, i: nat, dotFound: bool, done: string, whole: string)
    requires i < |s| && done + DropLaterDots(s[i..], dotFound) == whole
    ensures s[i] == '.' && dotFound ==> done + DropLaterDots(s[i + 1..], true) == whole
    ensures !(s[i] == '.' && dotFound) ==>
      (done + [s[i]]) + DropLaterDots(s[i + 1..], dotFound || s[i] == '.') == whole
  {
    assert s[i..][1..] == s[i + 1..];
    var tail := DropLaterDots(s[i + 1..], dotFound || s[i] == '.');
    assert done + [s[i]] + tail == done + ([s[i]] + tail);
  }

  /** The field's text after the sanitiser has run over it. */
  method Sanitize(text: string) returns (sanitized: string)
    ensures sanitized == Sanitized(text)
  {
    var result := Filter(text, IsNumericChar);
    var dotFound := false;
    sanitized := "";
    for i := 0 to |result|
      invariant sanitized + DropLaterDots(result[i..], dotFound) == DropLaterDots(result, false)
    {
      var ch := result[i];
      SanitizeStep(result, i, dotFound, sanitized, DropLaterDots(result, false));
      if ch == '.' {
        if dotFound {
          continue;
        }
        dotFound := true;
      }
      sanitized := sanitized + [ch];
    }
    assert result[|result|..] == [];
  }

  /** Once a dot has been kept, every later dot goes and everything else stays. */
  lemma {:induction false} DropAfterDot(t: string)
    ensures DropLaterDots(Filter(t, IsNumericChar), true) == Filter(t, IsDigit)
    decreases |t|
  {
    if t != [] {
      DropAfterDot(t[1..]);
      var rest := Filter(t[1..], IsNumericChar);
      if IsNumericChar(t[0]) {
        assert Filter(t, IsNumericChar) == [t[0]] + rest;
        assert ([t[0]] + rest)[1..] == rest;
      } else {
        assert Filter(t, IsNumericChar) == rest;
      }
    }
  }

  /** Without a dot in the input, sanitising keeps exactly the digits. */
  lemma {:induction false} SanitizedWithoutDot(t: string)
    requires '.' !in t
    ensures Sanitized(t) == Filter(t, IsDigit)
    decreases |t|
  {
    if t != [] {
      assert t[0] != '.';
      assert forall c :: c in t[1..] ==> c in t;
      SanitizedWithoutDot(t[1..]);
      var rest := Filter(t[1..], IsNumericChar);
      if IsNumericChar(t[0]) {
        assert Filter(t, IsNumericChar) == [t[0]] + rest;
        assert ([t[0]] + rest)[1..] == rest;
      } else {
        assert Filter(t, IsNumericChar) == rest;
      }
    }
  }

  /**
   * With its first dot at `k`, the input sanitises to the digits before the
   * dot, the dot, and the digits after it: the first dot is kept and every
   * later one is dropped.
   */
  lemma {:induction false} SanitizedSplitsAtFirstDot(t: string, k: nat)
    requires k < |t| && t[k] == '.' && '.' !in t[..k]
    ensures Sanitized(t) == Filter(t[..k], IsDigit) + "." + Filter(t[k + 1..], IsDigit)
    decreases k
  {
    var rest := Filter(t[1..], IsNumericChar);
    if k == 0 {
      assert Filter(t, IsNumericChar) == ['.'] + rest;
      assert (['.'] + rest)[1..] == rest;
      DropAfterDot(t[1..]);
      assert t[..0] == [];
    } else {
      assert t[0] in t[..k];
      assert t[1..][..k - 1] == t[1..k];
      assert forall c :: c in t[1..k] ==> c in t[..k];
      SanitizedSplitsAtFirstDot(t[1..], k - 1);
      assert t[1..][k..] == t[k + 1..];
      assert t[..k][1..] == t[1..k];
      if IsNumericChar(t[0]) {
        assert Filter(t, IsNumericChar) == [t[0]] + rest;
        assert ([t[0]] + rest)[1..] == rest;
        assert Filter(t[..k], IsDigit) == [t[0]] + Filter(t[1..k], IsDigit);
      } else {
        assert Filter(t, IsNumericChar) == rest;
        assert Filter(t[..k], IsDigit) == Filter(t[1..k], IsDigit);
      }
    }
  }

  /** The sanitised text is digits, with at most one dot among them. */
  lemma SanitizedShape(t: string)
    ensures forall i :: 0 <= i < |Sanitized(t)| ==> IsNumericChar(Sanitized(t)[i])
    ensures forall i, j :: 0 <= i < j < |Sanitized(t)| ==> !(Sanitized(t)[i] == '.' && Sanitized(t)[j] == '.')
  {
    if '.' in t {
      var k := FirstIndex(t, '.');
      SanitizedSplitsAtFirstDot(t, k);
      var a, b := Filter(t[..k], IsDigit), Filter(t[k + 1..], IsDigit);
      assert Sanitized(t) == a + "." + b;
      assert forall i :: 0 <= i < |Sanitized(t)| && i != |a| ==> IsDigit(Sanitized(t)[i]);
    } else {
      SanitizedWithoutDot(t);
    }
  }

  /** Every digit of the input survives, in order. */
  lemma SanitizedKeepsDigits(t: string)
    ensures Filter(Sanitized(t), IsDigit) == Filter(t, IsDigit)
  {
    if '.' in t {
      var k := FirstIndex(t, '.');
      SanitizedSplitsAtFirstDot(t, k);
      var a, b := Filter(t[..k], IsDigit), Filter(t[k + 1..], IsDigit);
      DigitsAroundDot(a, b);
      FilterAll(a, IsDigit);
      FilterAll(b, IsDigit);
      assert t == t[..k] + "." + t[k + 1..];
      DigitsAroundDot(t[..k], t[k + 1..]);
    } else {
      SanitizedWithoutDot(t);
      FilterAll(Filter(t, IsDigit), IsDigit);
    }
  }

  lemma DigitsAroundDot(x: string, y: string)
    ensures Filter(x + "." + y, IsDigit) == Filter(x, IsDigit) + Filter(y, IsDigit)
  {
    FilterConcat(x + ".", y, IsDigit);
    FilterConcat(x, ".", IsDigit);
    assert Filter(".", IsDigit) == [] by {
      assert "."[1..] == [];
    }
  }

  /** The sanitised text is obtained from the input by deleting characters. */
  lemma SanitizedIsSubsequence(t: string)
    ensures IsSubsequence(Sanitized(t), t)
  {
    if '.' in t {
      var k := FirstIndex(t, '.');
      SanitizedSplitsAtFirstDot(t, k);
      FilterIsSubsequence(t[..k], IsDigit);
      FilterIsSubsequence(t[k + 1..], IsDigit);
      assert IsSubsequence(".", ".") by {
        SubsequenceOfEmpty<char>([]);
        assert "."[1..] == [];
      }
      SubsequenceConcat(Filter(t[..k], IsDigit), t[..k], ".", ".");
      SubsequenceConcat(Filter(t[..k], IsDigit) + ".", t[..k] + ".", Filter(t[k + 1..], IsDigit), t[k + 1..]);
      assert t == t[..k] + "." + t[k + 1..];
    } else {
      SanitizedWithoutDot(t);
      FilterIsSubsequence(t, IsDigit);
    }
  }

  /**
   * Sanitising twice is sanitising once: writing the sanitised text back
   * into the field fires the change handler again, and that second run
   * leaves the text as it is.
   */
  lemma SanitizedIdempotent(t: string)
    ensures Sanitized(Sanitized(t)) == Sanitized(t)
  {
    if '.' in t {
      var k := FirstIndex(t, '.');
      SanitizedSplitsAtFirstDot(t, k);
      var a, b := Filter(t[..k], IsDigit), Filter(t[k + 1..], IsDigit);
      var r := a + "." + b;
      assert r[..|a|] == a && r[|a| + 1..] == b && r[|a|] == '.';
      assert '.' !in r[..|a|];
      SanitizedSplitsAtFirstDot(r, |a|);
      FilterAll(a, IsDigit);
      FilterAll(b, IsDigit);
    } else {
      SanitizedWithoutDot(t);
      var r := Filter(t, IsDigit);
      assert '.' !in r;
      SanitizedWithoutDot(r);
      FilterAll(r, IsDigit);
    }
  }

  // ---------------------------------------------------------------------
  // The guide's state machine

  datatype Phase = Onboarding | Form | Loading | CsvPrompt

  datatype Field = Numset | MaxDepth | RandomState

  /** The titles of the guide's four steps. */
  const StepTitles: seq<string> := ["Numset", "Max depth", "Random State", "Resumen"]

  const LastStep: nat := |StepTitles| - 1

  class DataLoadingScreen {
    /** `Double(String)`: the number a text denotes, if any. */
    const parse: string -> Option<real>
    /** The app-wide onboarding state the final button dismisses. */
    const session: OnboardingView.OnboardingViewModel

    var phase: Phase
    var currentStep: nat
    var numset: string
    var maxDepth: string
    var randomState: string
    var storedNumset: real
    var storedMaxDepth: real
    var storedRandomState: real
    var showImporter: bool
    /** The chosen file, by its URL. */
    var selectedFileUrl: Option<string>

    predicate Valid()
      reads this
    {
      currentStep <= LastStep
    }

    /** The screen opens on the first explanatory step with empty fields. */
    constructor (parse: string -> Option<real>, session: OnboardingView.OnboardingViewModel)
      ensures Valid() && phase == Onboarding && currentStep == 0
      ensures numset == "" && maxDepth == "" && randomState == ""
      ensures storedNumset == 0.0 && storedMaxDepth == 0.0 && storedRandomState == 0.0
      ensures !showImporter && selectedFileUrl == None
      ensures this.parse == parse && this.session == session
    {
      this.parse := parse;
      this.session := session;
      phase := Onboarding;
      currentStep := 0;
      numset, maxDepth, randomState := "", "", "";
      storedNumset, storedMaxDepth, storedRandomState := 0.0, 0.0, 0.0;
      showImporter := false;
      selectedFileUrl := None;
    }

    /** The title of the step on show. */
    function CurrentTitle(): (title: string)
      requires Valid()
      reads this
      ensures title in StepTitles
    {
      StepTitles[currentStep]
    }

    /** All three fields read as numbers; the submit button is enabled exactly then. */
    predicate IsFormValid()
      reads this
    {
      parse(numset).Some? && parse(maxDepth).Some? && parse(randomState).Some?
    }

    /** The button is disabled on the first step, where pressing it would change nothing. */
    predicate PreviousEnabled()
      reads this
    {
      currentStep != 0
    }

    /** "Previous": one step back, never below the first. */
    method Previous()
      requires Valid() && phase == Onboarding
      modifies this
      ensures Valid() && phase == Onboarding
      ensures currentStep == if old(currentStep) > 0 then old(currentStep) - 1 else old(currentStep)
      ensures old(PreviousEnabled()) <==> currentStep != old(currentStep)
      ensures unchanged(this`numset, this`maxDepth, this`randomState, this`showImporter, this`selectedFileUrl)
      ensures unchanged(this`storedNumset, this`storedMaxDepth, this`storedRandomState)
    {
      if currentStep > 0 {
        currentStep := currentStep - 1;
      }
    }

    /** "Next": one step forward, and past the last step on to the form. */
    method Next()
      requires Valid() && phase == Onboarding
      modifies this
      ensures Valid()
      ensures old(currentStep) < LastStep ==> currentStep == old(currentStep) + 1 && phase == Onboarding
      ensures old(currentStep) == LastStep ==> currentStep == old(currentStep) && phase == Form
      ensures unchanged(this`numset, this`maxDepth, this`randomState, this`showImporter, this`selectedFileUrl)
      ensures unchanged(this`storedNumset, this`storedMaxDepth, this`storedRandomState)
    {
      if currentStep < |StepTitles| - 1 {
        currentStep := currentStep + 1;
      } else {
        phase := Form;
      }
    }

    /** The user types `typed` into a field; the change handler sanitises it in place. */
    method Edit(field: Field, typed: string)
      requires Valid() && phase == Form
      modifies this
      ensures Valid() && phase == Form && currentStep == old(currentStep)
      ensures numset == if field == Numset then Sanitized(typed) else old(numset)
      ensures maxDepth == if field == MaxDepth then Sanitized(typed) else old(maxDepth)
      ensures randomState == if field == RandomState then Sanitized(typed) else old(randomState)
      ensures unchanged(this`storedNumset, this`storedMaxDepth, this`storedRandomState)
      ensures unchanged(this`showImporter, this`selectedFileUrl)
    {
      var text := Sanitize(typed);
      match field
      case Numset => numset := text;
      case MaxDepth => maxDepth := text;
      case RandomState => randomState := text;
    }

    /**
     * "Subir hiperparámetros": with all three fields numeric, store their
     * values and start loading; otherwise nothing happens.
     */
    method Submit()
      requires Valid() && phase == Form
      modifies this
      ensures Valid() && currentStep == old(currentStep)
      ensures phase == Loading <==> old(IsFormValid())
      ensures !old(IsFormValid()) ==> phase == Form && unchanged(this)
      ensures old(IsFormValid()) ==>
        && IsFormValid()
        && storedNumset == parse(numset).value
        && storedMaxDepth == parse(maxDepth).value
        && storedRandomState == parse(randomState).value
      ensures unchanged(this`numset, this`maxDepth, this`randomState, this`showImporter, this`selectedFileUrl)
    {
      var n := parse(numset);
      var m := parse(maxDepth);
      var r := parse(randomState);
      if n.None? || m.None? || r.None? {
        return;
      }
      storedNumset := n.value;
      storedMaxDepth := m.value;
      storedRandomState := r.value;
      phase := Loading;
    }

    /** The simulated upload's pause is over: show the CSV prompt. */
    method LoadingFinished()
      requires Valid() && phase == Loading
      modifies this
      ensures Valid() && phase == CsvPrompt && currentStep == old(currentStep)
      ensures unchanged(this`numset, this`maxDepth, this`randomState, this`showImporter, this`selectedFileUrl)
      ensures unchanged(this`storedNumset, this`storedMaxDepth, this`storedRandomState)
    {
      phase := CsvPrompt;
    }

    /** The upload button presents the file importer. */
    method OpenImporter()
      requires Valid() && phase == CsvPrompt
      modifies this`showImporter
      ensures showImporter
    {
      showImporter := true;
    }

    /**
     * The importer closes with the chosen URLs, or with a failure (`None`):
     * the first URL becomes the selection; a failure clears it.
     */
    method ImporterCompleted(outcome: Option<seq<string>>)
      requires Valid() && phase == CsvPrompt
      modifies this`showImporter, this`selectedFileUrl
      ensures !showImporter
      ensures selectedFileUrl == match outcome
        case Some(urls) => (if urls == [] then None else Some(urls[0]))
        case None => None
    {
      showImporter := false;
      match outcome {
        case Some(urls) =>
          selectedFileUrl := if urls == [] then None else Some(urls[0]);
        case None =>
          selectedFileUrl := None;
      }
    }

    /** "Ejecutar": leave the onboarding for the rest of the app. */
    method Execute()
      requires Valid() && phase == CsvPrompt
      modifies session`showOnboarding
      ensures !session.showOnboarding
    {
      session.showOnboarding := false;
    }
  }

  /**
   * The state the guide reaches from a fresh screen: `LastStep` presses of
   * "Next" walk through every step, one more opens the form, submitting a
   * valid form starts loading, and the pause ends in the CSV prompt.
   */
  method HappyPath(parse: string -> Option<real>, session: OnboardingView.OnboardingViewModel,
                   a: string, b: string, c: string)
      returns (screen: DataLoadingScreen)
    requires parse(Sanitized(a)).Some? && parse(Sanitized(b)).Some? && parse(Sanitized(c)).Some?
    ensures screen.phase == CsvPrompt && screen.currentStep == LastStep
    ensures screen.storedNumset == parse(Sanitized(a)).value
    ensures screen.storedMaxDepth == parse(Sanitized(b)).value
    ensures screen.storedRandomState == parse(Sanitized(c)).value
  {
    screen := new DataLoadingScreen(parse, session);
    for i := 0 to LastStep
      invariant screen.Valid() && screen.phase == Onboarding && screen.currentStep == i
    {
      screen.Next();
    }
    screen.Next();
    screen.Edit(Numset, a);
    screen.Edit(MaxDepth, b);
    screen.Edit(RandomState, c);
    screen.Submit();
    screen.LoadingFinished();
  }
}
