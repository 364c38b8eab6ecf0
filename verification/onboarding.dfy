/**
 * The app's opening screens: the shared onboarding view model, and the
 * three-message introduction whose call-to-action button walks through the
 * messages and finally navigates to the data-loading guide.
 */
module OnboardingView {

  /** The app-wide onboarding state shared through the environment. */
  class OnboardingViewModel {
    var isLoading: bool
    var showOnboarding: bool

    /** A new session shows the onboarding and is not loading. */
    constructor ()
      ensures !isLoading && showOnboarding
    {
      isLoading := false;
      showOnboarding := true;
    }
  }

  /** The labels of the call-to-action button, one per introduction message. */
  const CtaLabels: seq<string> := ["¿Cómo lo podemos lograr?", "Continuar", "Descubrir exoplanetas"]

  /** The last message's index. */
  const LastStep: nat := |CtaLabels| - 1

  /**
   * What one press of the call-to-action does to `(currentStep, navigateToDataLoading)`:
   * advance while a message remains, otherwise navigate on.
   */
  function CtaPressed(step: nat, navigate: bool): (r: (nat, bool))
    requires step <= LastStep
    ensures step <= r.0 <= LastStep
    ensures r.1 != navigate ==> step == LastStep && r.0 == step
  {
    if step < LastStep then (step + 1, navigate) else (step, true)
  }

  /** The state after `n` presses from `(step, navigate)`. */
  function CtaPresses(step: nat, navigate: bool, n: nat): (r: (nat, bool))
    requires step <= LastStep
    ensures r.0 <= LastStep
    decreases n
  {
    if n == 0 then (step, navigate)
    else
      var next := CtaPressed(step, navigate);
      CtaPresses(next.0, next.1, n - 1)
  }

  /**
   * From the first message, `n` presses show message `min(n, 2)` and have
   * navigated to the data-loading guide exactly when `n` reaches 3: every
   * message is shown once, in order, before the navigation happens.
   */
  lemma {:induction false} PressesFromStart(n: nat)
    ensures CtaPresses(0, false, n) == (if n < LastStep then n else LastStep, n > LastStep)
  {
    PressesFrom(0, false, n);
  }

  lemma {:induction false} PressesFrom(step: nat, navigate: bool, n: nat)
    requires step <= LastStep
    ensures CtaPresses(step, navigate, n) ==
      (if step + n < LastStep then step + n else LastStep, navigate || step + n > LastStep)
    decreases n
  {
    if n > 0 {
      var next := CtaPressed(step, navigate);
      PressesFrom(next.0, next.1, n - 1);
    }
  }

  /** The introduction screen. */
  class OnboardingScreen {
    var currentStep: nat
    var navigateToDataLoading: bool

    /** The step always names one of the three messages. */
    predicate Valid()
      reads this
    {
      currentStep <= LastStep
    }

    constructor ()
      ensures Valid() && currentStep == 0 && !navigateToDataLoading
    {
      currentStep := 0;
      navigateToDataLoading := false;
    }

    /** The label the button currently shows. */
    function CurrentCta(): (cta: string)
      requires Valid()
      reads this
      ensures cta in CtaLabels
    {
      CtaLabels[currentStep]
    }

    /** The call-to-action button. The step only ever grows. */
    method Cta()
      requires Valid()
      modifies this
      ensures Valid()
      ensures (currentStep, navigateToDataLoading) == CtaPressed(old(currentStep), old(navigateToDataLoading))
      ensures currentStep >= old(currentStep)
    {
      if currentStep < |CtaLabels| - 1 {
        currentStep := currentStep + 1;
      } else {
        navigateToDataLoading := true;
      }
    }
  }
}
