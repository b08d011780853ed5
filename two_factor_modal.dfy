/**
 * The two-factor dialog: a setup step and a verify step, a code input that
 * keeps at most six decimal digits, and a verify handler that needs a code;
 * the delayed close returns the dialog to its first step with no code.
 */
module TwoFactorAuthModal {
  import opened Text
  import opened Listing

  const EnterCode: string := "Please enter the verification code"

  /** The number of digits a code may have. */
  const CodeLength: nat := 6

  /** `value.replace(/\D/g, '').slice(0, 6)`: the first six decimal digits of the input, in order. */
  function Sanitise(value: string): (r: string)
    ensures AllDigits(r) && |r| <= CodeLength
    ensures |r| == Min(CodeLength, |Filter(value, IsDigit)|)
    ensures r == Filter(value, IsDigit)[..|r|]
  {
    var digits := Filter(value, IsDigit);
    digits[..Min(CodeLength, |digits|)]
  }

  /** An input that is already a code of at most six digits passes unchanged. */
  lemma SanitiseKeepsCodes(value: string)
    requires AllDigits(value) && |value| <= CodeLength
    ensures Sanitise(value) == value
  {
    FilterAll(value, IsDigit);
  }

  /** Sanitising twice is sanitising once. */
  lemma SanitiseIdempotent(value: string)
    ensures Sanitise(Sanitise(value)) == Sanitise(value)
  {
    SanitiseKeepsCodes(Sanitise(value));
  }

  /** No digit of the input is dropped unless six digits were already kept. */
  lemma SanitiseKeepsEveryDigit(value: string)
    requires |Filter(value, IsDigit)| <= CodeLength
    ensures forall i :: 0 <= i < |value| && IsDigit(value[i]) ==> value[i] in Sanitise(value)
  {
    FilterMembers(value, IsDigit);
    assert Sanitise(value) == Filter(value, IsDigit);
    forall i | 0 <= i < |value| && IsDigit(value[i]) ensures value[i] in Sanitise(value) {
      assert value[i] in value;
    }
  }

  /** The dialog's state; `pendingTimers` counts the delayed closes scheduled and not yet run. */
  class TwoFactorView {
    var step: int
    var code: string
    var error: string
    var success: bool
    var pendingTimers: nat

    /** The dialog is on step 1 or 2 and its code is a sanitised one. */
    predicate Valid()
      reads this
    {
      (step == 1 || step == 2) && AllDigits(code) && |code| <= CodeLength
    }

    constructor ()
      ensures Valid()
      ensures step == 1 && code == "" && error == "" && !success && pendingTimers == 0
    {
      step := 1;
      code := "";
      error := "";
      success := false;
      pendingTimers := 0;
    }

    /** "Next", shown on the setup step. */
    method Next()
      requires Valid() && step == 1 && !success
      modifies this
      ensures Valid() && step == 2
      ensures code == old(code) && error == old(error) && success == old(success) && pendingTimers == old(pendingTimers)
    {
      step := 2;
    }

    /** "Back", shown on the verify step. */
    method Back()
      requires Valid() && step == 2 && !success
      modifies this
      ensures Valid() && step == 1
      ensures code == old(code) && error == old(error) && success == old(success) && pendingTimers == old(pendingTimers)
    {
      step := 1;
    }

    /** The code input's `onChange`. */
    method OnInput(value: string)
      requires Valid() && step == 2 && !success
      modifies this
      ensures Valid() && code == Sanitise(value)
      ensures step == old(step) && error == old(error) && success == old(success) && pendingTimers == old(pendingTimers)
    {
      code := Sanitise(value);
    }

    /** `handleVerify`: an empty code is refused; any other code succeeds and schedules the close. */
    method HandleVerify()
      requires Valid() && step == 2 && !success
      modifies this
      ensures Valid()
      ensures code == "" ==> error == EnterCode && !success && pendingTimers == old(pendingTimers)
      ensures code != "" ==> error == "" && success && pendingTimers == old(pendingTimers) + 1
      ensures step == old(step) && code == old(code)
    {
      error := "";
      if code == "" {
        error := EnterCode;
        return;
      }
      success := true;
      pendingTimers := pendingTimers + 1;
    }

    /** A delayed close runs: it asks the parent to close and resets step, code and success. */
    method Elapse() returns (closeRequested: bool)
      requires Valid() && pendingTimers > 0
      modifies this
      ensures Valid() && closeRequested
      ensures step == 1 && code == "" && !success
      ensures error == old(error) && pendingTimers == old(pendingTimers) - 1
    {
      closeRequested := true;
      step := 1;
      code := "";
      success := false;
      pendingTimers := pendingTimers - 1;
    }
  }
}
