/** Unlocking with the stored PIN: four characters are handed to the
    route's completion callback, a refused code clears the entry and shows
    an error, and a support reset code removes the stored password.
    The callback's answer is an input (`confirmed`); the toasts, haptics,
    biometrics and the cloud-storage write are outputs or left out. */
module AccessPassword {
  import opened Wrappers
  import opened Keypad

  const PIN_LENGTH: nat := 4

  /** "Wrong code". */
  const WRONG_CODE: string := "Неверный код"

  datatype AccessState = AccessState(pin: string, error: Option<string>)

  const INITIAL: AccessState := AccessState("", None)

  /** The state after a press, and the code handed to the callback, if any. */
  datatype AccessPress = AccessPress(next: AccessState, submitted: Option<string>)

  /** One press whose text is `t`; `confirmed` is what the callback answers
      when a complete code is handed to it. */
  function PressStep(s: AccessState, t: string, confirmed: bool): AccessPress {
    if |s.pin| >= PIN_LENGTH then AccessPress(s, None)
    else
      var p := s.pin + t;
      if |p| == PIN_LENGTH then
        if confirmed then AccessPress(s.(pin := p), Some(p))
        else AccessPress(AccessState("", Some(WRONG_CODE)), Some(p))
      else AccessPress(s.(pin := p), None)
  }

  function DeleteStep(s: AccessState): AccessState {
    s.(pin := DropLast(s.pin))
  }

  /** The key dispatch as written: the erase test compares with "<", a label
      no key carries. */
  function ClickStepAsWritten(s: AccessState, k: Key, confirmed: bool): AccessPress {
    if k == Label("<") then AccessPress(DeleteStep(s), None) else PressStep(s, KeyText(k), confirmed)
  }

  /** The key dispatch with the erase test comparing with the erase key's own label. */
  function ClickStep(s: AccessState, k: Key, confirmed: bool): AccessPress {
    if k == Label(BACKSPACE) then AccessPress(DeleteStep(s), None) else PressStep(s, KeyText(k), confirmed)
  }

  /** As written, the erase key types its label into the code instead of erasing. */
  lemma EraseKeyTypesAsWritten(s: AccessState, confirmed: bool)
    requires |s.pin| < PIN_LENGTH - 1
    ensures ClickStepAsWritten(s, Label(BACKSPACE), confirmed).next.pin == s.pin + BACKSPACE
    ensures |s.pin| > 0 ==> ClickStepAsWritten(s, Label(BACKSPACE), confirmed).next.pin != DeleteStep(s).pin
  {
    assert Label(BACKSPACE) != Label("<") by {
      assert BACKSPACE[0] != "<"[0];
    }
  }

  /** The erase key erases and never submits; every other grid key presses. */
  lemma EraseKeyErases(s: AccessState, k: Key, confirmed: bool)
    requires k in KEYS
    ensures k == Label(BACKSPACE) ==> ClickStep(s, k, confirmed) == AccessPress(DeleteStep(s), None)
    ensures k != Label(BACKSPACE) ==> k.Num? && ClickStep(s, k, confirmed) == PressStep(s, KeyText(k), confirmed)
  {
  }

  /** The code is well formed: never longer than four characters. */
  predicate AccessOk(s: AccessState) {
    |s.pin| <= PIN_LENGTH
  }

  lemma PressKeepsAccessOk(s: AccessState, t: string, confirmed: bool)
    requires AccessOk(s) && |t| == 1
    ensures AccessOk(PressStep(s, t, confirmed).next)
  {
  }

  /** A code is handed over exactly when a press completes four characters;
      a refusal clears the entry and shows the error, an acceptance keeps it. */
  lemma SubmitsOnFourth(s: AccessState, t: string, confirmed: bool)
    requires AccessOk(s) && |t| == 1
    ensures var o := PressStep(s, t, confirmed);
      && (o.submitted.Some? <==> |s.pin| == PIN_LENGTH - 1)
      && (o.submitted.Some? ==> o.submitted.value == s.pin + t)
      && (o.submitted.Some? && !confirmed ==> o.next == AccessState("", Some(WRONG_CODE)))
      && (o.submitted.Some? && confirmed ==> o.next == AccessState(s.pin + t, s.error))
  {
  }

  /** Once four characters stand, presses change nothing. */
  lemma FullCodeIgnoresPresses(s: AccessState, t: string, confirmed: bool)
    requires |s.pin| >= PIN_LENGTH
    ensures PressStep(s, t, confirmed) == AccessPress(s, None)
  {
  }

  // ---------------------------------------------------------------- reset

  const RESET_INPUT: string := "1999"
  const RESET_CODE: string := "supportResetPassword"
  /** "Password removed". */
  const PASSWORD_REMOVED: string := "Пароль удален"

  datatype Toast = ErrorToast(text: string) | SuccessToast(text: string)

  /** The code handed to the callback, the toast shown, and whether the
      stored password is cleared. */
  datatype ResetOutcome = ResetOutcome(submitted: Option<string>, toast: Toast, clearsPassword: bool)

  function ResetPassword(input: string, confirmed: bool): (r: ResetOutcome)
    ensures r.submitted.Some? <==> input == RESET_INPUT
    ensures r.submitted.Some? ==> r.submitted.value == RESET_CODE
    ensures r.clearsPassword <==> input == RESET_INPUT && confirmed
    ensures r.toast.SuccessToast? <==> r.clearsPassword
    ensures r.toast.ErrorToast? ==> r.toast.text == WRONG_CODE
  {
    if input == RESET_INPUT then
      if confirmed then ResetOutcome(Some(RESET_CODE), SuccessToast(PASSWORD_REMOVED), true)
      else ResetOutcome(Some(RESET_CODE), ErrorToast(WRONG_CODE), false)
    else ResetOutcome(None, ErrorToast(WRONG_CODE), false)
  }

  /** The component's state, with the same transitions. */
  class AccessPasswordScreen {
    var pin: string
    var error: Option<string>

    function State(): AccessState
      reads this
    {
      AccessState(pin, error)
    }

    constructor ()
      ensures State() == INITIAL
    {
      pin, error := "", None;
    }

    method Press(num: string, confirmed: bool) returns (submitted: Option<string>)
      modifies this
      ensures var o := PressStep(old(State()), num, confirmed);
        State() == o.next && submitted == o.submitted
    {
      submitted := None;
      if |pin| >= PIN_LENGTH {
        return;
      }
      var newPin := pin + num;
      pin := newPin;
      if |newPin| == PIN_LENGTH {
        submitted := Some(newPin);
        if !confirmed {
          error := Some(WRONG_CODE);
          pin := "";
        }
      }
    }

    method Delete()
      modifies this
      ensures State() == DeleteStep(old(State()))
    {
      pin := DropLast(pin);
    }

    /** A click on a grid key, with the erase test on the erase key's label. */
    method Click(k: Key, confirmed: bool) returns (submitted: Option<string>)
      modifies this
      ensures var o := ClickStep(old(State()), k, confirmed);
        State() == o.next && submitted == o.submitted
    {
      if k == Label(BACKSPACE) {
        Delete();
        submitted := None;
      } else {
        submitted := Press(KeyText(k), confirmed);
      }
    }
  }
}
