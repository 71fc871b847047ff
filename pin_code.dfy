/** Setting a new PIN: the code is typed once ("set") and again ("confirm");
    a matching confirmation hands the code to the caller, a mismatch shows
    an error, and both start over. */
module PinCode {
  import opened Wrappers
  import opened Keypad

  const PIN_LENGTH: nat := 4

  datatype Step = SetStep | ConfirmStep

  datatype PinState = PinState(pin: string, confirmPin: string, step: Step, error: bool)

  const INITIAL: PinState := PinState("", "", SetStep, false)

  /** While setting, the confirmation is empty and the code is short; while
      confirming, the code is complete and the confirmation is short. */
  predicate PinOk(s: PinState) {
    && (s.step == SetStep ==> |s.pin| < PIN_LENGTH && s.confirmPin == "")
    && (s.step == ConfirmStep ==> |s.pin| == PIN_LENGTH && |s.confirmPin| < PIN_LENGTH)
  }

  /** The state after a key press and the code handed to the caller, if any. */
  datatype PressOutcome = PressOutcome(next: PinState, completed: Option<string>)

  /** The buffer the current step fills. */
  function Current(s: PinState): string {
    if s.step == SetStep then s.pin else s.confirmPin
  }

  function PressStep(s: PinState, t: string): PressOutcome {
    if |Current(s)| < PIN_LENGTH then
      if s.step == SetStep then
        var p := s.pin + t;
        PressOutcome(s.(pin := p, step := if |p| == PIN_LENGTH then ConfirmStep else SetStep), None)
      else
        var c := s.confirmPin + t;
        if |c| == PIN_LENGTH then
          if s.pin == c then PressOutcome(PinState("", "", SetStep, s.error), Some(s.pin))
          else PressOutcome(PinState("", "", SetStep, true), None)
        else PressOutcome(s.(confirmPin := c), None)
    else PressOutcome(s, None)
  }

  function DeleteStep(s: PinState): PinState {
    if s.step == SetStep then s.(pin := DropLast(s.pin)) else s.(confirmPin := DropLast(s.confirmPin))
  }

  /** A one-character press keeps the state well formed. */
  lemma PressKeepsPinOk(s: PinState, t: string)
    requires PinOk(s) && |t| == 1
    ensures PinOk(PressStep(s, t).next)
  {
  }

  lemma DeleteKeepsPinOk(s: PinState)
    requires PinOk(s)
    ensures PinOk(DeleteStep(s))
  {
  }

  /** The code is handed over exactly when a confirmation is completed with
      the code that was set, and what is handed over is that code. */
  lemma CompletesIffConfirmed(s: PinState, t: string)
    requires PinOk(s) && |t| == 1
    ensures PressStep(s, t).completed.Some? <==>
              s.step == ConfirmStep && s.confirmPin + t == s.pin
    ensures PressStep(s, t).completed.Some? ==> PressStep(s, t).completed.value == s.pin
  {
  }

  /** A completed confirmation, matching or not, clears both buffers and
      returns to "set"; only a mismatch raises the error. */
  lemma FourthConfirmCharRestarts(s: PinState, t: string)
    requires PinOk(s) && |t| == 1 && s.step == ConfirmStep && |s.confirmPin| == PIN_LENGTH - 1
    ensures var o := PressStep(s, t);
      && o.next.pin == "" && o.next.confirmPin == "" && o.next.step == SetStep
      && o.next.error == (s.error || s.confirmPin + t != s.pin)
  {
  }

  /** The error flag is never cleared. */
  lemma ErrorIsSticky(s: PinState, t: string)
    requires s.error
    ensures PressStep(s, t).next.error && DeleteStep(s).error
  {
  }

  /** Delete shortens the current buffer by one and leaves the other alone. */
  lemma DeleteTouchesCurrentOnly(s: PinState)
    ensures DeleteStep(s).step == s.step && DeleteStep(s).error == s.error
    ensures s.step == SetStep ==> DeleteStep(s).confirmPin == s.confirmPin
    ensures s.step == ConfirmStep ==> DeleteStep(s).pin == s.pin
    ensures |Current(s)| == 0 ==> DeleteStep(s) == s
    ensures |Current(s)| > 0 ==> |Current(DeleteStep(s))| == |Current(s)| - 1
  {
  }

  /** The presses of a key sequence, and the codes handed over on the way. */
  function Run(s: PinState, keys: seq<string>): (r: PressOutcome)
    decreases |keys|
  {
    if |keys| == 0 then PressOutcome(s, None)
    else
      var o := PressStep(s, keys[0]);
      var rest := Run(o.next, keys[1..]);
      PressOutcome(rest.next, if rest.completed.Some? then rest.completed else o.completed)
  }

  /** Combining the outcomes of two runs: the later hand-over wins. */
  function Then(first: PressOutcome, second: PressOutcome): PressOutcome {
    PressOutcome(second.next, if second.completed.Some? then second.completed else first.completed)
  }

  /** Running two key sequences one after the other. */
  lemma {:induction false} RunAppend(s: PinState, xs: seq<string>, ys: seq<string>)
    ensures Run(s, xs + ys) == Then(Run(s, xs), Run(Run(s, xs).next, ys))
    decreases |xs|
  {
    if |xs| == 0 {
      assert xs + ys == ys;
    } else {
      assert (xs + ys)[1..] == xs[1..] + ys;
      RunAppend(PressStep(s, xs[0]).next, xs[1..], ys);
    }
  }

  /** Four characters typed in "set" fill the code and move to "confirm". */
  lemma TypingSetsCode(a: char, b: char, c: char, d: char, error: bool)
    ensures Run(PinState("", "", SetStep, error), [[a], [b], [c], [d]])
            == PressOutcome(PinState([a, b, c, d], "", ConfirmStep, error), None)
  {
    var s4 := PinState([a, b, c, d], "", ConfirmStep, error);
    var s3 := PinState([a, b, c], "", SetStep, error);
    var s2 := PinState([a, b], "", SetStep, error);
    var s1 := PinState([a], "", SetStep, error);
    assert Run(s3, [[d]]) == PressOutcome(s4, None) by {
      assert [a, b, c] + [d] == [a, b, c, d];
    }
    assert Run(s2, [[c], [d]]) == PressOutcome(s4, None) by {
      assert [a, b] + [c] == [a, b, c] && [[c], [d]][1..] == [[d]];
    }
    assert Run(s1, [[b], [c], [d]]) == PressOutcome(s4, None) by {
      assert [a] + [b] == [a, b] && [[b], [c], [d]][1..] == [[c], [d]];
    }
    assert "" + [a] == [a] && [[a], [b], [c], [d]][1..] == [[b], [c], [d]];
  }

  /** Four characters typed in "confirm" complete it: the code is handed
      over when they match it, the error is raised when they do not. */
  lemma TypingConfirms(code: string, a: char, b: char, c: char, d: char, error: bool)
    requires |code| == PIN_LENGTH
    ensures var o := Run(PinState(code, "", ConfirmStep, error), [[a], [b], [c], [d]]);
      && (code == [a, b, c, d] ==> o == PressOutcome(PinState("", "", SetStep, error), Some(code)))
      && (code != [a, b, c, d] ==> o == PressOutcome(PinState("", "", SetStep, true), None))
  {
    var last := if code == [a, b, c, d] then PressOutcome(PinState("", "", SetStep, error), Some(code))
                else PressOutcome(PinState("", "", SetStep, true), None);
    var s3 := PinState(code, [a, b, c], ConfirmStep, error);
    var s2 := PinState(code, [a, b], ConfirmStep, error);
    var s1 := PinState(code, [a], ConfirmStep, error);
    assert Run(s3, [[d]]) == last by {
      assert [a, b, c] + [d] == [a, b, c, d];
    }
    assert Run(s2, [[c], [d]]) == last by {
      assert [a, b] + [c] == [a, b, c] && [[c], [d]][1..] == [[d]];
    }
    assert Run(s1, [[b], [c], [d]]) == last by {
      assert [a] + [b] == [a, b] && [[b], [c], [d]][1..] == [[c], [d]];
    }
    assert "" + [a] == [a] && [[a], [b], [c], [d]][1..] == [[b], [c], [d]];
  }

  /** Typing a code and then the same code again hands it over and starts afresh. */
  lemma TypingTwiceCompletes(a: char, b: char, c: char, d: char)
    ensures Run(INITIAL, [[a], [b], [c], [d]] + [[a], [b], [c], [d]]) == PressOutcome(INITIAL, Some([a, b, c, d]))
  {
    TypingSetsCode(a, b, c, d, false);
    TypingConfirms([a, b, c, d], a, b, c, d, false);
    RunAppend(INITIAL, [[a], [b], [c], [d]], [[a], [b], [c], [d]]);
  }

  /** Confirming with a different code hands nothing over and raises the error. */
  lemma MismatchRaisesError(a: char, b: char, c: char, d: char, e: char, f: char, g: char, h: char)
    requires [a, b, c, d] != [e, f, g, h]
    ensures Run(INITIAL, [[a], [b], [c], [d]] + [[e], [f], [g], [h]]) == PressOutcome(PinState("", "", SetStep, true), None)
  {
    TypingSetsCode(a, b, c, d, false);
    TypingConfirms([a, b, c, d], e, f, g, h, false);
    RunAppend(INITIAL, [[a], [b], [c], [d]], [[e], [f], [g], [h]]);
  }

  /** The component's state, with the same transitions. */
  class PinCodeScreen {
    var pin: string
    var confirmPin: string
    var step: Step
    var error: bool

    function State(): PinState
      reads this
    {
      PinState(pin, confirmPin, step, error)
    }

    constructor ()
      ensures State() == INITIAL
    {
      pin, confirmPin, step, error := "", "", SetStep, false;
    }

    method Press(k: Key) returns (completed: Option<string>)
      modifies this
      ensures var o := PressStep(old(State()), KeyText(k));
        State() == o.next && completed == o.completed
    {
      completed := None;
      var num := KeyText(k);
      if (if step == SetStep then |pin| else |confirmPin|) < PIN_LENGTH {
        if step == SetStep {
          var newPin := pin + num;
          pin := newPin;
          if |newPin| == PIN_LENGTH {
            step := ConfirmStep;
          }
        } else {
          var newConfirmPin := confirmPin + num;
          confirmPin := newConfirmPin;
          if |newConfirmPin| == PIN_LENGTH {
            if pin == newConfirmPin {
              completed := Some(pin);
              pin := "";
              confirmPin := "";
              step := SetStep;
            } else {
              error := true;
              pin := "";
              confirmPin := "";
              step := SetStep;
            }
          }
        }
      }
    }

    method Delete()
      modifies this
      ensures State() == DeleteStep(old(State()))
    {
      if step == SetStep {
        pin := DropLast(pin);
      } else {
        confirmPin := DropLast(confirmPin);
      }
    }

    /** A click on a grid key: the erase key deletes, every other key presses. */
    method Click(k: Key) returns (completed: Option<string>)
      requires k in KEYS
      modifies this
      ensures k == Label(BACKSPACE) ==> State() == DeleteStep(old(State())) && completed.None?
      ensures k != Label(BACKSPACE) ==>
                var o := PressStep(old(State()), KeyText(k));
                State() == o.next && completed == o.completed
    {
      if k == Label(BACKSPACE) {
        Delete();
        completed := None;
      } else {
        completed := Press(k);
      }
    }
  }
}
