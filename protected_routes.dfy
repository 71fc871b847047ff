/** The gate in front of the protected pages: whether a stored access
    password has to be entered, checking an entered code, and which screen
    is shown. The stored password and the session flag are the values read
    from storage; "no value" is `None`. */
module ProtectedRoutes {
  import opened Wrappers
  import AccessPassword

  const BIOMETRIC_CODE: string := "biometric_success"
  const RESET_CODE: string := "supportResetPassword"
  const SESSION_GRANTED: string := "true"

  /** The access status; "granted" is the no-value status the component also starts in. */
  datatype AccessStatus = Granted | Pending

  datatype Screen = LoadingScreen | PinScreen | Outlet

  /** A stored value counts as a password when it is present and not empty. */
  predicate Truthy(s: Option<string>) {
    s.Some? && s.value != ""
  }

  /** No password, the text "null", or access already granted in this session lets the user in. */
  function CheckAccess(accessPassword: Option<string>, sessionFlag: Option<string>): (st: AccessStatus)
    ensures st == Granted <==>
      !Truthy(accessPassword) || accessPassword == Some("null") || sessionFlag == Some(SESSION_GRANTED)
  {
    if !Truthy(accessPassword) || accessPassword == Some("null") || sessionFlag == Some(SESSION_GRANTED)
    then Granted else Pending
  }

  /** A code that unlocks, given the stored password. */
  predicate CodeAccepted(accessPassword: Option<string>, code: string) {
    Truthy(accessPassword) && (code == accessPassword.value || code == BIOMETRIC_CODE || code == RESET_CODE)
  }

  /** The route component. */
  class Gate {
    const accessPassword: Option<string>
    var sessionFlag: Option<string>
    var accessStatus: AccessStatus
    var isReady: bool

    constructor (accessPassword: Option<string>, sessionFlag: Option<string>)
      ensures this.accessPassword == accessPassword && this.sessionFlag == sessionFlag
      ensures accessStatus == Granted && !isReady
    {
      this.accessPassword := accessPassword;
      this.sessionFlag := sessionFlag;
      accessStatus := Granted;
      isReady := false;
    }

    /** The effect run when storage has been read: fix the status and become ready. */
    method Initialize(isLoading: bool)
      modifies this`accessStatus, this`isReady
      ensures !isLoading ==> accessStatus == CheckAccess(accessPassword, sessionFlag) && isReady
      ensures isLoading ==> accessStatus == old(accessStatus) && isReady == old(isReady)
    {
      if !isLoading {
        accessStatus := CheckAccess(accessPassword, sessionFlag);
        isReady := true;
      }
    }

    /** The callback the PIN screen calls with an entered code. */
    method HandleComplete(code: string) returns (valid: bool)
      modifies this`accessStatus, this`sessionFlag
      ensures valid <==> CodeAccepted(accessPassword, code)
      ensures valid ==> accessStatus == Granted && sessionFlag == Some(SESSION_GRANTED)
      ensures !valid ==> accessStatus == old(accessStatus) && sessionFlag == old(sessionFlag)
    {
      if !Truthy(accessPassword) {
        return false;
      }
      valid := code == accessPassword.value || code == BIOMETRIC_CODE || code == RESET_CODE;
      if valid {
        accessStatus := Granted;
        sessionFlag := Some(SESSION_GRANTED);
      }
    }

    function Render(): (v: Screen)
      reads this
      ensures v == LoadingScreen <==> !isReady
      ensures v == PinScreen <==> isReady && accessStatus == Pending
    {
      if !isReady then LoadingScreen
      else match accessStatus
        case Pending => PinScreen
        case Granted => Outlet
    }
  }

  /** The PIN screen is shown only when a real password is stored and the
      session has not been granted yet. */
  lemma PinScreenOnlyForPassword(accessPassword: Option<string>, sessionFlag: Option<string>)
    ensures CheckAccess(accessPassword, sessionFlag) == Pending ==>
              Truthy(accessPassword) && accessPassword.value != "null" && sessionFlag != Some(SESSION_GRANTED)
  {
  }

  /** After a valid code, the same session is let in on every later check. */
  lemma GrantLastsForSession(accessPassword: Option<string>)
    ensures CheckAccess(accessPassword, Some(SESSION_GRANTED)) == Granted
  {
  }

  /** Without a stored password no code is accepted, not even the reset code. */
  lemma NoPasswordRejectsAll(code: string)
    ensures !CodeAccepted(None, code) && !CodeAccepted(Some(""), code)
  {
  }

  /** Typing the stored four-character password on the PIN screen hands
      it over on the fourth key, the gate accepts it, and the entry stays. */
  lemma TypingStoredPasswordUnlocks(password: string, s: AccessPassword.AccessState, t: string)
    requires |password| == AccessPassword.PIN_LENGTH && |t| == 1 && s.pin + t == password
    ensures var o := AccessPassword.PressStep(s, t, CodeAccepted(Some(password), password));
      o.submitted == Some(password) && o.next.pin == password
  {
  }

  /** The support reset code is always accepted once a password is stored,
      so the reset dialog can clear it. */
  lemma SupportResetClears(password: string)
    requires password != ""
    ensures var r := AccessPassword.ResetPassword(AccessPassword.RESET_INPUT,
                                                  CodeAccepted(Some(password), AccessPassword.RESET_CODE));
      r.clearsPassword && r.submitted == Some(RESET_CODE)
  {
  }
}
