/**
 * The sign-in / registration / password-reset form: which of the three
 * modes it is in, what the title, button and main action are in each, and
 * the empty-input checks made before any call to the authentication service.
 */
module AuthScreen {
  import opened Wrappers

  /** The three calls the form can make to the authentication service. */
  datatype AuthRequest =
    | CreateUser(email: string, password: string, displayName: string)
    | SignIn(email: string, password: string)
    | SendPasswordReset(email: string)

  /** A guard either rejects the input with a message or lets the call through. */
  datatype Guarded = Rejected(message: string) | Calls(request: AuthRequest)

  /** The two toggle buttons. */
  datatype ModeToggle = ToggleRegister | ToggleReset

  /** `isRegistering`, then `isResetPassword`, then sign-in, in that order. */
  datatype Mode = Registering | ResettingPassword | SigningIn

  function ModeOf(isRegistering: bool, isResetPassword: bool): Mode {
    if isRegistering then Registering
    else if isResetPassword then ResettingPassword
    else SigningIn
  }

  /** The heading: registration wins over reset, and sign-in is what is left. */
  function Title(isRegistering: bool, isResetPassword: bool): (t: string)
    ensures t == "Create Account" <==> isRegistering
    ensures t == "Reset Password" <==> !isRegistering && isResetPassword
    ensures t == "Sign In" <==> !isRegistering && !isResetPassword
  {
    match ModeOf(isRegistering, isResetPassword)
    case Registering => "Create Account"
    case ResettingPassword => "Reset Password"
    case SigningIn => "Sign In"
  }

  /** The main button's label, by the same priority. */
  function ActionLabel(isRegistering: bool, isResetPassword: bool): (l: string)
    ensures l == "Register" <==> isRegistering
    ensures l == "Reset Password" <==> !isRegistering && isResetPassword
    ensures l == "Sign In" <==> !isRegistering && !isResetPassword
  {
    match ModeOf(isRegistering, isResetPassword)
    case Registering => "Register"
    case ResettingPassword => "Reset Password"
    case SigningIn => "Sign In"
  }

  /** `performRegistration`'s guard: every field must be non-empty (`isEmpty`, not `isBlank`). */
  function PerformRegistration(email: string, password: string, displayName: string): (g: Guarded)
    ensures g.Rejected? <==> email == [] || password == [] || displayName == []
    ensures g.Rejected? ==> g.message == "Please fill in all fields"
    ensures g.Calls? ==> g.request == CreateUser(email, password, displayName)
  {
    if email == [] || password == [] || displayName == [] then Rejected("Please fill in all fields")
    else Calls(CreateUser(email, password, displayName))
  }

  /** `performSignIn`'s guard. */
  function PerformSignIn(email: string, password: string): (g: Guarded)
    ensures g.Rejected? <==> email == [] || password == []
    ensures g.Rejected? ==> g.message == "Please enter email and password"
    ensures g.Calls? ==> g.request == SignIn(email, password)
  {
    if email == [] || password == [] then Rejected("Please enter email and password")
    else Calls(SignIn(email, password))
  }

  /** `performPasswordReset`'s guard. */
  function PerformPasswordReset(email: string): (g: Guarded)
    ensures g.Rejected? <==> email == []
    ensures g.Rejected? ==> g.message == "Please enter your email"
    ensures g.Calls? ==> g.request == SendPasswordReset(email)
  {
    if email == [] then Rejected("Please enter your email")
    else Calls(SendPasswordReset(email))
  }

  /**
   * The main button's `when`: the guard of the mode's action. Every mode
   * needs the email; registration also needs the password and display name,
   * sign-in the password, and a reset nothing more. The call made is the
   * mode's own, with the email as entered.
   */
  function MainAction(isRegistering: bool, isResetPassword: bool,
                      email: string, password: string, displayName: string): (g: Guarded)
    ensures g.Rejected? <==>
      || email == []
      || (isRegistering && (password == [] || displayName == []))
      || (!isRegistering && !isResetPassword && password == [])
    ensures g.Calls? ==> g.request.email == email
    ensures g.Calls? ==> (g.request.CreateUser? <==> isRegistering)
    ensures g.Calls? ==> (g.request.SendPasswordReset? <==> !isRegistering && isResetPassword)
    ensures g.Calls? ==> (g.request.SignIn? <==> !isRegistering && !isResetPassword)
  {
    match ModeOf(isRegistering, isResetPassword)
    case Registering => PerformRegistration(email, password, displayName)
    case ResettingPassword => PerformPasswordReset(email)
    case SigningIn => PerformSignIn(email, password)
  }

  /**
   * Title, button label and dispatched call follow the same priority: the
   * call made is a registration exactly when the title is "Create Account",
   * a reset exactly when it is "Reset Password", a sign-in exactly when it is
   * "Sign In"; and the button label names the same mode.
   */
  lemma TitleLabelActionAgree(isRegistering: bool, isResetPassword: bool,
                              email: string, password: string, displayName: string)
    ensures var g := MainAction(isRegistering, isResetPassword, email, password, displayName);
      var t := Title(isRegistering, isResetPassword);
      && (g.Calls? ==> (g.request.CreateUser? <==> t == "Create Account"))
      && (g.Calls? ==> (g.request.SendPasswordReset? <==> t == "Reset Password"))
      && (g.Calls? ==> (g.request.SignIn? <==> t == "Sign In"))
      && (t == "Create Account" <==> ActionLabel(isRegistering, isResetPassword) == "Register")
      && (t == "Reset Password" <==> ActionLabel(isRegistering, isResetPassword) == "Reset Password")
      && (t == "Sign In" <==> ActionLabel(isRegistering, isResetPassword) == "Sign In")
  {
  }

  /**
   * One toggle on the pair (isRegistering, isResetPassword): the toggled flag
   * flips, the other is cleared, so the two are never both set afterwards.
   */
  function ApplyToggle(mode: (bool, bool), t: ModeToggle): (r: (bool, bool))
    ensures !(r.0 && r.1)
    ensures t.ToggleRegister? ==> r.0 == !mode.0 && !r.1
    ensures t.ToggleReset? ==> r.1 == !mode.1 && !r.0
  {
    match t
    case ToggleRegister => (!mode.0, false)
    case ToggleReset => (false, !mode.1)
  }

  function ApplyToggles(mode: (bool, bool), ts: seq<ModeToggle>): (bool, bool) {
    if ts == [] then mode else ApplyToggle(ApplyToggles(mode, ts[..|ts| - 1]), ts[|ts| - 1])
  }

  /** From the initial (false, false), no sequence of toggles sets both flags. */
  lemma {:induction false} TogglesExclusive(ts: seq<ModeToggle>)
    ensures var m := ApplyToggles((false, false), ts); !(m.0 && m.1)
  {
    if ts != [] {
      var before := ApplyToggles((false, false), ts[..|ts| - 1]);
      assert ApplyToggles((false, false), ts) == ApplyToggle(before, ts[|ts| - 1]);
    }
  }

  class AuthScreen {
    var email: string
    var password: string
    var displayName: string
    var isRegistering: bool
    var isResetPassword: bool
    var error: Option<string>

    constructor ()
      ensures email == "" && password == "" && displayName == ""
      ensures !isRegistering && !isResetPassword && error.None?
    {
      email, password, displayName := "", "", "";
      isRegistering, isResetPassword := false, false;
      error := None;
    }

    method OnToggleRegister()
      modifies this`isRegistering, this`isResetPassword, this`error
      ensures (isRegistering, isResetPassword) == ApplyToggle(old((isRegistering, isResetPassword)), ToggleRegister)
      ensures isRegistering == !old(isRegistering) && !isResetPassword && error.None?
    {
      isRegistering := !isRegistering;
      isResetPassword := false;
      error := None;
    }

    method OnToggleReset()
      modifies this`isRegistering, this`isResetPassword, this`error
      ensures (isRegistering, isResetPassword) == ApplyToggle(old((isRegistering, isResetPassword)), ToggleReset)
      ensures isResetPassword == !old(isResetPassword) && !isRegistering && error.None?
    {
      isResetPassword := !isResetPassword;
      isRegistering := false;
      error := None;
    }

    method OnEmailChange(text: string)
      modifies this`email
      ensures email == text
    {
      email := text;
    }

    method OnPasswordChange(text: string)
      modifies this`password
      ensures password == text
    {
      password := text;
    }

    method OnDisplayNameChange(text: string)
      modifies this`displayName
      ensures displayName == text
    {
      displayName := text;
    }

    /**
     * The main button: run the mode's guard; a rejection sets `error` and
     * makes no call, otherwise the call to make is returned and `error` is
     * left for the call's completion to set.
     */
    method OnMainAction() returns (call: Option<AuthRequest>)
      modifies this`error
      ensures var g := MainAction(isRegistering, isResetPassword, email, password, displayName);
        && (g.Rejected? ==> call.None? && error == Some(g.message))
        && (g.Calls? ==> call == Some(g.request) && error == old(error))
    {
      var g := MainAction(isRegistering, isResetPassword, email, password, displayName);
      match g {
        case Rejected(message) =>
          error := Some(message);
          call := None;
        case Calls(request) =>
          call := Some(request);
      }
    }
  }
}
