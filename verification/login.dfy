/**
  The login screen (src/pages/Login.tsx): `handleLogin`'s checks, the
  arguments it signs in with, and what a failed sign-in leaves behind. The
  sign-in's outcome is an input.
 */
module Login {
  import opened Lists
  import opened Text
  import Email
  import Phone
  import Utils
  import Session

  /** Whether the user logs in with an e-mail address or a phone number. */
  datatype LoginMode = ByEmail | ByPhone

  datatype LoginState = LoginState(email: string, senha: string, telefone: string, mode: LoginMode)

  /** How the sign-in ends: success, or a failure with or without a response (a network error has none). */
  datatype SignInOutcome = SignedIn | Rejected(message: Option<string>) | NoResponse

  /** What `handleLogin` did: the new state, the sign-in made and the alert shown ("" for none). */
  datatype LoginOut = LoginOut(state: LoginState, signIn: Option<Session.SignInArgs>, alert: string)

  const EmailInvalid: string := "E-mail inválido"
  const PhoneInvalid: string := "Telefone inválido"
  const PasswordTooShort: string := "A senha deve ter pelo menos 6 caracteres"
  const LoginFailed: string := "Falha no login. Verifique suas login e senha."

  /** The checks before signing in, in order; "" when they pass. */
  function LoginError(s: LoginState): (r: string)
    ensures r == EmailInvalid <==> s.mode == ByEmail && !Email.MatchesPattern(s.email)
    ensures r == PhoneInvalid <==> s.mode == ByPhone && !Phone.ValidarTelefone(s.telefone)
    ensures r == "" <==>
      && (s.mode == ByEmail ==> Email.MatchesPattern(s.email))
      && (s.mode == ByPhone ==> Phone.ValidarTelefone(s.telefone))
      && |s.senha| >= 6
  {
    if s.mode == ByEmail && !Email.ValidarEmail(s.email) then EmailInvalid
    else if s.mode == ByPhone && !Phone.ValidarTelefone(s.telefone) then PhoneInvalid
    else if !Utils.ValidarSenha(s.senha) then PasswordTooShort
    else ""
  }

  /** The sign-in arguments: the address and an empty phone, or an empty address and the phone's digits. */
  function SignInArgsFor(s: LoginState): (a: Session.SignInArgs)
    ensures a.senha == s.senha
    ensures s.mode == ByEmail ==> a.email == s.email && a.telefone == ""
    ensures s.mode == ByPhone ==> a.email == "" && AllDigits(a.telefone) && SubSeq(a.telefone, s.telefone)
  {
    match s.mode
    case ByEmail => Session.SignInArgs(s.email, "", s.senha)
    case ByPhone => Session.SignInArgs("", Digits(s.telefone), s.senha)
  }

  /**
    `handleLogin` as written. Every failed check clears the password and
    signs nobody in. A failed sign-in clears the password too, then reads
    `error.response.data?.message`, which throws when there is no response:
    such a failure shows no alert.
   */
  function HandleLogin(s: LoginState, outcome: SignInOutcome): (r: LoginOut)
    ensures r.signIn.Some? <==> LoginError(s) == ""
    ensures r.signIn.None? ==> r == LoginOut(s.(senha := ""), None, LoginError(s))
    ensures r.signIn.Some? ==> r.signIn.value == SignInArgsFor(s)
    ensures r.signIn.Some? && outcome.SignedIn? ==> r == LoginOut(s, Some(SignInArgsFor(s)), "")
    ensures r.signIn.Some? && !outcome.SignedIn? ==> r.state == s.(senha := "")
    ensures r.signIn.Some? && outcome.NoResponse? ==> r.alert == ""
  {
    var err := LoginError(s);
    if err != "" then LoginOut(s.(senha := ""), None, err)
    else
      var args := Some(SignInArgsFor(s));
      match outcome
      case SignedIn => LoginOut(s, args, "")
      case Rejected(m) => LoginOut(s.(senha := ""), args, OrText(m, LoginFailed))
      case NoResponse => LoginOut(s.(senha := ""), args, "")
  }

  /** The handler as evidently intended: a failure without a response shows the fixed text. */
  function HandleLoginIntended(s: LoginState, outcome: SignInOutcome): (r: LoginOut)
    ensures r.signIn.Some? && !outcome.SignedIn? ==> r.alert != "" && r.state == s.(senha := "")
    ensures !outcome.NoResponse? ==> r == HandleLogin(s, outcome)
  {
    var out := HandleLogin(s, outcome);
    if out.signIn.Some? && outcome.NoResponse? then out.(alert := LoginFailed) else out
  }

  /** The two handlers differ exactly when a sign-in is attempted and gets no response. */
  lemma MissingLoginAlert(s: LoginState, outcome: SignInOutcome)
    ensures HandleLogin(s, outcome) != HandleLoginIntended(s, outcome) <==>
      LoginError(s) == "" && outcome.NoResponse?
  {
  }

  /** A phone login that passes the checks signs in with exactly eleven digits, which re-format to the typed number. */
  lemma PhoneLoginDigits(s: LoginState, outcome: SignInOutcome)
    requires s.mode == ByPhone && HandleLogin(s, outcome).signIn.Some?
    ensures var t := HandleLogin(s, outcome).signIn.value.telefone;
      |t| == 11 && Phone.Mobile(t) == s.telefone
  {
    Phone.ValidPhoneIsMobile(s.telefone);
  }

  /** A phone typed through the login input whose first fifteen chars hold exactly eleven digits passes the phone check. */
  lemma TypedPhonePasses(s: LoginState, typed: string)
    requires s.mode == ByPhone && |typed| > 8 && |Digits(Take(typed, 15))| == 11
    ensures LoginError(s.(telefone := Phone.LoginPhoneInput(typed))) != PhoneInvalid
  {
  }
}
