/**
  The registration screen (src/pages/Register.tsx): the keystroke filters of
  `handleChange`, the `validate` chain and the request `handleRegister`
  sends. The account creation and the automatic sign-in after it are
  server calls whose outcomes are inputs.
 */
module Register {
  import opened Lists
  import opened Text
  import Phone
  import Session

  datatype RegisterForm = RegisterForm(
    email: string,
    pass: string,
    confirmaSenha: string,
    nome: string,
    telefone: string,
    codigo: string)

  const NomeRequired: string := "Nome é obrigatório"
  const EmailInvalid: string := "E-mail inválido"
  const PhoneOrEmailRequired: string := "Telefone ou E-mail é obrigatório - informe pelo menos um deles para login."
  const PasswordTooShort: string := "Senha deve ter pelo menos 6 caracteres"
  const PasswordMismatch: string := "As senhas não coincidem"
  const RegisterFailed: string := "Erro ao cadastrar usuário"

  /**
    `validate`: the first failing check's message, or none. The e-mail
    check is `!email && !email.includes('@')`, which only an empty address
    fails, so the "phone or e-mail" check after it can never fire.
   */
  function Validate(f: RegisterForm): (r: Option<string>)
    ensures r.None? <==> f.nome != "" && f.email != "" && |f.pass| >= 6 && f.pass == f.confirmaSenha
    ensures f.nome == "" ==> r == Some(NomeRequired)
    ensures f.nome != "" && f.email == "" ==> r == Some(EmailInvalid)
    ensures f.nome != "" && f.email != "" && |f.pass| < 6 ==> r == Some(PasswordTooShort)
    ensures f.nome != "" && f.email != "" && |f.pass| >= 6 && f.pass != f.confirmaSenha ==> r == Some(PasswordMismatch)
    ensures r != Some(PhoneOrEmailRequired)
  {
    if f.nome == "" then Some(NomeRequired)
    else if f.email == "" && '@' !in f.email then Some(EmailInvalid)
    else if f.telefone == "" && f.email == "" then Some(PhoneOrEmailRequired)
    else if f.pass == "" || |f.pass| < 6 then Some(PasswordTooShort)
    else if f.pass != f.confirmaSenha then Some(PasswordMismatch)
    else None
  }

  /** Any non-empty text passes as an address, '@' or not. */
  lemma AddressWithoutAtAccepted(f: RegisterForm)
    requires f.nome != "" && f.email != "" && '@' !in f.email
    requires |f.pass| >= 6 && f.pass == f.confirmaSenha
    ensures Validate(f).None?
  {
  }

  /** The name is not trimmed: a name of spaces passes. */
  lemma BlankNameAccepted(f: RegisterForm)
    requires f.nome != "" && IsBlank(f.nome)
    ensures Validate(f) != Some(NomeRequired)
  {
  }

  /** `[a-z0-9]`: the characters the nickname keeps. */
  predicate NicknameChar(c: char) { IsAsciiLower(c) || IsDigit(c) }

  /** The nickname filter `replace(/[^a-z0-9]/g, '')`: every other character is dropped, the kept ones stay in order. */
  function NicknameInput(value: string): (r: string)
    ensures forall i :: 0 <= i < |r| ==> NicknameChar(r[i])
    ensures SubSeq(r, value)
    ensures forall i :: 0 <= i < |value| && NicknameChar(value[i]) ==> value[i] in r
    ensures forall c :: multiset(r)[c] == (if NicknameChar(c) then multiset(value)[c] else 0)
  {
    FilterMultiplicity(value, NicknameChar);
    Filter(value, NicknameChar)
  }

  /** Filtering a filtered nickname changes nothing, and a clean nickname passes whole. */
  lemma NicknameInputStable(value: string)
    ensures NicknameInput(NicknameInput(value)) == NicknameInput(value)
    ensures (forall i :: 0 <= i < |value| ==> NicknameChar(value[i])) ==> NicknameInput(value) == value
  {
    FilterIdempotent(value, NicknameChar);
    if forall i :: 0 <= i < |value| ==> NicknameChar(value[i]) {
      FilterKeepsAll(value, NicknameChar);
    }
  }

  /** The inputs `handleChange` writes. The nickname input is not on the form; its filter is `NicknameInput`. */
  datatype RegisterField = Email | Pass | ConfirmaSenha | Nome | Telefone | Codigo

  /** `handleChange(field, value)`: the phone goes through the store form's mask, the rest is stored as typed. */
  function HandleChange(f: RegisterForm, field: RegisterField, value: string): (r: RegisterForm)
    ensures field == Telefone ==> r == f.(telefone := Phone.ScreenPhoneMask(value))
    ensures field == Telefone ==> |r.telefone| <= 15 && Digits(r.telefone) == Take(Digits(value), 11)
    ensures field == Email ==> r == f.(email := value)
    ensures field == Nome ==> r == f.(nome := value)
    ensures field == Pass ==> r == f.(pass := value)
    ensures field == ConfirmaSenha ==> r == f.(confirmaSenha := value)
    ensures field == Codigo ==> r == f.(codigo := value)
  {
    match field
    case Email => f.(email := value)
    case Pass => f.(pass := value)
    case ConfirmaSenha => f.(confirmaSenha := value)
    case Nome => f.(nome := value)
    case Telefone => f.(telefone := Phone.ScreenPhoneMask(value))
    case Codigo => f.(codigo := value)
  }

  /** The fields of the account-creation request. */
  datatype CreateRequest = CreateRequest(email: string, pass: string, telefone: string, nome: string, idUsuarioPai: string)

  /** A server call's outcome: success, or a failure with `response.data.message` and `response.data.error` when present. */
  datatype Outcome = Ok | Fail(message: Option<string>, error: Option<string>)

  /** What `handleRegister` did: the request sent, the sign-in made and the alert shown ("" for none). */
  datatype RegisterOut = RegisterOut(create: Option<CreateRequest>, signIn: Option<Session.SignInArgs>, alert: string)

  /**
    `handleRegister`: a failed validation only alerts. Otherwise the account
    is created with the phone reduced to digits and, once created, signed in
    with the same address, phone digits and password (the guard
    `email || telefone` always holds after validation). A failure of either
    call shows the server's message, its error, or a fixed text.
   */
  function HandleRegister(f: RegisterForm, idUsuarioPai: string, created: Outcome, signedIn: Outcome): (r: RegisterOut)
    ensures r.create.Some? <==> Validate(f).None?
    ensures r.create.None? ==> r.signIn.None? && r.alert == Validate(f).value
    ensures r.create.Some? ==> r.create.value == CreateRequest(f.email, f.pass, Digits(f.telefone), f.nome, idUsuarioPai)
    ensures r.signIn.Some? <==> r.create.Some? && created.Ok?
    ensures r.signIn.Some? ==> r.signIn.value == Session.SignInArgs(f.email, Digits(f.telefone), f.pass)
    ensures r.create.Some? && created.Ok? && signedIn.Ok? ==> r.alert == ""
    ensures r.create.Some? && created.Fail? ==> r.alert == OrText(created.message, OrText(created.error, RegisterFailed))
  {
    match Validate(f)
    case Some(msg) => RegisterOut(None, None, msg)
    case None =>
      var phone := Digits(f.telefone);
      var req := Some(CreateRequest(f.email, f.pass, phone, f.nome, idUsuarioPai));
      if created.Fail? then RegisterOut(req, None, OrText(created.message, OrText(created.error, RegisterFailed)))
      else
        var args := if f.email != "" || phone != "" then Some(Session.SignInArgs(f.email, phone, f.pass)) else None;
        var alert := if signedIn.Fail? then OrText(signedIn.message, OrText(signedIn.error, RegisterFailed)) else "";
        RegisterOut(req, args, alert)
  }

  /** A phone typed through the mask is sent as the first eleven digits typed. */
  lemma TypedPhoneSent(f: RegisterForm, typed: string, idUsuarioPai: string, created: Outcome, signedIn: Outcome)
    requires Validate(f).None?
    ensures var g := HandleChange(f, Telefone, typed);
      HandleRegister(g, idUsuarioPai, created, signedIn).create.value.telefone == Take(Digits(typed), 11)
  {
    DigitsIdempotent(typed);
  }
}
