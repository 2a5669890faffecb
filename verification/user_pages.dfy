/**
  The account pages: the profile data form (src/pages/User/UserDados.tsx),
  the password change (src/pages/User/UserTrocaSenha.tsx) and the help page's
  accordion and contact form (src/pages/User/UserFaq.tsx). Server outcomes
  are inputs.
 */
module UserPages {
  import opened Lists
  import opened Text
  import Email
  import Phone

  /** A failed server call: its response body's message when there is a response, and whether axios reported 'Network Error'. */
  datatype Failure = Failure(response: Option<Option<string>>, networkError: bool)

  const ConnectionError: string := "Erro de conexão. Verifique sua internet."

  // ---------------------------------------------------------------------
  // Profile data
  // ---------------------------------------------------------------------

  datatype DadosForm = DadosForm(nome: string, email: string, telefone: string)

  /** The form and the `saving` flag that disables the save button. */
  datatype DadosState = DadosState(form: DadosForm, saving: bool)

  const NomeTooShort: string := "O nome deve ter pelo menos 3 caracteres."
  const TelefoneTooShort: string := "O telefone deve ter pelo menos 10 caracteres."
  const DadosSaved: string := "Dados atualizados!"
  const DadosFailed: string := "Erro ao atualizar dados"

  /** `validate`: the name first, then the phone, each measured after trimming. */
  function ValidateDados(f: DadosForm): (r: Option<string>)
    ensures r.None? <==> |Trim(f.nome)| >= 3 && |Trim(f.telefone)| >= 10
    ensures |Trim(f.nome)| < 3 ==> r == Some(NomeTooShort)
    ensures |Trim(f.nome)| >= 3 && |Trim(f.telefone)| < 10 ==> r == Some(TelefoneTooShort)
  {
    if f.nome == "" || |Trim(f.nome)| < 3 then Some(NomeTooShort)
    else if f.telefone == "" || |Trim(f.telefone)| < 10 then Some(TelefoneTooShort)
    else None
  }

  /** The editable inputs of the profile form. */
  datatype DadosField = DNome | DEmail | DTelefone

  /** `handleChange`: the phone goes through `maskPhone`, the other inputs are stored as typed. */
  function DadosChange(f: DadosForm, field: DadosField, value: string): (r: DadosForm)
    ensures field == DTelefone ==> r.telefone == Phone.MaskPhone(value) && r.nome == f.nome && r.email == f.email
    ensures field == DTelefone ==> |r.telefone| <= 15 && Digits(r.telefone) == Take(Digits(value), 11)
    ensures field == DNome ==> r == f.(nome := value)
    ensures field == DEmail ==> r == f.(email := value)
  {
    match field
    case DNome => f.(nome := value)
    case DEmail => f.(email := value)
    case DTelefone => f.(telefone := Phone.MaskPhone(value))
  }

  /** The update sent: the name as typed and the phone's digits; the e-mail is never sent. */
  datatype DadosPayload = DadosPayload(telefone: string, nome: string)

  datatype DadosOut = DadosOut(state: DadosState, sent: Option<DadosPayload>, alert: string)

  /**
    `handleSave` as written. `saving` is set before validating and only the
    request's `finally` clears it, so a failed validation leaves it set. The
    catch block first logs `e.response.data.error`, which throws when the
    failure has no response: then no alert is shown, not even the
    connection message meant for network errors.
   */
  function SaveDados(s: DadosState, outcome: Option<Failure>): (r: DadosOut)
    ensures r.sent.Some? <==> ValidateDados(s.form).None?
    ensures r.sent.None? ==> r == DadosOut(s.(saving := true), None, ValidateDados(s.form).value)
    ensures r.sent.Some? ==> r.sent.value == DadosPayload(Digits(s.form.telefone), s.form.nome) && !r.state.saving
    ensures r.sent.Some? && outcome.None? ==> r.alert == DadosSaved
    ensures r.sent.Some? && outcome.Some? && outcome.value.response.None? ==> r.alert == ""
    ensures r.state.form == s.form
  {
    match ValidateDados(s.form)
    case Some(msg) => DadosOut(s.(saving := true), None, msg)
    case None =>
      var sent := Some(DadosPayload(Digits(s.form.telefone), s.form.nome));
      var done := s.(saving := false);
      match outcome
      case None => DadosOut(done, sent, DadosSaved)
      case Some(fail) =>
        (match fail.response
         case None => DadosOut(done, sent, "")
         case Some(m) => DadosOut(done, sent, if fail.networkError then ConnectionError else OrText(m, DadosFailed)))
  }

  /** The save as evidently intended: a network error shows the connection message, any other failure the server's or the fixed text. */
  function SaveDadosIntended(s: DadosState, outcome: Option<Failure>): (r: DadosOut)
    ensures r.sent.Some? && outcome.Some? && outcome.value.networkError ==> r.alert == ConnectionError
    ensures r.sent.Some? && outcome.Some? ==> r.alert != ""
    ensures outcome.None? || outcome.value.response.Some? ==> r == SaveDados(s, outcome)
  {
    var out := SaveDados(s, outcome);
    if out.sent.Some? && outcome.Some? && outcome.value.response.None? then
      out.(alert := if outcome.value.networkError then ConnectionError else DadosFailed)
    else out
  }

  /** The two saves differ exactly when a valid form's request fails without a response. */
  lemma MissingSaveAlert(s: DadosState, outcome: Option<Failure>)
    ensures SaveDados(s, outcome) != SaveDadosIntended(s, outcome) <==>
      ValidateDados(s.form).None? && outcome.Some? && outcome.value.response.None?
  {
  }

  /** After a failed validation the save button stays disabled: another attempt changes nothing. */
  lemma FailedValidationKeepsSaving(s: DadosState, o1: Option<Failure>, o2: Option<Failure>)
    requires ValidateDados(s.form).Some?
    ensures SaveDados(s, o1).state.saving
    ensures SaveDados(SaveDados(s, o1).state, o2) == SaveDados(s, o1)
  {
  }

  /** A masked phone with eleven digits is fifteen chars with no white space at either end. */
  lemma MaskedMobileLength(typed: string)
    requires |Digits(typed)| >= 11
    ensures |Trim(Phone.MaskPhone(typed))| == 15
  {
    var d := Digits(typed);
    var m := Phone.Mobile(d);
    assert |m| == 15 && m[0] == '(' && m[14] == d[10];
    TrimNoEdgeSpace(m);
  }

  /** A phone typed through the mask with at least eleven digits passes the phone check and is sent as those eleven digits. */
  lemma TypedPhoneSaved(f: DadosForm, typed: string, saving: bool, outcome: Option<Failure>)
    requires |Trim(f.nome)| >= 3 && |Digits(typed)| >= 11
    ensures var g := DadosChange(f, DTelefone, typed);
      SaveDados(DadosState(g, saving), outcome).sent == Some(DadosPayload(Take(Digits(typed), 11), f.nome))
  {
    MaskedMobileLength(typed);
  }

  // ---------------------------------------------------------------------
  // Password change
  // ---------------------------------------------------------------------

  const FillAllFields: string := "Preencha todos os campos."
  const NewPasswordTooShort: string := "A nova senha deve ter pelo menos 6 caracteres."
  const PasswordsDiffer: string := "As senhas não coincidem."
  const PasswordChanged: string := "Senha alterada com sucesso! Faça login novamente."
  const PasswordChangeFailed: string := "Erro ao alterar senha."

  /** `{ oldPassword, newPassword }`. */
  datatype PasswordChange = PasswordChange(oldPassword: string, newPassword: string)

  /** The checks of `handleAlterarSenha`, in order; none when all pass. */
  function PasswordError(atual: string, nova: string, confirmar: string): (r: Option<string>)
    ensures r.None? <==> atual != "" && |nova| >= 6 && nova == confirmar
    ensures atual == "" || nova == "" || confirmar == "" ==> r == Some(FillAllFields)
    ensures atual != "" && nova != "" && confirmar != "" && |nova| < 6 ==> r == Some(NewPasswordTooShort)
    ensures atual != "" && confirmar != "" && |nova| >= 6 && nova != confirmar ==> r == Some(PasswordsDiffer)
  {
    if atual == "" || nova == "" || confirmar == "" then Some(FillAllFields)
    else if |nova| < 6 then Some(NewPasswordTooShort)
    else if nova != confirmar then Some(PasswordsDiffer)
    else None
  }

  /** What `handleAlterarSenha` did: the request sent, the alert, and whether dismissing it signs out. */
  datatype PasswordOut = PasswordOut(sent: Option<PasswordChange>, alert: string, signOutOnDismiss: bool)

  /**
    `handleAlterarSenha`: the request is sent only when every check passes;
    success asks the user to log in again and signs out when the alert is
    dismissed; a network error replaces the server's message.
   */
  function ChangePassword(atual: string, nova: string, confirmar: string, outcome: Option<Failure>): (r: PasswordOut)
    ensures r.sent.Some? <==> PasswordError(atual, nova, confirmar).None?
    ensures r.sent.None? ==> r == PasswordOut(None, PasswordError(atual, nova, confirmar).value, false)
    ensures r.sent.Some? ==> r.sent.value == PasswordChange(atual, nova)
    ensures r.signOutOnDismiss <==> r.sent.Some? && outcome.None?
    ensures r.sent.Some? && outcome.Some? && outcome.value.networkError ==> r.alert == ConnectionError
    ensures r.sent.Some? && outcome.Some? ==> r.alert != ""
  {
    match PasswordError(atual, nova, confirmar)
    case Some(msg) => PasswordOut(None, msg, false)
    case None =>
      var sent := Some(PasswordChange(atual, nova));
      match outcome
      case None => PasswordOut(sent, PasswordChanged, true)
      case Some(fail) =>
        var msg := OrText(if fail.response.Some? then fail.response.value else None, PasswordChangeFailed);
        PasswordOut(sent, if fail.networkError then ConnectionError else msg, false)
  }

  /** The new password sent always has at least six chars and equals its confirmation. */
  lemma SentPasswordChecked(atual: string, nova: string, confirmar: string, outcome: Option<Failure>)
    requires ChangePassword(atual, nova, confirmar, outcome).sent.Some?
    ensures var p := ChangePassword(atual, nova, confirmar, outcome).sent.value;
      |p.newPassword| >= 6 && p.newPassword == confirmar && p.oldPassword != ""
  {
  }

  // ---------------------------------------------------------------------
  // Help page
  // ---------------------------------------------------------------------

  /** `handleToggle(idx)`: the open item closes; any other item becomes the only open one. */
  function ToggleFaq(open: Option<int>, idx: int): (r: Option<int>)
    ensures r == Some(idx) <==> open != Some(idx)
    ensures r.None? <==> open == Some(idx)
  {
    if open == Some(idx) then None else Some(idx)
  }

  /** Toggling the same item twice restores the accordion; toggling two different items leaves the second open. */
  lemma ToggleFaqTwice(open: Option<int>, i: int, j: int)
    ensures ToggleFaq(ToggleFaq(open, i), i) == open || (open.Some? && open.value != i && ToggleFaq(ToggleFaq(open, i), i) == None)
    ensures open.None? ==> ToggleFaq(ToggleFaq(open, i), i) == open
    ensures i != j ==> ToggleFaq(ToggleFaq(open, i), j) == Some(j)
  {
  }

  /** The contact form and its `enviado` (sent) flag. */
  datatype ContactState = ContactState(nome: string, email: string, mensagem: string, enviado: bool)

  /** `{ name, email, message }`. */
  datatype ContactMessage = ContactMessage(name: string, email: string, message: string)

  datatype ContactOut = ContactOut(state: ContactState, sent: Option<ContactMessage>, alert: string)

  const ContactBlank: string := "Preencha todos os campos."
  const ContactEmailInvalid: string := "E-mail inválido."
  const ContactFailed: string := "Não foi possível enviar sua mensagem. Tente novamente."

  /**
    `handleEnviarContato`: any field blank after trimming, then an address
    (as typed) not matching the e-mail pattern, stops it. Otherwise the
    fields are sent as typed, with `enviado` cleared first; success clears
    the three fields and sets `enviado`, a failure alerts and leaves it clear.
   */
  function SendContact(s: ContactState, ok: bool): (r: ContactOut)
    ensures r.sent.Some? <==>
      !IsBlank(s.nome) && !IsBlank(s.email) && !IsBlank(s.mensagem) && Email.MatchesPattern(s.email)
    ensures (IsBlank(s.nome) || IsBlank(s.email) || IsBlank(s.mensagem)) ==> r == ContactOut(s, None, ContactBlank)
    ensures r.sent.Some? ==> r.sent.value == ContactMessage(s.nome, s.email, s.mensagem)
    ensures r.sent.Some? && ok ==> r == ContactOut(ContactState("", "", "", true), r.sent, "")
    ensures r.sent.Some? && !ok ==> r.state == s.(enviado := false) && r.alert == ContactFailed
  {
    if IsBlank(s.nome) || IsBlank(s.email) || IsBlank(s.mensagem) then ContactOut(s, None, ContactBlank)
    else if !Email.ValidarEmail(s.email) then ContactOut(s, None, ContactEmailInvalid)
    else
      var sent := Some(ContactMessage(s.nome, s.email, s.mensagem));
      if ok then ContactOut(ContactState("", "", "", true), sent, "")
      else ContactOut(s.(enviado := false), sent, ContactFailed)
  }

  /** After a successful send the form is blank, so sending again is refused before any request. */
  lemma SentFormRefusesResend(s: ContactState, ok1: bool, ok2: bool)
    requires SendContact(s, ok1).sent.Some? && ok1
    ensures SendContact(SendContact(s, ok1).state, ok2).sent.None?
  {
    TrimBlank("");
  }
}
