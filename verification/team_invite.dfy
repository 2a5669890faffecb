/**
  Adding a merchant to a store's team (src/pages/Loja/ColabTeam.tsx,
  `handleAddLojista`). The address is checked blank-first, then against the
  e-mail pattern as typed, and sent trimmed and lower-cased. The server's
  answer is an input.
 */
module TeamInvite {
  import opened Lists
  import opened Text
  import Email

  /** The invite modal: the typed address and whether the modal is open. */
  datatype InviteState = InviteState(email: string, modalOpen: bool)

  /**
    How the request ends. A failure either carries a response body
    (`error.response.data`) or does not (a network error has no
    `response`).
   */
  datatype Answer = Added | FailedWithBody | FailedWithoutBody

  /** One attempt: the new state, the address sent (if any), the alert shown ("" for none), and whether the team is reloaded. */
  datatype InviteOut = InviteOut(state: InviteState, sent: Option<string>, alert: string, reload: bool)

  const EmailRequired: string := "Email é obrigatório"
  const EmailInvalid: string := "Email inválido"
  const InviteAdded: string := "Lojista adicionado à equipe com sucesso!"
  const InviteFailed: string := "Não foi possível adicionar o lojista à equipe"

  /** The two checks before any request, in order; "" when both pass. */
  function InviteError(email: string): (r: string)
    ensures r == EmailRequired <==> IsBlank(email)
    ensures r == EmailInvalid <==> !IsBlank(email) && !Email.MatchesPattern(email)
    ensures r == "" <==> !IsBlank(email) && Email.MatchesPattern(email)
  {
    if IsBlank(email) then EmailRequired
    else if !Email.ValidarEmail(email) then EmailInvalid
    else ""
  }

  /**
    `handleAddLojista` as written. Its catch block first logs
    `error.response.data.error`, which throws when the failure has no
    response body, so the alert after it is never reached: such a failure
    shows nothing.
   */
  function AddLojista(s: InviteState, answer: Answer): (r: InviteOut)
    ensures r.sent.Some? <==> InviteError(s.email) == ""
    ensures r.sent.None? ==> r == InviteOut(s, None, InviteError(s.email), false)
    ensures r.sent.Some? && answer == Added ==>
      r.state == InviteState("", false) && r.alert == InviteAdded && r.reload
    ensures r.sent.Some? && answer != Added ==> r.state == s && !r.reload
    ensures r.sent.Some? && answer == FailedWithoutBody ==> r.alert == ""
  {
    var err := InviteError(s.email);
    if err != "" then InviteOut(s, None, err, false)
    else
      var sent := Some(ToLower(Trim(s.email)));
      match answer
      case Added => InviteOut(InviteState("", false), sent, InviteAdded, true)
      case FailedWithBody => InviteOut(s, sent, InviteFailed, false)
      case FailedWithoutBody => InviteOut(s, sent, "", false)
  }

  /** The handler as evidently intended: every failure shows the generic alert. */
  function AddLojistaIntended(s: InviteState, answer: Answer): (r: InviteOut)
    ensures r.sent.Some? <==> InviteError(s.email) == ""
    ensures r.sent.Some? && answer != Added ==> r.state == s && r.alert == InviteFailed && !r.reload
    ensures answer == Added ==> r == AddLojista(s, answer)
  {
    var out := AddLojista(s, answer);
    if out.sent.Some? && answer != Added then out.(alert := InviteFailed) else out
  }

  /** The two handlers differ exactly on a sent request that fails without a response body. */
  lemma MissingFailureAlert(s: InviteState, answer: Answer)
    ensures AddLojista(s, answer) != AddLojistaIntended(s, answer) <==>
      InviteError(s.email) == "" && answer == FailedWithoutBody
  {
  }

  /**
    The address sent is the typed one lower-cased: an address the pattern
    accepts has no white space, so the trim changes nothing.
   */
  lemma SentAddressIsLowered(s: InviteState, answer: Answer)
    requires AddLojista(s, answer).sent.Some?
    ensures AddLojista(s, answer).sent.value == ToLower(s.email)
    ensures Email.MatchesPattern(s.email)
  {
    Email.AcceptedHasNoSpace(s.email);
  }

  /** The check runs on the raw input: an address with white space before it is refused, not trimmed. */
  lemma PaddedAddressRefused(s: InviteState, answer: Answer)
    requires |s.email| > 0 && IsSpace(s.email[0]) && !IsBlank(s.email)
    ensures AddLojista(s, answer) == InviteOut(s, None, EmailInvalid, false)
  {
    Email.LeadingSpaceRejected(s.email);
  }

  /** A blank address is refused as missing before the pattern is tried. */
  lemma BlankAddressRequired(s: InviteState, answer: Answer)
    requires IsBlank(s.email)
    ensures AddLojista(s, answer).alert == EmailRequired && AddLojista(s, answer).sent.None?
  {
  }
}
