/**
  The merchant's coupon validation screen (src/pages/Cupom/validaCupom.tsx)
  as a state machine. A scanned payload is acted on only while the scan
  lock is clear; acting sets the lock and schedules one submission. A
  submission trims the code, rejects a blank one, and otherwise clears the
  lock, closes the scanner and looks the code up. Confirming use needs a
  looked-up coupon with an id and sends its code and the customer's email.
  Server answers, the camera permission and the user's choice in the
  confirmation dialog are inputs of the events.
 */
module ScanLock {
  import opened Lists
  import opened Text

  /** What a successful lookup returns: the coupon's id (absent or 0 when missing), its code and the customer's email. */
  datatype Details = Details(cupomId: Option<int>, codigo: string, email: string)

  /** `cupomDetalhes?.cupom?.id` is truthy. */
  predicate HasId(d: Details)
  {
    d.cupomId.Some? && d.cupomId.value != 0
  }

  /**
    The screen: the scan lock, the two modals, the typed code and whether
    the typing box is shown, the looked-up details, and the submissions the
    scanner has scheduled but not yet run (oldest first).
   */
  datatype ScanState = ScanState(
    locked: bool,
    scannerOpen: bool,
    detailsOpen: bool,
    typed: string,
    typing: bool,
    details: Option<Details>,
    pending: seq<string>)

  /** The camera permission as `handleValidarViaQrCode` finds it after asking. */
  datatype Permission = Loading | Denied | Granted

  datatype Event =
    | OpenScanner(permission: Permission)
    | Scanned(data: string)
    | TimerFired(found: Option<Details>)
    | TypeCode(text: string)
    | ShowTyping
    | SubmitTyped(found: Option<Details>)
    | ConfirmUse(confirmed: bool, succeeded: bool)
    | CloseDetails

  /** A request sent to the server. */
  datatype Request = NoRequest | Lookup(code: string) | MarkUsed(codigo: string, email: string)

  /** One step: the new state, the request sent and the alert shown ("" for none). */
  datatype Out = Out(state: ScanState, request: Request, alert: string)

  const InvalidCode: string := "Código inválido. Por favor, tente novamente."
  const LookupFailed: string := "Não foi possível validar o cupom. Verifique o código e tente novamente."
  const MissingDetails: string := "Dados do cupom não encontrados."
  const UseConfirmed: string := "Cupom utilizado com sucesso!"
  const UseFailed: string := "Não foi possível confirmar o uso do cupom. Tente novamente."
  const PermissionNeeded: string := "É necessário permitir o acesso à câmera para escanear QR codes."

  /** `resetStates`: details gone, both modals closed, typed code cleared, typing box hidden, lock clear. */
  function ResetStates(s: ScanState): (r: ScanState)
    ensures !r.locked && !r.scannerOpen && !r.detailsOpen && r.details.None?
    ensures r.typed == "" && !r.typing && r.pending == s.pending
  {
    s.(details := None, detailsOpen := false, scannerOpen := false, typed := "", typing := false, locked := false)
  }

  /**
    `handleValidarCodigo(codigo)`: a code that is blank after trimming only
    alerts, leaving everything (the lock included) as it was; any other
    code closes the scanner, clears the lock and is looked up trimmed. A
    found coupon opens the details; every failure gives the same alert.
   */
  function Submit(s: ScanState, code: string, found: Option<Details>): (r: Out)
    ensures IsBlank(code) ==> r == Out(s, NoRequest, InvalidCode)
    ensures !IsBlank(code) ==> r.request == Lookup(Trim(code)) && !r.state.locked && !r.state.scannerOpen
    ensures !IsBlank(code) && found.Some? ==> r.state.details == found && r.state.detailsOpen && r.alert == ""
    ensures !IsBlank(code) && found.None? ==> r.alert == LookupFailed && r.state.details == s.details
    ensures r.state.pending == s.pending && r.state.typed == s.typed
  {
    if IsBlank(code) then Out(s, NoRequest, InvalidCode)
    else
      var s1 := s.(scannerOpen := false, locked := false);
      match found
      case Some(d) => Out(s1.(details := Some(d), detailsOpen := true), Lookup(Trim(code)), "")
      case None => Out(s1, Lookup(Trim(code)), LookupFailed)
  }

  /** The looked-up code is a non-empty piece of the submitted one that trimming again leaves unchanged. */
  lemma SubmittedCodeIsTrimmed(s: ScanState, code: string, found: Option<Details>)
    requires Submit(s, code, found).request.Lookup?
    ensures var c := Submit(s, code, found).request.code;
      c != "" && Contains(code, c) && Trim(c) == c
  {
    TrimNoEdgeSpace(Trim(code));
  }

  /**
    The screen's reaction to one event. A scan is acted on only when the
    payload is non-empty and the lock is clear; the typed code can be
    submitted only when it is not blank (the button is disabled otherwise).
   */
  function Step(s: ScanState, e: Event): (r: Out)
    ensures e.Scanned? && (s.locked || e.data == "") ==> r == Out(s, NoRequest, "")
    ensures e.Scanned? && !s.locked && e.data != "" ==>
      r == Out(s.(locked := true, pending := s.pending + [e.data]), NoRequest, "")
    ensures e == OpenScanner(Granted) ==>
      !r.state.locked && r.state.scannerOpen && !r.state.detailsOpen && r.state.typed == "" && !r.state.typing
    ensures e.OpenScanner? && e.permission != Granted ==> r.state == s
    ensures r.request.MarkUsed? ==>
      && e.ConfirmUse? && e.confirmed && s.details.Some? && HasId(s.details.value)
      && r.request == MarkUsed(s.details.value.codigo, s.details.value.email)
  {
    match e
    case OpenScanner(p) =>
      (match p
       case Loading => Out(s, NoRequest, "")
       case Denied => Out(s, NoRequest, PermissionNeeded)
       case Granted =>
         Out(s.(detailsOpen := false, typed := "", typing := false, locked := false, scannerOpen := true), NoRequest, ""))
    case Scanned(data) =>
      if data != "" && !s.locked then Out(s.(locked := true, pending := s.pending + [data]), NoRequest, "")
      else Out(s, NoRequest, "")
    case TimerFired(found) =>
      if |s.pending| == 0 then Out(s, NoRequest, "")
      else Submit(s.(pending := s.pending[1..]), s.pending[0], found)
    case TypeCode(text) => Out(s.(typed := text), NoRequest, "")
    case ShowTyping => Out(s.(typing := true), NoRequest, "")
    case SubmitTyped(found) =>
      if IsBlank(s.typed) then Out(s, NoRequest, "")
      else Submit(s, s.typed, found)
    case ConfirmUse(confirmed, ok) =>
      if s.details.None? || !HasId(s.details.value) then Out(s, NoRequest, MissingDetails)
      else if !confirmed then Out(s, NoRequest, "")
      else
        var req := MarkUsed(s.details.value.codigo, s.details.value.email);
        if ok then Out(ResetStates(s), req, UseConfirmed) else Out(s, req, UseFailed)
    case CloseDetails => Out(s.(detailsOpen := false), NoRequest, "")
  }

  /** A lock-clearing event: opening the scanner, a non-blank submission, or a confirmed use that succeeded. */
  predicate ClearPoint(s: ScanState, e: Event)
  {
    || e == OpenScanner(Granted)
    || (e.TimerFired? && |s.pending| > 0 && !IsBlank(s.pending[0]))
    || (e.SubmitTyped? && !IsBlank(s.typed))
    || (e.ConfirmUse? && e.confirmed && e.succeeded && s.details.Some? && HasId(s.details.value))
  }

  /**
    The lock is set only by a scan that schedules its payload, and cleared
    only at the clear points, each of which does clear it.
   */
  lemma LockTransitions(s: ScanState, e: Event)
    ensures !s.locked && Step(s, e).state.locked ==>
      e.Scanned? && Step(s, e).state.pending == s.pending + [e.data]
    ensures s.locked && !Step(s, e).state.locked ==> ClearPoint(s, e)
    ensures ClearPoint(s, e) ==> !Step(s, e).state.locked
  {
  }

  /** The scan lock's runs: final state, submissions scheduled and lock clears. */
  datatype Tally = Tally(state: ScanState, scheduled: nat, clears: nat)

  function Run(s: ScanState, events: seq<Event>): Tally
    decreases |events|
  {
    if |events| == 0 then Tally(s, 0, 0)
    else
      var next := Step(s, events[0]).state;
      var rest := Run(next, events[1..]);
      var sched := if |next.pending| > |s.pending| then 1 else 0;
      var clr := if s.locked && !next.locked then 1 else 0;
      Tally(rest.state, rest.scheduled + sched, rest.clears + clr)
  }

  /** A step grows the queue by one exactly when it locks a clear lock. */
  lemma ScheduleIffLocks(s: ScanState, e: Event)
    ensures |Step(s, e).state.pending| > |s.pending| <==> !s.locked && Step(s, e).state.locked
    ensures |Step(s, e).state.pending| <= |s.pending| + 1
  {
  }

  /**
    One submission per lock: every scheduled submission is paid for by the
    lock being clear, so a run schedules at most one more submission than
    it clears the lock, and none more when it starts locked.
   */
  lemma {:induction false} OneSubmissionPerLock(s: ScanState, events: seq<Event>)
    ensures var t := Run(s, events);
      t.scheduled + (if t.state.locked then 0 else 1) <= t.clears + (if s.locked then 0 else 1)
    ensures Run(s, events).scheduled <= Run(s, events).clears + (if s.locked then 0 else 1)
    decreases |events|
  {
    if |events| > 0 {
      ScheduleIffLocks(s, events[0]);
      OneSubmissionPerLock(Step(s, events[0]).state, events[1..]);
    }
  }

  /**
    A whitespace-only payload is scheduled, then rejected before the lock
    reset: the scanner stays locked and ignores every later scan.
   */
  lemma BlankScanKeepsLock(s: ScanState, ws: string, found: Option<Details>, later: string)
    requires !s.locked && s.pending == []
    requires ws != "" && forall i :: 0 <= i < |ws| ==> IsSpace(ws[i])
    ensures var s1 := Step(s, Scanned(ws)).state;
      var o2 := Step(s1, TimerFired(found));
      o2.state.locked && o2.request == NoRequest && o2.alert == InvalidCode
      && Step(o2.state, Scanned(later)).state == o2.state
  {
    TrimBlank(ws);
    var s1 := Step(s, Scanned(ws)).state;
    assert s1.pending == [ws];
  }

  /** Lookup failures are indistinguishable: whatever the code, the same alert. */
  lemma LookupFailureAlertFixed(s: ScanState, a: string, b: string)
    requires !IsBlank(a) && !IsBlank(b)
    ensures Submit(s, a, None).alert == Submit(s, b, None).alert == LookupFailed
  {
  }

  /**
    After a confirmed use succeeds: details cleared, both modals closed,
    typed code cleared and the lock clear.
   */
  lemma ConfirmedUseResets(s: ScanState)
    requires s.details.Some? && HasId(s.details.value)
    ensures var o := Step(s, ConfirmUse(true, true));
      o.request == MarkUsed(s.details.value.codigo, s.details.value.email)
      && o.state.details.None? && !o.state.detailsOpen && !o.state.scannerOpen
      && o.state.typed == "" && !o.state.locked
  {
  }

  /** Without details carrying an id nothing is sent, whatever the user answers. */
  lemma ConfirmNeedsId(s: ScanState, confirmed: bool, ok: bool)
    requires s.details.None? || !HasId(s.details.value)
    ensures Step(s, ConfirmUse(confirmed, ok)) == Out(s, NoRequest, MissingDetails)
  {
  }
}
