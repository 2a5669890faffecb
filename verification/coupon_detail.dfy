/**
  What a customer sees of one coupon: the public detail page
  (src/pages/Cupom/Detalhes.tsx) with its validity label, usage counts,
  claim button and recent claimants, and the "my coupons" page
  (src/pages/MeusCuponsPage.tsx) with its count header, split code,
  status-gated QR block and the store links it opens.
 */
module CouponDetail {
  import opened Lists
  import opened Text
  import CouponList
  import Utils

  // ---------------------------------------------------------------------
  // Detail page labels and counts
  // ---------------------------------------------------------------------

  /** The validity cell: "24 horas" for one day, otherwise the day count followed by " dias". */
  function ValidityLabel(validade: int): (r: string)
    ensures r == "24 horas" <==> validade == 1
    ensures validade != 1 ==> ParseIntJs(r) == Some(validade) && EndsWith(r, " dias")
  {
    if validade == 1 then "24 horas"
    else DaysLabel(validade); IntToString(validade) + " dias"
  }

  lemma DaysLabel(validade: int)
    ensures var r := IntToString(validade) + " dias";
      ParseIntJs(r) == Some(validade) && EndsWith(r, " dias") && r != "24 horas"
  {
    ParseIntJsLeading(validade, " dias");
    DaysSuffix(IntToString(validade));
  }

  lemma DaysSuffix(digits: string)
    ensures var r := digits + " dias"; EndsWith(r, " dias") && r != "24 horas"
  {
    var r := digits + " dias";
    assert r[|r| - 4] == 'd';
    assert "24 horas"[4] == 'o';
  }

  /** The used count, `usados ? usados : 0`: an absent count shows as zero. */
  function UsedShown(usados: Option<int>): (r: int)
    ensures usados.None? ==> r == 0
    ensures usados.Some? ==> r == usados.value
  {
    match usados
    case None => 0
    case Some(u) => if u != 0 then u else 0
  }

  /** "Restam" on the store's other coupons: what is left to claim. */
  function Remaining(qtd: int, usados: int): (r: int)
    ensures r + usados == qtd
    ensures r <= 0 <==> CouponList.Exhausted(qtd, usados)
  {
    qtd - usados
  }

  /** A coupon shows nothing (or less) remaining exactly when the template list calls it exhausted. */
  lemma RemainingMatchesExhausted(qtd: int, usados: int)
    ensures Remaining(qtd, usados) <= 0 <==> CouponList.Exhausted(qtd, usados)
    ensures Remaining(qtd, usados) <= 0 ==> forall status :: CouponList.StatusText(status, qtd, usados) == "Esgotado"
  {
  }

  /** A recent claimant: the first space-separated token of the name, then "...". */
  function ClaimantName(nome: string): (r: string)
    ensures |r| >= 3 && r[|r| - 3..] == "..."
    ensures StartsWith(nome, r[..|r| - 3])
    ensures forall i :: 0 <= i < |r| - 3 ==> r[i] != ' '
    ensures |r| - 3 == |nome| || nome[|r| - 3] == ' '
  {
    var w := FirstWord(nome);
    assert (w + "...")[..|w|] == w;
    w + "..."
  }

  /** A full name shows its given name only. */
  lemma ClaimantNameOfFullName(given: string, rest: string)
    requires forall i :: 0 <= i < |given| ==> given[i] != ' '
    ensures ClaimantName(given + " " + rest) == given + "..."
  {
    FirstWordJoined(given, rest);
  }

  // ---------------------------------------------------------------------
  // The claim button
  // ---------------------------------------------------------------------

  /**
    The page's state: the loaded coupon's id (`None` while loading),
    `jaTenho`, and how many claim requests are still awaiting an answer.
   */
  datatype DetailState = DetailState(cupom: Option<int>, jaTenho: bool, pending: nat)

  /**
    The page's inputs: a fetch answer, a tap on the claim button, and the
    answer to the oldest claim request still in flight.
   */
  datatype DetailEvent =
    | Fetched(id: int, jaTenhoFetched: bool)
    | ClaimTapped
    | ClaimAnswered(succeeded: bool)

  /** The claim button is on screen once the coupon is loaded and not yet owned. */
  predicate ShowsClaimButton(s: DetailState)
  {
    s.cupom.Some? && !s.jaTenho
  }

  /** One step of the page: the result state and the id a claim request was sent for, if any. */
  datatype DetailStep = DetailStep(state: DetailState, claimSent: Option<int>)

  /**
    A fetch loads the coupon and takes its `jaTenho`. A tap on a shown
    button sends a claim for the loaded id; nothing marks the request as in
    flight, so the button stays and a second tap sends a second claim. An
    answer sets `jaTenho` only when the request succeeded. A tap where there
    is no button, or an answer with nothing in flight, does nothing.
   */
  function DetailNext(s: DetailState, e: DetailEvent): (r: DetailStep)
    ensures e.Fetched? ==> r.state == s.(cupom := Some(e.id), jaTenho := e.jaTenhoFetched) && r.claimSent.None?
    ensures e.ClaimTapped? ==> (r.claimSent.Some? <==> ShowsClaimButton(s))
    ensures e.ClaimTapped? && ShowsClaimButton(s) ==>
      r.claimSent == s.cupom && r.state.pending == s.pending + 1 && ShowsClaimButton(r.state)
    ensures e.ClaimTapped? && !ShowsClaimButton(s) ==> r.state == s
    ensures e.ClaimAnswered? ==> r.claimSent.None? && r.state.cupom == s.cupom
    ensures e.ClaimAnswered? && s.pending == 0 ==> r.state == s
    ensures e.ClaimAnswered? && s.pending > 0 ==>
      r.state.pending == s.pending - 1 && (r.state.jaTenho <==> s.jaTenho || e.succeeded)
    ensures r.claimSent.Some? ==> e.ClaimTapped? && ShowsClaimButton(s)
  {
    match e
    case Fetched(id, j) => DetailStep(s.(cupom := Some(id), jaTenho := j), None)
    case ClaimTapped =>
      if ShowsClaimButton(s) then DetailStep(s.(pending := s.pending + 1), s.cupom)
      else DetailStep(s, None)
    case ClaimAnswered(ok) =>
      if s.pending == 0 then DetailStep(s, None)
      else DetailStep(s.(pending := s.pending - 1, jaTenho := s.jaTenho || ok), None)
  }

  /** The states a page goes through on a sequence of events. */
  function DetailRun(s: DetailState, events: seq<DetailEvent>): (r: DetailState)
    decreases |events|
  {
    if |events| == 0 then s else DetailRun(DetailNext(s, events[0]).state, events[1..])
  }

  /** How many claim requests a sequence of events sends; never more than there are events. */
  function ClaimsSent(s: DetailState, events: seq<DetailEvent>): (n: nat)
    ensures n <= |events|
    decreases |events|
  {
    if |events| == 0 then 0
    else
      var st := DetailNext(s, events[0]);
      (if st.claimSent.Some? then 1 else 0) + ClaimsSent(st.state, events[1..])
  }

  /** `k` taps in a row, with no answer in between. */
  function Taps(k: nat): seq<DetailEvent>
  {
    seq(k, i => ClaimTapped)
  }

  /**
    Taps made before any answer arrives each send a claim: from a shown
    button, `k` taps send `k` requests and leave `k` more in flight.
   */
  lemma {:induction false} RepeatedTapsAllSend(s: DetailState, k: nat)
    requires ShowsClaimButton(s)
    ensures ClaimsSent(s, Taps(k)) == k
    ensures DetailRun(s, Taps(k)) == s.(pending := s.pending + k)
    decreases k
  {
    if k > 0 {
      assert Taps(k)[0] == ClaimTapped;
      assert Taps(k)[1..] == Taps(k - 1);
      RepeatedTapsAllSend(s.(pending := s.pending + 1), k - 1);
    }
  }

  /** Whether an event could have set `jaTenho`: a fetch saying so, or a succeeded claim. */
  predicate CanSetOwned(e: DetailEvent)
  {
    (e.Fetched? && e.jaTenhoFetched) || (e.ClaimAnswered? && e.succeeded)
  }

  /**
    Without a fetch in between, owning is never undone; and the claim button
    disappears only through a fetch saying so or a claim that succeeded.
   */
  lemma {:induction false} DetailRunOwnership(s: DetailState, events: seq<DetailEvent>)
    ensures (forall i :: 0 <= i < |events| ==> !events[i].Fetched?) && s.jaTenho ==> DetailRun(s, events).jaTenho
    ensures (forall i :: 0 <= i < |events| ==> !CanSetOwned(events[i])) && !s.jaTenho ==> !DetailRun(s, events).jaTenho
    decreases |events|
  {
    if |events| > 0 {
      DetailRunOwnership(DetailNext(s, events[0]).state, events[1..]);
    }
  }

  // ---------------------------------------------------------------------
  // "My coupons"
  // ---------------------------------------------------------------------

  /** The list header: "1 cupom encontrado." for one, "N cupons encontrados." otherwise. */
  function CountHeader(n: nat): (r: string)
    ensures ParseIntJs(r) == Some(n)
    ensures n == 1 <==> EndsWith(r, "encontrado.")
    ensures n != 1 ==> EndsWith(r, "encontrados.")
  {
    if n == 1 then OneHeader(n, "1 cupom encontrado."); "1 cupom encontrado."
    else ManyHeader(n); NatToString(n) + " cupons encontrados."
  }

  lemma OneHeader(n: nat, r: string)
    requires n == 1 && r == "1 cupom encontrado."
    ensures ParseIntJs(r) == Some(n) && EndsWith(r, "encontrado.")
  {
    ParseIntJsNatLeading(n, " cupom encontrado.");
    OneText(n, r);
    OneEnds(NatToString(n));
  }

  lemma OneEnds(digits: string)
    ensures EndsWith(digits + " cupom encontrado.", "encontrado.")
  {
  }

  lemma OneText(n: nat, r: string)
    requires n == 1 && r == "1 cupom encontrado."
    ensures NatToString(n) + " cupom encontrado." == r
  {
    NatToStringSmall(n);
  }

  lemma ManyHeader(n: nat)
    ensures var r := NatToString(n) + " cupons encontrados.";
      ParseIntJs(r) == Some(n) && !EndsWith(r, "encontrado.") && EndsWith(r, "encontrados.")
  {
    ParseIntJsNatLeading(n, " cupons encontrados.");
    ManyEnds(NatToString(n));
  }

  lemma ManyEnds(digits: string)
    ensures var r := digits + " cupons encontrados.";
      !EndsWith(r, "encontrado.") && EndsWith(r, "encontrados.")
  {
    var r := digits + " cupons encontrados.";
    assert r[|r| - 11] == 'n';
  }

  /** The code as shown: its first four chars, a hyphen, then the rest. */
  function CodeDisplay(code: string): (r: string)
    ensures |r| == |code| + 1
    ensures var k := if |code| < 4 then |code| else 4; r[k] == '-' && r[..k] + r[k + 1..] == code
  {
    var k := if |code| < 4 then |code| else 4;
    var r := Take(code, 4) + "-" + code[k..];
    assert r[..k] + r[k + 1..] == code[..k] + code[k..];
    r
  }

  /** Removing the displayed hyphen gives back the code: distinct codes are shown distinctly. */
  lemma CodeDisplayInjective(a: string, b: string)
    requires CodeDisplay(a) == CodeDisplay(b)
    ensures a == b
  {
  }

  /** The QR code and copyable code are shown for status 1 only. */
  predicate ShowsQr(status: int) { status == 1 }

  /** Exactly the coupons whose badge reads "🟢Ativo" show their QR code. */
  lemma ShowsQrIffActiveBadge(status: int)
    ensures ShowsQr(status) <==> Utils.CupomStatusBadge(status).caption == "🟢Ativo"
  {
  }

  // ---------------------------------------------------------------------
  // handleAbreLink
  // ---------------------------------------------------------------------

  const ClaimMessage: string := "QueroDesconto - Quero usar meu Cupom - código: "
  const WaHost: string := "wa.me"
  const WaWebHost: string := "web.whatsapp.com/send"

  /** A link counts as WhatsApp when it mentions "wa.me" or "whatsapp". */
  predicate IsWhatsApp(link: string)
  {
    Contains(link, WaHost) || Contains(link, "whatsapp")
  }

  /**
    The platform's answers during one tap: whether the first `openURL`
    rejects, whether a second one (the WhatsApp web fallback) rejects,
    whether `canOpenURL` rejects, and what it resolves to.
   */
  datatype Platform = Platform(firstOpenFails: bool, fallbackFails: bool, checkFails: bool, canOpen: bool)

  /**
    The alert a tap ends in: none, the invalid-link alert, the "cannot
    open" alert naming the URL, or the outer catch's "Erro ao abrir link de
    resgate" alert.
   */
  datatype LinkAlert = NoAlert | InvalidLink | CannotOpen | OpenError

  /** What tapping a store link leads to: the URLs handed to `openURL`, in order, and the alert it ends in. */
  datatype LinkOutcome = LinkOutcome(urls: seq<string>, alert: LinkAlert)

  /**
    `handleAbreLink(link, code)`. A missing or empty link only alerts.
    A WhatsApp link gets the encoded claim message and code appended and
    is opened directly; if that open rejects, the same URL with its first
    "wa.me" replaced by "web.whatsapp.com/send" is opened instead, and a
    rejection there reaches the outer catch. Any other link is checked with
    `canOpenURL` and opened unchanged when it can be, with the "cannot
    open" alert when it cannot; a rejection of either call reaches the
    outer catch. `encode` stands for `encodeURIComponent`.
   */
  function AbreLink(link: Option<string>, code: string, encode: string -> string, p: Platform): (r: LinkOutcome)
    ensures link.None? || link.value == "" ==> r == LinkOutcome([], InvalidLink)
    ensures link.Some? && link.value != "" && IsWhatsApp(link.value) ==>
      && |r.urls| >= 1 && r.urls[0] == link.value + encode(ClaimMessage + code)
      && (p.firstOpenFails <==> |r.urls| == 2)
      && (p.firstOpenFails ==> r.urls[1] == ReplaceFirst(r.urls[0], WaHost, WaWebHost))
      && (r.alert == OpenError <==> p.firstOpenFails && p.fallbackFails)
      && (r.alert == NoAlert <==> !(p.firstOpenFails && p.fallbackFails))
    ensures link.Some? && link.value != "" && !IsWhatsApp(link.value) ==>
      && (r.urls == [link.value] <==> !p.checkFails && p.canOpen)
      && (r.urls == [] <==> p.checkFails || !p.canOpen)
      && (r.alert == CannotOpen <==> !p.checkFails && !p.canOpen)
      && (r.alert == OpenError <==> p.checkFails || (p.canOpen && p.firstOpenFails))
    ensures r.alert == NoAlert ==> |r.urls| > 0
  {
    match link
    case None => LinkOutcome([], InvalidLink)
    case Some(l) =>
      if l == "" then LinkOutcome([], InvalidLink)
      else if IsWhatsApp(l) then
        var fullUrl := l + encode(ClaimMessage + code);
        if p.firstOpenFails then
          LinkOutcome([fullUrl, ReplaceFirst(fullUrl, WaHost, WaWebHost)], if p.fallbackFails then OpenError else NoAlert)
        else LinkOutcome([fullUrl], NoAlert)
      else if p.checkFails then LinkOutcome([], OpenError)
      else if p.canOpen then LinkOutcome([l], if p.firstOpenFails then OpenError else NoAlert)
      else LinkOutcome([], CannotOpen)
  }

  /** A WhatsApp link is opened without asking `canOpenURL`: its answers change nothing. */
  lemma WhatsAppSkipsCheck(l: string, code: string, encode: string -> string, p: Platform, checkFails: bool, canOpen: bool)
    requires l != "" && IsWhatsApp(l)
    ensures AbreLink(Some(l), code, encode, p) == AbreLink(Some(l), code, encode, p.(checkFails := checkFails, canOpen := canOpen))
  {
  }

  /**
    The store's WhatsApp button: `https://wa.me/55<phone>?text=`, which
    takes the WhatsApp branch and carries the phone number between the
    country code and the query.
   */
  function WhatsAppLink(telefone: string): (r: string)
    ensures IsWhatsApp(r)
    ensures |r| == |telefone| + 22 && r[16..|r| - 6] == telefone
  {
    var r := "https://wa.me/55" + telefone + "?text=";
    assert OccursAt(r, WaHost, 8);
    r
  }

  /**
    For the WhatsApp button, the fallback is the web client's send page
    for the same number, followed by the rest of the direct URL.
   */
  lemma WhatsAppFallback(telefone: string, code: string, encode: string -> string)
    ensures var r := AbreLink(Some(WhatsAppLink(telefone)), code, encode, Platform(true, false, false, true));
      |r.urls| == 2
      && r.urls[1] == "https://web.whatsapp.com/send/55" + telefone + "?text=" + encode(ClaimMessage + code)
  {
    var link := WhatsAppLink(telefone);
    var tail := "/55" + telefone + "?text=" + encode(ClaimMessage + code);
    var full := link + encode(ClaimMessage + code);
    assert full == "https://wa.me" + tail;
    WaHostReplaced(tail);
    WebTail(telefone, encode(ClaimMessage + code));
  }

  lemma WebTail(telefone: string, msg: string)
    ensures "https://" + WaWebHost + ("/55" + telefone + "?text=" + msg)
      == "https://web.whatsapp.com/send/55" + telefone + "?text=" + msg
  {
    var web := "https://" + WaWebHost;
    assert web == "https://web.whatsapp.com/send";
    assert web + "/55" == "https://web.whatsapp.com/send/55";
  }

  /** In a URL that starts with "https://wa.me", that is the first "wa.me". */
  lemma WaHostReplaced(tail: string)
    ensures ReplaceFirst("https://wa.me" + tail, WaHost, WaWebHost) == "https://" + WaWebHost + tail
  {
    var s := "https://wa.me" + tail;
    assert s[..8] == "https://";
    assert OccursAt(s, WaHost, 8);
    forall j | 0 <= j < 8
      ensures !OccursAt(s, WaHost, j)
    {
      assert s[j] == "https://"[j];
    }
    ReplaceFirstAt(s, WaHost, WaWebHost, 8);
    assert s[13..] == tail;
  }

  /** A "Ver no Mapa" link that does not mention WhatsApp opens exactly as stored when the system can open it. */
  lemma MapLinkOpensUnchanged(link: string, code: string, encode: string -> string, p: Platform)
    requires link != "" && !IsWhatsApp(link) && !p.checkFails && p.canOpen
    ensures AbreLink(Some(link), code, encode, p).urls == [link]
  {
  }
}
