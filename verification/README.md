# Quero Desconto (partner app): the client-side rules, in Dafny

This project models the deterministic core of the "Quero Desconto" partner
app, a React Native client for merchants and customers of a coupon service.
Stores publish campaigns, campaigns hold coupon templates, and customers claim
coupons. Merchants then validate a claimed coupon by scanning or typing its
code. Almost all of the app is screens and HTTP calls. What the model keeps are
the rules that sit inside those screens and in `src/utils/utils.ts`, written as
pure functions over integers, strings (`seq<char>`) and sequences of records:

- status tables;
- validators and first-error chains;
- input masks;
- list filters;
- the countdown;
- the merchant's scan lock;
- the campaign date strings;
- the request policy of the session layer.

The clock, the server's answers, storage failures, random draws, `formatNumber`
(the locale rendering of a number), `encodeURIComponent` and `isValidCNPJ` are
all parameters of the functions that use them.

One module per concern:

| module | file | what it models |
|---|---|---|
| `Lists`, `Text` | lists.dfy, text.dfy | shared helpers: `filter`, `replace(/\D/g, '')`, `trim`, `toLowerCase`, `startsWith`/`includes`, `String(n)`, `parseInt` |
| `Utils`, `Email`, `Phone`, `Cpf` | utils.dfy, email.dfy, phone.dfy, cpf.dfy | src/utils/utils.ts, plus the three screen phone masks |
| `Countdown` | countdown.dfy | src/components/TimeToEnd.tsx |
| `Types` | types.dfy | the status codes and record shapes of src/types/index.ts |
| `CouponList`, `CouponForm`, `CouponDetail`, `ScanLock` | coupon_*.dfy, scan_lock.dfy | the coupon screens, src/pages/MeusCuponsPage.tsx, src/pages/Cupom/validaCupom.tsx |
| `Stamp`, `Campaign` | stamp.dfy, campaign.dfy | the `"YYYY-MM-DD HH:mm"` date strings and the campaign screens |
| `StoreForm`, `StoreList`, `TeamInvite` | store_form.dfy, store_list.dfy, team_invite.dfy | the store screens |
| `Session`, `Register`, `Login`, `UserPages` | session.dfy, register.dfy, login.dfy, user_pages.dfy | api.ts, AuthContext.tsx and the account screens |
| `Discovery` | discovery.dfy | src/pages/SearchPage.tsx and src/pages/HomePage.tsx |

Several behaviours of the code are modelled as written, because they are what
the app does:

- Positive countdowns have no trailing "s".
- Registration accepts any non-empty e-mail.
- Campaign dates are compared as strings.
- Adding a coupon rule can overwrite an existing rule.
- A whitespace-only scan leaves the scanner locked.
- `isExpired` is false whenever the clock does not run backwards and validade ≥ 0; a negative validade makes the coupon expire.

Behaviours of the code that a reader might not expect, each stated by the
model as written:

- **Countdown unit.** The zero text at `src/components/TimeToEnd.tsx:18` is "0d, 00h00m00s", but the positive text built at line 24 has no unit after the seconds, so 90061000 ms renders "1d, 01h01m01" (`Countdown.FormatCountdownExample`).
- **Inverted start and end.** `checkDateToEnd` (`src/utils/utils.ts:198-204`) tests `now < start` before `now > end`, so a window whose end precedes its start reads "Inicia em" while the clock is before the start (`Utils.CheckDateToEnd`).
- **Lookup errors.** The validation screen (`src/pages/Cupom/validaCupom.tsx:86-89`) shows one fixed alert for every failed lookup, whatever the reason (`ScanLock.LookupFailureAlertFixed`).
- **Repeated claims.** The claim button stays on screen while a claim is in flight, so a second tap sends a second claim (`CouponDetail.RepeatedTapsAllSend`).
- **Failures without a response.** Four catch blocks read a field of `error.response` without checking that a response exists (`src/pages/Login.tsx:68`, `src/pages/Loja/ColabTeam.tsx:120`, `src/pages/User/UserDados.tsx:100`, `src/pages/Loja/CreateEdit.tsx:205`), so a request that fails without a response shows no alert (see Findings).

## Model

| member | source | states |
|---|---|---|
| Cpf.ValidateCPF | src/utils/utils.ts:101-116 | accepts exactly when the digits of the input are eleven, not one repeated digit, and carry both check digits; an accepted input has eleven digits |
| Cpf.StripNonDigits | src/utils/utils.ts:102 | the loop yields exactly the digit chars of the input, in order |
| Cpf.IsRepeated | src/utils/utils.ts:105 | the loop's verdict is exactly "every digit equals the first" (`/^(\d)\1+$/`) |
| Cpf.SumLoop | src/utils/utils.ts:106-113 | the accumulating loop computes the weighted sum `digit * (top - index)` over the first n digits |
| Cpf.CheckDigit | src/utils/utils.ts:107-114 | a check digit is `(sum * 10) % 11` when that is below ten, and 0 when it is ten |
| Cpf.PunctuationIgnored | src/utils/utils.ts:102-105 | a number is valid exactly when its digit string is |
| Cpf.KnownNumberAccepted | src/utils/utils.ts:101-116 | the well-known number 529.982.247-25 passes |
| Cpf.WrongCheckDigitRejected | src/utils/utils.ts:112-115 | changing the last check digit makes the same number fail |
| Cpf.RepeatedOnesRejected | src/utils/utils.ts:104-105 | eleven ones fail through the repeated-digit rule |
| Cpf.RepeatedOnesHaveMatchingCheckDigits | src/utils/utils.ts:106-115 | the check digits alone would accept eleven ones, so the repeated-digit rule is what rejects them |
| Phone.FormatarTelefone | src/utils/utils.ts:51-59 | 11 digits give a string `validarTelefone` accepts with the same digits; 10 digits fit "(##) ####-####" with the same digits; any other count returns the input |
| Phone.FormatarTelefoneIdempotent | src/utils/utils.ts:51-59 | formatting a formatted number changes nothing |
| Phone.MobileRoundTrip | src/utils/utils.ts:51-64 | eleven digits rendered "(DD) DDDDD-DDDD" pass `validarTelefone` and strip back to themselves |
| Phone.LandlineRoundTrip | src/utils/utils.ts:51-59 | ten digits rendered "(DD) DDDD-DDDD" fit that template and strip back to themselves |
| Phone.ValidPhoneIsMobile | src/utils/utils.ts:61-64 | every string `validarTelefone` accepts has eleven digits and is the mobile rendering of them |
| Phone.ValidarTelefoneLayout | src/utils/utils.ts:61-64 | passes exactly the fifteen-char strings made of "(", two digits, ") ", five digits, "-" and four digits |
| Phone.MaskPhone | src/utils/utils.ts:93-99 | `maskPhone` output is at most 15 chars, its digits are the first eleven input digits in order, and with eleven or more digits it is the valid mobile rendering |
| Phone.MaskSteps | src/utils/utils.ts:95-97 | the replacement chain yields the bare digits (≤2), "(DD) rest" (3 to 7) or "(DD) DDDDD-rest" (≥8) |
| Phone.MaskPhoneIdempotent | src/utils/utils.ts:93-99 | masking a masked number again changes nothing |
| Phone.ScreenPhoneMask | src/pages/Loja/CreateEdit.tsx:331-343 | the screens' phone mask: bare digits below ten, the landline template at ten, the valid mobile rendering from eleven on; never over 15 chars; digits kept in order |
| Phone.ScreenPhoneMaskIdempotent | src/pages/Loja/CreateEdit.tsx:331-343 | re-masking an already-masked phone value returns it unchanged |
| Phone.LoginPhoneInput | src/pages/Login.tsx:74-85 | up to 8 chars is kept verbatim; longer input keeps the digits of its first 15 chars, formatted as a valid mobile number when they are exactly eleven, and when there are more, the mobile format of the first eleven followed by the rest |
| Phone.MobileWithTail | src/pages/Login.tsx:80 | the login mask's single replacement keeps every digit, and with exactly eleven digits the result is valid |
| Email.ValidarEmail | src/utils/utils.ts:42-45 | the char-by-char check accepts exactly the strings matching `^[^\s@]+@[^\s@]+\.[^\s@]+$` (stated as a split into local part, '@', domain, '.', tld) |
| Email.PatternAgrees | src/utils/utils.ts:42-45 | the checked shape (first '@', plain chars, a '.' inside the domain) holds exactly when the pattern matches |
| Email.AcceptedHasNoSpace | src/pages/Loja/ColabTeam.tsx:96-107 | an accepted address contains no white space, so trimming it changes nothing |
| Email.NoDotRejected | src/utils/utils.ts:42-45 | "ana@mail" is refused |
| Email.InnerSpaceRejected | src/utils/utils.ts:42-45 | "a b@c.de" is refused |
| Email.LeadingSpaceRejected | src/utils/utils.ts:42-45 | a string starting with white space never matches the pattern |
| Email.SimpleAddressAccepted | src/utils/utils.ts:42-45 | "ana@mail.com" is accepted |
| Utils.ValidarSenhaThreshold | src/utils/utils.ts:47-49 | six chars is the shortest password that passes, and typing more never makes a passing one fail |
| Utils.TruncateText | src/utils/utils.ts:87-91 | longer than the limit gives its first maxLength chars (none for a negative limit) and "..."; a non-empty text within the limit is returned as is; an empty or missing text gives "—" (an empty text against a negative limit counts as too long and gives "...") |
| Utils.TruncateTextBound | src/utils/utils.ts:87-91 | the result is at most maxLength + 3 chars, and a text that fits is never shortened |
| Utils.FloorSeconds | src/utils/utils.ts:209 | `Math.floor(ms / 1000)` is the whole second containing the instant; NaN passes through |
| Utils.CheckDateToEnd | src/utils/utils.ts:190-212 | "🔵Inicia em" with the start exactly when now < start; "🔴Finalizado(a) em" exactly when not before the start and now > end; otherwise no message; the instant is the chosen one floored to seconds |
| Utils.CheckDateToEndPhases | src/utils/utils.ts:190-212 | for an ordered window the three phases are exactly now < start, start ≤ now ≤ end, and end < now |
| Utils.CheckDateToEndUnreadable | src/utils/utils.ts:190-212 | with unreadable (NaN) dates no message is shown and nothing is formatted |
| Utils.CupomStatusBadge | src/utils/utils.ts:214-231 | codes 0..5 get their own badge and every other code the "Desconhecido" badge; code 2 reads "Usado" |
| Utils.CupomStatusLabelsDistinct | src/utils/utils.ts:214-231 | distinct known codes get distinct labels |
| Utils.RelativeTime | src/utils/utils.ts:24-36 | under a minute reads "Agora"; then minutes, hours or days ago, each "<n> <unit>[s] atrás" with the plural only above one; an unreadable date gives "NaN dia atrás" |
| Utils.AgoPhraseReadsBack | src/utils/utils.ts:33-35 | `parseInt` of a "time ago" phrase gives back its count |
| Utils.AgoPhrasePlural | src/utils/utils.ts:33-35 | every phrase ends in " atrás", preceded by the plural "s" exactly above one |
| Utils.OneMinuteAgo | src/utils/utils.ts:24-36 | between one and two minutes ago reads "1 minuto atrás" |
| Utils.EmojiPosition | src/utils/utils.ts:141-147 | a medal exactly for places 1 to 3 |
| Utils.EmojiPositionDistinct | src/utils/utils.ts:141-147 | the three podium places get different medals |
| Countdown.SplitSeconds | src/components/TimeToEnd.tsx:19-23 | days, hours, minutes and seconds add back up to the total, with hours < 24 and minutes, seconds < 60 |
| Countdown.SplitUnique | src/components/TimeToEnd.tsx:19-23 | the split is the only normal decomposition of its total |
| Countdown.FormatCountdown | src/components/TimeToEnd.tsx:17-25 | at or below zero the text is "0d, 00h00m00s"; above zero it decodes back to the split of the whole seconds and ends in a digit, with no unit after the seconds |
| Countdown.RenderDecodes | src/components/TimeToEnd.tsx:24 | the rendered text of a normal split reads back as that split |
| Countdown.FormatCountdownRoundTrip | src/components/TimeToEnd.tsx:17-25 | the whole seconds of a positive countdown can be read back from its text |
| Countdown.FormatCountdownExample | src/components/TimeToEnd.tsx:17-25 | 90061000 ms renders "1d, 01h01m01" |
| Countdown.SubSecondCountdown | src/components/TimeToEnd.tsx:18-24 | 1 to 999 ms renders the zero text without its final "s", so it differs from the zero text |
| Countdown.FormatCountdownIntended | src/components/TimeToEnd.tsx:18-24 | with the unit restored, every text ends in "s" and a positive one is the written text plus "s" |
| Countdown.IntendedSubSecondMatchesZero | src/components/TimeToEnd.tsx:18-24 | with the unit restored, under a second left reads exactly like no time left |
| Countdown.MsLeft | src/components/TimeToEnd.tsx:48 | the time left is never negative: 0 exactly when now ≥ end, otherwise now + left = end |
| Countdown.Settle | src/components/TimeToEnd.tsx:33-46 | onFinish fires exactly when not finished and now ≥ end; finished is sticky; the interval runs exactly while not finished |
| Countdown.Mount | src/components/TimeToEnd.tsx:27-46 | the end instant is `formatted * 1000`, and onFinish fires at mount exactly when the first clock reading has already reached it |
| Countdown.Tick | src/components/TimeToEnd.tsx:33-46 | a tick fires onFinish exactly when the interval is running, the countdown is not finished and the new reading has reached the end; a running tick records the reading and finishes exactly when the end is reached, stopping the interval; without a running interval nothing changes |
| Countdown.FinishedIsFinal | src/components/TimeToEnd.tsx:33-34 | a finished countdown never changes and never fires again |
| Countdown.TickPreserves | src/components/TimeToEnd.tsx:33-46 | ticks keep "interval running ⇔ not finished" and never clear finished |
| Countdown.RunFiresOnce | src/components/TimeToEnd.tsx:41-46 | over any sequence of ticks onFinish fires exactly once if some reading reaches the end and never otherwise; a finished countdown never fires |
| Countdown.LifetimeFiresAtMostOnce | src/components/TimeToEnd.tsx:27-46 | from mount on, onFinish fires at most once in total |
| CouponList.StatusText | src/pages/Cupom/List.tsx:112-128 | "Esgotado" exactly when qtd ≤ usados or the status is ESGOTADO; otherwise Ativo, Inativo, Expirado for 1, 0, 3 and "Desconhecido" for any other code |
| CouponList.StatusColor | src/pages/Cupom/List.tsx:93-109 | an exhausted template is drawn in the danger colour whatever its stored status |
| CouponList.StatusTablesAgree | src/pages/Cupom/List.tsx:93-128 | a card's colour is always the colour of its label |
| CouponList.StatusCodeSpacesDiffer | src/types/index.ts:259-264 | template code 2 reads "Esgotado" while claimed-coupon code 2 reads "Usado" |
| CouponList.QuantityColorShare | src/pages/Cupom/List.tsx:131-138 | for qtd > 0: danger exactly when nothing remains, warning when 5·remaining ≤ qtd, success otherwise |
| CouponList.QuantityColorMonotone | src/pages/Cupom/List.tsx:131-138 | using more coupons never improves the colour |
| CouponList.QuantityColorZeroQuantity | src/pages/Cupom/List.tsx:131-138 | with qtd = 0 the NaN share gives success when nothing was used and danger otherwise |
| CouponList.QuantityColor | src/pages/Cupom/List.tsx:131-138 | the quantity colour is always danger, warning or success |
| CouponList.FilterCupons | src/pages/Cupom/List.tsx:147-168 | each tab is the order-preserving sub-list of exactly the templates it admits, every copy of each ('todos' is the whole list) |
| CouponList.AtivosEsgotadosDisjoint | src/pages/Cupom/List.tsx:151-162 | no template is under both 'ativos' and 'esgotados' |
| CouponList.AtivosLabelledAtivo | src/pages/Cupom/List.tsx:151-154 | every 'ativos' template is labelled "Ativo" in the success colour |
| CouponList.EsgotadosLabelledEsgotado | src/pages/Cupom/List.tsx:159-162 | the 'esgotados' tab holds exactly the templates labelled "Esgotado" |
| CouponList.DeleteCupom | src/pages/Cupom/List.tsx:72-73 | a delete removes exactly the items with that id from both lists and keeps every other item, each copy, in order |
| CouponList.DeleteKeepsTab | src/pages/Cupom/List.tsx:72-73 | after a delete the shown list is still the current tab of the loaded list |
| CouponList.IsExpired | src/pages/Cupom/List.tsx:194 | with the clock not running backwards and validade ≥ 0 the card is never expired |
| CouponList.IsExpiredOnlyForNegativeValidity | src/pages/Cupom/List.tsx:194 | with equal clock readings a card is expired exactly when validade is negative |
| CouponForm.ValidateForm | src/pages/Cupom/createEdit.tsx:113-136 | a message for valor exactly when valor ≤ 0 or a percentage is over 100 (the cap message only for positive values), and for qtd, validade and campanha_id exactly when each is ≤ 0 |
| CouponForm.FormValidIff | src/pages/Cupom/createEdit.tsx:113-136 | the form passes exactly when valor > 0, not (tipo '%' and valor > 100), qtd > 0, validade > 0 and campanha_id > 0 |
| CouponForm.PercentCapOnlyForPercent | src/pages/Cupom/createEdit.tsx:116-120 | above 100 the value is refused exactly for a percentage |
| CouponForm.UpdateFormData | src/pages/Cupom/createEdit.tsx:168-175 | the named field takes the value, every other field is unchanged, and only that field's message is removed |
| CouponForm.UnvalidatedFieldsKeepVerdict | src/pages/Cupom/createEdit.tsx:113-136 | editing the code, rules or status never changes what validation reports |
| CouponForm.FixingOnlyErrorValidates | src/pages/Cupom/createEdit.tsx:113-136 | fixing the only reported field makes the form pass |
| CouponForm.AdjustQuantity | src/pages/Cupom/createEdit.tsx:177-182 | plus increases the quantity; minus gives at least 1 and never more than before |
| CouponForm.AdjustQuantityInverse | src/pages/Cupom/createEdit.tsx:177-182 | plus then minus gives back any quantity ≥ 1, and minus then plus gives back any quantity > 1 |
| CouponForm.AdjustQuantityStep | src/pages/Cupom/createEdit.tsx:177-182 | each press moves by exactly one unless the floor of one is hit |
| CouponForm.TypedCount | src/pages/Cupom/createEdit.tsx:387-390 | non-numeric text gives 0, and a non-negative parse is kept |
| CouponForm.TypedCountShown | src/pages/Cupom/createEdit.tsx:387-390 | the shown `String(qtd)` reads back as the same count |
| CouponForm.TypedNegativeIsZero | src/pages/Cupom/createEdit.tsx:413-416 | a typed negative number is clamped to zero |
| CouponForm.EditRule | src/pages/Cupom/createEdit.tsx:459-462 | editing a rule changes that key only |
| CouponForm.DeleteRule | src/pages/Cupom/createEdit.tsx:467-470 | deleting removes that key only |
| CouponForm.AddRule | src/pages/Cupom/createEdit.tsx:484-486 | the key `String(count + 1)` is written empty, other rules kept; the count grows exactly when that key was absent |
| CouponForm.AddRuleToNumberedRules | src/pages/Cupom/createEdit.tsx:484-486 | on rules keyed 1..n adding gives one more rule |
| CouponForm.AddRuleAfterDeleteOverwrites | src/pages/Cupom/createEdit.tsx:484-486 | deleting rule "1" of two and adding overwrites rule "2" and leaves one rule |
| CouponForm.NormalizeTipo | src/pages/Cupom/createEdit.tsx:87 | the loaded kind is '%' exactly for "%", otherwise 'R$' |
| CouponForm.NormalizeTipoRoundTrip | src/types/index.ts:189 | normalising a kind's own text gives it back, and only "R$" and "%" survive unchanged |
| Types.TipoText | src/types/index.ts:189 | the percent kind is written "%" and the money kind "R$", and no other kind is |
| CouponForm.LoadForm | src/pages/Cupom/createEdit.tsx:81-98 | the loaded form copies the template, except that status 0 becomes ATIVO and validade 0 becomes 1 |
| CouponForm.LoadFormReactivates | src/pages/Cupom/createEdit.tsx:93 | an inactive template listed "Inativo" opens with its switch on |
| CouponForm.LoadFormIntended | src/pages/Cupom/createEdit.tsx:93 | keeping the stored status, the switch is on exactly for ATIVO, and nothing else differs from the written load |
| CouponForm.GenerateCode | src/pages/Cupom/createEdit.tsx:104-110 | a generated code is 8 chars, each an upper-case letter or digit |
| CouponForm.GenerateCodeOnto | src/pages/Cupom/createEdit.tsx:104-110 | every 8-char code over [A-Z0-9] can be generated |
| CouponForm.CodeAlphabetExact | src/pages/Cupom/createEdit.tsx:105 | the alphabet holds exactly the upper-case letters and the digits |
| CouponDetail.ValidityLabel | src/pages/Cupom/Detalhes.tsx:129 | "24 horas" exactly for 1; otherwise "<n> dias", which reads back as n |
| CouponDetail.UsedShown | src/pages/Cupom/Detalhes.tsx:134 | an absent used count shows 0 |
| CouponDetail.Remaining | src/pages/Cupom/Detalhes.tsx:180 | remaining plus used is the quantity, and nothing (or less) remains exactly when the coupon is exhausted in the template list's sense |
| CouponDetail.RemainingMatchesExhausted | src/pages/Cupom/Detalhes.tsx:180 | nothing remains exactly when the template list labels it "Esgotado" by quantity |
| CouponDetail.ClaimantName | src/pages/Cupom/Detalhes.tsx:199 | a claimant shows as the first space-free token of the name followed by "..." |
| CouponDetail.ClaimantNameOfFullName | src/pages/Cupom/Detalhes.tsx:199 | a full name shows its given name only |
| CouponDetail.DetailNext | src/pages/Cupom/Detalhes.tsx:40-58 | a fetch sets jaTenho from the server; a tap sends a claim exactly while the button shows, and the button stays on screen while that claim is in flight; an answer sets jaTenho exactly when the claim succeeded; a failed claim leaves the button |
| CouponDetail.ClaimsSent | src/pages/Cupom/Detalhes.tsx:47-58 | a run of events sends at most one claim per event |
| CouponDetail.RepeatedTapsAllSend | src/pages/Cupom/Detalhes.tsx:47-58 | from a shown button, k taps before any answer send k claims and leave k more in flight |
| CouponDetail.DetailRunOwnership | src/pages/Cupom/Detalhes.tsx:43-57 | jaTenho turns true only through a fetch saying so or a succeeded claim, and without fetches it never turns false |
| CouponDetail.CountHeader | src/pages/MeusCuponsPage.tsx:103 | the header reads back as the count, ends "encontrado." exactly for one and "encontrados." otherwise |
| CouponDetail.CodeDisplay | src/pages/MeusCuponsPage.tsx:115 | the shown code is the code with a '-' after its first four chars |
| CouponDetail.CodeDisplayInjective | src/pages/MeusCuponsPage.tsx:115 | distinct codes are shown distinctly |
| CouponDetail.ShowsQrIffActiveBadge | src/pages/MeusCuponsPage.tsx:174-185 | the QR code shows exactly for coupons whose badge reads "🟢Ativo" |
| CouponDetail.AbreLink | src/pages/MeusCuponsPage.tsx:52-91 | a missing link alerts; a WhatsApp link opens link + encoded message, then on rejection the same URL with "wa.me" replaced, alerting only when that rejects too; any other link opens unchanged when `canOpenURL` allows, with the cannot-open alert when it does not and the error alert when either call rejects; no tap ends without an alert unless it opened something |
| CouponDetail.WhatsAppSkipsCheck | src/pages/MeusCuponsPage.tsx:62-70 | a WhatsApp link is opened without consulting `canOpenURL`: its answers change nothing |
| CouponDetail.WhatsAppLink | src/pages/MeusCuponsPage.tsx:210 | the store's WhatsApp button link takes the WhatsApp branch and carries the phone number between "55" and the query |
| CouponDetail.WhatsAppFallback | src/pages/MeusCuponsPage.tsx:63-70 | the store button's fallback opens "https://web.whatsapp.com/send/55<phone>?text=<message>" |
| CouponDetail.MapLinkOpensUnchanged | src/pages/MeusCuponsPage.tsx:71-77 | a link not mentioning WhatsApp that the system can open is opened exactly as stored |
| ScanLock.ResetStates | src/pages/Cupom/validaCupom.tsx:142-149 | resetStates clears details, modals, typed code and the lock |
| ScanLock.Submit | src/pages/Cupom/validaCupom.tsx:73-90 | a blank code alerts and changes nothing (lock included); otherwise the trimmed code is looked up, the scanner closes and the lock clears; a failure alerts a fixed text |
| ScanLock.SubmittedCodeIsTrimmed | src/pages/Cupom/validaCupom.tsx:74-83 | the looked-up code is a non-empty slice of the input that trimming leaves unchanged |
| ScanLock.Step | src/pages/Cupom/validaCupom.tsx:42-149 | a scan acts only when the payload is non-empty and the lock clear; opening the scanner with permission clears the lock; a use is sent only with details carrying an id |
| ScanLock.LockTransitions | src/pages/Cupom/validaCupom.tsx:230-236 | only a scan sets the lock, it clears only at the three reset points, and each reset point clears it |
| ScanLock.ScheduleIffLocks | src/pages/Cupom/validaCupom.tsx:230-236 | a step schedules a submission exactly when it locks a clear lock, and at most one |
| ScanLock.OneSubmissionPerLock | src/pages/Cupom/validaCupom.tsx:230-236 | over any event sequence the submissions scheduled never exceed the lock clears (plus one if it starts clear) |
| ScanLock.BlankScanKeepsLock | src/pages/Cupom/validaCupom.tsx:73-80 | a whitespace-only scan, once submitted, leaves the lock set, so later scans are ignored |
| ScanLock.LookupFailureAlertFixed | src/pages/Cupom/validaCupom.tsx:86-89 | every lookup failure shows the same alert, whatever the code |
| ScanLock.ConfirmedUseResets | src/pages/Cupom/validaCupom.tsx:106-123 | a confirmed use sends the code and the customer's e-mail and then resets everything |
| ScanLock.ConfirmNeedsId | src/pages/Cupom/validaCupom.tsx:93-96 | without details carrying an id nothing is sent |
| Stamp.StampOrder | src/pages/Campanha/CreateEdit.tsx:215-221 | for fixed-width stamps string order is chronological order, and equal strings are equal times |
| Stamp.FormatThenParse | src/pages/Campanha/CreateEdit.tsx:215-221 | every stamp of a time that fits reads back as that time |
| Stamp.ParseThenFormat | src/pages/Campanha/CreateEdit.tsx:215-221 | every string on the layout is the stamp of the time it reads as |
| Stamp.FixedOrder | src/pages/Campanha/CreateEdit.tsx:216-219 | zero-padded fields compare as strings like the numbers they hold |
| Stamp.StrLessIrreflexive | src/pages/Campanha/CreateEdit.tsx:123 | no string is below itself, so `<=` holds for equal strings |
| Stamp.DefaultStartBlocksEveryEnd | src/pages/Campanha/CreateEdit.tsx:60-61 | a start beginning with a letter, as the untouched `String(new Date())` default does, is never below a picked end and is not a stamp |
| Campaign.ValidateCampanha | src/pages/Campanha/CreateEdit.tsx:108-133 | one message per failed check: falsy store, blank title, blank description, end not above start as strings, start before today |
| Campaign.CampanhaValidIff | src/pages/Campanha/CreateEdit.tsx:108-133 | the form passes exactly when all five checks pass |
| Campaign.PickedDatesCheck | src/pages/Campanha/CreateEdit.tsx:123 | with picked dates the end check passes exactly when the end is chronologically later |
| Campaign.EqualDatesRejected | src/pages/Campanha/CreateEdit.tsx:123-124 | equal start and end are refused |
| Campaign.DefaultStartRejected | src/pages/Campanha/CreateEdit.tsx:123 | an untouched default start can never pass against a picked end |
| Campaign.DateSelectionKeepsTime | src/pages/Campanha/CreateEdit.tsx:203-222 | picking a day gives a stamp of that day at the time already set |
| Campaign.TimeSelectionKeepsDate | src/pages/Campanha/CreateEdit.tsx:224-243 | picking a time gives a stamp of the day already set at that time |
| Campaign.DateThenTime | src/pages/Campanha/CreateEdit.tsx:203-243 | a day then a time sets exactly that day and time |
| Campaign.UpdateCampanha | src/pages/Campanha/CreateEdit.tsx:175-182 | for each of the six fields, the edited field takes the value, the rest of the form is unchanged, and only that field's message is removed |
| Campaign.StaleEndError | src/pages/Campanha/CreateEdit.tsx:175-182 | moving the start before the end leaves the end's stale message although the end now passes |
| Campaign.SwitchRoundTrip | src/pages/Campanha/CreateEdit.tsx:436-438 | the active switch shows what it last wrote |
| Campaign.SwitchStatus | src/pages/Campanha/CreateEdit.tsx:438 | the switch writes ATIVA exactly when turned on, INATIVA otherwise |
| Campaign.LoadCampanha | src/pages/Campanha/CreateEdit.tsx:87-100 | the loaded form keeps the fetched fields, a missing title or description becoming empty text, except that status 0 becomes ATIVA; a missing title fails validation |
| Campaign.LoadCampanhaReactivates | src/pages/Campanha/CreateEdit.tsx:97 | an inactive campaign opens with its switch on and saves as ATIVA |
| Campaign.LoadCampanhaIntended | src/pages/Campanha/CreateEdit.tsx:97 | keeping the fetched status, the switch is on exactly for "Ativa", and nothing else differs |
| Campaign.SavePayload | src/pages/Campanha/CreateEdit.tsx:143-150 | the payload trims title and description and passes the other fields through |
| Campaign.SavedPayloadStable | src/pages/Campanha/CreateEdit.tsx:143-150 | a valid form's payload is valid again and saving it again gives the same payload |
| Campaign.CampanhaStatusText | src/pages/Campanha/List.tsx:106-119 | 0..3 read Inativa, Ativa, Suspensa, Finalizada; every other code "Desconhecido" |
| Campaign.CampanhaStatusColor | src/pages/Campanha/List.tsx:91-104 | 0..3 are warning, success, danger, gray; every other code dark gray |
| Campaign.CampanhaTablesAgree | src/pages/Campanha/List.tsx:91-119 | a badge's colour is the colour of its label |
| Campaign.DeleteCampanha | src/pages/Campanha/List.tsx:71 | a delete removes exactly the campaigns with that id and keeps every other one, each copy, in order |
| Campaign.DeleteCampanhaIdempotent | src/pages/Campanha/List.tsx:71 | deleting twice is deleting once, and an unlisted id changes nothing |
| StoreForm.CnpjMask | src/pages/Loja/CreateEdit.tsx:345-366 | the output fits "NN.NNN.NNN/NNNN-NN", holds the first min(n, 14) input digits in order, and ends at a digit |
| StoreForm.CnpjMaskIdempotent | src/pages/Loja/CreateEdit.tsx:345-366 | re-masking a masked CNPJ changes nothing |
| StoreForm.MaskFor | src/pages/Loja/CreateEdit.tsx:328-369 | phones keep at most 15 chars and their first eleven digits; the CNPJ fits its template with its first 14 digits; other fields pass through |
| StoreForm.HandleChange | src/pages/Loja/CreateEdit.tsx:328-369 | phones go through the phone mask and the CNPJ through its mask; other fields are stored as typed; nothing else changes |
| StoreForm.HandleChangeStable | src/pages/Loja/CreateEdit.tsx:328-369 | retyping a field's own value changes nothing |
| StoreForm.ToggleStatus | src/pages/Loja/CreateEdit.tsx:377-382 | 1 becomes 0 and every other value 1 |
| StoreForm.ToggleStatusTwice | src/pages/Loja/CreateEdit.tsx:377-382 | toggling twice gives 1 back, and 0 back |
| StoreForm.ToggleFlipsBadge | src/pages/Loja/CreateEdit.tsx:377-406 | each toggle flips the form badge between ATIVO and INATIVO |
| StoreForm.FormStatusText | src/pages/Loja/CreateEdit.tsx:405-407 | the form badge reads ATIVO exactly for status 1 and INATIVO for every other status |
| StoreForm.FormStatusColor | src/pages/Loja/CreateEdit.tsx:401-403 | the badge is in the success colour exactly for status 1 and gray for every other status |
| StoreForm.ToggleCategory | src/pages/Loja/CreateEdit.tsx:384-399 | a present id is removed (order kept), an absent id appended, and membership of other ids unchanged |
| StoreForm.ToggleCategoryTwice | src/pages/Loja/CreateEdit.tsx:384-399 | toggling twice restores membership, and the exact list when the id was absent |
| StoreForm.ValidateLoja | src/pages/Loja/CreateEdit.tsx:129-162 | one message per failed check: blank name, address or first phone, falsy city, a non-empty e-mail that fails the pattern, a non-empty CNPJ that fails its check, no category |
| StoreForm.LojaValidIff | src/pages/Loja/CreateEdit.tsx:129-162 | the form passes exactly when all seven checks pass |
| StoreForm.BlankLojaErrors | src/pages/Loja/CreateEdit.tsx:129-162 | the blank initial form fails on name, address, city, first phone and categories, and on nothing else |
| StoreForm.SavePayload | src/pages/Loja/CreateEdit.tsx:175-183 | CNPJ and both phones are sent as digits only, the other fields as they are |
| StoreForm.SavePayloadKeepsDigits | src/pages/Loja/CreateEdit.tsx:175-183 | the digits sent are the digits typed, and stripping twice is stripping once |
| StoreForm.MaskedFieldsSaved | src/pages/Loja/CreateEdit.tsx:175-183 | a phone or CNPJ typed through its mask is sent as the first 11 or 14 digits typed |
| StoreForm.UntouchedSecondPhone | src/pages/Loja/CreateEdit.tsx:45 | the untouched second phone `0` is sent as "0" |
| StoreForm.HandleSave | src/pages/Loja/CreateEdit.tsx:164-209 | a payload, the digit-only form, is sent exactly when validation passes, and an invalid form gets the fix-the-errors alert; the screen goes back exactly after a successful save, with the update or create alert; a failure with a response alerts its message or the fixed text; a failure without a response shows no alert |
| StoreForm.HandleSaveIntended | src/pages/Loja/CreateEdit.tsx:204-206 | every failed save of a valid form alerts and stays on the screen; apart from failures without a response it behaves as written |
| StoreForm.SilentSaveFailure | src/pages/Loja/CreateEdit.tsx:204-206 | the written and intended handlers differ exactly when a valid form's request fails without a response |
| StoreForm.LoadStatus | src/pages/Loja/CreateEdit.tsx:114 | the loaded status is the stored one, except that 0 (and a missing status) becomes 1 |
| StoreForm.LoadStatusReactivates | src/pages/Loja/CreateEdit.tsx:114 | an inactive store opens as ATIVO, and saving it unchanged sends it active |
| StoreForm.LoadStatusIntended | src/pages/Loja/CreateEdit.tsx:114 | keeping a stored status, only a missing one defaults to 1 |
| StoreForm.LoadStatusIntendedKeepsInactive | src/pages/Loja/CreateEdit.tsx:114 | with the intended load an inactive store opens as INATIVO and is saved inactive |
| StoreList.LojaStatusText | src/pages/Loja/List.tsx:239 | ATIVO exactly for 1, INATIVO exactly for 0, PENDENTE for every other code |
| StoreList.LojaStatusColor | src/pages/Loja/List.tsx:132-143 | success exactly for 1, warning exactly for 2, gray otherwise |
| StoreList.PendingColours | src/pages/Loja/List.tsx:132-143 | every code but 0 and 1 reads PENDENTE, yet only 2 is drawn in warning |
| StoreList.ListAndFormBadgesAgree | src/pages/Loja/List.tsx:239 | list and form badges agree on 0 and 1 and differ on every other code |
| StoreList.OpenLocation | src/pages/Loja/List.tsx:99-105 | an empty link does nothing; otherwise the stored link opens |
| StoreList.CallPhone | src/pages/Loja/List.tsx:107-113 | an empty phone does nothing; otherwise "tel:" followed by the phone opens |
| StoreList.SendEmail | src/pages/Loja/List.tsx:115-121 | an empty address does nothing; otherwise "mailto:" followed by the address opens |
| StoreList.WebsiteUrl | src/pages/Loja/List.tsx:123-126 | the URL starts with "http" and ends with the site, and equals the site exactly when the site starts with "http" |
| StoreList.WebsiteUrlIdempotent | src/pages/Loja/List.tsx:123-126 | normalising twice is normalising once |
| StoreList.OpenWebsite | src/pages/Loja/List.tsx:123-130 | an empty site does nothing; otherwise the normalised URL opens |
| TeamInvite.InviteError | src/pages/Loja/ColabTeam.tsx:90-100 | "Email é obrigatório" exactly when blank; "Email inválido" exactly when not blank and the raw text fails the pattern |
| TeamInvite.AddLojista | src/pages/Loja/ColabTeam.tsx:86-128 | a request goes out exactly when both checks pass; success resets the form, closes the modal and reloads; a failure without a response body shows no alert |
| TeamInvite.AddLojistaIntended | src/pages/Loja/ColabTeam.tsx:119-124 | every failure shows the fixed alert, and success is as written |
| TeamInvite.MissingFailureAlert | src/pages/Loja/ColabTeam.tsx:119-124 | written and intended handlers differ exactly on a sent request failing without a response body |
| TeamInvite.SentAddressIsLowered | src/pages/Loja/ColabTeam.tsx:96-107 | the address sent is the typed one lower-cased (the trim is a no-op) |
| TeamInvite.PaddedAddressRefused | src/pages/Loja/ColabTeam.tsx:96-100 | an address with leading white space is refused as invalid, not trimmed |
| TeamInvite.BlankAddressRequired | src/pages/Loja/ColabTeam.tsx:90-93 | a blank address is refused as missing before the pattern is tried |
| Register.Validate | src/pages/Register.tsx:59-69 | none exactly when name and e-mail are non-empty and the password has ≥ 6 chars and matches; otherwise the first failing message in order; "phone or e-mail required" is never returned |
| Register.AddressWithoutAtAccepted | src/pages/Register.tsx:63 | a non-empty e-mail without '@' passes |
| Register.BlankNameAccepted | src/pages/Register.tsx:60 | a name of spaces passes (it is not trimmed) |
| Register.NicknameInput | src/pages/Register.tsx:33-36 | only [a-z0-9] chars are kept, in order, and every copy of each of them is |
| Register.NicknameInputStable | src/pages/Register.tsx:33-36 | filtering twice is filtering once, and a clean nickname passes whole |
| Register.HandleChange | src/pages/Register.tsx:32-52 | the phone goes through the mask (≤ 15 chars, first eleven digits kept); other fields are stored as typed |
| Register.HandleRegister | src/pages/Register.tsx:71-102 | the request is sent exactly when validation passes, with the phone's digits; sign-in follows only a created account; failures alert the server's message or the fixed text |
| Register.TypedPhoneSent | src/pages/Register.tsx:81-85 | a phone typed through the mask is sent as the first eleven digits typed |
| Login.LoginError | src/pages/Login.tsx:38-56 | the e-mail or phone check of the chosen mode comes first, then the password length; "" exactly when all pass |
| Login.SignInArgsFor | src/pages/Login.tsx:60-64 | e-mail mode passes the address and an empty phone; phone mode an empty address and the phone's digits |
| Login.HandleLogin | src/pages/Login.tsx:37-72 | sign-in happens exactly when the checks pass; every failure clears the password; a failure without a response shows no alert |
| Login.HandleLoginIntended | src/pages/Login.tsx:66-68 | every failed sign-in alerts and clears the password |
| Login.MissingLoginAlert | src/pages/Login.tsx:66-68 | written and intended handlers differ exactly on an attempted sign-in with no response |
| Login.PhoneLoginDigits | src/pages/Login.tsx:45-64 | a phone login signs in with eleven digits that re-format to the typed number |
| Login.TypedPhonePasses | src/pages/Login.tsx:74-85 | a phone typed through the login input with eleven digits in its first 15 chars passes the phone check |
| UserPages.ValidateDados | src/pages/User/UserDados.tsx:63-70 | none exactly when the trimmed name has ≥ 3 and the trimmed phone ≥ 10 chars; the name is checked first |
| UserPages.DadosChange | src/pages/User/UserDados.tsx:58-61 | the phone goes through `maskPhone`, other fields are stored as typed |
| UserPages.SaveDados | src/pages/User/UserDados.tsx:72-111 | sent exactly when valid, as the name and the phone's digits; a failed validation leaves saving set; a failure without a response shows no alert |
| UserPages.SaveDadosIntended | src/pages/User/UserDados.tsx:99-107 | every failure alerts, with the connection message for a network error |
| UserPages.MissingSaveAlert | src/pages/User/UserDados.tsx:99-107 | written and intended saves differ exactly on a valid form whose request fails without a response |
| UserPages.FailedValidationKeepsSaving | src/pages/User/UserDados.tsx:73-80 | after a failed validation saving stays set and another attempt changes nothing |
| UserPages.TypedPhoneSaved | src/pages/User/UserDados.tsx:87-93 | a phone typed through the mask with eleven digits passes and is sent as those digits |
| UserPages.PasswordError | src/pages/User/UserTrocaSenha.tsx:20-32 | none exactly when all fields are filled, the new password has ≥ 6 chars and matches; otherwise the first failing message |
| UserPages.ChangePassword | src/pages/User/UserTrocaSenha.tsx:20-48 | {oldPassword, newPassword} is sent exactly when the checks pass; success signs out on dismissal; a network error shows the connection message |
| UserPages.SentPasswordChecked | src/pages/User/UserTrocaSenha.tsx:25-35 | a sent new password has ≥ 6 chars and equals its confirmation |
| UserPages.ToggleFaq | src/pages/User/UserFaq.tsx:70-72 | the open item closes, any other becomes the only open one |
| UserPages.ToggleFaqTwice | src/pages/User/UserFaq.tsx:70-72 | with every item closed, toggling one twice closes it again; toggling one item and then another leaves only the second open |
| UserPages.SendContact | src/pages/User/UserFaq.tsx:74-97 | sent exactly when no field is blank and the raw e-mail matches the pattern; success clears the fields and sets the sent flag |
| UserPages.SentFormRefusesResend | src/pages/User/UserFaq.tsx:75-91 | after a successful send, sending again is refused before any request |
| Session.AttachToken | src/services/api.ts:21-39 | a protected request with a stored token gets "Bearer <token>"; a public one, or one without a token, goes out unchanged |
| Session.PublicNeverAuthorized | src/services/api.ts:24-36 | public requests are never changed, whatever is stored |
| Session.PublicByExtension | src/services/api.ts:24-29 | matching is by substring, so any URL containing a public one is public |
| Session.LoginRouteIsProtected | src/services/api.ts:8-13 | "/auth/lojista" is not public and carries a stored token |
| Session.OnResponseError | src/contexts/AuthContext.tsx:42-68 | the error is always re-rejected last; sign-out happens exactly for a revoked session or 401/403, at most once; each alert exactly in its case |
| Session.RevokedBeatsStatus | src/contexts/AuthContext.tsx:43-55 | a revoked session answered with 401 is signed out once, with the revocation alert only |
| Session.CheckAuthState | src/contexts/AuthContext.tsx:73-92 | the app is signed in exactly when the token read succeeds and finds a truthy token and the user read succeeds; the user is then the stored user wrapped, which is truthy even when no user is stored |
| Session.SignIn | src/contexts/AuthContext.tsx:94-109 | signIn throws exactly when the login or one of its two storage writes fails, leaving the user unchanged; a failed first write changes nothing, a failed second write keeps the token; a success signs in exactly when the token is non-empty and both reads succeed, with the login's user |
| Session.HalfStoredLoginSignsInLater | src/services/auth.ts:9-10 | a login whose user write fails throws, yet leaves a token that signs the app in at the next check, with an empty user |
| Session.SignOutState | src/services/auth.ts:19-29 | the user is always cleared; the token is deleted unless its deletion fails, and the stored user only when both deletions succeed |
| Session.SignedOutStaysOut | src/contexts/AuthContext.tsx:73-92 | once the token deletion went through, no later check signs the app in |
| Session.FailedSignOutSignsBackIn | src/services/auth.ts:21-28 | a sign-out whose token deletion fails is undone by the next check that reads fine |
| Session.SignInThenOut | src/contexts/AuthContext.tsx:94-125 | signing in then out always leaves the app signed out, whatever the login and storage did |
| Discovery.Search | src/pages/SearchPage.tsx:56-84 | blank gives []; a "Categoria: " query leaves the results alone; otherwise exactly the matching campaigns, in order |
| Discovery.SearchKeepsEveryMatch | src/pages/SearchPage.tsx:67-83 | a text search keeps every copy of every matching campaign and nothing else |
| Discovery.CategoryPress | src/pages/SearchPage.tsx:90-96 | exactly the campaigns whose store lists the category, every copy of each, in order, with the query "Categoria: <name>" |
| Discovery.CategoryResultsSurviveSearch | src/pages/SearchPage.tsx:86-96 | the search the query change triggers leaves the category results alone |
| Discovery.ClearedStaysEmpty | src/pages/SearchPage.tsx:98-101 | after clearing, the search that follows keeps the results empty |
| Discovery.SearchIgnoresCaseOnText | src/pages/SearchPage.tsx:67-72 | when no coupon value matches, a campaign matches a query exactly when it matches the lower-cased query (names and titles are compared lower-cased) |
| Discovery.CategoryFilter | src/pages/HomePage.tsx:68-78 | exactly the campaigns of the full fetched list whose store lists the id, every copy of each, in order |
| Discovery.CategoryFiltersNotCumulative | src/pages/HomePage.tsx:72 | filtering by A then B is filtering by B |
| Discovery.ShowAllUndoesFilter | src/pages/HomePage.tsx:184 | "Todas Categorias" after any filter restores the full list and clears the selection |
| Discovery.FilterByUniversalCategory | src/pages/HomePage.tsx:72-74 | a category every campaign has shows the whole list |
| Discovery.GreetingName | src/pages/HomePage.tsx:50-53 | a name gives its first space-free token; no name keeps the previous one |
| Discovery.Greeting | src/pages/HomePage.tsx:200 | with a name it starts "Olá <name>,"; always ends with the invitation |
| Discovery.LeadingSpaceDropsName | src/pages/HomePage.tsx:50-53 | a name starting with a space gives an empty first token, so the greeting loses the name |
| Discovery.CategoryLabel | src/pages/HomePage.tsx:195 | a name over 20 chars shows its first 20 and "..."; shorter names show whole |
| Discovery.CategoryLabelBound | src/pages/HomePage.tsx:195 | labels have at most 23 chars, and long names sharing 20 chars look alike |
| Text.ParseIntJs | src/pages/Cupom/createEdit.tsx:388 | `parseInt` of a digit string is its value, and of an empty text NaN |
| Text.ParseIntJsIntToString | src/pages/Cupom/createEdit.tsx:388 | `parseInt(String(i))` is i for either sign |
| Text.Digits | src/utils/utils.ts:102 | `replace(/\D/g, '')` yields a sub-sequence of the input made of digits only, never longer than the input |
| Text.DigitsKeepsEveryDigit | src/utils/utils.ts:102 | the digit string holds every copy of every digit of the input and nothing else |

## Left out

- Rendering, styles, navigation, `App.tsx`, `FavoritesPage.tsx`, `ProfilePage.tsx` and `NewPass.tsx`: layout, routing and upload plumbing only.
- The HTTP and storage wrappers in src/services/: every server answer and storage outcome is an input. The backend's own coupon rules (atomic claim, one claim per user, the USED transition, the "already used" and "expired" errors) are not in this code.
- Floats and locale formatting (`formatNumber`, `formatarMoeda`, `formatCurrency`, `toFixed`, `formatValueInput`, `shareByMember`). Coupon values are integers, and the search takes `formatNumber` as a parameter.
- JS `Date`, time zones and `toLocale*` formatting. Instants are integer milliseconds; the pickers deliver calendar fields (`Stamp.Civil`), and the "start before today" check is a boolean input of `Campaign.ValidateCampanha`. `handleDateChange` is never called by the screen.
- Randomness in `generateCupomCode`: the random draws are a parameter.
- `encodeURIComponent` and `isValidCNPJ` are function parameters. The CNPJ check-digit rule is not part of this model.
- `formatarTextoComTags` and `getErrorMessage`: text rewriting of little value.
- Platform APIs (camera, notifications, push, `Linking`, `Alert`, timers). Timers are discrete events; the camera permission is an input.
- Text.ToLower: lower-cases ASCII letters only, because JavaScript's full Unicode case mapping is not modelled.
- Strings are sequences of code points, while JavaScript measures `length` in UTF-16 units. Lengths differ for characters outside the Basic Multilingual Plane.
- Text.ParseIntJs: precision loss on very long digit runs is not modelled.
- StoreForm.ValidateLoja: a city id of NaN is falsy in the source but cannot occur in the integer model.
- ScanLock.Step: the scanner window's close paths are not events: `onRequestClose` (`src/pages/Cupom/validaCupom.tsx:208`), the Fechar and Cancelar buttons (`:259`, `:340`), and the "Ler QRCode (Câmera)" button (`:327`), which hides the typing box. Nor is the camera-mounted gate on a scan (`!codigoCupomInput && permission?.granted`, `:215`): every `Scanned` event is taken as coming from a mounted camera. None of these touches the lock or the pending submission.
- Register.HandleChange: the nickname field is not on the form; its filter is modelled on its own (`Register.NicknameInput`).
- Session.CheckAuthState: the stored user is a record, not the JSON text and its parse.
- Session.SignIn: `updatePushToken` after the check is not modelled; if it rejects, signIn throws after the user has been set.
- CouponList.QuantityColor: its own contract gives only the three colours; the exact choice is stated by `CouponList.QuantityColorShare` and `CouponList.QuantityColorZeroQuantity`, and for a negative quantity only by the definition.
- CouponList.QuantityColorShare: stated for qtd > 0 only; qtd = 0 is stated on its own in `CouponList.QuantityColorZeroQuantity`.
- Countdown.Settle: the "Prazo encerrado!" text shown once finished is rendering and is not modelled.
- CouponDetail.DetailNext: the pull-to-refresh loading screen, which hides the button while refreshing, and the alerts and navigation after an answer are not modelled.
- CouponDetail.AbreLink: the alert texts are kinds; the error message inside the error alert is not modelled.

## Findings

| source | as written | input that shows it | evidently intended | confidence | as-written member | corrected member |
|---|---|---|---|---|---|---|
| src/components/TimeToEnd.tsx:24 | positive countdowns end without the "s" that the zero text has | 500 ms renders "0d, 00h00m00", not "0d, 00h00m00s" | every countdown ends in "s" | high, not executed | Countdown.SubSecondCountdown | Countdown.IntendedSubSecondMatchesZero |
| src/pages/Cupom/createEdit.tsx:93 | `status \|\| ATIVO` turns a stored INATIVO (0) into ATIVO | editing an inactive template shows its switch on and saves it active | keep the stored status | medium, not executed | CouponForm.LoadFormReactivates | CouponForm.LoadFormIntended |
| src/pages/Campanha/CreateEdit.tsx:97 | `status \|\| 1` turns a stored INATIVA (0) into ATIVA | editing an inactive campaign saves it active | keep the stored status | medium, not executed | Campaign.LoadCampanhaReactivates | Campaign.LoadCampanhaIntended |
| src/pages/Loja/CreateEdit.tsx:114 | `status \|\| 1` turns a stored inactive store (0) into active | editing an inactive store shows it ATIVO and saves it active | keep the stored status | medium, not executed | StoreForm.LoadStatusReactivates | StoreForm.LoadStatusIntendedKeepsInactive |
| src/pages/Loja/ColabTeam.tsx:120 | the catch block reads `error.response.data.error`, which throws when there is no response, so no alert is shown | a network error while adding a merchant | show the fixed failure alert | high, not executed | TeamInvite.MissingFailureAlert | TeamInvite.AddLojistaIntended |
| src/pages/Login.tsx:68 | `error.response.data?.message` throws when there is no response, so no alert is shown | signing in with no network | show the fixed login-failure alert | high, not executed | Login.MissingLoginAlert | Login.HandleLoginIntended |
| src/pages/Loja/CreateEdit.tsx:205 | `error.response.data?.message` throws when there is no response, so no alert is shown | saving a valid store with no network | show the fixed "Falha ao salvar loja." alert | high, not executed | StoreForm.SilentSaveFailure | StoreForm.HandleSaveIntended |
| src/pages/User/UserDados.tsx:100 | `e.response.data.error` throws when there is no response, so the connection message is never shown | saving the profile with no network | show the connection message | high, not executed | UserPages.MissingSaveAlert | UserPages.SaveDadosIntended |
