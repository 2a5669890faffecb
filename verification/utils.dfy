/**
  The remaining helpers of src/utils/utils.ts that the screens share:
  password length, text truncation, the campaign phase of `checkDateToEnd`,
  the claimed-coupon status badge, the "time ago" phrase and the podium
  medals. Instants are integer milliseconds; a date string the client would
  parse to `NaN` is `None`.
 */
module Utils {
  import opened Arith
  import opened Lists
  import opened Text

  /** `validarSenha`: at least six chars. */
  predicate ValidarSenha(senha: string) { |senha| >= 6 }

  /** Six chars is the shortest password that passes, and typing more never makes one fail. */
  lemma ValidarSenhaThreshold(a: string, b: string)
    ensures ValidarSenha(a) ==> ValidarSenha(a + b)
    ensures |a| == 5 ==> !ValidarSenha(a) && (b != [] <==> ValidarSenha(a + b))
  {
  }

  const Ellipsis: string := "..."
  const EmDash: string := "—"

  /**
    `truncateText`: a text longer than `maxLength` shows its first
    `maxLength` chars (none when `maxLength` is negative) and "..."; a
    missing or empty text shows an em dash; any other text is shown whole.
   */
  function TruncateText(text: Option<string>, maxLength: int): (r: string)
    ensures text.Some? && |text.value| > maxLength ==>
      |r| == (if maxLength < 0 then 0 else maxLength) + 3
      && StartsWith(text.value, r[..|r| - 3]) && r[|r| - 3..] == Ellipsis
    ensures text.Some? && |text.value| > 0 && |text.value| <= maxLength ==> r == text.value
    ensures text.None? || text.value == "" ==> r == (if text.Some? && maxLength < 0 then Ellipsis else EmDash)
  {
    match text
    case None => EmDash
    case Some(t) =>
      if |t| > maxLength then
        var r := Take(t, maxLength) + Ellipsis;
        assert r[..|r| - 3] == Take(t, maxLength);
        r
      else if t == "" then EmDash
      else t
  }

  /** A text that fits is never shortened, and a shortened text is never longer than the limit plus the ellipsis. */
  lemma TruncateTextBound(t: string, maxLength: nat)
    ensures |TruncateText(Some(t), maxLength)| <= maxLength + 3
    ensures |t| <= maxLength && t != "" ==> TruncateText(Some(t), maxLength) == t
  {
  }

  // ---------------------------------------------------------------------
  // checkDateToEnd
  // ---------------------------------------------------------------------

  const StartsMsg: string := "🔵Inicia em"
  const EndedMsg: string := "🔴Finalizado(a) em"

  /** The result of `checkDateToEnd`: the chosen instant in whole seconds (`None` for `NaN`) and the phase message. */
  datatype DateToEnd = DateToEnd(formatted: Option<int>, msg: string)

  /** `Math.floor(ms / 1000)`, with `NaN` passed through. */
  function FloorSeconds(ms: Option<int>): (r: Option<int>)
    ensures r.Some? <==> ms.Some?
    ensures r.Some? ==> r.value * 1000 <= ms.value < r.value * 1000 + 1000
  {
    match ms
    case None => None
    case Some(v) => Some(v / 1000)
  }

  /**
    `checkDateToEnd(now, start, end)`: before the start the start instant
    is chosen with "🔵Inicia em"; after the end, the end instant with
    "🔴Finalizado(a) em"; otherwise the end instant with no message. A
    `NaN` date makes its comparison false.
   */
  function CheckDateToEnd(now: int, start: Option<int>, end: Option<int>): (r: DateToEnd)
    ensures r.msg == StartsMsg ==> r.formatted == FloorSeconds(start)
    ensures r.msg != StartsMsg ==> r.formatted == FloorSeconds(end)
    ensures r.msg == StartsMsg <==> start.Some? && now < start.value
    ensures r.msg == EndedMsg <==> !(start.Some? && now < start.value) && end.Some? && now > end.value
    ensures r.msg in {StartsMsg, EndedMsg, ""}
  {
    if start.Some? && now < start.value then DateToEnd(FloorSeconds(start), StartsMsg)
    else if end.Some? && now > end.value then DateToEnd(FloorSeconds(end), EndedMsg)
    else DateToEnd(FloorSeconds(end), "")
  }

  /**
    For a well-formed period (start no later than end) the message names the
    phase exactly: pending before the start, running from start to end
    inclusive, ended after the end.
   */
  lemma CheckDateToEndPhases(now: int, start: int, end: int)
    requires start <= end
    ensures CheckDateToEnd(now, Some(start), Some(end)).msg == StartsMsg <==> now < start
    ensures CheckDateToEnd(now, Some(start), Some(end)).msg == "" <==> start <= now <= end
    ensures CheckDateToEnd(now, Some(start), Some(end)).msg == EndedMsg <==> end < now
  {
  }

  /** With both dates unreadable the screen shows no message and no instant. */
  lemma CheckDateToEndUnreadable(now: int)
    ensures CheckDateToEnd(now, None, None) == DateToEnd(None, "")
  {
  }

  // ---------------------------------------------------------------------
  // cupomStatus: the badge of a claimed coupon
  // ---------------------------------------------------------------------

  datatype Badge = Badge(caption: string, color: string)

  const UnknownBadge: Badge := Badge("Desconhecido", "orange")

  /** `cupomStatus`: the label and colour of a claimed coupon's status code. */
  function CupomStatusBadge(status: int): (r: Badge)
    ensures 0 <= status <= 5 <==> r != UnknownBadge
    ensures status == 2 ==> r.caption == "☑️Usado"
  {
    match status
    case 0 => Badge("⚫Inativo", "gray")
    case 1 => Badge("🟢Ativo", "green")
    case 2 => Badge("☑️Usado", "gray")
    case 3 => Badge("🟡Expirado", "orange")
    case 4 => Badge("⚫Cancelado", "black")
    case 5 => Badge("🔴Bloqueado", "red")
    case _ => UnknownBadge
  }

  /** Different known codes get different labels, so a label names its code. */
  lemma CupomStatusLabelsDistinct(a: int, b: int)
    requires 0 <= a <= 5 && 0 <= b <= 5 && a != b
    ensures CupomStatusBadge(a).caption != CupomStatusBadge(b).caption
  {
  }

  // ---------------------------------------------------------------------
  // formatarDataRelativa
  // ---------------------------------------------------------------------

  /** `${n} <unit>${n > 1 ? 's' : ''} atrás` */
  function AgoPhrase(n: int, unit: string): string
  {
    IntToString(n) + " " + unit + (if n > 1 then "s" else "") + " atrás"
  }

  /** The count reads back from the phrase with `parseInt`. */
  lemma AgoPhraseReadsBack(n: int, unit: string)
    ensures ParseIntJs(AgoPhrase(n, unit)) == Some(n)
  {
    var x := IntToString(n);
    var tail := unit + (if n > 1 then "s" else "") + " atrás";
    assert AgoPhrase(n, unit) == x + " " + tail;
    AppendAssoc(x, " ", tail);
    ParseIntJsLeading(n, " " + tail);
  }

  /**
    The phrase ends in " atrás", and just before that comes the plural "s"
    above one and the unit's own last char otherwise.
   */
  lemma AgoPhrasePlural(n: int, unit: string)
    ensures var r := AgoPhrase(n, unit);
      && |r| > 7 && r[|r| - 6..] == " atrás"
      && (n > 1 ==> r[|r| - 7] == 's')
      && (n <= 1 && unit != "" ==> r[|r| - 7] == unit[|unit| - 1])
  {
    var head := IntToString(n) + " " + unit;
    var plural := if n > 1 then "s" else "";
    assert AgoPhrase(n, unit) == head + plural + " atrás";
  }

  const MinuteMs: int := 60000
  const HourMs: int := 3600000
  const DayMs: int := 86400000

  /**
    `formatarDataRelativa(then)` at instant `now`: less than a minute ago
    (or in the future) is "Agora"; otherwise the largest whole unit of
    minutes (below an hour), hours (below a day) or days. An unreadable
    date makes every comparison false and shows "NaN dia atrás".
   */
  function RelativeTime(now: int, past: Option<int>): (r: string)
    ensures past.None? ==> r == "NaN dia atrás"
    ensures past.Some? && now - past.value < MinuteMs ==> r == "Agora"
    ensures past.Some? && MinuteMs <= now - past.value < HourMs ==>
      r == AgoPhrase((now - past.value) / MinuteMs, "minuto") && 1 <= (now - past.value) / MinuteMs < 60
    ensures past.Some? && HourMs <= now - past.value < DayMs ==>
      r == AgoPhrase((now - past.value) / HourMs, "hora") && 1 <= (now - past.value) / HourMs < 24
    ensures past.Some? && DayMs <= now - past.value ==>
      r == AgoPhrase((now - past.value) / DayMs, "dia") && 1 <= (now - past.value) / DayMs
  {
    match past
    case None => "NaN dia atrás"
    case Some(t) =>
      var diff := now - t;
      var minutes := diff / 60000;
      var hours := minutes / 60;
      var days := hours / 24;
      NestedFloor(diff, 60000, 60);
      NestedFloor(diff, 3600000, 24);
      if minutes < 1 then "Agora"
      else if hours < 1 then AgoPhrase(minutes, "minuto")
      else if days < 1 then AgoPhrase(hours, "hora")
      else AgoPhrase(days, "dia")
  }

  /** Exactly one unit is singular: between one and two minutes ago reads "1 minuto atrás". */
  lemma OneMinuteAgo(now: int, past: int)
    requires MinuteMs <= now - past < 2 * MinuteMs
    ensures RelativeTime(now, Some(past)) == "1 minuto atrás"
  {
    NatToStringSmall(1);
  }

  // ---------------------------------------------------------------------
  // emojiPosition
  // ---------------------------------------------------------------------

  /** `emojiPosition`: a medal for places 1 to 3, nothing otherwise. */
  function EmojiPosition(position: int): (r: string)
    ensures r != "" <==> 1 <= position <= 3
  {
    if position == 1 then "🥇"
    else if position == 2 then "🥈"
    else if position == 3 then "🥉"
    else ""
  }

  /** The three podium places get three different medals. */
  lemma EmojiPositionDistinct(a: int, b: int)
    requires 1 <= a <= 3 && 1 <= b <= 3 && a != b
    ensures EmojiPosition(a) != EmojiPosition(b)
  {
  }
}
