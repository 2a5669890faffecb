/**
  The merchant's campaign screens: the create/edit form
  (src/pages/Campanha/CreateEdit.tsx) with its validation, its date and
  time pickers, the field update that clears one error, loading and the
  saved payload; and the campaign list (src/pages/Campanha/List.tsx) with
  its status tables and deletion.
 */
module Campaign {
  import opened Lists
  import opened Text
  import opened Types
  import opened Stamp

  /** The form's state (`CampanhaFormData`); a store id of 0 stands for every falsy id. */
  datatype CampanhaForm = CampanhaForm(
    lojaId: int,
    titulo: string,
    descricao: string,
    dataInicio: string,
    dataFim: string,
    status: int)

  /** The form's fields, which also key its error messages (`loja_id`, `titulo`, `descricao`, `data_inicio`, `data_fim`, `status`). */
  datatype CampanhaField = LojaId | Titulo | Descricao | DataInicio | DataFim | Status

  const LojaRequired: string := "Loja é obrigatória"
  const TituloRequired: string := "Título é obrigatório"
  const DescricaoRequired: string := "Descrição é obrigatória"
  const EndNotAfterStart: string := "Data de fim deve ser posterior à data de início"
  const StartInPast: string := "Data de início não pode ser anterior a hoje"

  /** The error map for the outcomes of the five checks, in the order `validateForm` runs them. */
  function ErrorsFor(noLoja: bool, noTitulo: bool, noDescricao: bool, endNotAfter: bool, startPast: bool)
    : (r: map<CampanhaField, string>)
    ensures LojaId in r <==> noLoja
    ensures Titulo in r <==> noTitulo
    ensures Descricao in r <==> noDescricao
    ensures DataFim in r <==> endNotAfter
    ensures DataInicio in r <==> startPast
    ensures Status !in r
    ensures DataFim in r ==> r[DataFim] == EndNotAfterStart
    ensures Titulo in r ==> r[Titulo] == TituloRequired
  {
    var m0: map<CampanhaField, string> := map[];
    var m1 := if noLoja then m0[LojaId := LojaRequired] else m0;
    var m2 := if noTitulo then m1[Titulo := TituloRequired] else m1;
    var m3 := if noDescricao then m2[Descricao := DescricaoRequired] else m2;
    var m4 := if endNotAfter then m3[DataFim := EndNotAfterStart] else m3;
    if startPast then m4[DataInicio := StartInPast] else m4
  }

  /**
    `validateForm`: one message per failing check, keyed by field. The end
    must be after the start as strings (`data_fim <= data_inicio` fails).
    Whether the start lies before today's midnight needs the clock and the
    JavaScript date parser, so it is the input `startsBeforeToday`.
   */
  function ValidateCampanha(d: CampanhaForm, startsBeforeToday: bool): (r: map<CampanhaField, string>)
    ensures LojaId in r <==> d.lojaId == 0
    ensures Titulo in r <==> IsBlank(d.titulo)
    ensures Descricao in r <==> IsBlank(d.descricao)
    ensures DataFim in r <==> !StrLess(d.dataInicio, d.dataFim)
    ensures DataInicio in r <==> startsBeforeToday
    ensures Status !in r
    ensures DataFim in r ==> r[DataFim] == EndNotAfterStart
    ensures Titulo in r ==> r[Titulo] == TituloRequired
  {
    ErrorsFor(d.lojaId == 0, IsBlank(d.titulo), IsBlank(d.descricao), !StrLess(d.dataInicio, d.dataFim), startsBeforeToday)
  }

  /** The form may be saved. */
  predicate CampanhaValid(d: CampanhaForm, startsBeforeToday: bool)
  {
    ValidateCampanha(d, startsBeforeToday) == map[]
  }

  /** The form passes exactly when every check passes. */
  lemma CampanhaValidIff(d: CampanhaForm, startsBeforeToday: bool)
    ensures CampanhaValid(d, startsBeforeToday) <==>
      && d.lojaId != 0 && !IsBlank(d.titulo) && !IsBlank(d.descricao)
      && StrLess(d.dataInicio, d.dataFim) && !startsBeforeToday
  {
    var r := ValidateCampanha(d, startsBeforeToday);
    if !CampanhaValid(d, startsBeforeToday) {
      var k :| k in r;
    }
  }

  /** With both dates picked, the end check passes exactly when the end is chronologically after the start. */
  lemma PickedDatesCheck(d: CampanhaForm, startsBeforeToday: bool, a: Civil, b: Civil)
    requires Fits(a) && Fits(b)
    requires d.dataInicio == FormatStamp(a) && d.dataFim == FormatStamp(b)
    ensures DataFim !in ValidateCampanha(d, startsBeforeToday) <==> Earlier(a, b)
  {
    StampOrder(a, b);
  }

  /** Equal start and end are rejected: the comparison is strict. */
  lemma EqualDatesRejected(d: CampanhaForm, startsBeforeToday: bool)
    requires d.dataInicio == d.dataFim
    ensures DataFim in ValidateCampanha(d, startsBeforeToday)
    ensures ValidateCampanha(d, startsBeforeToday)[DataFim] == EndNotAfterStart
  {
    StrLessIrreflexive(d.dataInicio);
  }

  /**
    A start still at its `String(new Date())` default (a weekday name
    first) blocks saving whatever end is picked.
   */
  lemma DefaultStartRejected(d: CampanhaForm, startsBeforeToday: bool, b: Civil)
    requires |d.dataInicio| > 0 && IsAsciiLetter(d.dataInicio[0])
    requires Fits(b) && d.dataFim == FormatStamp(b)
    ensures !CampanhaValid(d, startsBeforeToday)
  {
    DefaultStartBlocksEveryEnd(d.dataInicio, b);
  }

  // ---------------------------------------------------------------------
  // Date and time pickers
  // ---------------------------------------------------------------------

  /**
    `handleDateSelection`: the picked day at the field's current hour and
    minute. `current` is the field's value as a calendar time (the clock's
    when the field is empty); both are what the JavaScript `Date` getters
    return, so they are inputs.
   */
  function SelectDate(current: Civil, picked: Civil): string
  {
    FormatStamp(Civil(picked.year, picked.month, picked.day, current.hour, current.minute))
  }

  /** `handleTimeSelection`: the field's current day at the picked hour and minute. */
  function SelectTime(current: Civil, picked: Civil): string
  {
    FormatStamp(Civil(current.year, current.month, current.day, picked.hour, picked.minute))
  }

  /** Picking a day gives a stamp that reads back as that day at the time already set. */
  lemma DateSelectionKeepsTime(current: Civil, picked: Civil)
    requires Fits(current) && Fits(picked)
    ensures IsStamp(SelectDate(current, picked))
    ensures ParseStamp(SelectDate(current, picked))
      == Some(Civil(picked.year, picked.month, picked.day, current.hour, current.minute))
  {
    FormatThenParse(Civil(picked.year, picked.month, picked.day, current.hour, current.minute));
  }

  /** Picking a time gives a stamp that reads back as the day already set at that time. */
  lemma TimeSelectionKeepsDate(current: Civil, picked: Civil)
    requires Fits(current) && Fits(picked)
    ensures IsStamp(SelectTime(current, picked))
    ensures ParseStamp(SelectTime(current, picked))
      == Some(Civil(current.year, current.month, current.day, picked.hour, picked.minute))
  {
    FormatThenParse(Civil(current.year, current.month, current.day, picked.hour, picked.minute));
  }

  /** Picking a day and then a time sets exactly the picked day at the picked time. */
  lemma DateThenTime(current: Civil, day: Civil, time: Civil)
    requires Fits(current) && Fits(day) && Fits(time)
    ensures var afterDate := Civil(day.year, day.month, day.day, current.hour, current.minute);
      && ParseStamp(SelectDate(current, day)) == Some(afterDate)
      && SelectTime(afterDate, time) == FormatStamp(Civil(day.year, day.month, day.day, time.hour, time.minute))
  {
    DateSelectionKeepsTime(current, day);
  }

  // ---------------------------------------------------------------------
  // updateFormData
  // ---------------------------------------------------------------------

  /** One field write: the store picker, the two text boxes, the two date fields and the active switch. */
  datatype CampanhaEdit =
    | SetLoja(lojaId: int)
    | SetTitulo(titulo: string)
    | SetDescricao(descricao: string)
    | SetInicio(inicio: string)
    | SetFim(fim: string)
    | SetStatus(status: int)

  /** The error key of the field an edit writes. */
  function EditKey(e: CampanhaEdit): CampanhaField
  {
    match e
    case SetLoja(_) => LojaId
    case SetTitulo(_) => Titulo
    case SetDescricao(_) => Descricao
    case SetInicio(_) => DataInicio
    case SetFim(_) => DataFim
    case SetStatus(_) => Status
  }

  function Apply(d: CampanhaForm, e: CampanhaEdit): CampanhaForm
  {
    match e
    case SetLoja(v) => d.(lojaId := v)
    case SetTitulo(v) => d.(titulo := v)
    case SetDescricao(v) => d.(descricao := v)
    case SetInicio(v) => d.(dataInicio := v)
    case SetFim(v) => d.(dataFim := v)
    case SetStatus(v) => d.(status := v)
  }

  datatype CampanhaState = CampanhaState(data: CampanhaForm, errors: map<CampanhaField, string>)

  /**
    `updateFormData`: writes the one field, and drops that field's error
    when it has a non-empty message; every other error stays, even one the
    new value has made stale.
   */
  function UpdateCampanha(s: CampanhaState, e: CampanhaEdit): (r: CampanhaState)
    ensures e.SetLoja? ==> r.data.lojaId == e.lojaId && r.data.(lojaId := s.data.lojaId) == s.data
    ensures e.SetTitulo? ==> r.data.titulo == e.titulo && r.data.(titulo := s.data.titulo) == s.data
    ensures e.SetDescricao? ==> r.data.descricao == e.descricao && r.data.(descricao := s.data.descricao) == s.data
    ensures e.SetInicio? ==> r.data.dataInicio == e.inicio && r.data.(dataInicio := s.data.dataInicio) == s.data
    ensures e.SetFim? ==> r.data.dataFim == e.fim && r.data.(dataFim := s.data.dataFim) == s.data
    ensures e.SetStatus? ==> r.data.status == e.status && r.data.(status := s.data.status) == s.data
    ensures EditKey(e) in s.errors && s.errors[EditKey(e)] != "" ==> EditKey(e) !in r.errors
    ensures forall k :: k in r.errors ==> k in s.errors && r.errors[k] == s.errors[k]
    ensures forall k :: k in s.errors && k != EditKey(e) ==> k in r.errors
  {
    var key := EditKey(e);
    var errors := if key in s.errors && s.errors[key] != "" then ClearError(s.errors, key) else s.errors;
    CampanhaState(Apply(s.data, e), errors)
  }

  /**
    Moving the start clears only the start's error: an end error raised
    against the old start stays on screen even when the new start now lies
    before the end.
   */
  lemma StaleEndError(s: CampanhaState, a: Civil, b: Civil)
    requires DataFim in s.errors
    requires Fits(a) && Fits(b) && Earlier(a, b) && s.data.dataFim == FormatStamp(b)
    ensures DataFim in UpdateCampanha(s, SetInicio(FormatStamp(a))).errors
    ensures DataFim !in ValidateCampanha(UpdateCampanha(s, SetInicio(FormatStamp(a))).data, false)
  {
    StampOrder(a, b);
  }

  /** The active switch writes `ATIVA` when turned on and `INATIVA` when turned off. */
  function SwitchStatus(on: bool): (r: int)
    ensures r in {CampanhaAtiva, CampanhaInativa}
    ensures r == CampanhaAtiva <==> on
  {
    if on then CampanhaAtiva else CampanhaInativa
  }

  /** The switch shows on exactly for `ATIVA`. */
  predicate SwitchShows(status: int) { status == CampanhaAtiva }

  /** The switch shows what it last wrote. */
  lemma SwitchRoundTrip(on: bool, status: int)
    ensures SwitchShows(SwitchStatus(on)) == on
    ensures SwitchShows(status) ==> SwitchStatus(SwitchShows(status)) == status
  {
  }

  // ---------------------------------------------------------------------
  // Loading and saving
  // ---------------------------------------------------------------------

  /** A campaign as fetched for editing; absent text fields are `None`, a missing store id is 0. */
  datatype CampanhaFetched = CampanhaFetched(
    lojaId: int,
    titulo: Option<string>,
    descricao: Option<string>,
    dataInicio: string,
    dataFim: string,
    status: int)

  /** `x || ''` for a text field. */
  function TextOrEmpty(t: Option<string>): string
  {
    match t
    case Some(s) => s
    case None => ""
  }

  /**
    `loadCampanha`: fills the form from the fetched campaign, the dates as
    sent, and the status through `status || 1`, so an inactive campaign
    (status 0) loads as active.
   */
  function LoadCampanha(c: CampanhaFetched): (r: CampanhaForm)
    ensures r.status == (if c.status == CampanhaInativa then CampanhaAtiva else c.status)
    ensures c.titulo.Some? ==> r.titulo == c.titulo.value
    ensures c.titulo.None? ==> r.titulo == "" && !CampanhaValid(r, false)
    ensures c.descricao.Some? ==> r.descricao == c.descricao.value
    ensures c.descricao.None? ==> r.descricao == ""
    ensures r.dataInicio == c.dataInicio && r.dataFim == c.dataFim && r.lojaId == c.lojaId
  {
    CampanhaForm(
      lojaId := c.lojaId,
      titulo := TextOrEmpty(c.titulo),
      descricao := TextOrEmpty(c.descricao),
      dataInicio := c.dataInicio,
      dataFim := c.dataFim,
      status := if c.status == 0 then 1 else c.status)
  }

  /**
    An inactive campaign, which the list labels "Inativa", opens with its
    switch on, so saving it unchanged reactivates it.
   */
  lemma LoadCampanhaReactivates(c: CampanhaFetched)
    requires c.status == CampanhaInativa
    ensures CampanhaStatusText(c.status) == "Inativa"
    ensures SwitchShows(LoadCampanha(c).status)
    ensures SavePayload(LoadCampanha(c)).status == CampanhaAtiva
  {
  }

  /** `loadCampanha` as evidently intended: the fetched status is kept. */
  function LoadCampanhaIntended(c: CampanhaFetched): (r: CampanhaForm)
    ensures r.status == c.status
    ensures SwitchShows(r.status) <==> CampanhaStatusText(c.status) == "Ativa"
    ensures r.(status := 0) == LoadCampanha(c).(status := 0)
  {
    LoadCampanha(c).(status := c.status)
  }

  /** The body sent to create or update a campaign. */
  datatype CampanhaPayload = CampanhaPayload(
    titulo: string,
    lojaId: int,
    descricao: string,
    dataInicio: string,
    dataFim: string,
    status: int)

  /**
    `handleSave`'s payload: title and description trimmed, everything else
    as in the form. The trimmed texts are pieces of the typed ones that
    trimming leaves alone.
   */
  function SavePayload(d: CampanhaForm): (r: CampanhaPayload)
    ensures Contains(d.titulo, r.titulo) && Trim(r.titulo) == r.titulo
    ensures Contains(d.descricao, r.descricao) && Trim(r.descricao) == r.descricao
    ensures r.lojaId == d.lojaId && r.status == d.status
    ensures r.dataInicio == d.dataInicio && r.dataFim == d.dataFim
  {
    TrimIdempotent(d.titulo);
    TrimIdempotent(d.descricao);
    CampanhaPayload(Trim(d.titulo), d.lojaId, Trim(d.descricao), d.dataInicio, d.dataFim, d.status)
  }

  /** The form a payload describes. */
  function PayloadForm(p: CampanhaPayload): CampanhaForm
  {
    CampanhaForm(p.lojaId, p.titulo, p.descricao, p.dataInicio, p.dataFim, p.status)
  }

  /**
    A form that passes validation saves non-empty texts, the payload passes
    validation itself, and saving it again sends the same payload.
   */
  lemma SavedPayloadStable(d: CampanhaForm)
    requires CampanhaValid(d, false)
    ensures SavePayload(d).titulo != "" && SavePayload(d).descricao != ""
    ensures CampanhaValid(PayloadForm(SavePayload(d)), false)
    ensures SavePayload(PayloadForm(SavePayload(d))) == SavePayload(d)
  {
    CampanhaValidIff(d, false);
    CampanhaValidIff(PayloadForm(SavePayload(d)), false);
  }

  // ---------------------------------------------------------------------
  // The campaign list
  // ---------------------------------------------------------------------

  /** A campaign as the list shows it. */
  datatype CampanhaItem = CampanhaItem(id: int, titulo: string, status: int, lojaNome: string)

  /** `getStatusText`; every code outside 0..3 reads "Desconhecido". */
  function CampanhaStatusText(status: int): (r: string)
    ensures r == "Ativa" <==> status == CampanhaAtiva
    ensures r == "Inativa" <==> status == CampanhaInativa
    ensures r == "Suspensa" <==> status == CampanhaSuspensa
    ensures r == "Finalizada" <==> status == CampanhaFinalizada
    ensures r == "Desconhecido" <==> !(0 <= status <= 3)
  {
    if status == CampanhaAtiva then "Ativa"
    else if status == CampanhaInativa then "Inativa"
    else if status == CampanhaSuspensa then "Suspensa"
    else if status == CampanhaFinalizada then "Finalizada"
    else "Desconhecido"
  }

  /** `getStatusColor`; every code outside 0..3 gets the dark gray. */
  function CampanhaStatusColor(status: int): (r: Color)
    ensures r == Success <==> status == CampanhaAtiva
    ensures r == Warning <==> status == CampanhaInativa
    ensures r == Danger <==> status == CampanhaSuspensa
    ensures r == Gray <==> status == CampanhaFinalizada
    ensures r == GrayDark <==> !(0 <= status <= 3)
  {
    if status == CampanhaAtiva then Success
    else if status == CampanhaInativa then Warning
    else if status == CampanhaSuspensa then Danger
    else if status == CampanhaFinalizada then Gray
    else GrayDark
  }

  /** The colour of each campaign label. */
  function CampanhaLabelColor(text: string): Color
  {
    if text == "Ativa" then Success
    else if text == "Inativa" then Warning
    else if text == "Suspensa" then Danger
    else if text == "Finalizada" then Gray
    else GrayDark
  }

  /** The two tables agree: a badge's colour is the colour of its label. */
  lemma CampanhaTablesAgree(status: int)
    ensures CampanhaStatusColor(status) == CampanhaLabelColor(CampanhaStatusText(status))
  {
  }

  function ItemId(c: CampanhaItem): int { c.id }

  /** A successful delete: the campaigns with that id go, the rest stay in order. */
  function DeleteCampanha(items: seq<CampanhaItem>, id: int): (r: seq<CampanhaItem>)
    ensures SubSeq(r, items)
    ensures forall i :: 0 <= i < |r| ==> r[i].id != id
    ensures forall i :: 0 <= i < |items| && items[i].id != id ==> items[i] in r
    ensures forall c :: multiset(r)[c] == (if c.id != id then multiset(items)[c] else 0)
  {
    RemoveKeyMultiplicity(items, ItemId, id);
    RemoveKey(items, ItemId, id)
  }

  /** Deleting an id that is not listed changes nothing, and deleting twice is deleting once. */
  lemma DeleteCampanhaIdempotent(items: seq<CampanhaItem>, id: int)
    ensures DeleteCampanha(DeleteCampanha(items, id), id) == DeleteCampanha(items, id)
    ensures (forall i :: 0 <= i < |items| ==> items[i].id != id) ==> DeleteCampanha(items, id) == items
  {
    RemoveKeyIdempotent(items, ItemId, id);
  }
}
