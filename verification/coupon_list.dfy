/**
  The merchant's coupon-template list (src/pages/Cupom/List.tsx): the status
  label and colour, where an exhausted quantity overrides the stored status;
  the remaining-quantity colour; the four filter tabs; deletion from the
  list; and the card's expiry flag.
 */
module CouponList {
  import opened Lists
  import opened Types
  import Utils

  /** No coupons left to claim: `qtd <= usados`. */
  predicate Exhausted(qtd: int, usados: int) { qtd <= usados }

  /** `getStatusText`: "Esgotado" when exhausted, else the stored status's name. */
  function StatusText(status: int, qtd: int, usados: int): (r: string)
    ensures r == "Esgotado" <==> Exhausted(qtd, usados) || status == CupomEsgotado
    ensures r == "Ativo" <==> !Exhausted(qtd, usados) && status == CupomAtivo
    ensures r == "Inativo" <==> !Exhausted(qtd, usados) && status == CupomInativo
    ensures r == "Expirado" <==> !Exhausted(qtd, usados) && status == CupomExpirado
    ensures r == "Desconhecido" <==> !Exhausted(qtd, usados) && !(0 <= status <= 3)
  {
    if Exhausted(qtd, usados) then "Esgotado"
    else if status == CupomAtivo then "Ativo"
    else if status == CupomInativo then "Inativo"
    else if status == CupomEsgotado then "Esgotado"
    else if status == CupomExpirado then "Expirado"
    else "Desconhecido"
  }

  /** `getStatusColor`: danger when exhausted, else the stored status's colour. */
  function StatusColor(status: int, qtd: int, usados: int): (r: Color)
    ensures Exhausted(qtd, usados) ==> r == Danger
  {
    if Exhausted(qtd, usados) then Danger
    else if status == CupomAtivo then Success
    else if status == CupomInativo then Warning
    else if status == CupomEsgotado then Danger
    else if status == CupomExpirado then Gray
    else GrayDark
  }

  /** The colour each label is shown in. */
  function LabelColor(text: string): Color
  {
    if text == "Esgotado" then Danger
    else if text == "Ativo" then Success
    else if text == "Inativo" then Warning
    else if text == "Expirado" then Gray
    else GrayDark
  }

  /** The two tables agree: a card's colour is always the colour of its label. */
  lemma StatusTablesAgree(status: int, qtd: int, usados: int)
    ensures StatusColor(status, qtd, usados) == LabelColor(StatusText(status, qtd, usados))
  {
  }

  /**
    Template codes and claimed-coupon codes are separate spaces: code 2 on a
    template reads "Esgotado", while code 2 on a claimed coupon reads
    "☑️Usado" (src/utils/utils.ts).
   */
  lemma StatusCodeSpacesDiffer(qtd: int, usados: int)
    ensures StatusText(CupomEsgotado, qtd, usados) == "Esgotado"
    ensures Utils.CupomStatusBadge(2).caption == "☑️Usado"
  {
  }

  // ---------------------------------------------------------------------
  // getQuantityColor
  // ---------------------------------------------------------------------

  /**
    `getQuantityColor`: the share `(qtd - usados) / qtd * 100` decides the
    colour (at most 0 danger, at most 20 warning, else success). The
    comparisons are restated over integers, sign by sign of `qtd`; with
    `qtd == 0` the share is an infinity of the remainder's sign, or `NaN`
    (success) when nothing is left either.
   */
  function QuantityColor(qtd: int, usados: int): (r: Color)
    ensures r in {Danger, Warning, Success}
  {
    var rest := qtd - usados;
    if qtd > 0 then
      (if rest <= 0 then Danger else if rest * 100 <= 20 * qtd then Warning else Success)
    else if qtd < 0 then
      (if rest >= 0 then Danger else if rest * 100 >= 20 * qtd then Warning else Success)
    else
      (if rest < 0 then Danger else Success)
  }

  /**
    For a positive quantity the colour follows the remaining share exactly:
    danger when nothing is left, warning when at most a fifth is left,
    success above that.
   */
  lemma QuantityColorShare(qtd: int, usados: int)
    requires qtd > 0
    ensures QuantityColor(qtd, usados) == Danger <==> usados >= qtd
    ensures QuantityColor(qtd, usados) == Warning <==> usados < qtd && 5 * (qtd - usados) <= qtd
    ensures QuantityColor(qtd, usados) == Success <==> 5 * (qtd - usados) > qtd
  {
  }

  /** How good a quantity colour is: success above warning above danger. */
  function ColorRank(c: Color): int
  {
    match c
    case Success => 2
    case Warning => 1
    case _ => 0
  }

  /** Using more coupons never makes the colour better. */
  lemma QuantityColorMonotone(qtd: int, u1: int, u2: int)
    requires qtd > 0 && u1 <= u2
    ensures ColorRank(QuantityColor(qtd, u2)) <= ColorRank(QuantityColor(qtd, u1))
  {
  }

  /** With no quantity the client shows success when nothing was used, and danger once something was. */
  lemma QuantityColorZeroQuantity(usados: int)
    ensures QuantityColor(0, usados) == (if usados > 0 then Danger else Success)
  {
  }

  // ---------------------------------------------------------------------
  // filterCupons
  // ---------------------------------------------------------------------

  /** The four filter tabs. */
  datatype FilterKind = Todos | Ativos | Inativos | Esgotados

  /** Whether a template belongs under a tab. */
  predicate InTab(f: FilterKind, c: Cupom)
  {
    match f
    case Todos => true
    case Ativos => c.status == CupomAtivo && c.qtd > c.usados
    case Inativos => c.status == CupomInativo
    case Esgotados => c.qtd <= c.usados || c.status == CupomEsgotado
  }

  /**
    `filterCupons`: the templates under the chosen tab, in their loaded
    order; every one belongs under the tab and none that belongs is left out.
   */
  function FilterCupons(cupons: seq<Cupom>, f: FilterKind): (r: seq<Cupom>)
    ensures SubSeq(r, cupons)
    ensures forall i :: 0 <= i < |r| ==> InTab(f, r[i])
    ensures forall i :: 0 <= i < |cupons| && InTab(f, cupons[i]) ==> cupons[i] in r
    ensures forall c :: multiset(r)[c] == (if InTab(f, c) then multiset(cupons)[c] else 0)
    ensures f == Todos ==> r == cupons
  {
    if f == Todos then
      FilterKeepsAll(cupons, c => InTab(f, c));
      cupons
    else
      FilterMultiplicity(cupons, c => InTab(f, c));
      Filter(cupons, c => InTab(f, c))
  }

  /** No template is under both the "ativos" and the "esgotados" tab. */
  lemma AtivosEsgotadosDisjoint(cupons: seq<Cupom>)
    ensures forall i, j ::
      0 <= i < |FilterCupons(cupons, Ativos)| && 0 <= j < |FilterCupons(cupons, Esgotados)| ==>
      FilterCupons(cupons, Ativos)[i] != FilterCupons(cupons, Esgotados)[j]
  {
  }

  /** Every template under "ativos" is labelled "Ativo" and shown in the success colour. */
  lemma AtivosLabelledAtivo(cupons: seq<Cupom>)
    ensures forall i :: 0 <= i < |FilterCupons(cupons, Ativos)| ==>
      var c := FilterCupons(cupons, Ativos)[i];
      StatusText(c.status, c.qtd, c.usados) == "Ativo" && StatusColor(c.status, c.qtd, c.usados) == Success
  {
  }

  /** Every template under "esgotados" is labelled "Esgotado", and every template so labelled is under it. */
  lemma EsgotadosLabelledEsgotado(cupons: seq<Cupom>)
    ensures forall i :: 0 <= i < |FilterCupons(cupons, Esgotados)| ==>
      var c := FilterCupons(cupons, Esgotados)[i];
      StatusText(c.status, c.qtd, c.usados) == "Esgotado"
    ensures forall i ::
      0 <= i < |cupons| && StatusText(cupons[i].status, cupons[i].qtd, cupons[i].usados) == "Esgotado" ==>
      cupons[i] in FilterCupons(cupons, Esgotados)
  {
  }

  // ---------------------------------------------------------------------
  // Deletion and the expiry flag
  // ---------------------------------------------------------------------

  function CupomId(c: Cupom): int { c.id }

  /**
    A successful delete: both the loaded list and the shown list lose every
    template with that id and keep the others in order.
   */
  function DeleteCupom(cupons: seq<Cupom>, shown: seq<Cupom>, id: int): (r: (seq<Cupom>, seq<Cupom>))
    ensures forall i :: 0 <= i < |r.0| ==> r.0[i].id != id
    ensures forall i :: 0 <= i < |r.1| ==> r.1[i].id != id
    ensures forall i :: 0 <= i < |cupons| && cupons[i].id != id ==> cupons[i] in r.0
    ensures forall i :: 0 <= i < |shown| && shown[i].id != id ==> shown[i] in r.1
    ensures SubSeq(r.0, cupons) && SubSeq(r.1, shown)
    ensures forall c :: multiset(r.0)[c] == (if c.id != id then multiset(cupons)[c] else 0)
    ensures forall c :: multiset(r.1)[c] == (if c.id != id then multiset(shown)[c] else 0)
  {
    RemoveKeyMultiplicity(cupons, CupomId, id);
    RemoveKeyMultiplicity(shown, CupomId, id);
    (RemoveKey(cupons, CupomId, id), RemoveKey(shown, CupomId, id))
  }

  /** Deleting keeps the shown list equal to the current tab of the loaded list. */
  lemma DeleteKeepsTab(cupons: seq<Cupom>, f: FilterKind, id: int)
    ensures DeleteCupom(cupons, FilterCupons(cupons, f), id).1
      == FilterCupons(DeleteCupom(cupons, FilterCupons(cupons, f), id).0, f)
  {
    if f == Todos {
    } else {
      RemoveKeyKeepsView(cupons, CupomId, id, c => InTab(f, c));
    }
  }

  const DayMs: int := 86400000

  /**
    The card's `isExpired`: the first clock reading is compared with the
    second reading plus `validade` days. The first reading is taken first,
    so for any non-negative `validade` the flag is false.
   */
  function IsExpired(firstClock: int, secondClock: int, validade: int): (r: bool)
    ensures firstClock <= secondClock && validade >= 0 ==> !r
    ensures r ==> validade < 0 || firstClock > secondClock
  {
    firstClock > secondClock + validade * DayMs
  }

  /** Only a negative validity could mark a card expired, even with both readings equal. */
  lemma IsExpiredOnlyForNegativeValidity(now: int, validade: int)
    ensures IsExpired(now, now, validade) <==> validade < 0
  {
  }
}
