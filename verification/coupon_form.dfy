/**
  The coupon template form (src/pages/Cupom/createEdit.tsx): validation
  into a map of per-field messages, single-field updates that clear that
  field's message, the quantity stepper and typed-number clamps, editing
  of the numbered rules, the load-time normalisation of a fetched coupon,
  and the shape of a generated code.
 */
module CouponForm {
  import opened Lists
  import opened Text
  import opened Types
  import CouponList

  const ValorPositive: string := "Valor deve ser maior que zero"
  const PercentCap: string := "Percentual não pode ser maior que 100%"
  const QtdPositive: string := "Quantidade deve ser maior que zero"
  const ValidadePositive: string := "Validade deve ser maior que zero"
  const PickCampanha: string := "Selecione uma campanha"

  /** The fields the form edits, each with the key its message is stored under. */
  datatype Field = Valor | TipoField | Qtd | Codigo | Validade | Regras | CampanhaId | Status

  function Key(f: Field): string
  {
    match f
    case Valor => "valor"
    case TipoField => "tipo"
    case Qtd => "qtd"
    case Codigo => "codigo"
    case Validade => "validade"
    case Regras => "regras"
    case CampanhaId => "campanha_id"
    case Status => "status"
  }

  lemma KeyInjective(a: Field, b: Field)
    requires a != b
    ensures Key(a) != Key(b)
  {
  }

  // ---------------------------------------------------------------------
  // validateForm
  // ---------------------------------------------------------------------

  /**
    `validateForm`'s error map: a value that is not positive gets only the
    "greater than zero" message, and only a positive percentage can get the
    100% cap message; quantity, validity and campaign are checked
    independently.
   */
  function ValidateForm(d: CupomFormData): (r: map<string, string>)
    ensures "valor" in r <==> d.valor <= 0 || (d.tipo == Percent && d.valor > 100)
    ensures "valor" in r ==> r["valor"] == (if d.valor <= 0 then ValorPositive else PercentCap)
    ensures "qtd" in r <==> d.qtd <= 0
    ensures "validade" in r <==> d.validade <= 0
    ensures "campanha_id" in r <==> d.campanhaId <= 0
    ensures forall k :: k in r ==> k in {"valor", "qtd", "validade", "campanha_id"}
  {
    var e0: map<string, string> := map[];
    var e1 := if d.valor <= 0 then e0["valor" := ValorPositive]
      else if d.tipo == Percent && d.valor > 100 then e0["valor" := PercentCap]
      else e0;
    var e2 := if d.qtd <= 0 then e1["qtd" := QtdPositive] else e1;
    var e3 := if d.validade <= 0 then e2["validade" := ValidadePositive] else e2;
    if d.campanhaId <= 0 then e3["campanha_id" := PickCampanha] else e3
  }

  /** `validateForm()`'s verdict: no message was recorded. */
  predicate FormValid(d: CupomFormData)
  {
    |ValidateForm(d)| == 0
  }

  /** The form passes exactly when every field is within its bounds. */
  lemma FormValidIff(d: CupomFormData)
    ensures FormValid(d) <==>
      d.valor > 0 && !(d.tipo == Percent && d.valor > 100) && d.qtd > 0 && d.validade > 0 && d.campanhaId > 0
  {
    var r := ValidateForm(d);
    if |r| == 0 {
      assert "valor" !in r && "qtd" !in r && "validade" !in r && "campanha_id" !in r;
    } else {
      var k :| k in r;
    }
  }

  /** A fixed amount in reais has no upper cap, while a percentage does. */
  lemma PercentCapOnlyForPercent(d: CupomFormData)
    requires d.valor > 100
    ensures "valor" in ValidateForm(d) <==> d.tipo == Percent
  {
  }

  // ---------------------------------------------------------------------
  // updateFormData
  // ---------------------------------------------------------------------

  /** A value for one field, carrying that field's type. */
  datatype Edit =
    | SetValor(valor: int)
    | SetTipo(tipo: Tipo)
    | SetQtd(qtd: int)
    | SetCodigo(codigo: string)
    | SetValidade(validade: int)
    | SetRegras(regras: map<string, string>)
    | SetCampanha(campanhaId: int)
    | SetStatus(status: int)

  function EditField(e: Edit): Field
  {
    match e
    case SetValor(_) => Valor
    case SetTipo(_) => TipoField
    case SetQtd(_) => Qtd
    case SetCodigo(_) => Codigo
    case SetValidade(_) => Validade
    case SetRegras(_) => Regras
    case SetCampanha(_) => CampanhaId
    case SetStatus(_) => Status
  }

  /** Whether field `f` of `d` holds the value `e` would write, for the field `e` writes. */
  predicate Holds(d: CupomFormData, e: Edit)
  {
    match e
    case SetValor(v) => d.valor == v
    case SetTipo(t) => d.tipo == t
    case SetQtd(q) => d.qtd == q
    case SetCodigo(c) => d.codigo == c
    case SetValidade(v) => d.validade == v
    case SetRegras(m) => d.regras == m
    case SetCampanha(c) => d.campanhaId == c
    case SetStatus(s) => d.status == s
  }

  /** Whether two form states agree on field `f`. */
  predicate SameField(a: CupomFormData, b: CupomFormData, f: Field)
  {
    match f
    case Valor => a.valor == b.valor
    case TipoField => a.tipo == b.tipo
    case Qtd => a.qtd == b.qtd
    case Codigo => a.codigo == b.codigo
    case Validade => a.validade == b.validade
    case Regras => a.regras == b.regras
    case CampanhaId => a.campanhaId == b.campanhaId
    case Status => a.status == b.status
  }

  /** The form's data together with its current messages. */
  datatype FormState = FormState(data: CupomFormData, errors: map<string, string>)

  function Write(d: CupomFormData, e: Edit): CupomFormData
  {
    match e
    case SetValor(v) => d.(valor := v)
    case SetTipo(t) => d.(tipo := t)
    case SetQtd(q) => d.(qtd := q)
    case SetCodigo(c) => d.(codigo := c)
    case SetValidade(v) => d.(validade := v)
    case SetRegras(m) => d.(regras := m)
    case SetCampanha(c) => d.(campanhaId := c)
    case SetStatus(s) => d.(status := s)
  }

  /**
    `updateFormData(field, value)`: the named field takes the value and
    every other field (the store id included) keeps its own; the field's
    message, when it has a non-empty one, is removed and every other
    message stays.
   */
  function UpdateFormData(s: FormState, e: Edit): (r: FormState)
    ensures Holds(r.data, e)
    ensures forall f :: f != EditField(e) ==> SameField(r.data, s.data, f)
    ensures r.data.lojaId == s.data.lojaId
    ensures Key(EditField(e)) in s.errors && s.errors[Key(EditField(e))] != "" ==> Key(EditField(e)) !in r.errors
    ensures forall k :: k in r.errors ==> k in s.errors && r.errors[k] == s.errors[k]
    ensures forall k :: k in s.errors && k != Key(EditField(e)) ==> k in r.errors
  {
    var key := Key(EditField(e));
    var errors := if key in s.errors && s.errors[key] != "" then ClearError(s.errors, key) else s.errors;
    FormState(Write(s.data, e), errors)
  }

  /**
    Fields the validator does not look at (code, rules, status) cannot
    change its verdict.
   */
  lemma UnvalidatedFieldsKeepVerdict(s: FormState, e: Edit)
    requires e.SetCodigo? || e.SetRegras? || e.SetStatus?
    ensures ValidateForm(UpdateFormData(s, e).data) == ValidateForm(s.data)
  {
  }

  /** Fixing the one field that was reported makes the whole form pass. */
  lemma FixingOnlyErrorValidates(s: FormState, q: int)
    requires ValidateForm(s.data).Keys == {"qtd"}
    requires q > 0
    ensures FormValid(UpdateFormData(s, SetQtd(q)).data)
  {
    var d := s.data;
    var r := ValidateForm(d);
    assert "valor" !in r && "validade" !in r && "campanha_id" !in r;
    FormValidIff(UpdateFormData(s, SetQtd(q)).data);
  }

  // ---------------------------------------------------------------------
  // adjustQuantity and typed numbers
  // ---------------------------------------------------------------------

  /** The minus button is enabled only above one. */
  predicate CanDecrement(qtd: int) { qtd > 1 }

  /** `adjustQuantity(increment)`: one more, or one less but never below one. */
  function AdjustQuantity(qtd: int, increment: bool): (r: int)
    ensures increment ==> r > qtd
    ensures !increment ==> r >= 1 && r <= (if qtd > 1 then qtd else 1)
  {
    if increment then qtd + 1 else if qtd - 1 > 1 then qtd - 1 else 1
  }

  /** The two buttons undo each other whenever the minus button is enabled. */
  lemma AdjustQuantityInverse(qtd: int)
    ensures AdjustQuantity(AdjustQuantity(qtd, true), false) == (if qtd >= 1 then qtd else 1)
    ensures CanDecrement(qtd) ==> AdjustQuantity(AdjustQuantity(qtd, false), true) == qtd
  {
  }

  /** A step changes the quantity by exactly one unless the floor of one is hit. */
  lemma AdjustQuantityStep(qtd: int, increment: bool)
    ensures AdjustQuantity(qtd, increment) == qtd + 1 || AdjustQuantity(qtd, increment) == qtd - 1
      || AdjustQuantity(qtd, increment) == 1
    ensures !increment && qtd > 1 ==> AdjustQuantity(qtd, increment) == qtd - 1
  {
  }

  /** The quantity and validity boxes: `Math.max(0, parseInt(text) || 0)`. */
  function TypedCount(text: string): (r: nat)
    ensures AllDigits(text) && |text| > 0 ==> r == ParseNat(text)
    ensures ParseIntJs(text).None? ==> r == 0
    ensures ParseIntJs(text).Some? && ParseIntJs(text).value >= 0 ==> r == ParseIntJs(text).value
  {
    match ParseIntJs(text)
    case None => 0
    case Some(v) => if v > 0 then v else 0
  }

  /** What the box shows, `String(qtd)`, reads back as the same count. */
  lemma TypedCountShown(n: nat)
    ensures TypedCount(NatToString(n)) == n
  {
    ParseNatToString(n);
  }

  /** A typed negative number is clamped to zero. */
  lemma TypedNegativeIsZero(i: int)
    requires i < 0
    ensures TypedCount(IntToString(i)) == 0
  {
    ParseIntJsIntToString(i);
  }

  // ---------------------------------------------------------------------
  // Rules: edit, delete, add
  // ---------------------------------------------------------------------

  /** Editing a rule's text: that key takes the text, all other rules stay. */
  function EditRule(regras: map<string, string>, key: string, text: string): (r: map<string, string>)
    requires key in regras
    ensures r.Keys == regras.Keys && r[key] == text
    ensures forall k :: k in regras && k != key ==> r[k] == regras[k]
  {
    regras[key := text]
  }

  /** Deleting a rule: that key goes, all other rules stay. */
  function DeleteRule(regras: map<string, string>, key: string): (r: map<string, string>)
    ensures r.Keys == regras.Keys - {key}
    ensures forall k :: k in r ==> r[k] == regras[k]
  {
    regras - {key}
  }

  /**
    "+ Adicionar Regra": writes an empty rule under the key `String(count + 1)`,
    which overwrites an existing rule of that key.
   */
  function AddRule(regras: map<string, string>): (r: map<string, string>)
    ensures NatToString(|regras| + 1) in r && r[NatToString(|regras| + 1)] == ""
    ensures r.Keys == regras.Keys + {NatToString(|regras| + 1)}
    ensures forall k :: k in regras && k != NatToString(|regras| + 1) ==> r[k] == regras[k]
    ensures |r| == |regras| + 1 <==> NatToString(|regras| + 1) !in regras
  {
    regras[NatToString(|regras| + 1) := ""]
  }

  /** On a form whose keys are 1..n, adding gives one more rule. */
  lemma AddRuleToNumberedRules(regras: map<string, string>)
    requires forall k :: k in regras ==> exists i :: 1 <= i <= |regras| && k == NatToString(i)
    ensures |AddRule(regras)| == |regras| + 1
  {
    var k := NatToString(|regras| + 1);
    if k in regras {
      var i :| 1 <= i <= |regras| && k == NatToString(i);
      ParseNatToString(i);
      ParseNatToString(|regras| + 1);
      assert false;
    }
  }

  /**
    After deleting rule "1" of the rules "1" and "2", adding a rule writes
    key "2" again: the text of rule "2" is lost and the count stays at one.
   */
  lemma AddRuleAfterDeleteOverwrites()
    ensures var m := DeleteRule(map["1" := "a", "2" := "b"], "1");
      AddRule(m) == map["2" := ""] && |AddRule(m)| == |m|
  {
    var m := DeleteRule(map["1" := "a", "2" := "b"], "1");
    assert m == map["2" := "b"];
    NatToStringSmall(2);
    assert NatToString(|m| + 1) == "2";
  }

  // ---------------------------------------------------------------------
  // Discount kind and load
  // ---------------------------------------------------------------------

  /** On load the stored kind is kept only when it is exactly "%"; anything else reads as reais. */
  function NormalizeTipo(t: string): (r: Tipo)
    ensures r == Percent <==> t == "%"
  {
    if t == "%" then Percent else Reais
  }

  /** Normalising a form kind's own text gives the kind back, and only the two texts survive unchanged. */
  lemma NormalizeTipoRoundTrip(k: Tipo, t: string)
    ensures NormalizeTipo(TipoText(k)) == k
    ensures TipoText(NormalizeTipo(t)) == t <==> t == "R$" || t == "%"
  {
  }

  /** JavaScript `x || d` for a number: a zero falls back to `d`. */
  function OrDefault(x: int, d: int): (r: int)
    ensures x != 0 ==> r == x
    ensures x == 0 ==> r == d
  {
    if x != 0 then x else d
  }

  /**
    `loadCupom` as written: zero-valued numbers fall back to their defaults,
    including `status || ATIVO`, so a stored status of 0 (inactive) loads
    as active.
   */
  function LoadForm(c: Cupom): (r: CupomFormData)
    ensures r.status == (if c.status == CupomInativo then CupomAtivo else c.status)
    ensures r.validade == (if c.validade == 0 then 1 else c.validade)
    ensures r.tipo == NormalizeTipo(c.tipo) && r.codigo == c.codigo && r.regras == c.regras
    ensures r.valor == c.valor && r.qtd == c.qtd && r.campanhaId == c.campanhaId
  {
    CupomFormData(
      valor := OrDefault(c.valor, 0),
      tipo := NormalizeTipo(c.tipo),
      qtd := OrDefault(c.qtd, 0),
      codigo := c.codigo,
      validade := OrDefault(c.validade, 1),
      regras := c.regras,
      campanhaId := OrDefault(c.campanhaId, 0),
      lojaId := None,
      status := OrDefault(c.status, CupomAtivo))
  }

  /** The active switch is on when the form's status is `ATIVO`. */
  predicate SwitchOn(d: CupomFormData) { d.status == CupomAtivo }

  /**
    An inactive template that the list labels "Inativo" opens in the form
    with its switch on, so saving it unchanged reactivates it.
   */
  lemma LoadFormReactivates(c: Cupom)
    requires c.status == CupomInativo && c.qtd > c.usados
    ensures CouponList.StatusText(c.status, c.qtd, c.usados) == "Inativo"
    ensures SwitchOn(LoadForm(c))
  {
  }

  /**
    `loadCupom` as evidently intended: the stored status is kept (the
    default applies only to a missing status, which a fetched template
    does not have).
   */
  function LoadFormIntended(c: Cupom): (r: CupomFormData)
    ensures r.status == c.status
    ensures SwitchOn(r) <==> CouponList.StatusText(c.status, c.qtd, c.usados) == "Ativo" || (c.status == CupomAtivo && c.qtd <= c.usados)
    ensures r.(status := 0) == LoadForm(c).(status := 0)
  {
    LoadForm(c).(status := c.status)
  }

  // ---------------------------------------------------------------------
  // generateCupomCode
  // ---------------------------------------------------------------------

  const CodeAlphabet: string := "ABCDEFGHIJKLMNOPQRSTUVWXYZ0123456789"
  const CodeLength: nat := 8

  /** The alphabet is the 26 upper-case letters in order, then the ten digits in order. */
  lemma CodeAlphabetLayout()
    ensures |CodeAlphabet| == 36
    ensures forall i :: 0 <= i < 26 ==> CodeAlphabet[i] as int == 'A' as int + i
    ensures forall i :: 26 <= i < 36 ==> CodeAlphabet[i] as int == '0' as int + (i - 26)
  {
  }

  predicate IsCodeChar(c: char) { IsAsciiUpper(c) || IsDigit(c) }

  /** Exactly the upper-case letters and digits are in the alphabet. */
  lemma CodeAlphabetExact(c: char)
    ensures IsCodeChar(c) <==> c in CodeAlphabet
  {
    CodeAlphabetLayout();
    if IsCodeChar(c) {
      assert CodeAlphabet[CodeIndex(c)] == c;
    }
  }

  /**
    `generateCupomCode` with the random draws given: each of the eight
    draws `floor(random() * 36)` picks one alphabet char.
   */
  function GenerateCode(draws: seq<int>): (r: string)
    requires |draws| == CodeLength
    requires forall i :: 0 <= i < |draws| ==> 0 <= draws[i] < |CodeAlphabet|
    ensures |r| == CodeLength
    ensures forall i :: 0 <= i < |r| ==> IsCodeChar(r[i])
  {
    AlphabetIsCodeChars();
    seq(CodeLength, i requires 0 <= i < CodeLength => CodeAlphabet[draws[i]])
  }

  lemma AlphabetIsCodeChars()
    ensures forall i :: 0 <= i < |CodeAlphabet| ==> IsCodeChar(CodeAlphabet[i])
  {
    CodeAlphabetLayout();
  }

  /** Draw index of an alphabet char. */
  function CodeIndex(c: char): (i: nat)
    requires IsCodeChar(c)
    ensures i < |CodeAlphabet| && CodeAlphabet[i] == c
  {
    CodeAlphabetLayout();
    if IsAsciiUpper(c) then c as int - 'A' as int else 26 + (c as int - '0' as int)
  }

  /** Every eight-char code over the alphabet can come out of the generator. */
  lemma GenerateCodeOnto(code: string)
    requires |code| == CodeLength && forall i :: 0 <= i < |code| ==> IsCodeChar(code[i])
    ensures exists draws: seq<int> ::
      |draws| == CodeLength && (forall i :: 0 <= i < |draws| ==> 0 <= draws[i] < |CodeAlphabet|)
      && GenerateCode(draws) == code
  {
    var draws := seq(CodeLength, i requires 0 <= i < CodeLength => CodeIndex(code[i]));
    assert GenerateCode(draws) == code;
  }
}
