/**
  The store form (src/pages/Loja/CreateEdit.tsx): the keystroke masks of
  `handleChange` (phone numbers and the progressive CNPJ mask), the status
  and category toggles, `validateForm` and the digit-only fields of the
  saved payload.
 */
module StoreForm {
  import opened Lists
  import opened Text
  import Phone
  import Email
  import opened Types

  // ---------------------------------------------------------------------
  // The CNPJ mask "NN.NNN.NNN/NNNN-NN"
  // ---------------------------------------------------------------------

  /** Position `i` of the template holds a separator. */
  predicate SepAt(i: int) { i == 2 || i == 6 || i == 10 || i == 15 }

  /** The separator at a separator position. */
  function SepChar(i: int): char
  {
    if i == 10 then '/' else if i == 15 then '-' else '.'
  }

  /** `s`, placed at offset `off` of the template, has a digit at every digit slot and the right separator at every separator slot. */
  predicate FitsAt(s: string, off: nat)
  {
    forall i :: 0 <= i < |s| ==> if SepAt(off + i) then s[i] == SepChar(off + i) else IsDigit(s[i])
  }

  /** `s` is a prefix-shaped instance of the template: at most 18 chars, each fitting its slot. */
  predicate FitsCnpjTemplate(s: string)
  {
    |s| <= 18 && FitsAt(s, 0)
  }

  /**
    What the anchored pattern of the step inserting at `pos` needs: the
    value follows the template before `pos`, and a digit sits at `pos`.
   */
  predicate PrefixMatches(v: string, pos: nat)
  {
    pos < |v| && IsDigit(v[pos]) && FitsAt(v[..pos], 0)
  }

  /** One `if (value.length > minLen) value = value.replace(/^…(\d)/, '…<sep>$n')` step. */
  function CnpjStep(v: string, minLen: nat, pos: nat, sep: char): string
  {
    if |v| > minLen && PrefixMatches(v, pos) then v[..pos] + [sep] + v[pos..] else v
  }

  /**
    The CNPJ branch of `handleChange`: strip to digits, insert '.', '.',
    '/' and '-' by four guarded replacements, then cut to 18 chars when
    more than 14 digits remain. The result is the template filled with the
    first (at most 14) digits typed, ending at the last digit.
   */
  function CnpjMask(value: string): (r: string)
    ensures FitsCnpjTemplate(r)
    ensures Digits(r) == Take(Digits(value), 14)
    ensures |r| == 0 || IsDigit(r[|r| - 1])
  {
    CnpjMaskLayout(Digits(value));
    CnpjSteps(Digits(value))
  }

  function CnpjSteps(d: string): string
  {
    var v1 := CnpjStep(d, 2, 2, '.');
    var v2 := CnpjStep(v1, 6, 6, '.');
    var v3 := CnpjStep(v2, 10, 10, '/');
    var v4 := CnpjStep(v3, 14, 15, '-');
    if |Digits(v4)| > 14 then Take(v4, 18) else v4
  }

  // The digits with one, two, three and four separators in place, each
  // built on the one before.
  function L1(d: string): string requires |d| >= 2 { d[..2] + "." + d[2..] }
  function L2(d: string): string requires |d| >= 5 { L1(d[..5]) + "." + d[5..] }
  function L3(d: string): string requires |d| >= 8 { L2(d[..8]) + "/" + d[8..] }
  function L4(d: string): string requires |d| >= 12 { L3(d[..12]) + "-" + d[12..] }

  /** The template filled with the digits of `e` (at most 14). */
  function Layout(e: string): string
  {
    if |e| <= 2 then e
    else if |e| <= 5 then L1(e)
    else if |e| <= 8 then L2(e)
    else if |e| <= 12 then L3(e)
    else L4(e)
  }

  /** A run of digits fits wherever it covers no separator slot. */
  lemma DigitsFit(s: string, off: nat)
    requires AllDigits(s)
    requires forall i :: off <= i < off + |s| ==> !SepAt(i)
    ensures FitsAt(s, off)
  {
  }

  /** Fitting splits over concatenation. */
  lemma FitsAppend(a: string, b: string, off: nat)
    requires FitsAt(a, off) && FitsAt(b, off + |a|)
    ensures FitsAt(a + b, off)
  {
    forall i | 0 <= i < |a + b|
      ensures if SepAt(off + i) then (a + b)[i] == SepChar(off + i) else IsDigit((a + b)[i])
    {
      if i >= |a| {
        assert (a + b)[i] == b[i - |a|];
      }
    }
  }

  /** Appending a separator and digits adds exactly those digits. */
  lemma ExtendDigits(p: string, sep: string, rest: string)
    requires |sep| == 1 && !IsDigit(sep[0]) && AllDigits(rest)
    ensures Digits(p + sep + rest) == Digits(p) + rest
  {
    DigitsOfNoDigits(sep);
    DigitsAppend(p, sep);
    DigitsAppend(p + sep, rest);
    DigitsOfDigitString(rest);
  }

  /** Appending the separator of slot |p| and then fitting digits keeps the fit. */
  lemma ExtendFits(p: string, sep: string, rest: string)
    requires FitsAt(p, 0) && |sep| == 1 && SepAt(|p|) && sep[0] == SepChar(|p|)
    requires FitsAt(rest, |p| + 1)
    ensures FitsAt(p + sep + rest, 0)
  {
    FitsAppend(p, sep, 0);
    FitsAppend(p + sep, rest, 0);
  }

  lemma L1Facts(d: string)
    requires AllDigits(d) && |d| >= 2
    ensures Digits(L1(d)) == d && |L1(d)| == |d| + 1
    ensures |d| <= 5 ==> FitsAt(L1(d), 0)
  {
    DigitsOfDigitString(d[..2]);
    ExtendDigits(d[..2], ".", d[2..]);
    assert d[..2] + d[2..] == d;
    if |d| <= 5 {
      DigitsFit(d[..2], 0);
      DigitsFit(d[2..], 3);
      ExtendFits(d[..2], ".", d[2..]);
    }
  }

  lemma L2Facts(d: string)
    requires AllDigits(d) && |d| >= 5
    ensures Digits(L2(d)) == d && |L2(d)| == |d| + 2
    ensures |d| <= 8 ==> FitsAt(L2(d), 0)
  {
    L1Facts(d[..5]);
    ExtendDigits(L1(d[..5]), ".", d[5..]);
    assert d[..5] + d[5..] == d;
    if |d| <= 8 {
      DigitsFit(d[5..], 7);
      ExtendFits(L1(d[..5]), ".", d[5..]);
    }
  }

  lemma L3Facts(d: string)
    requires AllDigits(d) && |d| >= 8
    ensures Digits(L3(d)) == d && |L3(d)| == |d| + 3
    ensures |d| <= 12 ==> FitsAt(L3(d), 0)
  {
    L2Facts(d[..8]);
    ExtendDigits(L2(d[..8]), "/", d[8..]);
    assert d[..8] + d[8..] == d;
    if |d| <= 12 {
      DigitsFit(d[8..], 11);
      ExtendFits(L2(d[..8]), "/", d[8..]);
    }
  }

  lemma L4Facts(d: string)
    requires AllDigits(d) && |d| >= 12
    ensures Digits(L4(d)) == d && |L4(d)| == |d| + 4
    ensures FitsAt(L4(d), 0)
  {
    L3Facts(d[..12]);
    ExtendDigits(L3(d[..12]), "-", d[12..]);
    assert d[..12] + d[12..] == d;
    DigitsFit(d[12..], 16);
    ExtendFits(L3(d[..12]), "-", d[12..]);
  }

  // Each layout of `d` is the layout of a longer-enough prefix followed by
  // the remaining digits.
  lemma L1Split(d: string, n: nat)
    requires 2 <= n <= |d|
    ensures L1(d) == L1(d[..n]) + d[n..]
  {
    assert d[..n][..2] == d[..2];
    assert d[..n][2..] + d[n..] == d[2..];
  }

  lemma L2Split(d: string, n: nat)
    requires 5 <= n <= |d|
    ensures L2(d) == L2(d[..n]) + d[n..]
  {
    assert d[..n][..5] == d[..5];
    assert d[..n][5..] + d[n..] == d[5..];
  }

  lemma L3Split(d: string, n: nat)
    requires 8 <= n <= |d|
    ensures L3(d) == L3(d[..n]) + d[n..]
  {
    assert d[..n][..8] == d[..8];
    assert d[..n][8..] + d[n..] == d[8..];
  }

  lemma L4Split(d: string, n: nat)
    requires 12 <= n <= |d|
    ensures L4(d) == L4(d[..n]) + d[n..]
  {
    assert d[..n][..12] == d[..12];
    assert d[..n][12..] + d[n..] == d[12..];
  }

  /** The filled template fits, keeps the digits and ends in a digit. */
  lemma LayoutFacts(e: string)
    requires AllDigits(e) && |e| <= 14
    ensures FitsCnpjTemplate(Layout(e)) && Digits(Layout(e)) == e
    ensures |Layout(e)| == 0 || IsDigit(Layout(e)[|Layout(e)| - 1])
  {
    if |e| <= 2 {
      DigitsFit(e, 0);
      DigitsOfDigitString(e);
    } else if |e| <= 5 {
      L1Facts(e);
    } else if |e| <= 8 {
      L2Facts(e);
    } else if |e| <= 12 {
      L3Facts(e);
    } else {
      L4Facts(e);
    }
  }

  /** The first step, on a digit string. */
  lemma Step1(d: string)
    requires AllDigits(d)
    ensures CnpjStep(d, 2, 2, '.') == if |d| > 2 then L1(d) else d
  {
    if |d| > 2 {
      DigitsFit(d[..2], 0);
    }
  }

  /** The second step, after the first. */
  lemma Step2(d: string)
    requires AllDigits(d) && |d| > 2
    ensures CnpjStep(L1(d), 6, 6, '.') == if |d| > 5 then L2(d) else L1(d)
  {
    if |d| > 5 {
      L1Split(d, 5);
      L1Facts(d[..5]);
      var v := L1(d);
      assert v[..6] == L1(d[..5]) && v[6..] == d[5..];
    }
  }

  /** The third step, after the second. */
  lemma Step3(d: string)
    requires AllDigits(d) && |d| > 5
    ensures CnpjStep(L2(d), 10, 10, '/') == if |d| > 8 then L3(d) else L2(d)
  {
    if |d| > 8 {
      L2Split(d, 8);
      L2Facts(d[..8]);
      var v := L2(d);
      assert v[..10] == L2(d[..8]) && v[10..] == d[8..];
    }
  }

  /** The fourth step, after the third; with exactly twelve digits its pattern finds no digit to move. */
  lemma Step4(d: string)
    requires AllDigits(d) && |d| > 8
    ensures CnpjStep(L3(d), 14, 15, '-') == if |d| > 12 then L4(d) else L3(d)
  {
    if |d| > 12 {
      L3Split(d, 12);
      L3Facts(d[..12]);
      var v := L3(d);
      assert v[..15] == L3(d[..12]) && v[15..] == d[12..];
    }
  }

  /** With more than 14 digits the cut to 18 chars leaves the template filled with the first 14. */
  lemma CutFourteen(d: string)
    requires AllDigits(d) && |d| > 14
    ensures Take(L4(d), 18) == L4(d[..14])
    ensures |Digits(L4(d))| > 14
  {
    L4Split(d, 14);
    L4Facts(d[..14]);
    L4Facts(d);
    assert L4(d)[..18] == L4(d[..14]);
  }

  /** The mask's steps land on the filled template of the first (at most 14) digits. */
  lemma CnpjMaskLayout(d: string)
    requires AllDigits(d)
    ensures CnpjSteps(d) == Layout(Take(d, 14))
    ensures FitsCnpjTemplate(CnpjSteps(d)) && Digits(CnpjSteps(d)) == Take(d, 14)
    ensures |CnpjSteps(d)| == 0 || IsDigit(CnpjSteps(d)[|CnpjSteps(d)| - 1])
  {
    StepsAreLayout(d);
    LayoutFacts(Take(d, 14));
  }

  /** The four replacements build the filled template, case by case on the digit count. */
  lemma StepsAreLayout(d: string)
    requires AllDigits(d)
    ensures CnpjSteps(d) == Layout(Take(d, 14))
  {
    Step1(d);
    if |d| > 2 { Step2(d); }
    if |d| > 5 { Step3(d); }
    if |d| > 8 { Step4(d); }
    if |d| <= 2 {
    } else if |d| <= 5 {
      L1Facts(d);
    } else if |d| <= 8 {
      L2Facts(d);
    } else if |d| <= 12 {
      L3Facts(d);
    } else if |d| <= 14 {
      L4Facts(d);
    } else {
      CutFourteen(d);
    }
  }

  /** Masking a masked value again changes nothing. */
  lemma CnpjMaskIdempotent(value: string)
    ensures CnpjMask(CnpjMask(value)) == CnpjMask(value)
  {
    var d := Digits(value);
    var r := CnpjMask(value);
    assert Digits(r) == Take(d, 14);
    CnpjMaskLayout(Digits(r));
    CnpjMaskLayout(d);
    assert Take(Take(d, 14), 14) == Take(d, 14);
  }

  // ---------------------------------------------------------------------
  // The form and its edits
  // ---------------------------------------------------------------------

  /**
    The store form. `telefone2` starts as the number 0, which the save
    turns into the text "0"; it is kept here as that text.
   */
  datatype LojaForm = LojaForm(
    nome: string,
    endereco: string,
    cidadeId: int,
    telefone1: string,
    telefone2: string,
    email: string,
    site: string,
    status: int,
    descricao: string,
    cnpj: string,
    localizacaoLink: string,
    categoriaIds: seq<int>)

  /** The empty form: status 1 (active), telefone2 0, no city and no category. */
  const InitialLoja: LojaForm :=
    LojaForm("", "", 0, "", "0", "", "", 1, "", "", "", [])

  /** The text inputs routed through `handleChange`. */
  datatype TextField = Nome | Endereco | Telefone1 | Telefone2 | Email | Site | Descricao | Cnpj | LocalizacaoLink

  /** The value of a text input. */
  function FieldValue(f: LojaForm, field: TextField): string
  {
    match field
    case Nome => f.nome
    case Endereco => f.endereco
    case Telefone1 => f.telefone1
    case Telefone2 => f.telefone2
    case Email => f.email
    case Site => f.site
    case Descricao => f.descricao
    case Cnpj => f.cnpj
    case LocalizacaoLink => f.localizacaoLink
  }

  /** `{ ...formData, [field]: value }`. */
  function SetField(f: LojaForm, field: TextField, value: string): (r: LojaForm)
    ensures FieldValue(r, field) == value
    ensures forall g :: g != field ==> FieldValue(r, g) == FieldValue(f, g)
    ensures r.cidadeId == f.cidadeId && r.status == f.status && r.categoriaIds == f.categoriaIds
  {
    match field
    case Nome => f.(nome := value)
    case Endereco => f.(endereco := value)
    case Telefone1 => f.(telefone1 := value)
    case Telefone2 => f.(telefone2 := value)
    case Email => f.(email := value)
    case Site => f.(site := value)
    case Descricao => f.(descricao := value)
    case Cnpj => f.(cnpj := value)
    case LocalizacaoLink => f.(localizacaoLink := value)
  }

  /** The mask `handleChange` applies to a field: phones and the CNPJ are masked, the rest stored as typed. */
  function MaskFor(field: TextField, value: string): (r: string)
    ensures (field == Telefone1 || field == Telefone2) ==> |r| <= 15 && Digits(r) == Take(Digits(value), 11)
    ensures field == Cnpj ==> FitsCnpjTemplate(r) && Digits(r) == Take(Digits(value), 14)
    ensures field !in {Telefone1, Telefone2, Cnpj} ==> r == value
  {
    if field == Telefone1 || field == Telefone2 then Phone.ScreenPhoneMask(value)
    else if field == Cnpj then CnpjMask(value)
    else value
  }

  /** `handleChange(field, value)`: the masked value goes into that field only. */
  function HandleChange(f: LojaForm, field: TextField, value: string): (r: LojaForm)
    ensures FieldValue(r, field) == MaskFor(field, value)
    ensures forall g :: g != field ==> FieldValue(r, g) == FieldValue(f, g)
    ensures r.cidadeId == f.cidadeId && r.status == f.status && r.categoriaIds == f.categoriaIds
  {
    SetField(f, field, MaskFor(field, value))
  }

  /** Re-masking a stored value changes nothing: the masks are idempotent. */
  lemma MaskForIdempotent(field: TextField, value: string)
    ensures MaskFor(field, MaskFor(field, value)) == MaskFor(field, value)
  {
    if field == Telefone1 || field == Telefone2 {
      Phone.ScreenPhoneMaskIdempotent(value);
    } else if field == Cnpj {
      CnpjMaskIdempotent(value);
    }
  }

  /** Feeding a field's stored value back through `handleChange` leaves the form as it is. */
  lemma HandleChangeStable(f: LojaForm, field: TextField, value: string)
    ensures var g := HandleChange(f, field, value);
      HandleChange(g, field, FieldValue(g, field)) == g
  {
    MaskForIdempotent(field, value);
  }

  /** `toggleStatus`: 1 becomes 0, anything else becomes 1. */
  function ToggleStatus(status: int): (r: int)
    ensures r == 0 <==> status == 1
    ensures r == 1 <==> status != 1
  {
    if status == 1 then 0 else 1
  }

  /** On the two codes the form uses, toggling twice is the identity; any other code settles at 0. */
  lemma ToggleStatusTwice(status: int)
    ensures status == 0 || status == 1 ==> ToggleStatus(ToggleStatus(status)) == status
    ensures status != 0 && status != 1 ==> ToggleStatus(ToggleStatus(status)) == 0
  {
  }

  /** The form's badge: "ATIVO" in the success colour for 1, "INATIVO" in gray otherwise. */
  function FormStatusText(status: int): (r: string)
    ensures r == "ATIVO" <==> status == 1
    ensures r == "INATIVO" <==> status != 1
  {
    if status == 1 then "ATIVO" else "INATIVO"
  }

  function FormStatusColor(status: int): (r: Color)
    ensures r == Success <==> status == 1
    ensures r == Gray <==> status != 1
  {
    if status == 1 then Success else Gray
  }

  /** The switch flips the badge text between the two labels. */
  lemma ToggleFlipsBadge(status: int)
    ensures FormStatusText(ToggleStatus(status)) == "ATIVO" <==> FormStatusText(status) == "INATIVO"
    ensures FormStatusColor(ToggleStatus(status)) == Success <==> FormStatusColor(status) == Gray
  {
  }

  function NotId(c: int): int -> bool { x => x != c }

  /** `toggleCategory(id)`: a selected id is removed everywhere, an absent one appended. */
  function ToggleCategory(ids: seq<int>, c: int): (r: seq<int>)
    ensures c in r <==> c !in ids
    ensures forall x :: x != c ==> (x in r <==> x in ids)
    ensures c in ids ==> SubSeq(r, ids)
    ensures c !in ids ==> |r| == |ids| + 1 && r[..|ids|] == ids && r[|ids|] == c
  {
    if c in ids then Filter(ids, NotId(c)) else ids + [c]
  }

  /** Toggling twice restores membership of every id, and restores the list itself when the id was absent. */
  lemma ToggleCategoryTwice(ids: seq<int>, c: int)
    ensures forall x :: x in ToggleCategory(ToggleCategory(ids, c), c) <==> x in ids
    ensures c !in ids ==> ToggleCategory(ToggleCategory(ids, c), c) == ids
  {
    if c !in ids {
      FilterAppend(ids, [c], NotId(c));
      FilterKeepsAll(ids, NotId(c));
      assert Filter([c], NotId(c)) == [];
    }
  }

  // ---------------------------------------------------------------------
  // Validation and save
  // ---------------------------------------------------------------------

  /** The fields that can carry an error. */
  datatype LojaErrorField = ENome | EEndereco | ECidade | ETelefone1 | EEmail | ECnpj | ECategorias

  const NomeRequired: string := "Nome é obrigatório"
  const EnderecoRequired: string := "Endereço é obrigatório"
  const CidadeRequired: string := "Cidade é obrigatória"
  const TelefoneRequired: string := "Pelo menos um telefone é obrigatório"
  const EmailInvalid: string := "Email inválido"
  const CnpjInvalid: string := "CNPJ inválido"
  const CategoriaRequired: string := "Selecione ao menos uma categoria"

  /** The message shown under each field. */
  function LojaMessage(k: LojaErrorField): string
  {
    match k
    case ENome => NomeRequired
    case EEndereco => EnderecoRequired
    case ECidade => CidadeRequired
    case ETelefone1 => TelefoneRequired
    case EEmail => EmailInvalid
    case ECnpj => CnpjInvalid
    case ECategorias => CategoriaRequired
  }

  /** The outcome of each check of `validateForm` (true = failed). */
  datatype LojaChecks = LojaChecks(
    noNome: bool, noEndereco: bool, noCidade: bool, noTelefone: bool,
    badEmail: bool, badCnpj: bool, noCategoria: bool)

  /** The check behind each field's error. */
  predicate Fails(c: LojaChecks, k: LojaErrorField)
  {
    match k
    case ENome => c.noNome
    case EEndereco => c.noEndereco
    case ECidade => c.noCidade
    case ETelefone1 => c.noTelefone
    case EEmail => c.badEmail
    case ECnpj => c.badCnpj
    case ECategorias => c.noCategoria
  }

  const AllLojaErrorFields: set<LojaErrorField> := {ENome, EEndereco, ECidade, ETelefone1, EEmail, ECnpj, ECategorias}

  lemma AllLojaErrorFieldsListed()
    ensures forall k: LojaErrorField :: k in AllLojaErrorFields
  {
    forall k: LojaErrorField
      ensures k in AllLojaErrorFields
    {
      match k
      case ENome =>
      case EEndereco =>
      case ECidade =>
      case ETelefone1 =>
      case EEmail =>
      case ECnpj =>
      case ECategorias =>
    }
  }

  /** One message for each failing check, keyed by field. */
  function LojaErrorsFor(c: LojaChecks): (r: map<LojaErrorField, string>)
    ensures forall k :: k in r <==> Fails(c, k)
    ensures forall k :: k in r ==> r[k] == LojaMessage(k)
  {
    AllLojaErrorFieldsListed();
    map k | k in AllLojaErrorFields && Fails(c, k) :: LojaMessage(k)
  }

  /** The checks of `validateForm`, in its order. */
  function LojaCheckResults(f: LojaForm, isValidCnpj: string -> bool): (c: LojaChecks)
    ensures c.noNome == IsBlank(f.nome) && c.noEndereco == IsBlank(f.endereco)
    ensures c.noCidade == (f.cidadeId == 0) && c.noTelefone == IsBlank(f.telefone1)
    ensures c.badEmail == (f.email != "" && !Email.MatchesPattern(f.email))
    ensures c.badCnpj == (f.cnpj != "" && !isValidCnpj(f.cnpj))
    ensures c.noCategoria == (|f.categoriaIds| == 0)
  {
    LojaChecks(IsBlank(f.nome), IsBlank(f.endereco), f.cidadeId == 0, IsBlank(f.telefone1),
               f.email != "" && !Email.ValidarEmail(f.email), f.cnpj != "" && !isValidCnpj(f.cnpj),
               |f.categoriaIds| == 0)
  }

  /**
    `validateForm`. The CNPJ check digits are computed by a helper that is
    not part of this model, so it is the parameter `isValidCnpj`. Email and
    CNPJ are checked only when filled in; `telefone2` is never checked.
   */
  function ValidateLoja(f: LojaForm, isValidCnpj: string -> bool): (r: map<LojaErrorField, string>)
    ensures forall k :: k in r <==> Fails(LojaCheckResults(f, isValidCnpj), k)
    ensures forall k :: k in r ==> r[k] == LojaMessage(k)
  {
    LojaErrorsFor(LojaCheckResults(f, isValidCnpj))
  }

  predicate LojaValid(f: LojaForm, isValidCnpj: string -> bool)
  {
    ValidateLoja(f, isValidCnpj) == map[]
  }

  /** No check fails. */
  predicate AllPass(c: LojaChecks)
  {
    !c.noNome && !c.noEndereco && !c.noCidade && !c.noTelefone && !c.badEmail && !c.badCnpj && !c.noCategoria
  }

  /** The error map is empty exactly when every check passes. */
  lemma NoErrorsIffAllPass(c: LojaChecks)
    ensures LojaErrorsFor(c) == map[] <==> AllPass(c)
  {
    var r := LojaErrorsFor(c);
    if AllPass(c) {
      assert r.Keys == {};
    } else {
      var k := if c.noNome then ENome else if c.noEndereco then EEndereco else if c.noCidade then ECidade
        else if c.noTelefone then ETelefone1 else if c.badEmail then EEmail else if c.badCnpj then ECnpj
        else ECategorias;
      assert k in r;
    }
  }

  /** The form passes exactly when every required field is filled and the optional ones, when filled, are well formed. */
  lemma LojaValidIff(f: LojaForm, isValidCnpj: string -> bool)
    ensures LojaValid(f, isValidCnpj) <==>
      && !IsBlank(f.nome) && !IsBlank(f.endereco) && f.cidadeId != 0 && !IsBlank(f.telefone1)
      && (f.email == "" || Email.MatchesPattern(f.email))
      && (f.cnpj == "" || isValidCnpj(f.cnpj))
      && |f.categoriaIds| > 0
  {
    NoErrorsIffAllPass(LojaCheckResults(f, isValidCnpj));
  }

  /** A form left blank fails on the five required fields and on nothing else. */
  lemma BlankLojaErrors(f: LojaForm, isValidCnpj: string -> bool)
    requires IsBlank(f.nome) && IsBlank(f.endereco) && IsBlank(f.telefone1)
    requires f.cidadeId == 0 && f.email == "" && f.cnpj == "" && f.categoriaIds == []
    ensures forall k :: k in ValidateLoja(f, isValidCnpj) <==> k != EEmail && k != ECnpj
  {
  }

  /** `{ ...formData, cnpj, telefone1, telefone2 }` with those three reduced to digits. */
  function SavePayload(f: LojaForm): (r: LojaForm)
    ensures AllDigits(r.cnpj) && AllDigits(r.telefone1) && AllDigits(r.telefone2)
    ensures SubSeq(r.cnpj, f.cnpj) && SubSeq(r.telefone1, f.telefone1) && SubSeq(r.telefone2, f.telefone2)
    ensures r.(cnpj := f.cnpj, telefone1 := f.telefone1, telefone2 := f.telefone2) == f
  {
    f.(cnpj := Digits(f.cnpj), telefone1 := Digits(f.telefone1), telefone2 := Digits(f.telefone2))
  }

  /** A digit-only field keeps every digit of the field. */
  lemma SavePayloadKeepsDigits(f: LojaForm)
    ensures Digits(SavePayload(f).cnpj) == Digits(f.cnpj)
    ensures Digits(SavePayload(f).telefone1) == Digits(f.telefone1)
    ensures Digits(SavePayload(f).telefone2) == Digits(f.telefone2)
    ensures SavePayload(SavePayload(f)) == SavePayload(f)
  {
    DigitsIdempotent(f.cnpj);
    DigitsIdempotent(f.telefone1);
    DigitsIdempotent(f.telefone2);
  }

  /** A phone and a CNPJ typed through the masks are sent as the first 11 and 14 digits typed. */
  lemma MaskedFieldsSaved(f: LojaForm, phone: string, cnpj: string)
    ensures SavePayload(HandleChange(f, Telefone1, phone)).telefone1 == Take(Digits(phone), 11)
    ensures SavePayload(HandleChange(f, Cnpj, cnpj)).cnpj == Take(Digits(cnpj), 14)
  {
  }

  /** An untouched second phone goes out as "0". */
  lemma UntouchedSecondPhone(z: string)
    requires z == "0"
    ensures SavePayload(InitialLoja.(telefone2 := z)).telefone2 == "0"
  {
    DigitsOfDigitString(z);
  }

  /**
    How the save ends: the store request (and, with a new logo, the upload
    after it) succeeded, failed with a response carrying an optional
    message, or failed without a response (a network error).
   */
  datatype SaveAnswer = Saved | SaveRejected(message: Option<string>) | SaveNoResponse

  /** What `handleSave` did: the payload sent, the alert shown ("" for none) and whether the screen went back. */
  datatype SaveOut = SaveOut(sent: Option<LojaForm>, alert: string, goBack: bool)

  const FixErrors: string := "Por favor, corrija os erros no formulário"
  const StoreUpdated: string := "Loja atualizada com sucesso!"
  const StoreCreated: string := "Loja criada com sucesso!"
  const StoreSaveFailed: string := "Falha ao salvar loja."

  /**
    `handleSave` as written, `editing` when the screen has a store id.
    Nothing is sent unless the form validates; then the digit-only payload
    is sent, and a success alerts and goes back. The catch block reads
    `error.response.data?.message`, which throws when there is no response:
    such a failure shows no alert.
   */
  function HandleSave(f: LojaForm, isValidCnpj: string -> bool, editing: bool, answer: SaveAnswer): (r: SaveOut)
    ensures r.sent.Some? <==> LojaValid(f, isValidCnpj)
    ensures r.sent.Some? ==> r.sent.value == SavePayload(f)
    ensures r.sent.None? ==> r == SaveOut(None, FixErrors, false)
    ensures r.goBack <==> r.sent.Some? && answer.Saved?
    ensures r.sent.Some? && answer.Saved? ==> r.alert == (if editing then StoreUpdated else StoreCreated)
    ensures r.sent.Some? && answer.SaveRejected? ==> r.alert != ""
    ensures r.sent.Some? && answer.SaveRejected? && answer.message.Some? && answer.message.value != "" ==> r.alert == answer.message.value
    ensures r.sent.Some? && answer.SaveRejected? && (answer.message.None? || answer.message.value == "") ==> r.alert == StoreSaveFailed
    ensures r.sent.Some? && answer.SaveNoResponse? ==> r.alert == ""
  {
    if !LojaValid(f, isValidCnpj) then SaveOut(None, FixErrors, false)
    else
      var sent := Some(SavePayload(f));
      match answer
      case Saved => SaveOut(sent, if editing then StoreUpdated else StoreCreated, true)
      case SaveRejected(m) => SaveOut(sent, OrText(m, StoreSaveFailed), false)
      case SaveNoResponse => SaveOut(sent, "", false)
  }

  /** The handler as evidently intended: a failure without a response shows the fixed text. */
  function HandleSaveIntended(f: LojaForm, isValidCnpj: string -> bool, editing: bool, answer: SaveAnswer): (r: SaveOut)
    ensures r.sent.Some? && !answer.Saved? ==> r.alert != "" && !r.goBack
    ensures !answer.SaveNoResponse? ==> r == HandleSave(f, isValidCnpj, editing, answer)
  {
    var out := HandleSave(f, isValidCnpj, editing, answer);
    if out.sent.Some? && answer.SaveNoResponse? then out.(alert := StoreSaveFailed) else out
  }

  /** The two differ exactly when a valid form's request fails without a response. */
  lemma SilentSaveFailure(f: LojaForm, isValidCnpj: string -> bool, editing: bool, answer: SaveAnswer)
    ensures HandleSave(f, isValidCnpj, editing, answer) != HandleSaveIntended(f, isValidCnpj, editing, answer) <==>
      LojaValid(f, isValidCnpj) && answer.SaveNoResponse?
  {
  }

  /**
    `loadLoja` fills the status with `loja.status || 1`: a stored 0
    (inactive) is loaded as 1, so saving an inactive store unchanged
    reactivates it.
   */
  function LoadStatus(stored: int): (r: int)
    ensures stored != 0 ==> r == stored
    ensures stored == 0 ==> r == 1
  {
    if stored == 0 then 1 else stored
  }

  /** An inactive store comes back as active from the edit form. */
  lemma LoadStatusReactivates(f: LojaForm, isValidCnpj: string -> bool)
    requires LojaValid(f.(status := LoadStatus(0)), isValidCnpj)
    ensures HandleSave(f.(status := LoadStatus(0)), isValidCnpj, true, Saved).sent == Some(SavePayload(f.(status := 1)))
    ensures FormStatusText(LoadStatus(0)) == "ATIVO"
  {
  }

  /** The load that keeps every stored status, 0 included. */
  function LoadStatusIntended(stored: Option<int>): (r: int)
    ensures stored.Some? ==> r == stored.value
    ensures stored.None? ==> r == 1
  {
    match stored
    case Some(s) => s
    case None => 1
  }

  /** With the intended load, an inactive store is shown and saved as inactive. */
  lemma LoadStatusIntendedKeepsInactive(f: LojaForm, isValidCnpj: string -> bool)
    requires LojaValid(f, isValidCnpj)
    ensures HandleSave(f.(status := LoadStatusIntended(Some(0))), isValidCnpj, true, Saved).sent.value.status == 0
    ensures FormStatusText(LoadStatusIntended(Some(0))) == "INATIVO"
  {
  }
}
