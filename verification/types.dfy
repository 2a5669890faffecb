/**
  The record shapes and status codes of src/types/index.ts that the rules
  work on, plus the theme colours the status tables choose from. Monetary
  values are whole numbers here; the client's floating-point amounts are
  not modelled.
 */
module Types {
  import opened Lists

  // Template coupon status codes (`CupomStatus`).
  const CupomInativo: int := 0
  const CupomAtivo: int := 1
  const CupomEsgotado: int := 2
  const CupomExpirado: int := 3

  // Campaign status codes (`CampanhaStatus`).
  const CampanhaInativa: int := 0
  const CampanhaAtiva: int := 1
  const CampanhaSuspensa: int := 2
  const CampanhaFinalizada: int := 3

  /** The theme colours the status tables pick from (`COLORS.*`). */
  datatype Color = Success | Warning | Danger | Gray | GrayDark

  /** A coupon form's discount kind: the literal 'R$' or '%'. */
  datatype Tipo = Reais | Percent

  /** The literal a `Tipo` stands for. */
  function TipoText(t: Tipo): (r: string)
    ensures r == "%" <==> t == Percent
    ensures r == "R$" <==> t == Reais
  {
    match t
    case Reais => "R$"
    case Percent => "%"
  }

  /** A coupon template as the server sends it (`Cupom`). */
  datatype Cupom = Cupom(
    id: int,
    valor: int,
    status: int,
    tipo: string,
    qtd: int,
    usados: int,
    codigo: string,
    validade: int,
    regras: map<string, string>,
    campanhaId: int)

  /** The coupon form's state (`CupomFormData`). */
  datatype CupomFormData = CupomFormData(
    valor: int,
    tipo: Tipo,
    qtd: int,
    codigo: string,
    validade: int,
    regras: map<string, string>,
    campanhaId: int,
    lojaId: Option<int>,
    status: int)

  /** A store as embedded in a claimed coupon. */
  datatype LojaRef = LojaRef(nome: string, telefone1: string, localizacaoLink: Option<string>)

  /** A coupon a customer has claimed (`CupomUsuario`). */
  datatype CupomUsuario = CupomUsuario(
    id: int,
    valor: int,
    status: int,
    tipo: string,
    qtd: int,
    usados: int,
    codigo: string,
    validade: int,
    loja: LojaRef)

  /** The coupon summary embedded in a home-screen campaign. */
  datatype CupomResumo = CupomResumo(id: int, valor: int, status: int, tipo: string, qtd: int, usados: int)

  /** The store embedded in a home-screen campaign, with its category ids. */
  datatype LojaResumo = LojaResumo(id: int, nome: string, categorias: seq<int>)

  /** A campaign as the home and search screens list it (`CampanhasHome`). */
  datatype CampanhaHome = CampanhaHome(
    id: int,
    titulo: string,
    descricao: string,
    status: int,
    loja: LojaResumo,
    cupons: Option<seq<CupomResumo>>)
}
