/** The records of the tile shop: floor products, accessories, stock
    movements, and the union of the two product kinds used by the stock
    reports. Identifiers are natural numbers handed out by a counter and
    instants are milliseconds on a clock the caller supplies. */
module Tipos {

  import opened Wrappers

  type Id = nat

  /** Milliseconds since an arbitrary epoch, supplied by the caller. */
  type Instante = int

  datatype Acabamento = Fosco | Polido

  /** The text the catalog and the CSV format use for a finish. */
  function AcabamentoTexto(a: Acabamento): string {
    match a
    case Fosco => "fosco"
    case Polido => "polido"
  }

  /** A floor-tile line. `m2_por_caixa` is derived from the geometry when the
      product is created or its geometry is updated. Stock is in boxes. */
  datatype ProdutoPiso = ProdutoPiso(
    id: Id,
    sku: string,
    nome: string,
    dimensao_cm_ladoA: real,
    dimensao_cm_ladoB: real,
    pecas_por_caixa: int,
    m2_por_caixa: real,
    acabamento: Acabamento,
    colecao_cor: string,
    preco_m2: real,
    estoque_caixas: int,
    estoque_min_caixas: int,
    ativo: bool,
    atualizado_em: Instante)

  datatype TipoAcessorio = Argamassa | Rejunte | Cunha | Espacador | Rodape

  /** An installation accessory; stock is in units. */
  datatype Acessorio = Acessorio(
    id: Id,
    sku: string,
    nome: string,
    tipo: TipoAcessorio,
    preco_unit: real,
    estoque_unidades: int,
    estoque_min_unidades: int,
    ativo: bool,
    atualizado_em: Instante,
    rendimento_un_medida: Option<string>)

  datatype TipoProduto = ProdPiso | ProdAcessorio

  datatype TipoMovimentacao = Entrada | Saida | Ajuste

  /** One entry of the stock ledger. The acting user is kept by id. */
  datatype MovimentacaoEstoque = MovimentacaoEstoque(
    id: Id,
    produto_tipo: TipoProduto,
    produto_id: Id,
    tipo: TipoMovimentacao,
    quantidade: int,
    motivo: string,
    usuario_id: string,
    criado_em: Instante)

  /** Either kind of product, as the stock-status and replenishment reports
      take them. */
  datatype Produto = UmPiso(piso: ProdutoPiso) | UmAcessorio(acessorio: Acessorio) {

    function Ativo(): bool {
      match this
      case UmPiso(p) => p.ativo
      case UmAcessorio(a) => a.ativo
    }

    /** Boxes for a floor product, units for an accessory. */
    function Estoque(): int {
      match this
      case UmPiso(p) => p.estoque_caixas
      case UmAcessorio(a) => a.estoque_unidades
    }

    function EstoqueMin(): int {
      match this
      case UmPiso(p) => p.estoque_min_caixas
      case UmAcessorio(a) => a.estoque_min_unidades
    }

    /** The unit word used in stock messages. */
    function Unidade(): string {
      match this
      case UmPiso(_) => "caixas"
      case UmAcessorio(_) => "unidades"
    }

    function Tipo(): TipoProduto {
      match this
      case UmPiso(_) => ProdPiso
      case UmAcessorio(_) => ProdAcessorio
    }
  }

  /** An accessory chosen for a quote, with its quantity and line total. */
  datatype AcessorioSelecionado = AcessorioSelecionado(acessorio: Acessorio, quantidade: int, subtotal: real)

  datatype Cliente = Cliente(id: string, nome: string, telefone: string, cidade: string, cep: string)
}
