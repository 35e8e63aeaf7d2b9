/** The stock badge of a product and the stock sufficiency check. */
module StatusEstoque {

  import opened Wrappers
  import opened Texto
  import opened Tipos
  import opened Estoque

  datatype Status = Verde | Amarelo | Vermelho | Cinza

  datatype StatusEstoqueInfo = StatusEstoqueInfo(status: Status, mensagem: string, cor_badge: string)

  /** The badge style of each status. */
  function CorBadge(s: Status): string {
    match s
    case Cinza => "bg-gray-100 text-gray-600 border-gray-200"
    case Vermelho => "bg-red-100 text-red-700 border-red-200"
    case Amarelo => "bg-yellow-100 text-yellow-700 border-yellow-200"
    case Verde => "bg-green-100 text-green-700 border-green-200"
  }

  /** A requested quantity is considered only when given and non-zero, and
      then it exceeds the stock. */
  predicate Insuficiente(produto: Produto, quantidadeSolicitada: Option<int>) {
    quantidadeSolicitada.Some? && quantidadeSolicitada.value != 0 &&
    quantidadeSolicitada.value > produto.Estoque()
  }

  /** Classifies a product: grey when inactive; red when a requested
      quantity exceeds the stock or the stock is zero; yellow at or below
      the minimum; green otherwise. */
  function ObterStatusEstoque(produto: Produto, quantidadeSolicitada: Option<int>): (r: StatusEstoqueInfo)
    ensures r.cor_badge == CorBadge(r.status)
    ensures r.status == Cinza <==> !produto.Ativo()
    ensures r.status == Vermelho <==>
      produto.Ativo() && (Insuficiente(produto, quantidadeSolicitada) || produto.Estoque() == 0)
    ensures r.status == Verde ==> produto.Estoque() > produto.EstoqueMin() && produto.Estoque() != 0
    ensures r.status == Amarelo ==> produto.Estoque() <= produto.EstoqueMin()
  {
    var estoque := produto.Estoque();
    var unidade := produto.Unidade();
    if !produto.Ativo() then
      StatusEstoqueInfo(Cinza, "Produto inativo", CorBadge(Cinza))
    else if Insuficiente(produto, quantidadeSolicitada) then
      StatusEstoqueInfo(
        Vermelho,
        "Estoque insuficiente: precisa de " + IntParaTexto(quantidadeSolicitada.value) + " " + unidade +
        ", disponível " + IntParaTexto(estoque),
        CorBadge(Vermelho))
    else if estoque == 0 then
      StatusEstoqueInfo(Vermelho, "Sem estoque", CorBadge(Vermelho))
    else if estoque <= produto.EstoqueMin() then
      StatusEstoqueInfo(
        Amarelo,
        "Estoque baixo: " + IntParaTexto(estoque) + " " + unidade + " (mín: " + IntParaTexto(produto.EstoqueMin()) + ")",
        CorBadge(Amarelo))
    else
      StatusEstoqueInfo(Verde, "Estoque OK: " + IntParaTexto(estoque) + " " + unidade, CorBadge(Verde))
  }

  /** Without a requested quantity the badge depends on the stock levels
      only: the four statuses partition the products. */
  lemma StatusSemQuantidade(produto: Produto)
    requires produto.Ativo()
    ensures var s := ObterStatusEstoque(produto, None).status;
      (s == Vermelho <==> produto.Estoque() == 0) &&
      (s == Amarelo <==> produto.Estoque() != 0 && produto.Estoque() <= produto.EstoqueMin()) &&
      (s == Verde <==> produto.Estoque() != 0 && produto.Estoque() > produto.EstoqueMin())
  {
  }

  /** Scenario: 37 boxes requested of a floor product holding 20. */
  lemma CenarioInsuficiente(p: ProdutoPiso)
    requires p.ativo && p.estoque_caixas == 20
    ensures ObterStatusEstoque(UmPiso(p), Some(37)) ==
      StatusEstoqueInfo(Vermelho, "Estoque insuficiente: precisa de 37 caixas, disponível 20", CorBadge(Vermelho))
  {
    TextoTrintaSeteVinte();
    assert Insuficiente(UmPiso(p), Some(37));
    assert "Estoque insuficiente: precisa de " + "37" + " " + "caixas" + ", disponível " + "20"
        == "Estoque insuficiente: precisa de 37 caixas, disponível 20";
  }

  /** True exactly when the product exists, is active and holds at least
      the requested quantity. */
  function ValidarEstoqueSuficiente(st: Estado, produtoId: Id, produtoTipo: TipoProduto, quantidadeSolicitada: int): (r: bool)
    ensures r <==>
      (ObterProduto(st, produtoTipo, produtoId).Some? &&
       ObterProduto(st, produtoTipo, produtoId).value.Ativo() &&
       ObterProduto(st, produtoTipo, produtoId).value.Estoque() >= quantidadeSolicitada)
    ensures r ==> ProdutoExiste(st, produtoTipo, produtoId)
  {
    match ObterProduto(st, produtoTipo, produtoId)
    case None => false
    case Some(produto) => produto.Ativo() && produto.Estoque() >= quantidadeSolicitada
  }

  /** For a positive request the sufficiency check and the badge agree: the
      check passes exactly when the badge is green or yellow. */
  lemma ValidacaoConcordaComStatus(st: Estado, produtoId: Id, produtoTipo: TipoProduto, q: int)
    requires q > 0
    requires ProdutoExiste(st, produtoTipo, produtoId)
    ensures var s := ObterStatusEstoque(ObterProduto(st, produtoTipo, produtoId).value, Some(q)).status;
      ValidarEstoqueSuficiente(st, produtoId, produtoTipo, q) <==> (s == Verde || s == Amarelo)
  {
  }
}
