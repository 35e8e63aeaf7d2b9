/** The quote being assembled on the quotes screen: its items, the chosen
    accessories, freight and discount, the totals shown to the seller, and
    the operations that add, remove and suggest lines. */
module ListaOrcamentos {

  import opened Wrappers
  import opened Seqs
  import opened Tipos
  import opened Orcamento

  /** A floor product on the quote with the area the client asked for and
      the loss percentage chosen for it. */
  datatype ItemOrcamento = ItemOrcamento(produto: ProdutoPiso, area_cliente_m2: real, fator_perda_percent: real)

  /** The quote on screen: the selected client (none yet at first), the
      items, the accessory lines, freight and discount. */
  datatype Rascunho = Rascunho(
    cliente: Option<Cliente>,
    itens: seq<ItemOrcamento>,
    acessorios: seq<AcessorioSelecionado>,
    frete: real,
    desconto: real)

  datatype Totais = Totais(area_total_m2: real, valor_produtos: real, valor_acessorios: real, valor_final: real)

  function AreaItem(item: ItemOrcamento): real {
    AreaComPerda(item.area_cliente_m2, Some(item.fator_perda_percent))
  }

  function SubtotalItem(item: ItemOrcamento): real {
    CalcularSubtotalItem(item.produto, item.area_cliente_m2, Some(item.fator_perda_percent))
  }

  /** An item's value written out: its loss-inflated area at its price per m². */
  function ValorItem(item: ItemOrcamento): real {
    AreaItem(item) * item.produto.preco_m2
  }

  function SubtotalAcessorio(a: AcessorioSelecionado): real {
    a.subtotal
  }

  /** The totals: area and product value summed over the items, accessory
      value summed over the accessory lines, and the final value with freight
      added and the discount taken off. */
  function CalcularTotais(r: Rascunho): (t: Totais)
    ensures t.area_total_m2 == Sum(r.itens, AreaItem)
    ensures t.valor_produtos == Sum(r.itens, ValorItem)
    ensures t.valor_acessorios == Sum(r.acessorios, SubtotalAcessorio)
    ensures t.valor_final == t.valor_produtos + t.valor_acessorios + r.frete - r.desconto
  {
    SomasIguais(r.itens, SubtotalItem, ValorItem);
    var valorProdutos := Sum(r.itens, SubtotalItem);
    var valorAcessorios := Sum(r.acessorios, SubtotalAcessorio);
    Totais(Sum(r.itens, AreaItem), valorProdutos, valorAcessorios, valorProdutos + valorAcessorios + r.frete - r.desconto)
  }

  /** Sums of terms that agree element by element are equal. */
  lemma {:induction false} SomasIguais<T>(s: seq<T>, f: T -> real, g: T -> real)
    requires forall i :: 0 <= i < |s| ==> f(s[i]) == g(s[i])
    ensures Sum(s, f) == Sum(s, g)
  {
    if |s| > 0 {
      SomasIguais(s[..|s| - 1], f, g);
    }
  }

  predicate EstaAtivo(p: ProdutoPiso) {
    p.ativo
  }

  function ComId(produtoId: Id): ProdutoPiso -> bool {
    (p: ProdutoPiso) => p.id == produtoId
  }

  predicate AtivoComId(produtoId: Id, p: ProdutoPiso) {
    p.ativo && p.id == produtoId
  }

  /** The first active catalog product with the id, as the screen finds it
      among the active products. */
  function ProdutoAtivo(catalogo: seq<ProdutoPiso>, produtoId: Id): (r: Option<ProdutoPiso>)
    ensures r.None? <==> forall j :: 0 <= j < |catalogo| ==> !AtivoComId(produtoId, catalogo[j])
    ensures r.Some? ==>
      exists k :: 0 <= k < |catalogo| && r.value == catalogo[k] && AtivoComId(produtoId, catalogo[k]) &&
        forall j :: 0 <= j < k ==> !AtivoComId(produtoId, catalogo[j])
  {
    var ativos := Filter(catalogo, EstaAtivo);
    var pq := (p: ProdutoPiso) => AtivoComId(produtoId, p);
    FirstIndexFilter(catalogo, EstaAtivo, ComId(produtoId), pq);
    match FirstIndex(ativos, ComId(produtoId))
    case None => None
    case Some(k) => Some(ativos[k])
  }

  /** Adds a line for an active product (loss 10% when omitted) at the end;
      an id that names no active product changes nothing. */
  function AdicionarProduto(r: Rascunho, catalogo: seq<ProdutoPiso>, produtoId: Id, area: real, perda: Option<real>)
    : (s: Rascunho)
    ensures ProdutoAtivo(catalogo, produtoId).None? ==> s == r
    ensures ProdutoAtivo(catalogo, produtoId).Some? ==>
      s == r.(itens := r.itens + [ItemOrcamento(ProdutoAtivo(catalogo, produtoId).value, area, perda.GetOr(10.0))])
  {
    match ProdutoAtivo(catalogo, produtoId)
    case None => r
    case Some(p) => r.(itens := r.itens + [ItemOrcamento(p, area, perda.GetOr(PerdaPadrao))])
  }

  /** `s.filter((_, i) => i !== index)`: the sequence without position
      `index`, or unchanged when no position has that number. */
  function SemPosicao<T>(s: seq<T>, index: int): (r: seq<T>)
    ensures 0 <= index < |s| ==> r == s[..index] + s[index + 1..]
    ensures !(0 <= index < |s|) ==> r == s
  {
    if |s| == 0 then []
    else (if index == 0 then [] else [s[0]]) + SemPosicao(s[1..], index - 1)
  }

  /** Removes the line at `index`, keeping the order of the others. */
  function RemoverProduto(r: Rascunho, index: int): (s: Rascunho)
    ensures 0 <= index < |r.itens| ==>
      |s.itens| == |r.itens| - 1 &&
      forall j :: 0 <= j < |s.itens| ==> s.itens[j] == r.itens[if j < index then j else j + 1]
    ensures !(0 <= index < |r.itens|) ==> s == r
    ensures s.cliente == r.cliente && s.acessorios == r.acessorios && s.frete == r.frete && s.desconto == r.desconto
  {
    r.(itens := SemPosicao(r.itens, index))
  }

  /** The accessories the quotes screen offers: the active ones. */
  function AcessoriosAtivos(catalogoAcessorios: seq<Acessorio>): seq<Acessorio> {
    Filter(catalogoAcessorios, (a: Acessorio) => a.ativo)
  }

  /** A suggestion's quantity at its accessory's unit price. */
  function ValorSugestao(sg: Sugestao): real {
    (sg.quantidade_sugerida as real) * sg.acessorio.preco_unit
  }

  /** A suggestion as an accessory line: the suggested quantity at the unit price. */
  function Selecao(s: Sugestao): AcessorioSelecionado {
    AcessorioSelecionado(s.acessorio, s.quantidade_sugerida, (s.quantidade_sugerida as real) * s.acessorio.preco_unit)
  }

  /** Replaces the accessory lines with one line per suggestion for the
      active accessories and the quote's current total area. */
  function AplicarSugestaoAcessorios(r: Rascunho, catalogoAcessorios: seq<Acessorio>): (s: Rascunho)
    ensures var sugestoes := SugerirAcessorios(AcessoriosAtivos(catalogoAcessorios), CalcularTotais(r).area_total_m2);
      |s.acessorios| == |sugestoes| &&
      forall i :: 0 <= i < |sugestoes| ==>
        s.acessorios[i].acessorio == sugestoes[i].acessorio &&
        s.acessorios[i].quantidade == sugestoes[i].quantidade_sugerida &&
        s.acessorios[i].subtotal == (sugestoes[i].quantidade_sugerida as real) * sugestoes[i].acessorio.preco_unit
    ensures s.itens == r.itens && s.cliente == r.cliente && s.frete == r.frete && s.desconto == r.desconto
  {
    var ativos := AcessoriosAtivos(catalogoAcessorios);
    var sugestoes := SugerirAcessorios(ativos, CalcularTotais(r).area_total_m2);
    r.(acessorios := Map(sugestoes, Selecao))
  }

  const MensagemEnvioIncompleto: string := "Selecione um cliente e adicione pelo menos um produto"

  /** Sending needs a selected client and at least one item. */
  function ValidarEnvio(r: Rascunho): (res: Result<Cliente, string>)
    ensures res.Failure? <==> r.cliente.None? || |r.itens| == 0
    ensures res.Failure? ==> res.error == MensagemEnvioIncompleto
    ensures res.Success? ==> r.cliente == Some(res.value)
  {
    if r.cliente.None? || |r.itens| == 0 then Failure(MensagemEnvioIncompleto)
    else Success(r.cliente.value)
  }

  /** The send check follows the item list: with a client selected, adding
      an active product makes the quote sendable, and removing its only item
      makes it unsendable again. */
  lemma EnvioAcompanhaItens(r: Rascunho, catalogo: seq<ProdutoPiso>, produtoId: Id, area: real, perda: Option<real>)
    requires r.cliente.Some?
    ensures ProdutoAtivo(catalogo, produtoId).Some? ==>
      ValidarEnvio(AdicionarProduto(r, catalogo, produtoId, area, perda)) == Success(r.cliente.value)
    ensures |r.itens| == 1 ==> ValidarEnvio(RemoverProduto(r, 0)) == Failure(MensagemEnvioIncompleto)
  {
  }

  // ----- How the operations move the totals -----

  /** Adding a line raises the total area by its loss-inflated area and the
      product value by that area at the product's price; the accessory value
      is unchanged. */
  lemma TotaisAposAdicionar(r: Rascunho, catalogo: seq<ProdutoPiso>, produtoId: Id, area: real, perda: Option<real>)
    requires ProdutoAtivo(catalogo, produtoId).Some?
    ensures var p := ProdutoAtivo(catalogo, produtoId).value;
      var antes := CalcularTotais(r);
      var depois := CalcularTotais(AdicionarProduto(r, catalogo, produtoId, area, perda));
      depois.area_total_m2 == antes.area_total_m2 + AreaComPerda(area, perda) &&
      depois.valor_produtos == antes.valor_produtos + AreaComPerda(area, perda) * p.preco_m2 &&
      depois.valor_acessorios == antes.valor_acessorios
  {
    var p := ProdutoAtivo(catalogo, produtoId).value;
    var item := ItemOrcamento(p, area, perda.GetOr(10.0));
    var s := AdicionarProduto(r, catalogo, produtoId, area, perda);
    assert s.itens == r.itens + [item];
    assert AreaItem(item) == AreaComPerda(area, perda);
    SumConcat(r.itens, [item], AreaItem);
    SumConcat(r.itens, [item], ValorItem);
    SumSingle(item, AreaItem);
    SumSingle(item, ValorItem);
  }

  lemma SumSingle<T>(x: T, f: T -> real)
    ensures Sum([x], f) == f(x)
  {
    assert [x][..0] == [];
  }

  /** Removing line `index` takes exactly its area and value out of the
      totals; an index with no line changes nothing. */
  lemma TotaisAposRemover(r: Rascunho, index: int)
    ensures var antes := CalcularTotais(r);
      var depois := CalcularTotais(RemoverProduto(r, index));
      if 0 <= index < |r.itens| then
        depois.area_total_m2 == antes.area_total_m2 - AreaItem(r.itens[index]) &&
        depois.valor_produtos == antes.valor_produtos - ValorItem(r.itens[index]) &&
        depois.valor_final == antes.valor_final - ValorItem(r.itens[index])
      else depois == antes
  {
    if 0 <= index < |r.itens| {
      SumRemove(r.itens, index, AreaItem);
      SumRemove(r.itens, index, ValorItem);
    }
  }

  /** Removing the line just added restores the quote. */
  lemma RemoverDesfazAdicionar(r: Rascunho, catalogo: seq<ProdutoPiso>, produtoId: Id, area: real, perda: Option<real>)
    requires ProdutoAtivo(catalogo, produtoId).Some?
    ensures var s := AdicionarProduto(r, catalogo, produtoId, area, perda);
      RemoverProduto(s, |s.itens| - 1) == r
  {
    var s := AdicionarProduto(r, catalogo, produtoId, area, perda);
    assert s.itens[..|r.itens|] == r.itens;
  }

  /** Every accessory line the suggestion writes is an active catalog
      accessory with a positive quantity. */
  lemma SugestaoSoAtivos(r: Rascunho, catalogoAcessorios: seq<Acessorio>)
    ensures var s := AplicarSugestaoAcessorios(r, catalogoAcessorios);
      forall i :: 0 <= i < |s.acessorios| ==>
        s.acessorios[i].acessorio in catalogoAcessorios && s.acessorios[i].acessorio.ativo &&
        s.acessorios[i].quantidade > 0
  {
    var ativos := AcessoriosAtivos(catalogoAcessorios);
    var sugestoes := SugerirAcessorios(ativos, CalcularTotais(r).area_total_m2);
    forall i | 0 <= i < |sugestoes| ensures sugestoes[i].acessorio in catalogoAcessorios {
      assert Map(sugestoes, AcessorioDaSugestao)[i] == sugestoes[i].acessorio;
      assert sugestoes[i].acessorio in ativos;
    }
  }

  /** After the suggestion is applied, the accessory value is the sum of the
      suggested quantities at their unit prices. */
  lemma ValorAposSugestao(r: Rascunho, catalogoAcessorios: seq<Acessorio>)
    ensures var sugestoes := SugerirAcessorios(AcessoriosAtivos(catalogoAcessorios), CalcularTotais(r).area_total_m2);
      CalcularTotais(AplicarSugestaoAcessorios(r, catalogoAcessorios)).valor_acessorios ==
      Sum(sugestoes, ValorSugestao)
  {
    var sugestoes := SugerirAcessorios(AcessoriosAtivos(catalogoAcessorios), CalcularTotais(r).area_total_m2);
    SomaSelecoes(sugestoes);
  }

  lemma {:induction false} SomaSelecoes(sugestoes: seq<Sugestao>)
    ensures Sum(Map(sugestoes, Selecao), SubtotalAcessorio) ==
            Sum(sugestoes, ValorSugestao)
  {
    if |sugestoes| > 0 {
      var n := |sugestoes| - 1;
      SomaSelecoes(sugestoes[..n]);
      assert Map(sugestoes, Selecao)[..n] == Map(sugestoes[..n], Selecao);
    }
  }
}
