/** Quote arithmetic: loss-inflated area, the box count derived from it,
    the line subtotal, per-kind accessory suggestions and the read-only
    approval validator. */
module Orcamento {

  import opened Wrappers
  import opened Seqs
  import opened Numeros
  import opened Texto
  import opened Tipos

  /** The loss percentage used when the caller omits it. */
  const PerdaPadrao: real := 10.0

  /** Requested area inflated by the loss percentage (10 when omitted). */
  function AreaComPerda(areaCliente: real, fatorPerda: Option<real>): real {
    areaCliente * (1.0 + fatorPerda.GetOr(PerdaPadrao) / 100.0)
  }

  datatype CalculoCaixas = CalculoCaixas(area_com_perda: real, caixas_necessarias: int)

  /** Boxes needed to cover the loss-inflated area: the ceiling of the area
      over the box coverage. JavaScript divides by zero into Infinity or NaN,
      which this model does not represent, hence the requirement. */
  function CalcularCaixasNecessarias(produto: ProdutoPiso, areaCliente: real, fatorPerda: Option<real>): (r: CalculoCaixas)
    requires produto.m2_por_caixa != 0.0
    ensures r.area_com_perda == areaCliente * (1.0 + fatorPerda.GetOr(10.0) / 100.0)
    ensures produto.m2_por_caixa > 0.0 ==>
      (r.caixas_necessarias as real) * produto.m2_por_caixa >= r.area_com_perda &&
      ((r.caixas_necessarias - 1) as real) * produto.m2_por_caixa < r.area_com_perda
  {
    var area := AreaComPerda(areaCliente, fatorPerda);
    var c := Ceil(area / produto.m2_por_caixa);
    CaixasCobrem(area, produto.m2_por_caixa, c);
    CalculoCaixas(area, c)
  }

  lemma CaixasCobrem(area: real, m2: real, c: int)
    requires m2 != 0.0 && c == Ceil(area / m2)
    ensures m2 > 0.0 ==> (c as real) * m2 >= area && ((c - 1) as real) * m2 < area
  {
    if m2 > 0.0 {
      var q := area / m2;
      assert q * m2 == area;
      MulMonotona(q, c as real, m2);
      MulMonotonaEstrita((c - 1) as real, q, m2);
      assert ((c - 1) as real) * m2 < q * m2;
      assert ((c - 1) as real) * m2 < area;
    }
  }

  lemma MulMonotona(a: real, b: real, m: real)
    requires a <= b && m > 0.0
    ensures a * m <= b * m
  {
  }

  lemma MulMonotonaEstrita(a: real, b: real, m: real)
    requires a < b && m > 0.0
    ensures a * m < b * m
  {
  }

  /** The box count is the least number of boxes that covers the area: it is
      never rounded down, and no smaller count suffices. */
  lemma CaixasMinimas(produto: ProdutoPiso, areaCliente: real, fatorPerda: Option<real>, k: int)
    requires produto.m2_por_caixa > 0.0
    requires (k as real) * produto.m2_por_caixa >= AreaComPerda(areaCliente, fatorPerda)
    ensures k >= CalcularCaixasNecessarias(produto, areaCliente, fatorPerda).caixas_necessarias
  {
    var r := CalcularCaixasNecessarias(produto, areaCliente, fatorPerda);
    var m2 := produto.m2_por_caixa;
    var c := r.caixas_necessarias;
    if k < c {
      assert (k as real) <= ((c - 1) as real);
      MulMonotona(k as real, (c - 1) as real, m2);
      assert false;
    }
  }

  /** The line subtotal, priced on the loss-inflated area. */
  function CalcularSubtotalItem(produto: ProdutoPiso, areaCliente: real, fatorPerda: Option<real>): (r: real)
    ensures produto.m2_por_caixa != 0.0 ==>
      r == CalcularCaixasNecessarias(produto, areaCliente, fatorPerda).area_com_perda * produto.preco_m2
    ensures fatorPerda.None? ==> r == areaCliente * (1.0 + 10.0 / 100.0) * produto.preco_m2
    ensures fatorPerda.Some? ==> r == areaCliente * (1.0 + fatorPerda.value / 100.0) * produto.preco_m2
  {
    AreaComPerda(areaCliente, fatorPerda) * produto.preco_m2
  }

  /** The subtotal does not depend on the box geometry: two products with the
      same price per m² give the same subtotal whatever their box sizes. */
  lemma SubtotalIndependeDasCaixas(p: ProdutoPiso, q: ProdutoPiso, areaCliente: real, fatorPerda: Option<real>)
    requires p.preco_m2 == q.preco_m2
    requires p.m2_por_caixa != 0.0 && q.m2_por_caixa != 0.0
    ensures CalcularSubtotalItem(p, areaCliente, fatorPerda) == CalcularSubtotalItem(q, areaCliente, fatorPerda)
    ensures CalcularSubtotalItem(p, areaCliente, fatorPerda)
         == CalcularCaixasNecessarias(q, areaCliente, fatorPerda).area_com_perda * p.preco_m2
  {
  }

  /** The worked example: 1.488 m² per box, 50 m² and 10% loss give 55 m²
      and 37 boxes; the default loss gives the same. */
  lemma CenarioCalculoCaixas(produto: ProdutoPiso)
    requires produto.m2_por_caixa == 1.488
    ensures CalcularCaixasNecessarias(produto, 50.0, Some(10.0)) == CalculoCaixas(55.0, 37)
    ensures CalcularCaixasNecessarias(produto, 50.0, None) == CalculoCaixas(55.0, 37)
  {
    var r := CalcularCaixasNecessarias(produto, 50.0, Some(10.0));
    assert r.area_com_perda == 55.0;
    assert 36.0 * 1.488 < 55.0 <= 37.0 * 1.488;
  }

  // ----- Accessory suggestions -----

  /** Least natural `c` with `c*c >= t`: the ceiling of the square root of `t`. */
  function TetoRaiz(t: real): (c: nat)
    requires t >= 0.0
    ensures ((c * c) as real) >= t
    ensures c == 0 || (((c - 1) * (c - 1)) as real) < t
  {
    TetoRaizDesde(t, 0)
  }

  function TetoRaizDesde(t: real, c: nat): (r: nat)
    requires t >= 0.0
    requires c == 0 || (((c - 1) * (c - 1)) as real) < t
    ensures ((r * r) as real) >= t
    ensures r == 0 || (((r - 1) * (r - 1)) as real) < t
    decreases Ceil(t) - c
  {
    if ((c * c) as real) >= t then c
    else
      assert c <= c * c;
      TetoRaizDesde(t, c + 1)
  }

  /** The area in m² one unit covers, for the kinds sold by coverage:
      a mortar bag 4.5, a grout kilo 9, a wedge pack 17.5, a spacer pack 11. */
  function Cobertura(tipo: TipoAcessorio): (k: real)
    requires tipo != Rodape
    ensures k > 0.0
  {
    match tipo
    case Argamassa => 4.5
    case Rejunte => 9.0
    case Cunha => 17.5
    case Espacador => 11.0
  }

  /** Quantity suggested for an accessory of kind `tipo` over `area` m².
      Mortar, grout, wedges and spacers use a fixed coverage per unit; the
      baseboard uses the ceiling of 4*sqrt(area), computed exactly as the least
      `c` with `c*c >= 16*area`. A negative area makes JavaScript's square
      root NaN, which is dropped like 0 is, so 0 stands for it here. */
  function QuantidadeSugerida(tipo: TipoAcessorio, area: real): int {
    match tipo
    case Rodape => if area >= 0.0 then TetoRaiz(16.0 * area) else 0
    case _ => Ceil(area / Cobertura(tipo))
  }

  /** The suggested quantity is the least number of units covering the area:
      for the kinds sold by coverage, that many units cover it and one fewer
      does not; for the baseboard, the least count whose square reaches 16
      times the area (the ceiling of 4*sqrt(area)), and 0 for a negative area. */
  lemma QuantidadeCobreArea(tipo: TipoAcessorio, area: real)
    ensures var q := QuantidadeSugerida(tipo, area);
      tipo != Rodape ==>
        (q as real) * Cobertura(tipo) >= area && ((q - 1) as real) * Cobertura(tipo) < area
    ensures var q := QuantidadeSugerida(tipo, area);
      tipo == Rodape && area >= 0.0 ==>
        q >= 0 && (q * q) as real >= 16.0 * area && (q == 0 || ((q - 1) * (q - 1)) as real < 16.0 * area)
    ensures tipo == Rodape && area < 0.0 ==> QuantidadeSugerida(tipo, area) == 0
  {
    if tipo != Rodape {
      CeilCobre(area, Cobertura(tipo));
    }
  }

  /** `ceil(x / k)` units of `k` cover `x`, and one unit fewer does not. */
  lemma CeilCobre(x: real, k: real)
    requires k > 0.0
    ensures (Ceil(x / k) as real) * k >= x && ((Ceil(x / k) - 1) as real) * k < x
  {
    var y := x / k;
    var c := Ceil(y) as real;
    var d := (Ceil(y) - 1) as real;
    assert y * k == x;
    assert c - y >= 0.0 && (c - y) * k >= 0.0;
    assert c * k == (c - y) * k + y * k;
    assert y - d > 0.0 && (y - d) * k > 0.0;
    assert d * k == y * k - (y - d) * k;
    assert d * k < x;
    assert ((Ceil(x / k) - 1) as real) * k == d * k;
  }

  datatype Sugestao = Sugestao(acessorio: Acessorio, quantidade_sugerida: int)

  function AcessorioDaSugestao(s: Sugestao): Acessorio {
    s.acessorio
  }

  /** An accessory appears in the suggestions: it is active and its quantity is positive. */
  function Sugerivel(area: real): Acessorio -> bool {
    (a: Acessorio) => a.ativo && QuantidadeSugerida(a.tipo, area) > 0
  }

  /** Suggestions for every active accessory whose quantity is positive, in
      input order. */
  function SugerirAcessorios(acessorios: seq<Acessorio>, areaTotalM2: real): (r: seq<Sugestao>)
    ensures Map(r, AcessorioDaSugestao) == Filter(acessorios, Sugerivel(areaTotalM2))
    ensures forall i :: 0 <= i < |r| ==>
      r[i].acessorio.ativo && r[i].quantidade_sugerida > 0 &&
      r[i].quantidade_sugerida == QuantidadeSugerida(r[i].acessorio.tipo, areaTotalM2)
  {
    if |acessorios| == 0 then []
    else
      var a := acessorios[0];
      var resto := SugerirAcessorios(acessorios[1..], areaTotalM2);
      var q := QuantidadeSugerida(a.tipo, areaTotalM2);
      if a.ativo && q > 0 then [Sugestao(a, q)] + resto else resto
  }

  /** The suggested accessories keep the catalog's order. */
  lemma SugestoesEmOrdem(acessorios: seq<Acessorio>, areaTotalM2: real)
    ensures IsSubsequence(Map(SugerirAcessorios(acessorios, areaTotalM2), AcessorioDaSugestao), acessorios)
  {
    FilterIsSubsequence(acessorios, Sugerivel(areaTotalM2));
  }

  /** No area (or a negative one) suggests nothing. */
  lemma {:induction false} SemAreaSemSugestoes(acessorios: seq<Acessorio>, areaTotalM2: real)
    requires areaTotalM2 <= 0.0
    ensures SugerirAcessorios(acessorios, areaTotalM2) == []
  {
    if |acessorios| > 0 {
      SemAreaSemSugestoes(acessorios[1..], areaTotalM2);
      var t := acessorios[0].tipo;
      if t == Rodape {
        if areaTotalM2 >= 0.0 {
          assert TetoRaiz(16.0 * areaTotalM2) == 0;
        }
      } else {
        assert QuantidadeSugerida(t, areaTotalM2) <= 0 by {
          var k := Cobertura(t);
          assert QuantidadeSugerida(t, areaTotalM2) == Ceil(areaTotalM2 / k);
          assert areaTotalM2 / k <= 0.0;
          CeilIsLeast(areaTotalM2 / k, 0);
        }
      }
    }
  }

  /** 40 m² of grout coverage needs ceil(40/9) = 5 units. */
  lemma CenarioRejunte(a: Acessorio)
    requires a.tipo == Rejunte && a.ativo
    ensures SugerirAcessorios([a], 40.0) == [Sugestao(a, 5)]
  {
    assert 4.0 < 40.0 / 9.0 <= 5.0;
    assert Ceil(40.0 / 9.0) == 5;
  }

  // ----- Approval validator -----

  datatype ItemValidacao = ItemValidacao(produto: ProdutoPiso, caixas_necessarias: int)

  datatype Validacao = Validacao(pode_aprovar: bool, erros: seq<string>)

  /** A line blocks approval when its product is inactive or short of boxes. */
  predicate Bloqueia(item: ItemValidacao) {
    !item.produto.ativo || item.produto.estoque_caixas < item.caixas_necessarias
  }

  /** The one message a blocking line produces; an inactive product gets only
      the inactive message, whatever its stock. */
  function MensagemBloqueio(item: ItemValidacao): string {
    if !item.produto.ativo then
      item.produto.nome + " está inativo"
    else
      item.produto.nome + ": precisa de " + IntParaTexto(item.caixas_necessarias)
      + " caixas, disponível " + IntParaTexto(item.produto.estoque_caixas)
  }

  function ErrosAprovacao(itens: seq<ItemValidacao>): seq<string> {
    if |itens| == 0 then []
    else
      var item := itens[0];
      var erro := if !item.produto.ativo then [item.produto.nome + " está inativo"]
        else if item.produto.estoque_caixas < item.caixas_necessarias then
          [item.produto.nome + ": precisa de " + IntParaTexto(item.caixas_necessarias)
           + " caixas, disponível " + IntParaTexto(item.produto.estoque_caixas)]
        else [];
      erro + ErrosAprovacao(itens[1..])
  }

  lemma {:induction false} ErrosSaoBloqueios(itens: seq<ItemValidacao>)
    ensures ErrosAprovacao(itens) == Map(Filter(itens, Bloqueia), MensagemBloqueio)
  {
    if |itens| > 0 {
      ErrosSaoBloqueios(itens[1..]);
    }
  }

  lemma NenhumBloqueio(itens: seq<ItemValidacao>)
    ensures |Filter(itens, Bloqueia)| == 0 <==> forall i :: 0 <= i < |itens| ==> !Bloqueia(itens[i])
  {
    if exists i :: 0 <= i < |itens| && Bloqueia(itens[i]) {
      var i :| 0 <= i < |itens| && Bloqueia(itens[i]);
      assert itens[i] in Filter(itens, Bloqueia);
    }
  }

  /** Checks stock and the active flag of every line without changing
      anything: approval holds exactly when no line blocks, and there is one
      message per blocking line, in line order. */
  function ValidarAprovacaoOrcamento(itens: seq<ItemValidacao>): (r: Validacao)
    ensures r.erros == Map(Filter(itens, Bloqueia), MensagemBloqueio)
    ensures |r.erros| == |Filter(itens, Bloqueia)|
    ensures r.pode_aprovar <==> forall i :: 0 <= i < |itens| ==> !Bloqueia(itens[i])
  {
    var erros := ErrosAprovacao(itens);
    ErrosSaoBloqueios(itens);
    NenhumBloqueio(itens);
    Validacao(|erros| == 0, erros)
  }

  /** Stock 40 against 37 boxes is approved; stock 20 is refused with one
      message naming both numbers. */
  lemma CenariosAprovacao(p: ProdutoPiso)
    requires p.ativo
    ensures ValidarAprovacaoOrcamento([ItemValidacao(p.(estoque_caixas := 40), 37)]) == Validacao(true, [])
    ensures ValidarAprovacaoOrcamento([ItemValidacao(p.(estoque_caixas := 20), 37)])
         == Validacao(false, [p.nome + ": precisa de 37 caixas, disponível 20"])
  {
    var item := ItemValidacao(p.(estoque_caixas := 20), 37);
    assert Filter([item], Bloqueia) == [item];
    MensagemCenario(p, item);
  }

  lemma MensagemCenario(p: ProdutoPiso, item: ItemValidacao)
    requires p.ativo && item == ItemValidacao(p.(estoque_caixas := 20), 37)
    ensures MensagemBloqueio(item) == p.nome + ": precisa de 37 caixas, disponível 20"
  {
    TextoTrintaSeteVinte();
    assert ": precisa de " + "37" + " caixas, disponível " + "20" == ": precisa de 37 caixas, disponível 20";
  }
}
