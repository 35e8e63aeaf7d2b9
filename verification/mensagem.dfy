/** The section layout of the quote message sent to the customer. Each
    section holds the values its lines print; the emoji, the wording of each
    line and the number and date formatting are rendering and are not
    modelled. */
module MensagemOrcamento {

  import opened Wrappers
  import opened Tipos

  /** A quote line as the message prints it. */
  datatype ItemMensagem = ItemMensagem(
    produto: ProdutoPiso,
    area_cliente_m2: real,
    fator_perda_percent: real,
    caixas_necessarias: int,
    subtotal: real)

  datatype Totais = Totais(
    area_total_m2: real,
    valor_produtos: real,
    valor_acessorios: real,
    frete: real,
    desconto: real,
    valor_final: real)

  /** An entry printed with its 1-based position. */
  datatype Numerado<T> = Numerado(numero: nat, item: T)

  datatype LinhaResumo =
    | LinhaAreaTotal(area: real)
    | LinhaProdutos(valor: real)
    | LinhaAcessorios(valor: real)
    | LinhaFrete(valor: real)
    | LinhaDesconto(valor: real)
    | LinhaTotal(valor: real)

  datatype Secao =
    | Cabecalho(cliente: string, cidade: string)
    | SecaoProdutos(produtos: seq<Numerado<ItemMensagem>>)
    | SecaoAcessorios(acessorios: seq<Numerado<AcessorioSelecionado>>)
    | ResumoFinanceiro(linhas: seq<LinhaResumo>)
    | PrazoEstimado(dias: int)
    | SecaoObservacoes(texto: string)
    | Fechamento

  /** Numbers the entries `primeiro`, `primeiro + 1`, ... in order. */
  function Numerar<T>(s: seq<T>, primeiro: nat): (r: seq<Numerado<T>>)
    ensures |r| == |s|
    ensures forall i :: 0 <= i < |s| ==> r[i].numero == primeiro + i && r[i].item == s[i]
  {
    if |s| == 0 then [] else [Numerado(primeiro, s[0])] + Numerar(s[1..], primeiro + 1)
  }

  /** The place of a summary line in the message: area, products,
      accessories, freight, discount, total. */
  function OrdemLinha(l: LinhaResumo): nat {
    match l
    case LinhaAreaTotal(_) => 0
    case LinhaProdutos(_) => 1
    case LinhaAcessorios(_) => 2
    case LinhaFrete(_) => 3
    case LinhaDesconto(_) => 4
    case LinhaTotal(_) => 5
  }

  /** The place of a section in the message: header, products, accessories,
      summary, lead time, notes, closing. */
  function OrdemSecao(s: Secao): nat {
    match s
    case Cabecalho(_, _) => 0
    case SecaoProdutos(_) => 1
    case SecaoAcessorios(_) => 2
    case ResumoFinanceiro(_) => 3
    case PrazoEstimado(_) => 4
    case SecaoObservacoes(_) => 5
    case Fechamento => 6
  }

  /** Every summary line comes strictly after the ones before it. */
  predicate LinhasEmOrdem(r: seq<LinhaResumo>) {
    forall i, j :: 0 <= i < j < |r| ==> OrdemLinha(r[i]) < OrdemLinha(r[j])
  }

  /** Every section comes strictly after the ones before it. */
  predicate SecoesEmOrdem(r: seq<Secao>) {
    forall i, j :: 0 <= i < j < |r| ==> OrdemSecao(r[i]) < OrdemSecao(r[j])
  }

  /** The financial summary: area and products always, accessories, freight
      and discount only when positive, then the total. */
  function LinhasResumo(t: Totais): (r: seq<LinhaResumo>)
    ensures |r| >= 3
    ensures r[0] == LinhaAreaTotal(t.area_total_m2) && r[1] == LinhaProdutos(t.valor_produtos)
    ensures r[|r| - 1] == LinhaTotal(t.valor_final)
    ensures (exists k :: 0 <= k < |r| && r[k].LinhaAcessorios?) <==> t.valor_acessorios > 0.0
    ensures (exists k :: 0 <= k < |r| && r[k].LinhaFrete?) <==> t.frete > 0.0
    ensures (exists k :: 0 <= k < |r| && r[k].LinhaDesconto?) <==> t.desconto > 0.0
    ensures forall k :: 0 <= k < |r| && r[k].LinhaAcessorios? ==> r[k].valor == t.valor_acessorios
    ensures forall k :: 0 <= k < |r| && r[k].LinhaFrete? ==> r[k].valor == t.frete
    ensures forall k :: 0 <= k < |r| && r[k].LinhaDesconto? ==> r[k].valor == t.desconto
  {
    var opcionais :=
      (if t.valor_acessorios > 0.0 then [LinhaAcessorios(t.valor_acessorios)] else []) +
      (if t.frete > 0.0 then [LinhaFrete(t.frete)] else []) +
      (if t.desconto > 0.0 then [LinhaDesconto(t.desconto)] else []);
    var r := [LinhaAreaTotal(t.area_total_m2), LinhaProdutos(t.valor_produtos)] + opcionais + [LinhaTotal(t.valor_final)];
    assert t.valor_acessorios > 0.0 ==> r[2].LinhaAcessorios?;
    assert t.frete > 0.0 ==> r[2].LinhaFrete? || r[3].LinhaFrete?;
    assert t.desconto > 0.0 ==> r[|r| - 2].LinhaDesconto?;
    r
  }

  /** Notes are printed only when given and non-empty (JavaScript truthiness). */
  predicate TemObservacoes(observacoes: Option<string>) {
    observacoes.Some? && observacoes.value != ""
  }

  /** The message: header, numbered products, the accessories section only
      when some accessory is selected, the summary, the lead time, the notes
      only when present, and the fixed closing text. */
  function GerarMensagemWhatsApp(
    cliente: Cliente,
    itens: seq<ItemMensagem>,
    acessoriosSelecionados: seq<AcessorioSelecionado>,
    totais: Totais,
    prazoEstimado: int,
    observacoes: Option<string>): (r: seq<Secao>)
    ensures |r| >= 5
    ensures r[0] == Cabecalho(cliente.nome, cliente.cidade)
    ensures r[1].SecaoProdutos? && |r[1].produtos| == |itens|
    ensures forall i :: 0 <= i < |itens| ==> r[1].produtos[i] == Numerado(i + 1, itens[i])
    ensures r[|r| - 1] == Fechamento
    ensures ResumoFinanceiro(LinhasResumo(totais)) in r
    ensures var o := if TemObservacoes(observacoes) then 1 else 0;
      r[|r| - 3 - o] == ResumoFinanceiro(LinhasResumo(totais)) &&
      r[|r| - 2 - o] == PrazoEstimado(prazoEstimado)
    ensures TemObservacoes(observacoes) ==> r[|r| - 2] == SecaoObservacoes(observacoes.value)
  {
    var a, o := SecoesAcessorios(acessoriosSelecionados), SecoesObservacoes(observacoes);
    var meio := [ResumoFinanceiro(LinhasResumo(totais)), PrazoEstimado(prazoEstimado)];
    var r := [Cabecalho(cliente.nome, cliente.cidade), SecaoProdutos(Numerar(itens, 1))] + a + meio + o + [Fechamento];
    assert |o| == (if TemObservacoes(observacoes) then 1 else 0);
    assert r[2 + |a|] == meio[0] && r[3 + |a|] == meio[1];
    r
  }

  function SecoesAcessorios(acessoriosSelecionados: seq<AcessorioSelecionado>): seq<Secao> {
    if |acessoriosSelecionados| > 0 then [SecaoAcessorios(Numerar(acessoriosSelecionados, 1))] else []
  }

  function SecoesObservacoes(observacoes: Option<string>): seq<Secao> {
    if TemObservacoes(observacoes) then [SecaoObservacoes(observacoes.value)] else []
  }

  /** The summary lines come in the order area, products, accessories,
      freight, discount, total. */
  lemma ResumoEmOrdem(t: Totais)
    ensures LinhasEmOrdem(LinhasResumo(t))
  {
    var r := LinhasResumo(t);
    var n := |r|;
    forall i, j | 0 <= i < j < n ensures OrdemLinha(r[i]) < OrdemLinha(r[j]) {
      RanksResumo(t, i);
      RanksResumo(t, j);
    }
  }

  /** The rank of the `k`-th summary line is the `k`-th entry of the rank
      table of the lines present. */
  lemma RanksResumo(t: Totais, k: nat)
    requires k < |LinhasResumo(t)|
    ensures OrdemLinha(LinhasResumo(t)[k]) == PosicaoLinha(t, k)
  {
  }

  /** The rank of the `k`-th summary line, counting the optional lines
      present. */
  function PosicaoLinha(t: Totais, k: nat): nat {
    var temA, temF, temD := t.valor_acessorios > 0.0, t.frete > 0.0, t.desconto > 0.0;
    var ranks := [0, 1] + (if temA then [2] else []) + (if temF then [3] else []) + (if temD then [4] else []) + [5];
    if k < |ranks| then ranks[k] else 6
  }

  /** The sections come in the order header, products, accessories,
      summary, lead time, notes, closing. */
  lemma MensagemEmOrdem(
    cliente: Cliente, itens: seq<ItemMensagem>, acessoriosSelecionados: seq<AcessorioSelecionado>,
    totais: Totais, prazoEstimado: int, observacoes: Option<string>)
    ensures SecoesEmOrdem(GerarMensagemWhatsApp(cliente, itens, acessoriosSelecionados, totais, prazoEstimado, observacoes))
  {
    var inicio := [Cabecalho(cliente.nome, cliente.cidade), SecaoProdutos(Numerar(itens, 1))];
    var meio := [ResumoFinanceiro(LinhasResumo(totais)), PrazoEstimado(prazoEstimado)];
    MontagemEmOrdem(inicio, SecoesAcessorios(acessoriosSelecionados), meio, SecoesObservacoes(observacoes));
  }

  /** The rank of the `k`-th section of a message with or without the
      accessories and notes sections. */
  function PosicaoSecao(temA: bool, temO: bool, k: nat): nat {
    var a, o := if temA then 1 else 0, if temO then 1 else 0;
    if k < 2 then k
    else if k < 2 + a then 2
    else if k < 4 + a then k - a + 1
    else if k < 4 + a + o then 5
    else if k < 5 + a + o then 6
    else 7
  }

  /** Header and products, an optional accessories section, summary and lead
      time, optional notes and the closing, joined in that order, are in
      order. */
  lemma MontagemEmOrdem(inicio: seq<Secao>, a: seq<Secao>, meio: seq<Secao>, o: seq<Secao>)
    requires |inicio| == 2 && inicio[0].Cabecalho? && inicio[1].SecaoProdutos?
    requires |a| <= 1 && (|a| == 1 ==> a[0].SecaoAcessorios?)
    requires |meio| == 2 && meio[0].ResumoFinanceiro? && meio[1].PrazoEstimado?
    requires |o| <= 1 && (|o| == 1 ==> o[0].SecaoObservacoes?)
    ensures SecoesEmOrdem(inicio + a + meio + o + [Fechamento])
  {
    var r := inicio + a + meio + o + [Fechamento];
    var temA, temO := |a| == 1, |o| == 1;
    forall k | 0 <= k < |r| ensures OrdemSecao(r[k]) == PosicaoSecao(temA, temO, k) {
      RankDaSecao(inicio, a, meio, o, k);
    }
    OrdemPorPosicoes(r, temA, temO);
  }

  /** The `k`-th section of the assembled message has the `k`-th rank of the
      table for the optional sections present. */
  lemma RankDaSecao(inicio: seq<Secao>, a: seq<Secao>, meio: seq<Secao>, o: seq<Secao>, k: nat)
    requires |inicio| == 2 && inicio[0].Cabecalho? && inicio[1].SecaoProdutos?
    requires |a| <= 1 && (|a| == 1 ==> a[0].SecaoAcessorios?)
    requires |meio| == 2 && meio[0].ResumoFinanceiro? && meio[1].PrazoEstimado?
    requires |o| <= 1 && (|o| == 1 ==> o[0].SecaoObservacoes?)
    requires k < |inicio + a + meio + o + [Fechamento]|
    ensures OrdemSecao((inicio + a + meio + o + [Fechamento])[k]) == PosicaoSecao(|a| == 1, |o| == 1, k)
  {
    var r := inicio + a + meio + o + [Fechamento];
    if k < 2 {
      assert r[k] == inicio[k];
    } else if k < 2 + |a| {
      assert r[k] == a[k - 2];
    } else if k < 4 + |a| {
      assert r[k] == meio[k - 2 - |a|];
    } else if k < 4 + |a| + |o| {
      assert r[k] == o[k - 4 - |a|];
    } else {
      assert r[k] == Fechamento;
    }
  }

  /** Sections ranked by an increasing table are in order. */
  lemma OrdemPorPosicoes(r: seq<Secao>, temA: bool, temO: bool)
    requires |r| == 5 + (if temA then 1 else 0) + (if temO then 1 else 0)
    requires forall k :: 0 <= k < |r| ==> OrdemSecao(r[k]) == PosicaoSecao(temA, temO, k)
    ensures SecoesEmOrdem(r)
  {
    forall i, j | 0 <= i < j < |r| ensures OrdemSecao(r[i]) < OrdemSecao(r[j]) {
      assert PosicaoSecao(temA, temO, i) < PosicaoSecao(temA, temO, j);
    }
  }

  /** The accessories section appears exactly when some accessory is
      selected, and then lists them numbered 1..n in order. */
  lemma SecaoAcessoriosCondicional(
    cliente: Cliente, itens: seq<ItemMensagem>, acessoriosSelecionados: seq<AcessorioSelecionado>,
    totais: Totais, prazoEstimado: int, observacoes: Option<string>)
    ensures var r := GerarMensagemWhatsApp(cliente, itens, acessoriosSelecionados, totais, prazoEstimado, observacoes);
      ((exists k :: 0 <= k < |r| && r[k].SecaoAcessorios?) <==> |acessoriosSelecionados| > 0) &&
      (forall k :: 0 <= k < |r| && r[k].SecaoAcessorios? ==>
        |r[k].acessorios| == |acessoriosSelecionados| &&
        forall i :: 0 <= i < |acessoriosSelecionados| ==> r[k].acessorios[i] == Numerado(i + 1, acessoriosSelecionados[i]))
  {
    var a := SecoesAcessorios(acessoriosSelecionados);
    var o := SecoesObservacoes(observacoes);
    var r := GerarMensagemWhatsApp(cliente, itens, acessoriosSelecionados, totais, prazoEstimado, observacoes);
    assert |r| == 5 + |a| + |o|;
    assert forall k :: 0 <= k < |r| && k != 2 ==> !r[k].SecaoAcessorios? by {
      forall k | 0 <= k < |r| && k != 2 ensures !r[k].SecaoAcessorios? {
        if k < 2 {
        } else if k < 2 + |a| {
        } else if k < 4 + |a| {
          assert r[k] == [ResumoFinanceiro(LinhasResumo(totais)), PrazoEstimado(prazoEstimado)][k - 2 - |a|];
        } else if k < 4 + |a| + |o| {
          assert r[k] == o[k - 4 - |a|];
        } else {
          assert r[k] == Fechamento;
        }
      }
    }
    if |acessoriosSelecionados| > 0 {
      assert r[2] == a[0];
    } else {
      assert r[2] == ResumoFinanceiro(LinhasResumo(totais));
    }
  }

  /** The notes section appears exactly when notes are given and non-empty,
      and then carries them. */
  lemma SecaoObservacoesCondicional(
    cliente: Cliente, itens: seq<ItemMensagem>, acessoriosSelecionados: seq<AcessorioSelecionado>,
    totais: Totais, prazoEstimado: int, observacoes: Option<string>)
    ensures var r := GerarMensagemWhatsApp(cliente, itens, acessoriosSelecionados, totais, prazoEstimado, observacoes);
      ((exists k :: 0 <= k < |r| && r[k].SecaoObservacoes?) <==> TemObservacoes(observacoes)) &&
      (forall k :: 0 <= k < |r| && r[k].SecaoObservacoes? ==> r[k].texto == observacoes.value)
  {
    var a := SecoesAcessorios(acessoriosSelecionados);
    var o := SecoesObservacoes(observacoes);
    var r := GerarMensagemWhatsApp(cliente, itens, acessoriosSelecionados, totais, prazoEstimado, observacoes);
    var j := 4 + |a|;
    assert |r| == 5 + |a| + |o|;
    assert forall k :: 0 <= k < |r| && k != j ==> !r[k].SecaoObservacoes? by {
      forall k | 0 <= k < |r| && k != j ensures !r[k].SecaoObservacoes? {
        if k < 2 {
        } else if k < 2 + |a| {
          assert r[k] == a[k - 2];
        } else if k < 4 + |a| {
          assert r[k] == [ResumoFinanceiro(LinhasResumo(totais)), PrazoEstimado(prazoEstimado)][k - 2 - |a|];
        } else if k < 4 + |a| + |o| {
        } else {
          assert r[k] == Fechamento;
        }
      }
    }
    if TemObservacoes(observacoes) {
      assert r[j] == o[0];
    } else {
      assert r[j] == Fechamento;
    }
  }
}
