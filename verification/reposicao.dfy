/** The replenishment report: active products at or below their minimum,
    with a purchase suggestion, most critical first. */
module Reposicao {

  import opened Wrappers
  import opened Seqs
  import opened Numeros
  import opened Tipos
  import opened Estoque

  datatype ProdutoParaRepor = ProdutoParaRepor(
    produto: Produto,
    tipo: TipoProduto,
    estoque_atual: int,
    estoque_min: int,
    sugestao_compra: int)

  predicate PrecisaRepor(p: Produto) {
    p.Ativo() && p.Estoque() <= p.EstoqueMin()
  }

  /** The report entry of a product: the suggestion is the least
      non-negative purchase that brings the stock to twice the minimum. */
  function ParaRepor(p: Produto): (r: ProdutoParaRepor)
    ensures r.produto == p && r.tipo == p.Tipo()
    ensures r.estoque_atual == p.Estoque() && r.estoque_min == p.EstoqueMin()
    ensures r.sugestao_compra >= 0
    ensures r.estoque_atual + r.sugestao_compra >= 2 * r.estoque_min
    ensures r.sugestao_compra == 0 || r.estoque_atual + r.sugestao_compra == 2 * r.estoque_min
  {
    ProdutoParaRepor(p, p.Tipo(), p.Estoque(), p.EstoqueMin(), Max(p.EstoqueMin() * 2 - p.Estoque(), 0))
  }

  /** Every product of the catalog, floor products first, each in catalog order. */
  function Produtos(st: Estado): seq<Produto> {
    Map(st.pisos, (p: ProdutoPiso) => UmPiso(p)) + Map(st.acessorios, (a: Acessorio) => UmAcessorio(a))
  }

  /** The report entries before sorting. */
  function Candidatos(st: Estado): seq<ProdutoParaRepor> {
    Map(Filter(Produtos(st), PrecisaRepor), ParaRepor)
  }

  /** The sort key `estoque_atual / estoque_min`; a zero minimum (whose
      JavaScript quotient is NaN or -Infinity) has no key and ranks first. */
  function Criticidade(a: ProdutoParaRepor): Option<real> {
    if a.estoque_min == 0 then None else Some((a.estoque_atual as real) / (a.estoque_min as real))
  }

  /** `a` may be listed before `b`. */
  predicate CriticoAntes(a: ProdutoParaRepor, b: ProdutoParaRepor) {
    Criticidade(a).None? || (Criticidade(b).Some? && Criticidade(a).value <= Criticidade(b).value)
  }

  predicate OrdenadoPorCriticidade(s: seq<ProdutoParaRepor>) {
    forall i, j :: 0 <= i < j < |s| ==> CriticoAntes(s[i], s[j])
  }

  /** Inserts `x`, which precedes every element of `l` in the input, before
      the first element it may precede. */
  function InserirPorCriticidade(x: ProdutoParaRepor, l: seq<ProdutoParaRepor>): (r: seq<ProdutoParaRepor>)
    ensures multiset(r) == multiset(l) + multiset{x}
    ensures OrdenadoPorCriticidade(l) ==> OrdenadoPorCriticidade(r)
  {
    if |l| == 0 || CriticoAntes(x, l[0]) then [x] + l
    else
      var resto := InserirPorCriticidade(x, l[1..]);
      CabecaCritica(x, l, resto);
      [l[0]] + resto
  }

  /** Putting the head of `l` back in front of the rest with `x` inserted
      keeps the contents and the order. */
  lemma CabecaCritica(x: ProdutoParaRepor, l: seq<ProdutoParaRepor>, resto: seq<ProdutoParaRepor>)
    requires |l| > 0 && !CriticoAntes(x, l[0])
    requires multiset(resto) == multiset(l[1..]) + multiset{x}
    requires OrdenadoPorCriticidade(l[1..]) ==> OrdenadoPorCriticidade(resto)
    ensures multiset([l[0]] + resto) == multiset(l) + multiset{x}
    ensures OrdenadoPorCriticidade(l) ==> OrdenadoPorCriticidade([l[0]] + resto)
  {
    assert l == [l[0]] + l[1..];
    if OrdenadoPorCriticidade(l) {
      assert OrdenadoPorCriticidade(l[1..]);
      forall j | 0 <= j < |resto| ensures CriticoAntes(l[0], resto[j]) {
        assert resto[j] in multiset(resto);
        if resto[j] != x {
          assert resto[j] in multiset(l[1..]);
          var i :| 0 <= i < |l[1..]| && l[1..][i] == resto[j];
          assert l[i + 1] == resto[j];
        }
      }
      PrefixarCritico(l[0], resto);
    }
  }

  /** An entry that may precede everything in a sorted list can head it. */
  lemma PrefixarCritico(x: ProdutoParaRepor, s: seq<ProdutoParaRepor>)
    requires OrdenadoPorCriticidade(s)
    requires forall j :: 0 <= j < |s| ==> CriticoAntes(x, s[j])
    ensures OrdenadoPorCriticidade([x] + s)
  {
    var t := [x] + s;
    forall i, j | 0 <= i < j < |t| ensures CriticoAntes(t[i], t[j]) {
      assert t[j] == s[j - 1];
      if i > 0 {
        assert t[i] == s[i - 1];
      }
    }
  }

  /** A stable insertion sort by criticality, as `Array.prototype.sort` is stable. */
  function OrdenarPorCriticidade(s: seq<ProdutoParaRepor>): (r: seq<ProdutoParaRepor>)
    ensures multiset(r) == multiset(s)
    ensures OrdenadoPorCriticidade(r)
  {
    if |s| == 0 then []
    else
      assert s == [s[0]] + s[1..];
      InserirPorCriticidade(s[0], OrdenarPorCriticidade(s[1..]))
  }

  /** The report: exactly the entries of the products needing
      replenishment, most critical first. */
  function ObterProdutosParaRepor(st: Estado): (r: seq<ProdutoParaRepor>)
    ensures multiset(r) == multiset(Candidatos(st))
    ensures OrdenadoPorCriticidade(r)
    ensures forall i :: 0 <= i < |r| ==> PrecisaRepor(r[i].produto) && r[i] == ParaRepor(r[i].produto)
  {
    var c := Candidatos(st);
    var r := OrdenarPorCriticidade(c);
    CandidatosBemFormados(st);
    EntradasPermutadas(c, r);
    r
  }

  /** An entry built from a product that needs replenishment. */
  predicate EntradaDeReposicao(e: ProdutoParaRepor) {
    PrecisaRepor(e.produto) && e == ParaRepor(e.produto)
  }

  lemma CandidatosBemFormados(st: Estado)
    ensures forall j :: 0 <= j < |Candidatos(st)| ==> EntradaDeReposicao(Candidatos(st)[j])
  {
    var f := Filter(Produtos(st), PrecisaRepor);
    var c := Candidatos(st);
    forall j | 0 <= j < |c| ensures EntradaDeReposicao(c[j]) {
      assert c[j] == ParaRepor(f[j]);
      assert f[j] in f;
    }
  }

  /** A permutation of well-formed entries holds only well-formed entries. */
  lemma EntradasPermutadas(c: seq<ProdutoParaRepor>, r: seq<ProdutoParaRepor>)
    requires forall j :: 0 <= j < |c| ==> EntradaDeReposicao(c[j])
    requires multiset(r) == multiset(c)
    ensures forall i :: 0 <= i < |r| ==> PrecisaRepor(r[i].produto) && r[i] == ParaRepor(r[i].produto)
  {
    forall i | 0 <= i < |r| ensures EntradaDeReposicao(r[i]) {
      assert r[i] in multiset(c);
      var j :| 0 <= j < |c| && c[j] == r[i];
    }
  }

  /** A product of the catalog is listed exactly when it needs replenishment. */
  lemma ListadoSePrecisa(st: Estado, q: Produto)
    requires q in Produtos(st)
    ensures (exists i :: 0 <= i < |ObterProdutosParaRepor(st)| && ObterProdutosParaRepor(st)[i].produto == q)
        <==> PrecisaRepor(q)
  {
    var r := ObterProdutosParaRepor(st);
    var f := Filter(Produtos(st), PrecisaRepor);
    var c := Candidatos(st);
    if PrecisaRepor(q) {
      assert q in f;
      var j :| 0 <= j < |f| && f[j] == q;
      assert c[j] == ParaRepor(q);
      assert c[j] in multiset(r);
      var i :| 0 <= i < |r| && r[i] == c[j];
      assert r[i].produto == q;
    }
  }

  /** A floor product is listed exactly when it is active and at or below
      its minimum. */
  lemma ReposicaoPiso(st: Estado, p: ProdutoPiso)
    requires p in st.pisos
    ensures (exists i :: 0 <= i < |ObterProdutosParaRepor(st)| && ObterProdutosParaRepor(st)[i].produto == UmPiso(p))
        <==> p.ativo && p.estoque_caixas <= p.estoque_min_caixas
  {
    var k :| 0 <= k < |st.pisos| && st.pisos[k] == p;
    assert Produtos(st)[k] == UmPiso(p);
    ListadoSePrecisa(st, UmPiso(p));
  }

  /** An accessory is listed exactly when it is active and at or below its
      minimum. */
  lemma ReposicaoAcessorio(st: Estado, a: Acessorio)
    requires a in st.acessorios
    ensures (exists i :: 0 <= i < |ObterProdutosParaRepor(st)| && ObterProdutosParaRepor(st)[i].produto == UmAcessorio(a))
        <==> a.ativo && a.estoque_unidades <= a.estoque_min_unidades
  {
    var k :| 0 <= k < |st.acessorios| && st.acessorios[k] == a;
    assert Produtos(st)[|st.pisos| + k] == UmAcessorio(a);
    ListadoSePrecisa(st, UmAcessorio(a));
  }

  function MesmaCriticidade(k: Option<real>): ProdutoParaRepor -> bool {
    (a: ProdutoParaRepor) => Criticidade(a) == k
  }

  lemma {:induction false} InserirEstavel(x: ProdutoParaRepor, l: seq<ProdutoParaRepor>, k: Option<real>)
    ensures Filter(InserirPorCriticidade(x, l), MesmaCriticidade(k)) ==
            Filter([x], MesmaCriticidade(k)) + Filter(l, MesmaCriticidade(k))
  {
    if |l| > 0 && !CriticoAntes(x, l[0]) {
      var resto := InserirPorCriticidade(x, l[1..]);
      assert InserirPorCriticidade(x, l) == [l[0]] + resto;
      InserirEstavel(x, l[1..], k);
      FilterPassHead(x, l, resto, MesmaCriticidade(k));
    } else {
      assert InserirPorCriticidade(x, l) == [x] + l;
      FilterConcat([x], l, MesmaCriticidade(k));
    }
  }

  lemma {:induction false} OrdenacaoEstavel(s: seq<ProdutoParaRepor>, k: Option<real>)
    ensures Filter(OrdenarPorCriticidade(s), MesmaCriticidade(k)) == Filter(s, MesmaCriticidade(k))
  {
    if |s| > 0 {
      var p := MesmaCriticidade(k);
      var resto := OrdenarPorCriticidade(s[1..]);
      assert OrdenarPorCriticidade(s) == InserirPorCriticidade(s[0], resto);
      OrdenacaoEstavel(s[1..], k);
      InserirEstavel(s[0], resto, k);
      assert s == [s[0]] + s[1..];
      FilterConcat([s[0]], s[1..], p);
    }
  }

  /** Entries of equal criticality keep catalog order: floor products before
      accessories, each in catalog order. */
  lemma {:induction false} RelatorioEstavel(st: Estado, k: Option<real>)
    ensures Filter(ObterProdutosParaRepor(st), MesmaCriticidade(k)) == Filter(Candidatos(st), MesmaCriticidade(k))
  {
    OrdenacaoEstavel(Candidatos(st), k);
  }
}
