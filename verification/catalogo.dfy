/** The catalog screen's search: a free-text query matched, ignoring case,
    against the text fields of each product, plus exact filters on the
    finish and on the active flag. An empty query or filter keeps
    everything. */
module Catalogo {

  import opened Seqs
  import opened Texto
  import opened Tipos

  /** `campo.toLowerCase().includes(busca.toLowerCase())`. */
  predicate CasaTexto(campo: string, busca: string) {
    Contem(ParaMinusculas(campo), ParaMinusculas(busca))
  }

  /** The three filters of the catalog screen, as the text the screen holds:
      the query, the finish ("" for any) and the active flag ("" for any,
      otherwise "true" or "false"). */
  datatype Filtros = Filtros(busca: string, acabamento: string, ativo: string)

  /** A floor product is listed when the query is empty or found in its name,
      SKU or collection, and the finish and active filters are empty or equal
      to the product's own text. */
  predicate PisoListado(f: Filtros, p: ProdutoPiso) {
    (f.busca == "" || CasaTexto(p.nome, f.busca) || CasaTexto(p.sku, f.busca) || CasaTexto(p.colecao_cor, f.busca)) &&
    (f.acabamento == "" || AcabamentoTexto(p.acabamento) == f.acabamento) &&
    (f.ativo == "" || TextoBooleano(p.ativo) == f.ativo)
  }

  /** An accessory is searched by name and SKU only, and has no finish. */
  predicate AcessorioListado(f: Filtros, a: Acessorio) {
    (f.busca == "" || CasaTexto(a.nome, f.busca) || CasaTexto(a.sku, f.busca)) &&
    (f.ativo == "" || TextoBooleano(a.ativo) == f.ativo)
  }

  function ListaPiso(f: Filtros): ProdutoPiso -> bool {
    (p: ProdutoPiso) => PisoListado(f, p)
  }

  function ListaAcessorio(f: Filtros): Acessorio -> bool {
    (a: Acessorio) => AcessorioListado(f, a)
  }

  /** The listed floor products: exactly the catalog's products that pass
      the filters, in catalog order. */
  function PisosFiltrados(pisos: seq<ProdutoPiso>, f: Filtros): (r: seq<ProdutoPiso>)
    ensures IsSubsequence(r, pisos)
    ensures forall p :: p in r <==> p in pisos && PisoListado(f, p)
    ensures forall p :: multiset(r)[p] == if PisoListado(f, p) then multiset(pisos)[p] else 0
  {
    FilterIsSubsequence(pisos, ListaPiso(f));
    FilterMultiset(pisos, ListaPiso(f));
    Filter(pisos, ListaPiso(f))
  }

  /** The listed accessories: exactly those that pass the filters, in
      catalog order. */
  function AcessoriosFiltrados(acessorios: seq<Acessorio>, f: Filtros): (r: seq<Acessorio>)
    ensures IsSubsequence(r, acessorios)
    ensures forall a :: a in r <==> a in acessorios && AcessorioListado(f, a)
    ensures forall a :: multiset(r)[a] == if AcessorioListado(f, a) then multiset(acessorios)[a] else 0
  {
    FilterIsSubsequence(acessorios, ListaAcessorio(f));
    FilterMultiset(acessorios, ListaAcessorio(f));
    Filter(acessorios, ListaAcessorio(f))
  }

  /** With no query and no filter, the whole catalog is listed. */
  lemma SemFiltrosListaTudo(pisos: seq<ProdutoPiso>, acessorios: seq<Acessorio>)
    ensures PisosFiltrados(pisos, Filtros("", "", "")) == pisos
    ensures AcessoriosFiltrados(acessorios, Filtros("", "", "")) == acessorios
  {
    FilterAll(pisos, ListaPiso(Filtros("", "", "")));
    FilterAll(acessorios, ListaAcessorio(Filtros("", "", "")));
  }

  /** Lower-casing is idempotent. */
  lemma MinusculasIdempotente(s: string)
    ensures ParaMinusculas(ParaMinusculas(s)) == ParaMinusculas(s)
  {
    var m := ParaMinusculas(s);
    assert forall i :: 0 <= i < |s| ==> Minuscula(Minuscula(s[i])) == Minuscula(s[i]);
    assert forall i :: 0 <= i < |s| ==> ParaMinusculas(m)[i] == m[i];
  }

  /** The search ignores case: a query and its lower-case form list the same
      products. */
  lemma BuscaIgnoraCaixa(pisos: seq<ProdutoPiso>, f: Filtros)
    ensures PisosFiltrados(pisos, f) == PisosFiltrados(pisos, f.(busca := ParaMinusculas(f.busca)))
  {
    var g := f.(busca := ParaMinusculas(f.busca));
    MinusculasIdempotente(f.busca);
    assert ParaMinusculas(g.busca) == ParaMinusculas(f.busca);
    assert |g.busca| == |f.busca|;
    assert forall p :: PisoListado(f, p) == PisoListado(g, p);
    FilterEquivalent(pisos, ListaPiso(f), ListaPiso(g));
  }

  /** The "true" and "false" settings of the active filter split the list
      that the empty setting gives: every listed product is in exactly one. */
  lemma {:induction false} AtivoParticiona(pisos: seq<ProdutoPiso>, f: Filtros)
    ensures |PisosFiltrados(pisos, f.(ativo := "true"))| + |PisosFiltrados(pisos, f.(ativo := "false"))| ==
            |PisosFiltrados(pisos, f.(ativo := ""))|
  {
    if |pisos| > 0 {
      AtivoParticiona(pisos[1..], f);
      var p := pisos[0];
      assert TextoBooleano(p.ativo) == "true" <==> p.ativo;
      assert "true" != "false";
    }
  }
}
