/** CSV export of the floor products and its round trip through the
    import. Number-to-text for non-integer values (`${x}`) is a parameter;
    integers are written in decimal. */
module ExportacaoCsv {

  import opened Wrappers
  import opened Seqs
  import opened Texto
  import opened Tipos
  import opened Estoque
  import opened Importacao

  /** The eleven columns of a product, in header order; name and collection
      are wrapped in double quotes. */
  function CamposExportados(mostrarReal: real -> string, p: ProdutoPiso): seq<string> {
    [p.sku, "\"" + p.nome + "\"", mostrarReal(p.dimensao_cm_ladoA), mostrarReal(p.dimensao_cm_ladoB),
     IntParaTexto(p.pecas_por_caixa), mostrarReal(p.preco_m2), AcabamentoTexto(p.acabamento),
     "\"" + p.colecao_cor + "\"", IntParaTexto(p.estoque_caixas), IntParaTexto(p.estoque_min_caixas),
     TextoBooleano(p.ativo)]
  }

  function LinhaExportada(mostrarReal: real -> string, p: ProdutoPiso): string {
    Join(CamposExportados(mostrarReal, p), ',')
  }

  /** One line per product, in catalog order. */
  function LinhasProdutos(mostrarReal: real -> string, pisos: seq<ProdutoPiso>): (r: seq<string>)
    ensures |r| == |pisos|
    ensures forall i :: 0 <= i < |pisos| ==> r[i] == LinhaExportada(mostrarReal, pisos[i])
  {
    if |pisos| == 0 then [] else [LinhaExportada(mostrarReal, pisos[0])] + LinhasProdutos(mostrarReal, pisos[1..])
  }

  /** The header line followed by one line per product, joined by '\n'. */
  function ExportarCSV(mostrarReal: real -> string, pisos: seq<ProdutoPiso>): string {
    Join([CabecalhoEsperado] + LinhasProdutos(mostrarReal, pisos), '\n')
  }

  // ----- Round trip -----

  /** Text that survives a CSV cell: no separator, quote or line break. */
  predicate TextoSeguro(s: string) {
    ',' !in s && '"' !in s && '\n' !in s
  }

  /** The reader recovers the number from its text, and the text stays
      within one cell. */
  predicate RealFiel(leitura: LeituraNumeros, mostrarReal: real -> string, x: real) {
    leitura.lerReal(mostrarReal(x)) == x && ',' !in mostrarReal(x) && '\n' !in mostrarReal(x)
  }

  predicate Exportavel(leitura: LeituraNumeros, mostrarReal: real -> string, p: ProdutoPiso) {
    p.sku != "" && TextoSeguro(p.sku) && TextoSeguro(p.nome) && TextoSeguro(p.colecao_cor) &&
    RealFiel(leitura, mostrarReal, p.dimensao_cm_ladoA) &&
    RealFiel(leitura, mostrarReal, p.dimensao_cm_ladoB) &&
    RealFiel(leitura, mostrarReal, p.preco_m2) &&
    leitura.lerInteiro(IntParaTexto(p.pecas_por_caixa)) == p.pecas_por_caixa &&
    leitura.lerInteiro(IntParaTexto(p.estoque_caixas)) == p.estoque_caixas &&
    leitura.lerInteiro(IntParaTexto(p.estoque_min_caixas)) == p.estoque_min_caixas
  }

  predicate SkusUnicos(pisos: seq<ProdutoPiso>) {
    forall i, j :: 0 <= i < j < |pisos| ==> pisos[i].sku != pisos[j].sku
  }

  /** What an import of an exported product stores: the same fields, the
      coverage recomputed from the geometry unless all of it is zero, and the
      import instant. */
  function Reimportado(agora: Instante): ProdutoPiso -> ProdutoPiso {
    (p: ProdutoPiso) =>
      p.(m2_por_caixa :=
           if p.dimensao_cm_ladoA != 0.0 || p.dimensao_cm_ladoB != 0.0 || p.pecas_por_caixa != 0 then
             CalcularM2PorCaixa(p.dimensao_cm_ladoA, p.dimensao_cm_ladoB, p.pecas_por_caixa)
           else p.m2_por_caixa,
         atualizado_em := agora)
  }

  lemma IntParaTextoSeguro(i: int)
    ensures ',' !in IntParaTexto(i) && '\n' !in IntParaTexto(i) && '"' !in IntParaTexto(i)
  {
    var s := IntParaTexto(i);
    if i >= 0 {
      assert s == NatParaTexto(i);
    }
  }

  /** No column of an exportable product holds a separator or a line break. */
  lemma CamposSeguros(leitura: LeituraNumeros, mostrarReal: real -> string, p: ProdutoPiso)
    requires Exportavel(leitura, mostrarReal, p)
    ensures forall i :: 0 <= i < |CamposExportados(mostrarReal, p)| ==>
      ',' !in CamposExportados(mostrarReal, p)[i] && '\n' !in CamposExportados(mostrarReal, p)[i]
  {
    IntParaTextoSeguro(p.pecas_por_caixa);
    IntParaTextoSeguro(p.estoque_caixas);
    IntParaTextoSeguro(p.estoque_min_caixas);
  }

  /** An exported line splits back into its columns, has no line break and
      is not blank. */
  lemma LinhaSeparada(leitura: LeituraNumeros, mostrarReal: real -> string, p: ProdutoPiso)
    requires Exportavel(leitura, mostrarReal, p)
    ensures var linha := LinhaExportada(mostrarReal, p);
      Split(linha, ',') == CamposExportados(mostrarReal, p) && '\n' !in linha && !EmBranco(linha)
  {
    var campos := CamposExportados(mostrarReal, p);
    var linha := LinhaExportada(mostrarReal, p);
    CamposSeguros(leitura, mostrarReal, p);
    SplitJoin(campos, ',');
    JoinSemCaractere(campos, ',', '\n');
    assert linha == campos[0] + [','] + Join(campos[1..], ',');
    assert linha[|campos[0]|] == ',';
    TrimVazio(linha);
  }

  /** The columns of an exported line pass every check and read back as the
      product's own fields. */
  lemma CamposLidos(leitura: LeituraNumeros, mostrarReal: real -> string, p: ProdutoPiso)
    requires Exportavel(leitura, mostrarReal, p)
    ensures var linha := LinhaExportada(mostrarReal, p);
      Rejeicao(linha).None? && DadosLinha(leitura, linha) == DadosPiso(p)
  {
    LinhaSeparada(leitura, mostrarReal, p);
    CamposAceitos(leitura, mostrarReal, p, LinhaExportada(mostrarReal, p));
  }

  lemma CamposAceitos(leitura: LeituraNumeros, mostrarReal: real -> string, p: ProdutoPiso, linha: string)
    requires Exportavel(leitura, mostrarReal, p)
    requires Split(linha, ',') == CamposExportados(mostrarReal, p)
    ensures Rejeicao(linha).None? && DadosLinha(leitura, linha) == DadosPiso(p)
  {
    LerAcabamentoTexto(p.acabamento);
    assert Rejeicao(linha).None?;
    CamposLidosComoDados(leitura, mostrarReal, p, linha);
  }

  /** The columns of an exported line read back as the product's fields. */
  lemma CamposLidosComoDados(leitura: LeituraNumeros, mostrarReal: real -> string, p: ProdutoPiso, linha: string)
    requires Exportavel(leitura, mostrarReal, p)
    requires Split(linha, ',') == CamposExportados(mostrarReal, p) && Rejeicao(linha).None?
    ensures DadosLinha(leitura, linha) == DadosPiso(p)
  {
    var c := Split(linha, ',');
    var d := DadosLinha(leitura, linha);
    LerAcabamentoTexto(p.acabamento);
    assert d.acabamento == p.acabamento;
    RemoverAspasSemAspas(p.sku);
    RemoverAspasEnvolvidas(p.nome);
    RemoverAspasEnvolvidas(p.colecao_cor);
    AtivoLido(p.ativo);
  }

  /** The active flag's text lower-cases to "true" exactly when it is set. */
  lemma AtivoLido(b: bool)
    ensures ParaMinusculas(TextoBooleano(b)) == "true" <==> b
  {
    assert ParaMinusculas("true") == "true";
    assert ParaMinusculas("false")[0] == 'f';
  }

  /** Importing an exported product's own fields updates it into its
      re-imported form. */
  lemma MesclarReimportado(p: ProdutoPiso, agora: Instante)
    ensures MesclarPiso(p, Parcial(DadosPiso(p)), agora) == Reimportado(agora)(p)
  {
  }

  /** The catalog after the first `i` exported lines have been imported. */
  function Parcialmente(st: Estado, agora: Instante, i: nat): Estado
    requires i <= |st.pisos|
  {
    st.(pisos := Map(st.pisos[..i], Reimportado(agora)) + st.pisos[i..])
  }

  lemma PassoReimportacao(st: Estado, agora: Instante, i: nat)
    requires i < |st.pisos|
    requires Valido(st) && SkusUnicos(st.pisos)
    ensures GravarPiso(Parcialmente(st, agora, i), DadosPiso(st.pisos[i]), agora) == (Parcialmente(st, agora, i + 1), true)
  {
    var si := Parcialmente(st, agora, i);
    var p := st.pisos[i];
    FormaParcial(st, agora, i);
    assert forall j :: 0 <= j < i ==> si.pisos[j].sku != p.sku;
    GravarPisoAtualiza(si, DadosPiso(p), agora, i);
    MesclarReimportado(p, agora);
  }

  /** Part way through, the catalog keeps every id and SKU in place and
      stays valid; the next step replaces product `i`. */
  lemma FormaParcial(st: Estado, agora: Instante, i: nat)
    requires i < |st.pisos|
    requires Valido(st)
    ensures var si := Parcialmente(st, agora, i);
      |si.pisos| == |st.pisos| && si.pisos[i] == st.pisos[i] &&
      (forall j :: 0 <= j < |st.pisos| ==> si.pisos[j].sku == st.pisos[j].sku && si.pisos[j].id == st.pisos[j].id) &&
      Valido(si) &&
      Parcialmente(st, agora, i + 1) == si.(pisos := si.pisos[i := Reimportado(agora)(st.pisos[i])])
  {
    var si := Parcialmente(st, agora, i);
    var re := Reimportado(agora);
    ElementosParciais(st, agora, i);
    ElementosParciais(st, agora, i + 1);
    ValidoMesmosIds(st, si);
    assert si.pisos[i := re(st.pisos[i])] == Parcialmente(st, agora, i + 1).pisos;
  }

  /** The first `i` products are re-imported, the others untouched. */
  lemma ElementosParciais(st: Estado, agora: Instante, i: nat)
    requires i <= |st.pisos|
    ensures var si := Parcialmente(st, agora, i);
      |si.pisos| == |st.pisos| &&
      forall j :: 0 <= j < |st.pisos| ==> si.pisos[j] == (if j < i then Reimportado(agora)(st.pisos[j]) else st.pisos[j])
  {
  }

  /** Validity depends only on the ids, the counter and the other lists. */
  lemma ValidoMesmosIds(a: Estado, b: Estado)
    requires Valido(a)
    requires |b.pisos| == |a.pisos| && forall j :: 0 <= j < |a.pisos| ==> b.pisos[j].id == a.pisos[j].id
    requires b.acessorios == a.acessorios && b.movimentacoes == a.movimentacoes && b.proximoId == a.proximoId
    ensures Valido(b)
  {
  }

  /** A line the import accepts and reads back as the product's fields. */
  predicate LinhaReimportavel(leitura: LeituraNumeros, linha: string, p: ProdutoPiso) {
    !EmBranco(linha) && Rejeicao(linha).None? && DadosLinha(leitura, linha) == DadosPiso(p)
  }

  /** Line `j + 1` of the file carries product `j`. */
  predicate LinhasReimportaveis(leitura: LeituraNumeros, pisos: seq<ProdutoPiso>, linhas: seq<string>) {
    |linhas| == |pisos| + 1 &&
    forall j :: 0 <= j < |pisos| ==> LinhaReimportavel(leitura, linhas[j + 1], pisos[j])
  }

  /** The `j`-th line after the header is accepted with product `j`'s fields. */
  predicate ClassesReimportaveis(pisos: seq<ProdutoPiso>, classes: seq<Classe>) {
    |classes| == |pisos| &&
    forall j :: 0 <= j < |pisos| ==> classes[j] == LinhaAceita(DadosPiso(pisos[j]))
  }

  lemma {:induction false} ClassificacaoReimportavel(leitura: LeituraNumeros, pisos: seq<ProdutoPiso>, linhas: seq<string>)
    requires LinhasReimportaveis(leitura, pisos, linhas)
    ensures ClassesReimportaveis(pisos, Classificacoes(leitura, linhas[1..]))
  {
    var classes := Classificacoes(leitura, linhas[1..]);
    forall j | 0 <= j < |pisos| ensures classes[j] == LinhaAceita(DadosPiso(pisos[j])) {
      assert linhas[1..][j] == linhas[j + 1];
      assert LinhaReimportavel(leitura, linhas[j + 1], pisos[j]);
    }
  }

  /** Over a catalog with unique ids and SKUs, the lines carrying the
      products in order update each product in turn. */
  lemma ReimportacaoEncadeada(st: Estado, classes: seq<Classe>, agora: Instante)
    requires Valido(st) && SkusUnicos(st.pisos)
    requires ClassesReimportaveis(st.pisos, classes)
    ensures ProcessarLinhas(st, classes, 0, Gravador(agora)) ==
      (Parcialmente(st, agora, |st.pisos|), 0, |st.pisos|, [])
  {
    var estados := seq(|st.pisos| + 1, j requires 0 <= j <= |st.pisos| => Parcialmente(st, agora, j));
    forall j | 0 <= j < |classes| ensures Atualiza(estados, classes, j, Gravador(agora)) {
      assert classes[j] == LinhaAceita(DadosPiso(st.pisos[j]));
      assert estados[j] == Parcialmente(st, agora, j) && estados[j + 1] == Parcialmente(st, agora, j + 1);
      PassoReimportacao(st, agora, j);
    }
    assert SoAtualizacoes(estados, classes, 0, Gravador(agora));
    ParcialmenteExtremos(st, agora);
    assert estados[0] == st && estados[|classes|] == Parcialmente(st, agora, |st.pisos|);
    FimDasAtualizacoes(estados, classes, st, Parcialmente(st, agora, |st.pisos|), Gravador(agora));
  }

  /** A file whose lines after the header carry the products, one each,
      re-imports every product. */
  lemma {:induction false} ImportacaoDeLinhas(st: Estado, leitura: LeituraNumeros, csv: string, agora: Instante, linhas: seq<string>)
    requires Valido(st) && SkusUnicos(st.pisos)
    requires Split(Trim(csv), '\n') == linhas && linhas[0] == CabecalhoEsperado
    requires LinhasReimportaveis(leitura, st.pisos, linhas)
    ensures ImportarPisosCSV(st, leitura, csv, agora) ==
      (st.(pisos := Map(st.pisos, Reimportado(agora))), ResultadoImportacao(true, 0, |st.pisos|, []))
  {
    var classes := Classificacoes(leitura, linhas[1..]);
    ClassificacaoReimportavel(leitura, st.pisos, linhas);
    ParcialmenteExtremos(st, agora);
    ReimportacaoEncadeada(st, classes, agora);
    FecharImportacao(st, leitura, csv, agora, Parcialmente(st, agora, |st.pisos|), |st.pisos|);
  }

  /** An import whose lines after the header all went through cleanly succeeds. */
  lemma FecharImportacao(st: Estado, leitura: LeituraNumeros, csv: string, agora: Instante, final: Estado, n: nat)
    requires Split(Trim(csv), '\n')[0] == CabecalhoEsperado
    requires ProcessarLinhas(st, Classificacoes(leitura, Split(Trim(csv), '\n')[1..]), 0, Gravador(agora)) == (final, 0, n, [])
    ensures ImportarPisosCSV(st, leitura, csv, agora) == (final, ResultadoImportacao(true, 0, n, []))
  {
  }

  /** Every exported product line reads back as that product. */
  lemma {:induction false} ExportadasReimportaveis(st: Estado, leitura: LeituraNumeros, mostrarReal: real -> string)
    requires forall j :: 0 <= j < |st.pisos| ==> Exportavel(leitura, mostrarReal, st.pisos[j])
    ensures LinhasReimportaveis(leitura, st.pisos, [CabecalhoEsperado] + LinhasProdutos(mostrarReal, st.pisos))
  {
    var linhas := [CabecalhoEsperado] + LinhasProdutos(mostrarReal, st.pisos);
    forall j | 0 <= j < |st.pisos| ensures LinhaReimportavel(leitura, linhas[j + 1], st.pisos[j]) {
      LinhaExportadaReimportavel(leitura, mostrarReal, st.pisos[j], linhas[j + 1]);
    }
  }

  lemma LinhaExportadaReimportavel(leitura: LeituraNumeros, mostrarReal: real -> string, p: ProdutoPiso, linha: string)
    requires Exportavel(leitura, mostrarReal, p) && linha == LinhaExportada(mostrarReal, p)
    ensures LinhaReimportavel(leitura, linha, p)
  {
    LinhaSeparada(leitura, mostrarReal, p);
    CamposLidos(leitura, mostrarReal, p);
  }

  /** Export followed by import: every line updates its own product (none
      created, no error), each product keeps its id and fields, takes the
      import instant, and has its coverage recomputed from its geometry
      unless all of it is zero; accessories and the history are untouched. */
  lemma ExportarImportar(st: Estado, leitura: LeituraNumeros, mostrarReal: real -> string, agora: Instante)
    requires Valido(st) && SkusUnicos(st.pisos)
    requires forall j :: 0 <= j < |st.pisos| ==> Exportavel(leitura, mostrarReal, st.pisos[j])
    ensures var r := ImportarPisosCSV(st, leitura, ExportarCSV(mostrarReal, st.pisos), agora);
      r.1 == ResultadoImportacao(true, 0, |st.pisos|, []) &&
      r.0 == st.(pisos := Map(st.pisos, Reimportado(agora)))
  {
    SeparacaoExportacao(st, leitura, mostrarReal);
    ExportadasReimportaveis(st, leitura, mostrarReal);
    ImportacaoDeLinhas(st, leitura, ExportarCSV(mostrarReal, st.pisos), agora,
                       [CabecalhoEsperado] + LinhasProdutos(mostrarReal, st.pisos));
  }

  lemma ParcialmenteExtremos(st: Estado, agora: Instante)
    ensures Parcialmente(st, agora, 0) == st
    ensures Parcialmente(st, agora, |st.pisos|) == st.(pisos := Map(st.pisos, Reimportado(agora)))
  {
    assert st.pisos[..0] == [] && st.pisos[0..] == st.pisos;
    assert st.pisos[..|st.pisos|] == st.pisos && st.pisos[|st.pisos|..] == [];
  }

  /** The exported text needs no trimming and splits into the header and
      one line per product. */
  lemma SeparacaoExportacao(st: Estado, leitura: LeituraNumeros, mostrarReal: real -> string)
    requires forall j :: 0 <= j < |st.pisos| ==> Exportavel(leitura, mostrarReal, st.pisos[j])
    ensures Split(Trim(ExportarCSV(mostrarReal, st.pisos)), '\n') ==
            [CabecalhoEsperado] + LinhasProdutos(mostrarReal, st.pisos)
  {
    var linhas := [CabecalhoEsperado] + LinhasProdutos(mostrarReal, st.pisos);
    var csv := ExportarCSV(mostrarReal, st.pisos);
    LinhasSemQuebra(st, leitura, mostrarReal);
    BordasEmLetra(mostrarReal, st.pisos);
    TrimLinhas(linhas);
    assert csv == Join(linhas, '\n');
    SepararLinhas(csv, linhas);
  }

  /** The exported text starts and ends with a letter: the header's first
      one, and the last line's final letter (the header's own when the
      catalog is empty). */
  lemma BordasEmLetra(mostrarReal: real -> string, pisos: seq<ProdutoPiso>)
    ensures BordasLetras([CabecalhoEsperado] + LinhasProdutos(mostrarReal, pisos))
  {
    CabecalhoForma();
    var h := CabecalhoEsperado;
    assert Letra(h[0]) && Letra(h[|h| - 1]);
    if |pisos| > 0 {
      var l := LinhaExportada(mostrarReal, pisos[|pisos| - 1]);
      LinhaTerminaEmLetra(mostrarReal, pisos[|pisos| - 1]);
      BordasDeLinhas(h, LinhasProdutos(mostrarReal, pisos), l);
    } else {
      assert [h] + LinhasProdutos(mostrarReal, pisos) == [h];
    }
  }

  lemma BordasDeLinhas(h: string, resto: seq<string>, l: string)
    requires |h| > 0 && Letra(h[0])
    requires |resto| > 0 && resto[|resto| - 1] == l && |l| > 0 && Letra(l[|l| - 1])
    ensures BordasLetras([h] + resto)
  {
    assert ([h] + resto)[|resto|] == l;
  }

  lemma LinhasSemQuebra(st: Estado, leitura: LeituraNumeros, mostrarReal: real -> string)
    requires forall j :: 0 <= j < |st.pisos| ==> Exportavel(leitura, mostrarReal, st.pisos[j])
    ensures SemQuebras([CabecalhoEsperado] + LinhasProdutos(mostrarReal, st.pisos))
  {
    var linhas := [CabecalhoEsperado] + LinhasProdutos(mostrarReal, st.pisos);
    CabecalhoForma();
    forall j | 0 <= j < |linhas| ensures '\n' !in linhas[j] {
      if j > 0 {
        assert linhas[j] == LinhaExportada(mostrarReal, st.pisos[j - 1]);
        LinhaSeparada(leitura, mostrarReal, st.pisos[j - 1]);
      }
    }
  }

  predicate Letra(c: char) {
    'a' <= c <= 'z'
  }

  predicate SemQuebras(linhas: seq<string>) {
    forall j :: 0 <= j < |linhas| ==> '\n' !in linhas[j]
  }

  lemma SepararLinhas(csv: string, linhas: seq<string>)
    requires |linhas| >= 1 && csv == Join(linhas, '\n') && Trim(csv) == csv
    requires SemQuebras(linhas)
    ensures Split(Trim(csv), '\n') == linhas
  {
    SplitJoin(linhas, '\n');
  }

  /** The first line starts with a letter and the last one ends with one. */
  predicate BordasLetras(linhas: seq<string>) {
    |linhas| >= 1 && |linhas[0]| > 0 && Letra(linhas[0][0]) &&
    |linhas[|linhas| - 1]| > 0 && Letra(linhas[|linhas| - 1][|linhas[|linhas| - 1]| - 1])
  }

  lemma TrimLinhas(linhas: seq<string>)
    requires BordasLetras(linhas)
    ensures Trim(Join(linhas, '\n')) == Join(linhas, '\n')
  {
    LetraNaoEspaco(linhas[0][0]);
    LetraNaoEspaco(linhas[|linhas| - 1][|linhas[|linhas| - 1]| - 1]);
    TrimJoin(linhas, '\n');
  }

  lemma LetraNaoEspaco(c: char)
    requires Letra(c)
    ensures !EhEspaco(c)
  {
  }

  /** An exported line ends with the last letter of its active flag. */
  lemma LinhaTerminaEmLetra(mostrarReal: real -> string, p: ProdutoPiso)
    ensures var l := LinhaExportada(mostrarReal, p); |l| > 0 && Letra(l[|l| - 1])
  {
    var campos := CamposExportados(mostrarReal, p);
    var b := TextoBooleano(p.ativo);
    assert b[|b| - 1] == 'e';
    JoinUltimo(campos, ',');
  }

  /** For products whose coverage already agrees with their geometry, export
      then import changes nothing but the update instant. */
  lemma ExportarImportarCoerente(st: Estado, leitura: LeituraNumeros, mostrarReal: real -> string, agora: Instante)
    requires Valido(st) && SkusUnicos(st.pisos)
    requires forall j :: 0 <= j < |st.pisos| ==> Exportavel(leitura, mostrarReal, st.pisos[j])
    requires forall j :: 0 <= j < |st.pisos| ==>
      st.pisos[j].m2_por_caixa ==
      CalcularM2PorCaixa(st.pisos[j].dimensao_cm_ladoA, st.pisos[j].dimensao_cm_ladoB, st.pisos[j].pecas_por_caixa)
    ensures var r := ImportarPisosCSV(st, leitura, ExportarCSV(mostrarReal, st.pisos), agora);
      |r.0.pisos| == |st.pisos| &&
      forall j :: 0 <= j < |st.pisos| ==> r.0.pisos[j] == st.pisos[j].(atualizado_em := agora)
  {
    ExportarImportar(st, leitura, mostrarReal, agora);
    ReimportacaoCoerente(st.pisos, agora);
  }

  /** Re-importing products whose coverage agrees with their geometry only
      moves their update instant. */
  lemma ReimportacaoCoerente(pisos: seq<ProdutoPiso>, agora: Instante)
    requires forall j :: 0 <= j < |pisos| ==>
      pisos[j].m2_por_caixa ==
      CalcularM2PorCaixa(pisos[j].dimensao_cm_ladoA, pisos[j].dimensao_cm_ladoB, pisos[j].pecas_por_caixa)
    ensures |Map(pisos, Reimportado(agora))| == |pisos|
    ensures forall j :: 0 <= j < |pisos| ==> Map(pisos, Reimportado(agora))[j] == pisos[j].(atualizado_em := agora)
  {
  }
}
