/** CSV import of floor products: header check, per-line validation and an
    upsert keyed by SKU. Number parsing (`parseFloat`, `parseInt`) is a
    parameter of the model. */
module Importacao {

  import opened Wrappers
  import opened Seqs
  import opened Texto
  import opened Tipos
  import opened Estoque

  /** The number readers the import applies to the numeric columns. */
  datatype LeituraNumeros = LeituraNumeros(lerReal: string -> real, lerInteiro: string -> int)

  /** The CSV columns, in file order. */
  const Colunas: seq<string> := [
    "sku", "nome", "dimensao_cm_ladoA", "dimensao_cm_ladoB", "pecas_por_caixa", "preco_m2",
    "acabamento", "colecao_cor", "estoque_caixas", "estoque_min_caixas", "ativo"]

  /** The only header the import accepts, also written by the export. */
  const CabecalhoEsperado: string := Join(Colunas, ',')

  /** The header is one line that starts and ends with a letter. */
  lemma CabecalhoForma()
    ensures '\n' !in CabecalhoEsperado
    ensures |CabecalhoEsperado| > 0 && CabecalhoEsperado[0] == 's'
    ensures CabecalhoEsperado[|CabecalhoEsperado| - 1] == 'o'
  {
    JoinSemCaractere(Colunas, ',', '\n');
    JoinUltimo(Colunas, ',');
    assert CabecalhoEsperado == Colunas[0] + [','] + Join(Colunas[1..], ',');
  }

  datatype ResultadoImportacao = ResultadoImportacao(
    sucesso: bool,
    produtos_importados: nat,
    produtos_atualizados: nat,
    erros: seq<string>)

  /** Why a non-blank line is rejected. */
  datatype Motivo = CamposIncorretos | SkuOuNomeAusente | AcabamentoInvalido

  /** The reason's text in an error message. */
  function TextoMotivo(m: Motivo): string {
    match m
    case CamposIncorretos => "Número incorreto de campos"
    case SkuOuNomeAusente => "SKU e nome são obrigatórios"
    case AcabamentoInvalido => "Acabamento deve ser 'fosco' ou 'polido'"
  }

  /** The error text for line `i` of the file, counted from 0 (the header). */
  function MensagemErro(i: nat, m: Motivo): string {
    "Linha " + IntParaTexto(i + 1) + ": " + TextoMotivo(m)
  }

  /** The finish a column names, read exactly (no trimming, no case folding). */
  function LerAcabamento(s: string): (r: Option<Acabamento>)
    ensures r.Some? <==> s == "fosco" || s == "polido"
    ensures r.Some? ==> AcabamentoTexto(r.value) == s
  {
    if s == "fosco" then Some(Fosco) else if s == "polido" then Some(Polido) else None
  }

  lemma LerAcabamentoTexto(a: Acabamento)
    ensures LerAcabamento(AcabamentoTexto(a)) == Some(a)
  {
  }

  predicate EmBranco(linha: string) {
    Trim(linha) == ""
  }

  /** The reason a non-blank line is rejected, checked in this order: field
      count, then raw SKU and name non-empty, then the finish. */
  function Rejeicao(linha: string): (r: Option<Motivo>)
    ensures var c := Split(linha, ',');
      (r == Some(CamposIncorretos) <==> |c| != 11) &&
      (r == Some(SkuOuNomeAusente) <==> |c| == 11 && (c[0] == "" || c[1] == "")) &&
      (r == Some(AcabamentoInvalido) <==> |c| == 11 && c[0] != "" && c[1] != "" && c[6] != "fosco" && c[6] != "polido")
    ensures var c := Split(linha, ',');
      r.None? <==> |c| == 11 && c[0] != "" && c[1] != "" && LerAcabamento(c[6]).Some?
  {
    var campos := Split(linha, ',');
    if |campos| != 11 then Some(CamposIncorretos)
    else if campos[0] == "" || campos[1] == "" then Some(SkuOuNomeAusente)
    else if LerAcabamento(campos[6]).None? then Some(AcabamentoInvalido)
    else None
  }

  predicate Rejeitada(linha: string) {
    !EmBranco(linha) && Rejeicao(linha).Some?
  }

  predicate Aceita(linha: string) {
    !EmBranco(linha) && Rejeicao(linha).None?
  }

  /** The product fields of an accepted line: quotes stripped from the text
      columns, numbers read, `ativo` true exactly for "true" in any case. */
  function DadosLinha(leitura: LeituraNumeros, linha: string): (d: NovoPiso)
    requires Rejeicao(linha).None?
    ensures var c := Split(linha, ',');
      d.sku == RemoverAspas(c[0]) && d.nome == RemoverAspas(c[1]) && d.colecao_cor == RemoverAspas(c[7]) &&
      '"' !in d.sku && '"' !in d.nome && '"' !in d.colecao_cor &&
      AcabamentoTexto(d.acabamento) == c[6] &&
      (d.ativo <==> ParaMinusculas(c[10]) == "true")
    ensures var c := Split(linha, ',');
      d.dimensao_cm_ladoA == leitura.lerReal(c[2]) && d.dimensao_cm_ladoB == leitura.lerReal(c[3]) &&
      d.preco_m2 == leitura.lerReal(c[5]) &&
      d.pecas_por_caixa == leitura.lerInteiro(c[4]) &&
      d.estoque_caixas == leitura.lerInteiro(c[8]) && d.estoque_min_caixas == leitura.lerInteiro(c[9])
  {
    var c := Split(linha, ',');
    NovoPiso(
      RemoverAspas(c[0]),
      RemoverAspas(c[1]),
      leitura.lerReal(c[2]),
      leitura.lerReal(c[3]),
      leitura.lerInteiro(c[4]),
      LerAcabamento(c[6]).value,
      RemoverAspas(c[7]),
      leitura.lerReal(c[5]),
      leitura.lerInteiro(c[8]),
      leitura.lerInteiro(c[9]),
      ParaMinusculas(c[10]) == "true")
  }

  /** Every field of a full record, as an update. */
  function Parcial(d: NovoPiso): PisoParcial {
    PisoParcial(Some(d.sku), Some(d.nome), Some(d.dimensao_cm_ladoA), Some(d.dimensao_cm_ladoB),
                Some(d.pecas_por_caixa), Some(d.acabamento), Some(d.colecao_cor), Some(d.preco_m2),
                Some(d.estoque_caixas), Some(d.estoque_min_caixas), Some(d.ativo))
  }

  function TemSku(sku: string): ProdutoPiso -> bool {
    (p: ProdutoPiso) => p.sku == sku
  }

  /** Upsert by SKU: the first product with the SKU is updated through its
      id (result true), otherwise a product is created (result false). */
  function GravarPiso(st: Estado, dados: NovoPiso, agora: Instante): (r: (Estado, bool))
    ensures r.1 <==> exists j :: 0 <= j < |st.pisos| && st.pisos[j].sku == dados.sku
    ensures !r.1 ==> r.0 == CriarProdutoPiso(st, dados, agora).0
    ensures r.1 ==> |r.0.pisos| == |st.pisos| && r.0.proximoId == st.proximoId
    ensures r.0.acessorios == st.acessorios && r.0.movimentacoes == st.movimentacoes
  {
    match FirstIndex(st.pisos, TemSku(dados.sku))
    case Some(k) => (AtualizarProdutoPiso(st, st.pisos[k].id, Parcial(dados), agora).0, true)
    case None => (CriarProdutoPiso(st, dados, agora).0, false)
  }

  /** After the upsert a product carries the line's fields, and a catalog
      whose counter-issued ids are distinct and below the counter stays so. */
  lemma GravarPisoGrava(st: Estado, dados: NovoPiso, agora: Instante)
    ensures var r := GravarPiso(st, dados, agora);
      (exists j :: 0 <= j < |r.0.pisos| && DadosPiso(r.0.pisos[j]) == dados) &&
      (Valido(st) ==> Valido(r.0))
  {
    match FirstIndex(st.pisos, TemSku(dados.sku))
    case Some(k) =>
      var id := st.pisos[k].id;
      var r := AtualizarProdutoPiso(st, id, Parcial(dados), agora);
      assert GravarPiso(st, dados, agora).0 == r.0;
      assert r.1.Some? by {
        assert st.pisos[k].id == id;
      }
      var j := IndicePiso(st.pisos, id).value;
      assert DadosPiso(r.0.pisos[j]) == dados;
    case None =>
      var r := CriarProdutoPiso(st, dados, agora);
      assert GravarPiso(st, dados, agora).0 == r.0;
      assert r.0.pisos[|st.pisos|] == r.1;
  }

  /** The update of the upsert, pinned down: given the first product `k`
      with the line's SKU, the product updated is the first one carrying
      `k`'s id, merged with every field of the line, and nothing else in the
      state changes. With unique ids that is product `k` itself. */
  lemma GravarPisoAtualiza(st: Estado, dados: NovoPiso, agora: Instante, k: nat)
    requires k < |st.pisos| && st.pisos[k].sku == dados.sku
    requires forall j :: 0 <= j < k ==> st.pisos[j].sku != dados.sku
    ensures IndicePiso(st.pisos, st.pisos[k].id).Some?
    ensures var m := IndicePiso(st.pisos, st.pisos[k].id).value;
      m <= k &&
      GravarPiso(st, dados, agora) == (st.(pisos := st.pisos[m := MesclarPiso(st.pisos[m], Parcial(dados), agora)]), true)
    ensures Valido(st) ==>
      GravarPiso(st, dados, agora) == (st.(pisos := st.pisos[k := MesclarPiso(st.pisos[k], Parcial(dados), agora)]), true)
  {
    var f := FirstIndex(st.pisos, TemSku(dados.sku));
    assert TemSku(dados.sku)(st.pisos[k]);
    assert f == Some(k);
    var id := st.pisos[k].id;
    assert st.pisos[k].id == id;
    var m := IndicePiso(st.pisos, id).value;
    if Valido(st) {
      assert m == k;
    }
  }

  /** What the import does with one line. */
  datatype Classe = LinhaBranca | LinhaRecusada(motivo: Motivo) | LinhaAceita(dados: NovoPiso)

  /** Blank lines are skipped, rejected lines give their reason, accepted
      lines give the product fields they carry. */
  function Classificar(leitura: LeituraNumeros, linha: string): Classe {
    if EmBranco(linha) then LinhaBranca
    else
      match Rejeicao(linha)
      case Some(m) => LinhaRecusada(m)
      case None => LinhaAceita(DadosLinha(leitura, linha))
  }

  /** The classification of every line, in file order. */
  function Classificacoes(leitura: LeituraNumeros, linhas: seq<string>): (r: seq<Classe>)
    ensures |r| == |linhas|
    ensures forall j :: 0 <= j < |linhas| ==> r[j] == Classificar(leitura, linhas[j])
  {
    if |linhas| == 0 then [] else [Classificar(leitura, linhas[0])] + Classificacoes(leitura, linhas[1..])
  }

  predicate Recusada(c: Classe) {
    c.LinhaRecusada?
  }

  predicate Gravada(c: Classe) {
    c.LinhaAceita?
  }

  /** The upsert applied to each accepted line, as a function of the
      catalog and the line's fields. */
  type Gravacao = (Estado, NovoPiso) -> (Estado, bool)

  /** The import's upsert: `GravarPiso` at the import's instant. */
  function Gravador(agora: Instante): Gravacao {
    (st: Estado, d: NovoPiso) => GravarPiso(st, d, agora)
  }

  /** Processes the lines after the header from the `i`-th on, in order:
      blank lines are skipped, rejected lines add an error naming their line
      number in the file (the header being line 1), accepted lines are
      upserted with `gravar`. Returns the state, the created and updated
      counts and the errors. */
  function ProcessarLinhas(st: Estado, classes: seq<Classe>, i: nat, gravar: Gravacao)
    : (r: (Estado, nat, nat, seq<string>))
    requires i <= |classes|
    decreases |classes| - i
  {
    if i == |classes| then
      (st, 0, 0, [])
    else
      match classes[i]
      case LinhaBranca =>
        ProcessarLinhas(st, classes, i + 1, gravar)
      case LinhaRecusada(m) =>
        var r := ProcessarLinhas(st, classes, i + 1, gravar);
        (r.0, r.1, r.2, [MensagemErro(i + 1, m)] + r.3)
      case LinhaAceita(d) =>
        var g := gravar(st, d);
        Contar(g.1, ProcessarLinhas(g.0, classes, i + 1, gravar))
  }

  /** Counts an accepted line as an update when it matched a stored SKU and
      as a creation otherwise. */
  function Contar(atualizou: bool, r: (Estado, nat, nat, seq<string>)): (c: (Estado, nat, nat, seq<string>))
    ensures c.0 == r.0 && c.3 == r.3
    ensures c.1 + c.2 == r.1 + r.2 + 1
    ensures atualizou <==> c.2 == r.2 + 1
  {
    if atualizou then (r.0, r.1, r.2 + 1, r.3) else (r.0, r.1 + 1, r.2, r.3)
  }

  /** An accepted line upserts its product before the following lines are processed. */
  lemma ProcessarAceita(st: Estado, classes: seq<Classe>, i: nat, d: NovoPiso, gravar: Gravacao)
    requires i < |classes| && classes[i] == LinhaAceita(d)
    ensures ProcessarLinhas(st, classes, i, gravar) ==
      Contar(gravar(st, d).1, ProcessarLinhas(gravar(st, d).0, classes, i + 1, gravar))
  {
  }

  /** Line `j` is accepted and updates a stored product of `estados[j]`. */
  predicate Atualiza(estados: seq<Estado>, classes: seq<Classe>, j: nat, gravar: Gravacao) {
    j < |classes| && j + 1 < |estados| && classes[j].LinhaAceita? &&
    gravar(estados[j], classes[j].dados) == (estados[j + 1], true)
  }

  /** From line `i` on every line is accepted and updates a stored product,
      taking the catalog from `estados[j]` to `estados[j + 1]`. */
  predicate SoAtualizacoes(estados: seq<Estado>, classes: seq<Classe>, i: nat, gravar: Gravacao) {
    |estados| == |classes| + 1 && i <= |classes| &&
    forall j :: i <= j < |classes| ==> Atualiza(estados, classes, j, gravar)
  }

  /** A run of lines that each update a stored product ends in the last
      catalog of the run, counts every line as an update, creates nothing
      and reports no error. */
  lemma {:induction false} ProcessarAtualizacoes(estados: seq<Estado>, classes: seq<Classe>, i: nat, gravar: Gravacao)
    requires SoAtualizacoes(estados, classes, i, gravar)
    ensures ProcessarLinhas(estados[i], classes, i, gravar) == (estados[|classes|], 0, |classes| - i, [])
    decreases |classes| - i
  {
    if i < |classes| {
      assert Atualiza(estados, classes, i, gravar);
      ProcessarAtualizacoes(estados, classes, i + 1, gravar);
      ProcessarAceita(estados[i], classes, i, classes[i].dados, gravar);
    }
  }

  /** A whole file of lines that each update a stored product. */
  lemma FimDasAtualizacoes(estados: seq<Estado>, classes: seq<Classe>, inicio: Estado, fim: Estado, gravar: Gravacao)
    requires SoAtualizacoes(estados, classes, 0, gravar)
    requires estados[0] == inicio && estados[|classes|] == fim
    ensures ProcessarLinhas(inicio, classes, 0, gravar) == (fim, 0, |classes|, [])
  {
    ProcessarAtualizacoes(estados, classes, 0, gravar);
  }

  /** The upsert touches only the floor products and keeps a valid catalog valid. */
  ghost predicate Preserva(gravar: Gravacao) {
    forall st: Estado, d: NovoPiso ::
      gravar(st, d).0.acessorios == st.acessorios && gravar(st, d).0.movimentacoes == st.movimentacoes &&
      (Valido(st) ==> Valido(gravar(st, d).0))
  }

  lemma GravadorPreserva(agora: Instante)
    ensures Preserva(Gravador(agora))
  {
    forall st: Estado, d: NovoPiso
      ensures GravarPiso(st, d, agora).0.acessorios == st.acessorios &&
              GravarPiso(st, d, agora).0.movimentacoes == st.movimentacoes &&
              (Valido(st) ==> Valido(GravarPiso(st, d, agora).0))
    {
      GravarPisoGrava(st, d, agora);
    }
  }

  /** Processing touches only the floor products and keeps ids unique. */
  lemma {:induction false} ProcessarPreserva(st: Estado, classes: seq<Classe>, i: nat, gravar: Gravacao)
    requires i <= |classes| && Preserva(gravar)
    ensures var r := ProcessarLinhas(st, classes, i, gravar);
      r.0.acessorios == st.acessorios && r.0.movimentacoes == st.movimentacoes &&
      (Valido(st) ==> Valido(r.0))
    decreases |classes| - i
  {
    if i < |classes| {
      match classes[i]
      case LinhaBranca =>
        ProcessarPreserva(st, classes, i + 1, gravar);
      case LinhaRecusada(_) =>
        ProcessarPreserva(st, classes, i + 1, gravar);
      case LinhaAceita(d) =>
        ProcessarPreserva(gravar(st, d).0, classes, i + 1, gravar);
    }
  }

  /** Every rejected line adds one error and every accepted line one created
      or updated product; blank lines count for nothing. */
  lemma {:induction false} ContagemLinhas(st: Estado, classes: seq<Classe>, i: nat, gravar: Gravacao)
    requires i <= |classes|
    ensures var r := ProcessarLinhas(st, classes, i, gravar);
      |r.3| == |Filter(classes[i..], Recusada)| && r.1 + r.2 == |Filter(classes[i..], Gravada)|
    decreases |classes| - i
  {
    if i == |classes| {
      assert classes[i..] == [];
    } else {
      var c := classes[i];
      assert classes[i..] == [c] + classes[i + 1..];
      FilterConcat([c], classes[i + 1..], Recusada);
      FilterConcat([c], classes[i + 1..], Gravada);
      if c.LinhaAceita? {
        ContagemLinhas(gravar(st, c.dados).0, classes, i + 1, gravar);
      } else {
        ContagemLinhas(st, classes, i + 1, gravar);
      }
    }
  }

  /** The catalog the lines after line `i` are processed over. */
  function Seguinte(st: Estado, c: Classe, gravar: Gravacao): Estado {
    if c.LinhaAceita? then gravar(st, c.dados).0 else st
  }

  /** The errors from line `i` on are line `i`'s own error, if it is
      rejected, followed by the errors of the lines after it. */
  lemma ErrosPasso(st: Estado, classes: seq<Classe>, i: nat, gravar: Gravacao)
    requires i < |classes|
    ensures ProcessarLinhas(st, classes, i, gravar).3 ==
      (if classes[i].LinhaRecusada? then [MensagemErro(i + 1, classes[i].motivo)] else []) +
      ProcessarLinhas(Seguinte(st, classes[i], gravar), classes, i + 1, gravar).3
  {
    match classes[i]
    case LinhaBranca =>
    case LinhaRecusada(_) =>
    case LinhaAceita(d) =>
      ProcessarAceita(st, classes, i, d, gravar);
  }

  /** Every rejected line from the `i`-th on leaves its error, numbered with
      its position in the file, among the reported errors. */
  lemma {:induction false} ErroDaLinha(st: Estado, classes: seq<Classe>, i: nat, k: nat, gravar: Gravacao)
    requires i <= k < |classes| && classes[k].LinhaRecusada?
    ensures MensagemErro(k + 1, classes[k].motivo) in ProcessarLinhas(st, classes, i, gravar).3
    decreases |classes| - i
  {
    ErrosPasso(st, classes, i, gravar);
    if i < k {
      ErroDaLinha(Seguinte(st, classes[i], gravar), classes, i + 1, k, gravar);
    }
  }

  /** The file's second line, the first after the header, is reported as line 2. */
  lemma NumeracaoErros(m: Motivo)
    ensures MensagemErro(1, m) == "Linha 2: " + TextoMotivo(m)
  {
    assert IntParaTexto(2) == "2" by {
      assert NatParaTexto(2) == "2";
    }
  }

  /** A line's class is rejected exactly when the line is, and accepted
      exactly when the line is. */
  lemma ClasseDaLinha(leitura: LeituraNumeros, linha: string)
    ensures Recusada(Classificar(leitura, linha)) == Rejeitada(linha)
    ensures Gravada(Classificar(leitura, linha)) == Aceita(linha)
  {
  }

  /** Rejected and accepted lines keep their numbers through classification. */
  lemma FiltroClasses(leitura: LeituraNumeros, linhas: seq<string>)
    ensures |Filter(Classificacoes(leitura, linhas), Recusada)| == |Filter(linhas, Rejeitada)|
    ensures |Filter(Classificacoes(leitura, linhas), Gravada)| == |Filter(linhas, Aceita)|
  {
    var cs := Classificacoes(leitura, linhas);
    forall j | 0 <= j < |linhas|
      ensures Recusada(cs[j]) == Rejeitada(linhas[j]) && Gravada(cs[j]) == Aceita(linhas[j])
    {
      ClasseDaLinha(leitura, linhas[j]);
    }
    FilterLengthsAgree(cs, linhas, Recusada, Rejeitada);
    FilterLengthsAgree(cs, linhas, Gravada, Aceita);
  }

  /** Imports a CSV text: a wrong first line rejects the whole file and
      changes nothing; otherwise every following line is processed, and the
      import succeeds exactly when it reports no error. */
  function ImportarPisosCSV(st: Estado, leitura: LeituraNumeros, csv: string, agora: Instante): (r: (Estado, ResultadoImportacao))
    ensures Split(Trim(csv), '\n')[0] != CabecalhoEsperado ==>
      r.0 == st &&
      r.1 == ResultadoImportacao(false, 0, 0, ["Cabeçalho CSV inválido. Esperado: " + CabecalhoEsperado])
    ensures r.1.sucesso <==> r.1.erros == []
    ensures r.0.acessorios == st.acessorios && r.0.movimentacoes == st.movimentacoes
    ensures Valido(st) ==> Valido(r.0)
  {
    var linhas := Split(Trim(csv), '\n');
    if linhas[0] != CabecalhoEsperado then
      (st, ResultadoImportacao(false, 0, 0, ["Cabeçalho CSV inválido. Esperado: " + CabecalhoEsperado]))
    else
      var classes := Classificacoes(leitura, linhas[1..]);
      var p := ProcessarLinhas(st, classes, 0, Gravador(agora));
      GravadorPreserva(agora);
      ProcessarPreserva(st, classes, 0, Gravador(agora));
      (p.0, ResultadoImportacao(|p.3| == 0, p.1, p.2, p.3))
  }

  /** With a valid header, the import succeeds exactly when no line after it
      is rejected; it reports one error per rejected line and one created or
      updated product per accepted line. */
  lemma ContagemImportacao(st: Estado, leitura: LeituraNumeros, csv: string, agora: Instante)
    requires Split(Trim(csv), '\n')[0] == CabecalhoEsperado
    ensures var linhas := Split(Trim(csv), '\n');
      var r := ImportarPisosCSV(st, leitura, csv, agora).1;
      (r.sucesso <==> forall j :: 1 <= j < |linhas| ==> !Rejeitada(linhas[j])) &&
      |r.erros| == |Filter(linhas[1..], Rejeitada)| &&
      r.produtos_importados + r.produtos_atualizados == |Filter(linhas[1..], Aceita)|
  {
    var linhas := Split(Trim(csv), '\n');
    var p := ProcessarLinhas(st, Classificacoes(leitura, linhas[1..]), 0, Gravador(agora));
    assert ImportarPisosCSV(st, leitura, csv, agora).1 == ResultadoImportacao(|p.3| == 0, p.1, p.2, p.3);
    ContagemCorpo(st, leitura, linhas, agora);
  }

  /** The counts of processing the lines after the first. */
  lemma ContagemCorpo(st: Estado, leitura: LeituraNumeros, linhas: seq<string>, agora: Instante)
    requires |linhas| >= 1
    ensures var p := ProcessarLinhas(st, Classificacoes(leitura, linhas[1..]), 0, Gravador(agora));
      (|p.3| == 0 <==> forall j :: 1 <= j < |linhas| ==> !Rejeitada(linhas[j])) &&
      |p.3| == |Filter(linhas[1..], Rejeitada)| &&
      p.1 + p.2 == |Filter(linhas[1..], Aceita)|
  {
    var classes := Classificacoes(leitura, linhas[1..]);
    ContagemLinhas(st, classes, 0, Gravador(agora));
    assert classes[0..] == classes;
    FiltroClasses(leitura, linhas[1..]);
    FiltroVazio(linhas[1..], Rejeitada);
    assert forall j :: 1 <= j < |linhas| ==> linhas[j] == linhas[1..][j - 1];
  }

  /** A filter is empty exactly when no element passes it. */
  lemma {:induction false} FiltroVazio<T>(s: seq<T>, p: T -> bool)
    ensures |Filter(s, p)| == 0 <==> forall j :: 0 <= j < |s| ==> !p(s[j])
  {
    if |s| > 0 {
      FiltroVazio(s[1..], p);
      if p(s[0]) {
        assert Filter(s, p)[0] == s[0];
      } else {
        assert forall j :: 1 <= j < |s| ==> s[j] == s[1..][j - 1];
      }
    }
  }
}
