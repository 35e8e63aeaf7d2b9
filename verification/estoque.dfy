/** The catalog and the stock ledger: floor products, accessories and the
    movement history held in one state record, with the create / update /
    delete operations and the stock movements that change it. Identifiers
    come from the counter `proximoId`; instants come from the caller. */
module Estoque {

  import opened Wrappers
  import opened Seqs
  import opened Numeros
  import opened Tipos

  datatype Estado = Estado(
    pisos: seq<ProdutoPiso>,
    acessorios: seq<Acessorio>,
    movimentacoes: seq<MovimentacaoEstoque>,
    proximoId: Id)

  /** Every identifier is below the counter, and identifiers are unique
      within the floor products and within the accessories. */
  predicate Valido(st: Estado) {
    (forall i :: 0 <= i < |st.pisos| ==> st.pisos[i].id < st.proximoId) &&
    (forall i :: 0 <= i < |st.acessorios| ==> st.acessorios[i].id < st.proximoId) &&
    (forall i :: 0 <= i < |st.movimentacoes| ==> st.movimentacoes[i].id < st.proximoId) &&
    (forall i, j :: 0 <= i < j < |st.pisos| ==> st.pisos[i].id != st.pisos[j].id) &&
    (forall i, j :: 0 <= i < j < |st.acessorios| ==> st.acessorios[i].id != st.acessorios[j].id)
  }

  // ----- Lookup -----

  function IdDoPiso(p: ProdutoPiso): Id { p.id }

  function IdDoAcessorio(a: Acessorio): Id { a.id }

  function TemIdPiso(id: Id): ProdutoPiso -> bool {
    (p: ProdutoPiso) => p.id == id
  }

  function TemIdAcessorio(id: Id): Acessorio -> bool {
    (a: Acessorio) => a.id == id
  }

  /** Position of the first floor product with this id. */
  function IndicePiso(pisos: seq<ProdutoPiso>, id: Id): (r: Option<nat>)
    ensures r.Some? ==> r.value < |pisos| && pisos[r.value].id == id
    ensures r.Some? ==> forall j :: 0 <= j < r.value ==> pisos[j].id != id
    ensures r.None? ==> forall j :: 0 <= j < |pisos| ==> pisos[j].id != id
  {
    FirstIndex(pisos, TemIdPiso(id))
  }

  /** Position of the first accessory with this id. */
  function IndiceAcessorio(acessorios: seq<Acessorio>, id: Id): (r: Option<nat>)
    ensures r.Some? ==> r.value < |acessorios| && acessorios[r.value].id == id
    ensures r.Some? ==> forall j :: 0 <= j < r.value ==> acessorios[j].id != id
    ensures r.None? ==> forall j :: 0 <= j < |acessorios| ==> acessorios[j].id != id
  {
    FirstIndex(acessorios, TemIdAcessorio(id))
  }

  /** The product of the given kind with this id, if any. */
  function ObterProduto(st: Estado, tipo: TipoProduto, id: Id): (r: Option<Produto>)
    ensures r.None? <==> !ProdutoExiste(st, tipo, id)
    ensures r.Some? ==> r.value.Tipo() == tipo
    ensures r.Some? && tipo == ProdPiso ==> r.value == UmPiso(st.pisos[IndicePiso(st.pisos, id).value])
    ensures r.Some? && tipo == ProdAcessorio ==>
      r.value == UmAcessorio(st.acessorios[IndiceAcessorio(st.acessorios, id).value])
  {
    match tipo
    case ProdPiso =>
      (match IndicePiso(st.pisos, id)
       case None => None
       case Some(k) => Some(UmPiso(st.pisos[k])))
    case ProdAcessorio =>
      (match IndiceAcessorio(st.acessorios, id)
       case None => None
       case Some(k) => Some(UmAcessorio(st.acessorios[k])))
  }

  // ----- Floor products -----

  /** The area in m² of one piece of `ladoA` cm by `ladoB` cm. */
  function AreaPecaM2(ladoA: real, ladoB: real): real {
    (ladoA / 100.0) * (ladoB / 100.0)
  }

  /** Box coverage in m² from the tile sides in cm and pieces per box. */
  function CalcularM2PorCaixa(ladoA: real, ladoB: real, pecasPorCaixa: int): real {
    ladoA * ladoB * (pecasPorCaixa as real) / 10000.0
  }

  /** The coverage is the box's pieces times the area of one piece in m², so
      it is never negative for non-negative sides and piece counts, and
      doubling the pieces doubles it. */
  lemma M2PorCaixaPorPeca(ladoA: real, ladoB: real, pecasPorCaixa: int)
    ensures CalcularM2PorCaixa(ladoA, ladoB, pecasPorCaixa) == (pecasPorCaixa as real) * AreaPecaM2(ladoA, ladoB)
    ensures ladoA >= 0.0 && ladoB >= 0.0 && pecasPorCaixa >= 0 ==> CalcularM2PorCaixa(ladoA, ladoB, pecasPorCaixa) >= 0.0
    ensures CalcularM2PorCaixa(ladoA, ladoB, 2 * pecasPorCaixa) == 2.0 * CalcularM2PorCaixa(ladoA, ladoB, pecasPorCaixa)
  {
    var n := pecasPorCaixa as real;
    assert ladoA * ladoB * n / 10000.0 == n * ((ladoA / 100.0) * (ladoB / 100.0));
    if ladoA >= 0.0 && ladoB >= 0.0 && pecasPorCaixa >= 0 {
      assert ladoA * ladoB >= 0.0;
      assert ladoA * ladoB * n >= 0.0;
    }
  }

  /** Applying the same update twice stores what applying it once does,
      provided no geometry field is given as zero. */
  lemma MesclarIdempotente(p: ProdutoPiso, d: PisoParcial, agora: Instante)
    requires d.dimensao_cm_ladoA != Some(0.0) && d.dimensao_cm_ladoB != Some(0.0) && d.pecas_por_caixa != Some(0)
    ensures MesclarPiso(MesclarPiso(p, d, agora), d, agora) == MesclarPiso(p, d, agora)
  {
  }

  /** A side given as zero is stored, so a repeated update then computes the
      coverage from that zero: the second application differs from the first. */
  lemma MesclarLadoZeroRepetido(p: ProdutoPiso, agora: Instante)
    requires p.dimensao_cm_ladoA == 60.0 && p.pecas_por_caixa == 2
    ensures var d := PisoParcial(None, None, Some(0.0), Some(50.0), None, None, None, None, None, None, None);
      MesclarPiso(p, d, agora).m2_por_caixa == 0.6 &&
      MesclarPiso(MesclarPiso(p, d, agora), d, agora).m2_por_caixa == 0.0
  {
  }

  /** 62 cm × 120 cm, 2 pieces: 1.488 m² per box. */
  lemma CenarioM2PorCaixa()
    ensures CalcularM2PorCaixa(62.0, 120.0, 2) == 1.488
  {
  }

  /** The caller-supplied fields of a floor product. */
  datatype NovoPiso = NovoPiso(
    sku: string,
    nome: string,
    dimensao_cm_ladoA: real,
    dimensao_cm_ladoB: real,
    pecas_por_caixa: int,
    acabamento: Acabamento,
    colecao_cor: string,
    preco_m2: real,
    estoque_caixas: int,
    estoque_min_caixas: int,
    ativo: bool)

  /** The caller-supplied fields a stored product carries. */
  function DadosPiso(p: ProdutoPiso): NovoPiso {
    NovoPiso(p.sku, p.nome, p.dimensao_cm_ladoA, p.dimensao_cm_ladoB, p.pecas_por_caixa,
             p.acabamento, p.colecao_cor, p.preco_m2, p.estoque_caixas, p.estoque_min_caixas, p.ativo)
  }

  /** Appends exactly one product, with a fresh id, the supplied fields and
      the derived box coverage. */
  function CriarProdutoPiso(st: Estado, dados: NovoPiso, agora: Instante): (r: (Estado, ProdutoPiso))
    ensures r.0.pisos == st.pisos + [r.1]
    ensures DadosPiso(r.1) == dados
    ensures r.1.m2_por_caixa == CalcularM2PorCaixa(dados.dimensao_cm_ladoA, dados.dimensao_cm_ladoB, dados.pecas_por_caixa)
    ensures r.1.id == st.proximoId && r.1.atualizado_em == agora
    ensures r.0.acessorios == st.acessorios && r.0.movimentacoes == st.movimentacoes
    ensures Valido(st) ==> Valido(r.0)
  {
    var p := ProdutoPiso(
      st.proximoId, dados.sku, dados.nome, dados.dimensao_cm_ladoA, dados.dimensao_cm_ladoB,
      dados.pecas_por_caixa,
      CalcularM2PorCaixa(dados.dimensao_cm_ladoA, dados.dimensao_cm_ladoB, dados.pecas_por_caixa),
      dados.acabamento, dados.colecao_cor, dados.preco_m2, dados.estoque_caixas,
      dados.estoque_min_caixas, dados.ativo, agora);
    (st.(pisos := st.pisos + [p], proximoId := st.proximoId + 1), p)
  }

  /** A partial update: `None` leaves a field as it is. */
  datatype PisoParcial = PisoParcial(
    sku: Option<string>,
    nome: Option<string>,
    dimensao_cm_ladoA: Option<real>,
    dimensao_cm_ladoB: Option<real>,
    pecas_por_caixa: Option<int>,
    acabamento: Option<Acabamento>,
    colecao_cor: Option<string>,
    preco_m2: Option<real>,
    estoque_caixas: Option<int>,
    estoque_min_caixas: Option<int>,
    ativo: Option<bool>)

  /** An update of the stock count alone. */
  function SoEstoquePiso(estoque: int): PisoParcial {
    PisoParcial(None, None, None, None, None, None, None, None, Some(estoque), None, None)
  }

  /** A field JavaScript's `||` treats as given: present and non-zero. */
  predicate RealVerdadeiro(x: Option<real>) {
    x.Some? && x.value != 0.0
  }

  predicate IntVerdadeiro(x: Option<int>) {
    x.Some? && x.value != 0
  }

  /** `x || padrao` for a number. */
  function OuReal(x: Option<real>, padrao: real): real {
    if RealVerdadeiro(x) then x.value else padrao
  }

  function OuInt(x: Option<int>, padrao: int): int {
    if IntVerdadeiro(x) then x.value else padrao
  }

  /** Some geometry field of the update is given and non-zero. */
  predicate GeometriaInformada(d: PisoParcial) {
    RealVerdadeiro(d.dimensao_cm_ladoA) || RealVerdadeiro(d.dimensao_cm_ladoB) || IntVerdadeiro(d.pecas_por_caixa)
  }

  /** The updated product: supplied fields replace stored ones; the box
      coverage is recomputed from the merged geometry (a zero counts as
      absent there) when some geometry field is given, else kept. */
  function MesclarPiso(p: ProdutoPiso, d: PisoParcial, agora: Instante): ProdutoPiso {
    p.(
      sku := d.sku.GetOr(p.sku),
      nome := d.nome.GetOr(p.nome),
      dimensao_cm_ladoA := d.dimensao_cm_ladoA.GetOr(p.dimensao_cm_ladoA),
      dimensao_cm_ladoB := d.dimensao_cm_ladoB.GetOr(p.dimensao_cm_ladoB),
      pecas_por_caixa := d.pecas_por_caixa.GetOr(p.pecas_por_caixa),
      acabamento := d.acabamento.GetOr(p.acabamento),
      colecao_cor := d.colecao_cor.GetOr(p.colecao_cor),
      preco_m2 := d.preco_m2.GetOr(p.preco_m2),
      estoque_caixas := d.estoque_caixas.GetOr(p.estoque_caixas),
      estoque_min_caixas := d.estoque_min_caixas.GetOr(p.estoque_min_caixas),
      ativo := d.ativo.GetOr(p.ativo),
      m2_por_caixa :=
        if GeometriaInformada(d) then
          CalcularM2PorCaixa(
            OuReal(d.dimensao_cm_ladoA, p.dimensao_cm_ladoA),
            OuReal(d.dimensao_cm_ladoB, p.dimensao_cm_ladoB),
            OuInt(d.pecas_por_caixa, p.pecas_por_caixa))
        else p.m2_por_caixa,
      atualizado_em := agora)
  }

  /** Updates the first product with this id and returns it, or returns
      None and changes nothing when no product has the id. */
  function AtualizarProdutoPiso(st: Estado, id: Id, dados: PisoParcial, agora: Instante): (r: (Estado, Option<ProdutoPiso>))
    ensures r.1.None? <==> forall j :: 0 <= j < |st.pisos| ==> st.pisos[j].id != id
    ensures r.1.None? ==> r.0 == st
    ensures r.1.Some? ==>
      (IndicePiso(st.pisos, id).Some? &&
       var k := IndicePiso(st.pisos, id).value;
       r.0.pisos == st.pisos[k := r.1.value] && r.1.value == MesclarPiso(st.pisos[k], dados, agora))
    ensures r.0.acessorios == st.acessorios && r.0.movimentacoes == st.movimentacoes
    ensures r.0.proximoId == st.proximoId
    ensures Valido(st) ==> Valido(r.0)
  {
    match IndicePiso(st.pisos, id)
    case None => (st, None)
    case Some(k) =>
      var p := MesclarPiso(st.pisos[k], dados, agora);
      (st.(pisos := st.pisos[k := p]), Some(p))
  }

  /** What an update does to the fields: the id never changes, every
      supplied field is stored and every omitted one kept, the timestamp is
      set, and the box coverage is recomputed, from the supplied geometry
      with a zero or missing field falling back to the stored one, exactly
      when a geometry field is given and non-zero. When all three geometry
      fields are given non-zero, the stored coverage is derived from the
      stored geometry again. */
  lemma AtualizacaoPiso(st: Estado, id: Id, dados: PisoParcial, agora: Instante)
    requires exists j :: 0 <= j < |st.pisos| && st.pisos[j].id == id
    ensures var r := AtualizarProdutoPiso(st, id, dados, agora);
      var k := IndicePiso(st.pisos, id).value;
      var antes, depois := st.pisos[k], r.1.value;
      r.1.Some? &&
      depois.id == id &&
      depois.atualizado_em == agora &&
      depois.sku == dados.sku.GetOr(antes.sku) &&
      depois.nome == dados.nome.GetOr(antes.nome) &&
      depois.dimensao_cm_ladoA == dados.dimensao_cm_ladoA.GetOr(antes.dimensao_cm_ladoA) &&
      depois.dimensao_cm_ladoB == dados.dimensao_cm_ladoB.GetOr(antes.dimensao_cm_ladoB) &&
      depois.pecas_por_caixa == dados.pecas_por_caixa.GetOr(antes.pecas_por_caixa) &&
      depois.acabamento == dados.acabamento.GetOr(antes.acabamento) &&
      depois.colecao_cor == dados.colecao_cor.GetOr(antes.colecao_cor) &&
      depois.preco_m2 == dados.preco_m2.GetOr(antes.preco_m2) &&
      depois.estoque_caixas == dados.estoque_caixas.GetOr(antes.estoque_caixas) &&
      depois.estoque_min_caixas == dados.estoque_min_caixas.GetOr(antes.estoque_min_caixas) &&
      depois.ativo == dados.ativo.GetOr(antes.ativo)
    ensures var r := AtualizarProdutoPiso(st, id, dados, agora);
      var k := IndicePiso(st.pisos, id).value;
      var antes, depois := st.pisos[k], r.1.value;
      r.1.Some? &&
      (GeometriaInformada(dados) ==>
        depois.m2_por_caixa == CalcularM2PorCaixa(
          OuReal(dados.dimensao_cm_ladoA, antes.dimensao_cm_ladoA),
          OuReal(dados.dimensao_cm_ladoB, antes.dimensao_cm_ladoB),
          OuInt(dados.pecas_por_caixa, antes.pecas_por_caixa))) &&
      (!GeometriaInformada(dados) ==> depois.m2_por_caixa == antes.m2_por_caixa) &&
      (RealVerdadeiro(dados.dimensao_cm_ladoA) && RealVerdadeiro(dados.dimensao_cm_ladoB) && IntVerdadeiro(dados.pecas_por_caixa) ==>
        depois.m2_por_caixa == CalcularM2PorCaixa(depois.dimensao_cm_ladoA, depois.dimensao_cm_ladoB, depois.pecas_por_caixa))
  {
  }

  /** A zero side counts as "not given" for the coverage but is still
      stored: the coverage is then computed from the old side. */
  lemma AtualizacaoLadoZero(st: Estado, id: Id, agora: Instante, ladoB: real)
    requires exists j :: 0 <= j < |st.pisos| && st.pisos[j].id == id
    requires ladoB != 0.0
    ensures var d := PisoParcial(None, None, Some(0.0), Some(ladoB), None, None, None, None, None, None, None);
      var r := AtualizarProdutoPiso(st, id, d, agora);
      var antes := st.pisos[IndicePiso(st.pisos, id).value];
      r.1.Some? && r.1.value.dimensao_cm_ladoA == 0.0 &&
      r.1.value.m2_por_caixa == CalcularM2PorCaixa(antes.dimensao_cm_ladoA, ladoB, antes.pecas_por_caixa)
  {
  }

  /** Removes the first product with this id; false and no change when
      there is none. */
  function ExcluirProdutoPiso(st: Estado, id: Id): (r: (Estado, bool))
    ensures r.1 <==> exists j :: 0 <= j < |st.pisos| && st.pisos[j].id == id
    ensures !r.1 ==> r.0 == st
    ensures r.1 ==>
      (IndicePiso(st.pisos, id).Some? &&
       var k := IndicePiso(st.pisos, id).value;
       r.0.pisos == st.pisos[..k] + st.pisos[k + 1..])
    ensures r.0.acessorios == st.acessorios && r.0.movimentacoes == st.movimentacoes
    ensures r.0.proximoId == st.proximoId
  {
    match IndicePiso(st.pisos, id)
    case None => (st, false)
    case Some(k) => (st.(pisos := st.pisos[..k] + st.pisos[k + 1..]), true)
  }

  /** With unique ids, a deleted product is gone and the others keep their order. */
  lemma ExclusaoRemoveId(st: Estado, id: Id)
    requires Valido(st)
    ensures var r := ExcluirProdutoPiso(st, id);
      Valido(r.0) &&
      (forall j :: 0 <= j < |r.0.pisos| ==> r.0.pisos[j].id != id) &&
      IsSubsequence(r.0.pisos, st.pisos)
  {
    var r := ExcluirProdutoPiso(st, id);
    if r.1 {
      var k := IndicePiso(st.pisos, id).value;
      SubsequenciaSemPosicao(st.pisos, k);
      IdsSemPosicao(st.pisos, k, IdDoPiso);
    } else {
      SubsequenciaReflexiva(st.pisos);
    }
  }

  /** Removing position `k` from a list with distinct ids (read by `id`)
      leaves distinct ids, none of them `k`'s, each entry taken from the old
      list. */
  lemma IdsSemPosicao<T>(s: seq<T>, k: nat, id: T -> Id)
    requires k < |s|
    requires forall i, j :: 0 <= i < j < |s| ==> id(s[i]) != id(s[j])
    ensures var t := s[..k] + s[k + 1..];
      (forall j :: 0 <= j < |t| ==> id(t[j]) != id(s[k]) && t[j] == s[if j < k then j else j + 1]) &&
      (forall i, j :: 0 <= i < j < |t| ==> id(t[i]) != id(t[j]))
  {
    var t := s[..k] + s[k + 1..];
    forall j | 0 <= j < |t| ensures t[j] == s[if j < k then j else j + 1] {
    }
    forall i, j | 0 <= i < j < |t| ensures id(t[i]) != id(t[j]) {
      var i', j' := if i < k then i else i + 1, if j < k then j else j + 1;
      assert t[i] == s[i'] && t[j] == s[j'];
    }
  }

  lemma {:induction false} SubsequenciaReflexiva<T>(s: seq<T>)
    ensures IsSubsequence(s, s)
  {
    if |s| > 0 {
      SubsequenciaReflexiva(s[1..]);
    }
  }

  lemma {:induction false} SubsequenciaSemPosicao<T>(s: seq<T>, k: nat)
    requires k < |s|
    ensures IsSubsequence(s[..k] + s[k + 1..], s)
    decreases k
  {
    if k == 0 {
      assert s[..0] + s[1..] == s[1..];
      SubsequenciaReflexiva(s[1..]);
    } else {
      SubsequenciaSemPosicao(s[1..], k - 1);
      var a := s[..k] + s[k + 1..];
      assert a[0] == s[0];
      assert a[1..] == s[1..][..k - 1] + s[1..][k..];
    }
  }

  // ----- Accessories -----

  datatype NovoAcessorio = NovoAcessorio(
    sku: string,
    nome: string,
    tipo: TipoAcessorio,
    preco_unit: real,
    estoque_unidades: int,
    estoque_min_unidades: int,
    ativo: bool,
    rendimento_un_medida: Option<string>)

  function DadosAcessorio(a: Acessorio): NovoAcessorio {
    NovoAcessorio(a.sku, a.nome, a.tipo, a.preco_unit, a.estoque_unidades, a.estoque_min_unidades,
                  a.ativo, a.rendimento_un_medida)
  }

  /** Appends exactly one accessory with a fresh id and the supplied fields. */
  function CriarAcessorio(st: Estado, dados: NovoAcessorio, agora: Instante): (r: (Estado, Acessorio))
    ensures r.0.acessorios == st.acessorios + [r.1]
    ensures DadosAcessorio(r.1) == dados
    ensures r.1.id == st.proximoId && r.1.atualizado_em == agora
    ensures r.0.pisos == st.pisos && r.0.movimentacoes == st.movimentacoes
    ensures Valido(st) ==> Valido(r.0)
  {
    var a := Acessorio(st.proximoId, dados.sku, dados.nome, dados.tipo, dados.preco_unit,
                       dados.estoque_unidades, dados.estoque_min_unidades, dados.ativo, agora,
                       dados.rendimento_un_medida);
    (st.(acessorios := st.acessorios + [a], proximoId := st.proximoId + 1), a)
  }

  datatype AcessorioParcial = AcessorioParcial(
    sku: Option<string>,
    nome: Option<string>,
    tipo: Option<TipoAcessorio>,
    preco_unit: Option<real>,
    estoque_unidades: Option<int>,
    estoque_min_unidades: Option<int>,
    ativo: Option<bool>,
    rendimento_un_medida: Option<Option<string>>)

  function SoEstoqueAcessorio(estoque: int): AcessorioParcial {
    AcessorioParcial(None, None, None, None, Some(estoque), None, None, None)
  }

  function MesclarAcessorio(a: Acessorio, d: AcessorioParcial, agora: Instante): Acessorio {
    a.(
      sku := d.sku.GetOr(a.sku),
      nome := d.nome.GetOr(a.nome),
      tipo := d.tipo.GetOr(a.tipo),
      preco_unit := d.preco_unit.GetOr(a.preco_unit),
      estoque_unidades := d.estoque_unidades.GetOr(a.estoque_unidades),
      estoque_min_unidades := d.estoque_min_unidades.GetOr(a.estoque_min_unidades),
      ativo := d.ativo.GetOr(a.ativo),
      rendimento_un_medida := d.rendimento_un_medida.GetOr(a.rendimento_un_medida),
      atualizado_em := agora)
  }

  /** Updates the first accessory with this id, or returns None and changes
      nothing. */
  function AtualizarAcessorio(st: Estado, id: Id, dados: AcessorioParcial, agora: Instante): (r: (Estado, Option<Acessorio>))
    ensures r.1.None? <==> forall j :: 0 <= j < |st.acessorios| ==> st.acessorios[j].id != id
    ensures r.1.None? ==> r.0 == st
    ensures r.1.Some? ==>
      (IndiceAcessorio(st.acessorios, id).Some? &&
       var k := IndiceAcessorio(st.acessorios, id).value;
       r.0.acessorios == st.acessorios[k := r.1.value] &&
       r.1.value.id == id && r.1.value.atualizado_em == agora &&
       DadosAcessorio(r.1.value) == DadosAcessorio(MesclarAcessorio(st.acessorios[k], dados, agora)))
    ensures r.1.Some? ==>
      var antes, depois := st.acessorios[IndiceAcessorio(st.acessorios, id).value], r.1.value;
      depois.sku == dados.sku.GetOr(antes.sku) &&
      depois.nome == dados.nome.GetOr(antes.nome) &&
      depois.tipo == dados.tipo.GetOr(antes.tipo) &&
      depois.preco_unit == dados.preco_unit.GetOr(antes.preco_unit) &&
      depois.estoque_unidades == dados.estoque_unidades.GetOr(antes.estoque_unidades) &&
      depois.estoque_min_unidades == dados.estoque_min_unidades.GetOr(antes.estoque_min_unidades) &&
      depois.ativo == dados.ativo.GetOr(antes.ativo) &&
      depois.rendimento_un_medida == dados.rendimento_un_medida.GetOr(antes.rendimento_un_medida)
    ensures r.0.pisos == st.pisos && r.0.movimentacoes == st.movimentacoes
    ensures r.0.proximoId == st.proximoId
  {
    match IndiceAcessorio(st.acessorios, id)
    case None => (st, None)
    case Some(k) =>
      var a := MesclarAcessorio(st.acessorios[k], dados, agora);
      (st.(acessorios := st.acessorios[k := a]), Some(a))
  }

  /** Repeating an accessory update with the same fields at the same instant
      changes nothing more: the spread of supplied fields is idempotent. */
  lemma AtualizacaoAcessorioRepetida(st: Estado, id: Id, dados: AcessorioParcial, agora: Instante)
    ensures var um := AtualizarAcessorio(st, id, dados, agora);
      AtualizarAcessorio(um.0, id, dados, agora) == (um.0, um.1)
  {
    match IndiceAcessorio(st.acessorios, id)
    case None =>
    case Some(k) =>
      var um := AtualizarAcessorio(st, id, dados, agora);
      var a := um.1.value;
      IndiceAposTroca(st.acessorios, k, a);
      assert MesclarAcessorio(a, dados, agora) == a;
      assert um.0.acessorios[k := a] == um.0.acessorios;
  }

  /** Replacing the first accessory with an id by one with the same id keeps
      it the first. */
  lemma IndiceAposTroca(s: seq<Acessorio>, k: nat, a: Acessorio)
    requires k < |s| && IndiceAcessorio(s, s[k].id) == Some(k) && a.id == s[k].id
    ensures IndiceAcessorio(s[k := a], a.id) == Some(k)
  {
    var t := s[k := a];
    assert t[k].id == a.id;
  }

  /** Removes the first accessory with this id; false and no change when
      there is none. */
  function ExcluirAcessorio(st: Estado, id: Id): (r: (Estado, bool))
    ensures r.1 <==> exists j :: 0 <= j < |st.acessorios| && st.acessorios[j].id == id
    ensures !r.1 ==> r.0 == st
    ensures r.1 ==>
      (IndiceAcessorio(st.acessorios, id).Some? &&
       var k := IndiceAcessorio(st.acessorios, id).value;
       r.0.acessorios == st.acessorios[..k] + st.acessorios[k + 1..])
    ensures r.0.pisos == st.pisos && r.0.movimentacoes == st.movimentacoes
    ensures r.0.proximoId == st.proximoId
  {
    match IndiceAcessorio(st.acessorios, id)
    case None => (st, false)
    case Some(k) => (st.(acessorios := st.acessorios[..k] + st.acessorios[k + 1..]), true)
  }

  /** With unique ids, a deleted accessory is gone and the others keep their
      order. */
  lemma ExclusaoAcessorioRemoveId(st: Estado, id: Id)
    requires Valido(st)
    ensures var r := ExcluirAcessorio(st, id);
      Valido(r.0) &&
      (forall j :: 0 <= j < |r.0.acessorios| ==> r.0.acessorios[j].id != id) &&
      IsSubsequence(r.0.acessorios, st.acessorios)
  {
    var r := ExcluirAcessorio(st, id);
    if r.1 {
      var k := IndiceAcessorio(st.acessorios, id).value;
      SubsequenciaSemPosicao(st.acessorios, k);
      IdsSemPosicao(st.acessorios, k, IdDoAcessorio);
    } else {
      SubsequenciaReflexiva(st.acessorios);
    }
  }

  // ----- Stock movements -----

  /** The stock after a movement: entry adds, exit subtracts, adjustment sets
      the count; the result is clamped at zero without any error. */
  function NovoEstoque(tipo: TipoMovimentacao, atual: int, quantidade: int): (n: int)
    ensures n >= 0
    ensures tipo == Entrada ==>
      (n == 0 <==> atual + quantidade <= 0) && (n > 0 ==> n == atual + quantidade)
    ensures tipo == Entrada && atual >= 0 && quantidade >= 0 ==> n == atual + quantidade
    ensures tipo == Saida ==>
      (n == 0 <==> atual <= quantidade) && (n > 0 ==> n == atual - quantidade)
    ensures tipo == Ajuste ==>
      (n == 0 <==> quantidade <= 0) && (n > 0 ==> n == quantidade)
  {
    Max(0, match tipo
      case Entrada => atual + quantidade
      case Saida => atual - quantidade
      case Ajuste => quantidade)
  }

  /** An adjustment is absolute: the prior stock does not matter. */
  lemma AjusteAbsoluto(a: int, b: int, q: int)
    ensures NovoEstoque(Ajuste, a, q) == NovoEstoque(Ajuste, b, q)
    ensures NovoEstoque(Ajuste, a, q) == (if q > 0 then q else 0)
  {
  }

  /** Exit undoes an entry of the same quantity from a non-negative stock;
      an exit larger than the stock leaves zero. */
  lemma EntradaSaidaInversas(a: int, q: int)
    requires a >= 0 && q > 0
    ensures NovoEstoque(Saida, NovoEstoque(Entrada, a, q), q) == a
    ensures q > a ==> NovoEstoque(Saida, a, q) == 0
    ensures q <= a ==> NovoEstoque(Saida, a, q) == a - q
  {
  }

  /** The stock fields of a product after a movement: count and timestamp,
      nothing else. */
  function ComEstoquePiso(p: ProdutoPiso, estoque: int, agora: Instante): ProdutoPiso {
    p.(estoque_caixas := estoque, atualizado_em := agora)
  }

  function ComEstoqueAcessorio(a: Acessorio, estoque: int, agora: Instante): Acessorio {
    a.(estoque_unidades := estoque, atualizado_em := agora)
  }

  /** The product a movement refers to exists. */
  predicate ProdutoExiste(st: Estado, produtoTipo: TipoProduto, produtoId: Id) {
    match produtoTipo
    case ProdPiso => exists j :: 0 <= j < |st.pisos| && st.pisos[j].id == produtoId
    case ProdAcessorio => exists j :: 0 <= j < |st.acessorios| && st.acessorios[j].id == produtoId
  }

  /** Records a movement: for a known product its stock becomes the clamped
      new count and one record is appended to the history; for an unknown
      product nothing changes and None is returned. Quantity and reason are
      not checked here. */
  function CriarMovimentacaoEstoque(
    st: Estado, produtoTipo: TipoProduto, produtoId: Id, tipo: TipoMovimentacao,
    quantidade: int, motivo: string, usuarioId: string, agora: Instante): (r: (Estado, Option<MovimentacaoEstoque>))
    ensures r.1.None? <==> !ProdutoExiste(st, produtoTipo, produtoId)
    ensures r.1.None? ==> r.0 == st
    ensures r.1.Some? ==>
      r.1.value == MovimentacaoEstoque(st.proximoId, produtoTipo, produtoId, tipo, quantidade, motivo, usuarioId, agora) &&
      r.0.movimentacoes == st.movimentacoes + [r.1.value] &&
      r.0.proximoId == st.proximoId + 1
    ensures r.1.Some? && produtoTipo == ProdPiso ==>
      IndicePiso(st.pisos, produtoId).Some? &&
      var k := IndicePiso(st.pisos, produtoId).value;
      r.0.pisos == st.pisos[k := ComEstoquePiso(st.pisos[k], NovoEstoque(tipo, st.pisos[k].estoque_caixas, quantidade), agora)] &&
      r.0.acessorios == st.acessorios
    ensures r.1.Some? && produtoTipo == ProdAcessorio ==>
      IndiceAcessorio(st.acessorios, produtoId).Some? &&
      var k := IndiceAcessorio(st.acessorios, produtoId).value;
      r.0.acessorios == st.acessorios[k := ComEstoqueAcessorio(st.acessorios[k], NovoEstoque(tipo, st.acessorios[k].estoque_unidades, quantidade), agora)] &&
      r.0.pisos == st.pisos
    ensures Valido(st) ==> Valido(r.0)
  {
    var mov := MovimentacaoEstoque(st.proximoId, produtoTipo, produtoId, tipo, quantidade, motivo, usuarioId, agora);
    match produtoTipo
    case ProdPiso =>
      (match IndicePiso(st.pisos, produtoId)
       case None => (st, None)
       case Some(k) =>
         var novo := NovoEstoque(tipo, st.pisos[k].estoque_caixas, quantidade);
         var st1 := AtualizarProdutoPiso(st, produtoId, SoEstoquePiso(novo), agora).0;
         (st1.(movimentacoes := st1.movimentacoes + [mov], proximoId := st1.proximoId + 1), Some(mov)))
    case ProdAcessorio =>
      (match IndiceAcessorio(st.acessorios, produtoId)
       case None => (st, None)
       case Some(k) =>
         var novo := NovoEstoque(tipo, st.acessorios[k].estoque_unidades, quantidade);
         var st1 := AtualizarAcessorio(st, produtoId, SoEstoqueAcessorio(novo), agora).0;
         (st1.(movimentacoes := st1.movimentacoes + [mov], proximoId := st1.proximoId + 1), Some(mov)))
  }

  /** After a movement on a floor product its stock is never negative, its
      box coverage is untouched, and every other product is unchanged. */
  lemma MovimentacaoPiso(
    st: Estado, produtoId: Id, tipo: TipoMovimentacao, quantidade: int, motivo: string,
    usuarioId: string, agora: Instante)
    requires exists j :: 0 <= j < |st.pisos| && st.pisos[j].id == produtoId
    ensures var r := CriarMovimentacaoEstoque(st, ProdPiso, produtoId, tipo, quantidade, motivo, usuarioId, agora);
      var k := IndicePiso(st.pisos, produtoId).value;
      r.1.Some? && |r.0.pisos| == |st.pisos| &&
      r.0.pisos[k].estoque_caixas >= 0 &&
      r.0.pisos[k].m2_por_caixa == st.pisos[k].m2_por_caixa &&
      DadosPiso(r.0.pisos[k]) == DadosPiso(st.pisos[k]).(estoque_caixas := r.0.pisos[k].estoque_caixas) &&
      (forall j :: 0 <= j < |st.pisos| && j != k ==> r.0.pisos[j] == st.pisos[j]) &&
      |r.0.movimentacoes| == |st.movimentacoes| + 1
  {
  }

  /** Entry of 25 boxes on a stock of 80 leaves 105; exit of 37 from 40
      leaves 3; exit of 37 from 20 silently leaves 0. */
  lemma CenariosMovimentacao(st: Estado, produtoId: Id, usuarioId: string, agora: Instante)
    requires exists j :: 0 <= j < |st.pisos| && st.pisos[j].id == produtoId
    ensures var k := IndicePiso(st.pisos, produtoId).value;
      CriarMovimentacaoEstoque(ComEstoqueEm(st, k, 80), ProdPiso, produtoId, Entrada, 25, "compra", usuarioId, agora).0.pisos[k].estoque_caixas == 105 &&
      CriarMovimentacaoEstoque(ComEstoqueEm(st, k, 40), ProdPiso, produtoId, Saida, 37, "venda", usuarioId, agora).0.pisos[k].estoque_caixas == 3 &&
      CriarMovimentacaoEstoque(ComEstoqueEm(st, k, 20), ProdPiso, produtoId, Saida, 37, "venda", usuarioId, agora).0.pisos[k].estoque_caixas == 0
  {
    MovimentacaoSobreEstoque(st, produtoId, 80, Entrada, 25, "compra", usuarioId, agora);
    MovimentacaoSobreEstoque(st, produtoId, 40, Saida, 37, "venda", usuarioId, agora);
    MovimentacaoSobreEstoque(st, produtoId, 20, Saida, 37, "venda", usuarioId, agora);
  }

  /** The catalog with floor product `k` holding `e` boxes. */
  function ComEstoqueEm(st: Estado, k: nat, e: int): Estado
    requires k < |st.pisos|
  {
    st.(pisos := st.pisos[k := st.pisos[k].(estoque_caixas := e)])
  }

  /** A movement on a floor product holding `e` boxes leaves it with the
      clamped count the movement computes from `e`. */
  lemma MovimentacaoSobreEstoque(
    st: Estado, produtoId: Id, e: int, tipo: TipoMovimentacao, quantidade: int, motivo: string,
    usuarioId: string, agora: Instante)
    requires exists j :: 0 <= j < |st.pisos| && st.pisos[j].id == produtoId
    ensures var k := IndicePiso(st.pisos, produtoId).value;
      CriarMovimentacaoEstoque(ComEstoqueEm(st, k, e), ProdPiso, produtoId, tipo, quantidade, motivo, usuarioId, agora).0.pisos[k].estoque_caixas
        == NovoEstoque(tipo, e, quantidade)
  {
    var k := IndicePiso(st.pisos, produtoId).value;
    var antes := ComEstoqueEm(st, k, e);
    assert forall j :: 0 <= j < |st.pisos| ==> antes.pisos[j].id == st.pisos[j].id;
    assert IndicePiso(antes.pisos, produtoId) == Some(k);
    MovimentacaoPiso(antes, produtoId, tipo, quantidade, motivo, usuarioId, agora);
  }

  // ----- History listing -----

  /** Newest first: creation instants never increase along the list. */
  predicate MaisRecentesPrimeiro(s: seq<MovimentacaoEstoque>) {
    forall i, j :: 0 <= i < j < |s| ==> s[i].criado_em >= s[j].criado_em
  }

  /** Inserts `m`, which precedes every element of `l` in the history,
      before the first element not newer than it. */
  function InserirPorData(m: MovimentacaoEstoque, l: seq<MovimentacaoEstoque>): (r: seq<MovimentacaoEstoque>)
    ensures multiset(r) == multiset(l) + multiset{m}
    ensures MaisRecentesPrimeiro(l) ==> MaisRecentesPrimeiro(r)
  {
    if |l| == 0 || l[0].criado_em <= m.criado_em then [m] + l
    else
      var resto := InserirPorData(m, l[1..]);
      assert l == [l[0]] + l[1..];
      CabecaMaisRecente(m, l, resto);
      [l[0]] + resto
  }

  /** The head of a newest-first history is at least as recent as anything
      the rest of it holds, and than an older movement. */
  lemma CabecaMaisRecente(m: MovimentacaoEstoque, l: seq<MovimentacaoEstoque>, resto: seq<MovimentacaoEstoque>)
    requires |l| > 0 && l[0].criado_em > m.criado_em
    requires multiset(resto) == multiset(l[1..]) + multiset{m}
    requires MaisRecentesPrimeiro(l[1..]) ==> MaisRecentesPrimeiro(resto)
    ensures multiset([l[0]] + resto) == multiset(l) + multiset{m}
    ensures MaisRecentesPrimeiro(l) ==> MaisRecentesPrimeiro([l[0]] + resto)
  {
    assert l == [l[0]] + l[1..];
    if MaisRecentesPrimeiro(l) {
      assert MaisRecentesPrimeiro(l[1..]);
      CabecaAcimaDoResto(m, l, resto);
      PrefixarOrdenado(l[0], resto);
    }
  }

  lemma CabecaAcimaDoResto(m: MovimentacaoEstoque, l: seq<MovimentacaoEstoque>, resto: seq<MovimentacaoEstoque>)
    requires |l| > 0 && MaisRecentesPrimeiro(l) && l[0].criado_em > m.criado_em
    requires multiset(resto) == multiset(l[1..]) + multiset{m}
    ensures forall j :: 0 <= j < |resto| ==> l[0].criado_em >= resto[j].criado_em
  {
    forall j | 0 <= j < |resto| ensures l[0].criado_em >= resto[j].criado_em {
      assert resto[j] in multiset(resto);
      if resto[j] != m {
        assert resto[j] in multiset(l[1..]);
        var i :| 0 <= i < |l[1..]| && l[1..][i] == resto[j];
        assert l[i + 1] == resto[j];
      }
    }
  }

  /** A movement at least as recent as everything in a newest-first
      history can head it. */
  lemma PrefixarOrdenado(x: MovimentacaoEstoque, s: seq<MovimentacaoEstoque>)
    requires MaisRecentesPrimeiro(s)
    requires forall j :: 0 <= j < |s| ==> x.criado_em >= s[j].criado_em
    ensures MaisRecentesPrimeiro([x] + s)
  {
    var t := [x] + s;
    forall i, j | 0 <= i < j < |t| ensures t[i].criado_em >= t[j].criado_em {
      assert t[j] == s[j - 1];
      if i > 0 {
        assert t[i] == s[i - 1];
      }
    }
  }

  /** The history sorted newest first; a stable insertion sort, as
      `Array.prototype.sort` is. */
  function OrdenarPorData(s: seq<MovimentacaoEstoque>): (r: seq<MovimentacaoEstoque>)
    ensures multiset(r) == multiset(s)
    ensures MaisRecentesPrimeiro(r)
  {
    if |s| == 0 then []
    else
      assert s == [s[0]] + s[1..];
      InserirPorData(s[0], OrdenarPorData(s[1..]))
  }

  /** The movement history, newest first. */
  function ObterMovimentacoes(st: Estado): (r: seq<MovimentacaoEstoque>)
    ensures multiset(r) == multiset(st.movimentacoes)
    ensures MaisRecentesPrimeiro(r)
  {
    OrdenarPorData(st.movimentacoes)
  }

  function CriadoEm(t: Instante): MovimentacaoEstoque -> bool {
    (m: MovimentacaoEstoque) => m.criado_em == t
  }

  lemma {:induction false} InserirEstavel(m: MovimentacaoEstoque, l: seq<MovimentacaoEstoque>, t: Instante)
    ensures Filter(InserirPorData(m, l), CriadoEm(t)) == Filter([m], CriadoEm(t)) + Filter(l, CriadoEm(t))
  {
    if |l| > 0 && l[0].criado_em > m.criado_em {
      var resto := InserirPorData(m, l[1..]);
      assert InserirPorData(m, l) == [l[0]] + resto;
      InserirEstavel(m, l[1..], t);
      FilterPassHead(m, l, resto, CriadoEm(t));
    } else {
      assert InserirPorData(m, l) == [m] + l;
      FilterConcat([m], l, CriadoEm(t));
    }
  }

  /** Stability: movements created at the same instant keep their history
      order in the listing. */
  lemma {:induction false} ListagemEstavel(st: Estado, t: Instante)
    ensures Filter(ObterMovimentacoes(st), CriadoEm(t)) == Filter(st.movimentacoes, CriadoEm(t))
  {
    OrdenacaoEstavel(st.movimentacoes, t);
  }

  lemma {:induction false} OrdenacaoEstavel(s: seq<MovimentacaoEstoque>, t: Instante)
    ensures Filter(OrdenarPorData(s), CriadoEm(t)) == Filter(s, CriadoEm(t))
  {
    if |s| > 0 {
      OrdenacaoEstavel(s[1..], t);
      InserirEstavel(s[0], OrdenarPorData(s[1..]), t);
      FilterConcat([s[0]], s[1..], CriadoEm(t));
      assert s == [s[0]] + s[1..];
    }
  }

  /** A movement recorded at an instant later than every earlier one is
      listed first. */
  lemma NovaMovimentacaoPrimeiro(
    st: Estado, produtoTipo: TipoProduto, produtoId: Id, tipo: TipoMovimentacao,
    quantidade: int, motivo: string, usuarioId: string, agora: Instante)
    requires ProdutoExiste(st, produtoTipo, produtoId)
    requires forall i :: 0 <= i < |st.movimentacoes| ==> st.movimentacoes[i].criado_em < agora
    ensures var r := CriarMovimentacaoEstoque(st, produtoTipo, produtoId, tipo, quantidade, motivo, usuarioId, agora);
      r.1.Some? && ObterMovimentacoes(r.0)[0] == r.1.value
  {
    var r := CriarMovimentacaoEstoque(st, produtoTipo, produtoId, tipo, quantidade, motivo, usuarioId, agora);
    MaisRecenteListadoPrimeiro(st.movimentacoes, r.1.value);
  }

  /** Appended after older movements only, a movement sorts first. */
  lemma MaisRecenteListadoPrimeiro(anteriores: seq<MovimentacaoEstoque>, m: MovimentacaoEstoque)
    requires forall i :: 0 <= i < |anteriores| ==> anteriores[i].criado_em < m.criado_em
    ensures OrdenarPorData(anteriores + [m])[0] == m
  {
    var s := anteriores + [m];
    var l := OrdenarPorData(s);
    assert s[|anteriores|] == m;
    assert m in multiset(s);
    assert m in l;
    var j :| 0 <= j < |l| && l[j] == m;
    assert l[0].criado_em >= m.criado_em;
    assert l[0] in multiset(s);
    assert l[0] in s;
    forall x | x in anteriores ensures x.criado_em < m.criado_em {
      var i :| 0 <= i < |anteriores| && anteriores[i] == x;
    }
    assert l[0] == m;
  }
}
