# Tile-shop quote and stock engine, in Dafny

This project models the core of a tile shop's back office. The shop keeps a catalog of
floor tiles ("pisos") and accessories. It prices a customer's quote by area, checks the
quote against stock, and keeps a stock ledger of entries, exits and adjustments. The
catalog can be exported to CSV and imported back. Logins lock an email for a while after
repeated failures.

The model is functional. Products, accessories, movements, quotes and login counters are
immutable datatypes. Every operation is a pure function from a state record (`Estoque.Estado`
for the catalog and ledger, `Autenticacao.Autenticacao` for logins) to a new state and a result.

- Areas and prices are `real` (exact rationals). Stock counts are `int`.
- The clock is an `agora` parameter, in milliseconds.
- Identifiers come from a counter in the state.
- Number parsing and number-to-text in the CSV path are parameters.
- The import's line processing (`Importacao.ProcessarLinhas`) takes the upsert as a parameter.
  The import passes `Importacao.GravarPiso` at the import instant (`Importacao.Gravador`), so the
  lemmas about processing hold for that upsert and need only what they state of it.

Modules and the source they follow:

| module | file | follows |
|---|---|---|
| `Wrappers`, `Seqs`, `Numeros`, `Texto` | wrappers.dfy, seqs.dfy, numeros.dfy, texto.dfy | helpers: `Option`/`Result`, filter/map/sum over sequences, `Math.ceil`, `split`/`join`/`trim`/`toLowerCase`/`includes`, integer rendering |
| `Tipos` | tipos.dfy | the product, accessory, movement and client shapes of `src/lib/types.ts` |
| `Orcamento` | orcamento.dfy | box count, line subtotal, accessory suggestions, approval validator (`src/lib/utils-orcamento.ts`) |
| `MensagemOrcamento` | mensagem.dfy | the section layout of the quote message (`src/lib/utils-orcamento.ts`) |
| `Estoque` | estoque.dfy | catalog CRUD, stock movements, history listing (`src/lib/utils-estoque.ts`) |
| `StatusEstoque` | status_estoque.dfy | stock badge and sufficiency check |
| `Reposicao` | reposicao.dfy | replenishment report |
| `Importacao` | importacao.dfy | CSV import of floor products |
| `ExportacaoCsv` | exportacao.dfy | CSV export and the export→import round trip (`src/components/CatalogoProdutos.tsx`) |
| `Catalogo` | catalogo.dfy | the catalog screen's search filters |
| `ListaOrcamentos` | lista_orcamentos.dfy | the quote being assembled on the quotes screen (`src/components/ListaOrcamentos.tsx`) |
| `Autenticacao` | autenticacao.dfy | login lockout, permissions, password change (`src/lib/auth.ts`) |

Two behaviours of the source are kept as they are, not "fixed":

- The ledger clamps an exit larger than the stock to 0 without complaint (`Estoque.NovoEstoque`, `Estoque.CenariosMovimentacao`).
  The approval validator refuses the same quote instead (`Orcamento.CenariosAprovacao`).
- The ledger accepts any quantity and any reason.
  The movement form checks for a positive quantity and a non-empty reason before calling it.
  These checks belong to the caller, so `Estoque.CriarMovimentacaoEstoque` has no precondition.

## Model

| member | source | states |
|---|---|---|
| `Numeros.Ceil` | src/lib/utils-orcamento.ts:15 | `Math.ceil`: the result is at least `x`, and one less is below `x` |
| `Numeros.CeilIsLeast` | src/lib/utils-orcamento.ts:15 | every integer at or above `x` is at least the ceiling |
| `Orcamento.CalcularCaixasNecessarias` | src/lib/utils-orcamento.ts:6-21 | the loss area is `area * (1 + perda/100)` with `perda` 10 when omitted; for a positive coverage, the box count covers that area and one box fewer does not |
| `Orcamento.CaixasMinimas` | src/lib/utils-orcamento.ts:15 | any box count that covers the loss area is at least the computed one, so the count is never rounded down |
| `Orcamento.CalcularSubtotalItem` | src/lib/utils-orcamento.ts:24-31 | the subtotal is the `area_com_perda` of `CalcularCaixasNecessarias` times the price per m² (for any non-zero box coverage); that is the client area times 1 + loss/100 times the price, with the loss defaulting to 10 when omitted |
| `Orcamento.SubtotalIndependeDasCaixas` | src/lib/utils-orcamento.ts:29-30 | two products with the same price give the same subtotal whatever their box coverage |
| `Orcamento.CenarioCalculoCaixas` | src/lib/testes-calculo.ts:15-53 | 1.488 m² per box, 50 m² and 10% loss (given or defaulted) give 55 m² and 37 boxes |
| `Orcamento.TetoRaiz` | src/lib/utils-orcamento.ts:73-74 | the baseboard count `ceil(4*sqrt(a))` as the least `c` with `c*c >= 16a` |
| `Orcamento.QuantidadeCobreArea` | src/lib/utils-orcamento.ts:46-76 | `QuantidadeSugerida`: for mortar, grout, wedges and spacers the suggested units times the per-unit coverage (4.5, 9, 17.5 and 11 m²) cover the area and one unit fewer does not; for baseboards the count is the least `c >= 0` with `c*c >= 16*area`, and 0 for a negative area |
| `Orcamento.CeilCobre` | src/lib/utils-orcamento.ts:47-69 | `ceil(x / k)` units of a positive coverage `k` cover `x`, and one unit fewer does not |
| `Orcamento.SugerirAcessorios` | src/lib/utils-orcamento.ts:34-89 | the suggested accessories are exactly the active ones with a positive quantity, in input order, and each carries the quantity of its type's rule |
| `Orcamento.SugestoesEmOrdem` | src/lib/utils-orcamento.ts:40-88 | the suggested accessories form a subsequence of the input |
| `Orcamento.SemAreaSemSugestoes` | src/lib/utils-orcamento.ts:79-85 | an area of zero or less suggests nothing |
| `Orcamento.CenarioRejunte` | src/lib/utils-orcamento.ts:53-57 | 40 m² of grout needs `ceil(40/9) = 5` units |
| `Orcamento.ErrosSaoBloqueios` | src/lib/utils-orcamento.ts:181-189 | the error list is one message per blocking line, in line order |
| `Orcamento.ValidarAprovacaoOrcamento` | src/lib/utils-orcamento.ts:170-195 | approval holds iff no line is inactive or short of boxes; one error per such line; an inactive line gets only the inactive message |
| `Orcamento.CenariosAprovacao` | src/lib/testes-calculo.ts:61-148 | stock 40 against 37 boxes is approved with no error; stock 20 gives exactly "<nome>: precisa de 37 caixas, disponível 20" |
| `MensagemOrcamento.Numerar` | src/lib/utils-orcamento.ts:123-124 | entries are numbered consecutively from the first number, in order |
| `MensagemOrcamento.LinhasResumo` | src/lib/utils-orcamento.ts:142-154 | the area line comes first and the products line second, the total line last; the accessories, freight and discount lines appear iff their value is positive, and carry it |
| `MensagemOrcamento.ResumoEmOrdem` | src/lib/utils-orcamento.ts:142-154 | the summary lines that appear keep the order area, products, accessories, freight, discount, total |
| `MensagemOrcamento.GerarMensagemWhatsApp` | src/lib/utils-orcamento.ts:92-167 | header first, products numbered 1..n in order, the closing text last; the financial summary is followed by the lead time, then by the notes when there are any, then by the closing |
| `MensagemOrcamento.MensagemEmOrdem` | src/lib/utils-orcamento.ts:114-166 | the sections that appear keep the order header, products, accessories, summary, lead time, notes, closing |
| `MensagemOrcamento.SecaoAcessoriosCondicional` | src/lib/utils-orcamento.ts:132-140 | the accessories section appears iff an accessory is selected, and numbers them 1..n in order |
| `MensagemOrcamento.SecaoObservacoesCondicional` | src/lib/utils-orcamento.ts:158-160 | the notes section appears iff the notes are given and non-empty, and carries them |
| `Estoque.IndicePiso` | src/lib/utils-estoque.ts:168-169 | `findIndex` by id: the first position with the id, or none when no product has it |
| `Estoque.ObterProduto` | src/lib/utils-estoque.ts:140-146 | the lookup finds nothing iff no product of that kind has the id; otherwise the first one with it |
| `Estoque.CenarioM2PorCaixa` | src/lib/utils-estoque.ts:149-151 | 62 cm by 120 cm, 2 pieces give 1.488 m² per box |
| `Estoque.M2PorCaixaPorPeca` | src/lib/utils-estoque.ts:149-151 | `CalcularM2PorCaixa` is the pieces per box times one piece's area in m² (sides in cm over 100); it is non-negative for non-negative inputs and doubles with the pieces |
| `Estoque.CriarProdutoPiso` | src/lib/utils-estoque.ts:155-165 | appends exactly one product with the given fields, the id from the counter, the derived coverage and the current instant; as counter ids are never reused, a catalog with distinct ids keeps them distinct |
| `Estoque.AtualizarProdutoPiso` | src/lib/utils-estoque.ts:167-186 | an unknown id returns none and changes nothing; otherwise only that position is replaced, by the merged product |
| `Estoque.AtualizacaoPiso` | src/lib/utils-estoque.ts:171-182 | `MesclarPiso`: the id is kept and the timestamp set; every field is the supplied value or, when omitted, the stored one; when a geometry field is given and non-zero the coverage is `CalcularM2PorCaixa` of the merged sides and pieces, with a zero or omitted field taking the stored value, and otherwise the stored coverage is kept |
| `Estoque.AtualizacaoLadoZero` | src/lib/utils-estoque.ts:174-179 | a side given as 0 is stored, but the coverage falls back to the old side (`||`) |
| `Estoque.MesclarIdempotente` | src/lib/utils-estoque.ts:171-182 | with no geometry field given as zero, applying the same update twice gives the same product as applying it once |
| `Estoque.MesclarLadoZeroRepetido` | src/lib/utils-estoque.ts:174-179 | with a side given as zero the update is not idempotent: a 60 cm side, 2 pieces and the update (side A 0, side B 50) give 0.6 m² once and 0 m² when repeated |
| `Estoque.ExcluirProdutoPiso` | src/lib/utils-estoque.ts:188-194 | true iff some product has the id; then the first one is removed and the others keep their order; false changes nothing |
| `Estoque.ExclusaoRemoveId` | src/lib/utils-estoque.ts:188-194 | with unique ids, no product with the id remains and the catalog is a subsequence of the old one |
| `Estoque.CriarAcessorio` | src/lib/utils-estoque.ts:198-207 | appends exactly one accessory with the given fields and a fresh id |
| `Estoque.AtualizarAcessorio` | src/lib/utils-estoque.ts:209-221 | an unknown id returns none and changes nothing; otherwise only the first position with the id is replaced, by an accessory that keeps the id, takes `agora` as its update instant and holds each of the eight fields as supplied or, when omitted, as stored |
| `Estoque.AtualizacaoAcessorioRepetida` | src/lib/utils-estoque.ts:209-221 | repeating an accessory update with the same fields at the same instant gives the same state and the same accessory |
| `Estoque.ExcluirAcessorio` | src/lib/utils-estoque.ts:223-229 | true iff some accessory has the id; then the first one is removed, else nothing changes; the floor products, the history and the id counter are untouched either way |
| `Estoque.ExclusaoAcessorioRemoveId` | src/lib/utils-estoque.ts:223-229 | with unique ids, no accessory with the id remains, the rest keep their order, and the state stays valid (counter ids distinct and below the counter) |
| `Estoque.NovoEstoque` | src/lib/utils-estoque.ts:262-295 | the stock after a movement is never negative; it is zero exactly when the raw result (stock + quantity for an entry, stock − quantity for an exit, the quantity for an adjustment) is at most zero, and that raw result otherwise; an entry of a non-negative quantity into a non-negative stock gives their sum |
| `Estoque.AjusteAbsoluto` | src/lib/utils-estoque.ts:273-275 | an adjustment ignores the previous stock and sets `max(0, q)` |
| `Estoque.EntradaSaidaInversas` | src/lib/utils-estoque.ts:267-278 | an exit undoes an entry of the same quantity; an exit larger than the stock leaves 0 |
| `Estoque.CriarMovimentacaoEstoque` | src/lib/utils-estoque.ts:233-301 | an unknown product returns none and changes nothing; otherwise one record with the given fields is appended and only that product's stock and timestamp change |
| `Estoque.MovimentacaoPiso` | src/lib/utils-estoque.ts:262-278 | after a floor movement the stock is non-negative, the coverage and other fields are untouched, and every other product is unchanged |
| `Estoque.CenariosMovimentacao` | src/lib/utils-estoque.ts:266-278 | entry 25 on 80 gives 105; exit 37 on 40 gives 3; exit 37 on 20 gives 0 |
| `Estoque.MovimentacaoSobreEstoque` | src/lib/utils-estoque.ts:266-278 | a movement on a floor product holding any given count leaves it with the clamped count computed from that count |
| `Estoque.InserirPorData` | src/lib/utils-estoque.ts:304 | inserting into a newest-first list keeps it newest first and adds exactly one element |
| `Estoque.OrdenarPorData` | src/lib/utils-estoque.ts:304 | the sort is a permutation and newest first |
| `Estoque.ObterMovimentacoes` | src/lib/utils-estoque.ts:303-305 | the listing is a permutation of the history, newest first |
| `Estoque.InserirEstavel` | src/lib/utils-estoque.ts:304 | insertion keeps movements of equal instant in their order |
| `Estoque.ListagemEstavel` | src/lib/utils-estoque.ts:303-305 | the listing is stable: movements of one instant keep their history order |
| `Estoque.NovaMovimentacaoPrimeiro` | src/lib/utils-estoque.ts:299-304 | a movement later than every earlier one is listed first |
| `StatusEstoque.ObterStatusEstoque` | src/lib/utils-estoque.ts:309-352 | grey iff inactive; red iff active and (a given non-zero request exceeds stock, or stock is 0); yellow only at or below the minimum; green only above it |
| `StatusEstoque.StatusSemQuantidade` | src/lib/utils-estoque.ts:331-351 | without a request, red, yellow and green partition the active products by stock |
| `StatusEstoque.CenarioInsuficiente` | src/lib/utils-estoque.ts:323-328 | 37 boxes requested of 20 gives "Estoque insuficiente: precisa de 37 caixas, disponível 20" |
| `StatusEstoque.ValidarEstoqueSuficiente` | src/lib/utils-estoque.ts:356-365 | true iff the product exists, is active and holds at least the quantity |
| `StatusEstoque.ValidacaoConcordaComStatus` | src/lib/utils-estoque.ts:309-365 | for a positive request the check passes iff the badge is green or yellow |
| `Reposicao.ParaRepor` | src/lib/utils-estoque.ts:375-381 | the purchase suggestion is the least non-negative amount bringing stock to twice the minimum |
| `Reposicao.OrdenarPorCriticidade` | src/lib/utils-estoque.ts:398-403 | the sort is a permutation ordered by `stock/min`, zero minimum first |
| `Reposicao.ObterProdutosParaRepor` | src/lib/utils-estoque.ts:369-404 | the report is a permutation of the active products at or below their minimum, sorted by criticality, each entry built from its product |
| `Reposicao.ReposicaoPiso` | src/lib/utils-estoque.ts:373-374 | a floor product is listed iff it is active and at or below its minimum |
| `Reposicao.ReposicaoAcessorio` | src/lib/utils-estoque.ts:386-387 | an accessory is listed iff it is active and at or below its minimum |
| `Reposicao.RelatorioEstavel` | src/lib/utils-estoque.ts:398 | entries of equal criticality keep their report order |
| `Importacao.CabecalhoForma` | src/lib/utils-estoque.ts:413 | the expected header is one line, starting and ending with a letter |
| `Importacao.LerAcabamento` | src/lib/utils-estoque.ts:446 | a finish reads iff it is exactly "fosco" or "polido" |
| `Importacao.Rejeicao` | src/lib/utils-estoque.ts:432-449 | the field-count reason iff the line does not split into 11 fields; the SKU-or-name reason iff it does and the raw SKU or name is empty; the finish reason iff those pass and the finish is neither "fosco" nor "polido"; no reason iff all checks pass |
| `Importacao.DadosLinha` | src/lib/utils-estoque.ts:451-463 | SKU, name and collection are columns 1, 2 and 8 with quotes removed; the sides and price are read as reals from columns 3, 4 and 6, the pieces and stock counts as integers from columns 5, 9 and 10; the finish is column 7's; `ativo` holds iff column 11 lower-cased is "true" |
| `Importacao.GravarPiso` | src/lib/utils-estoque.ts:465-476 | an update iff some stored product has the SKU, else exactly a creation; the product count and id counter stay put on an update; accessories and history are untouched |
| `Importacao.GravarPisoGrava` | src/lib/utils-estoque.ts:465-476 | after the upsert some product carries exactly the line's fields; a catalog whose ids are distinct and below the counter stays so |
| `Importacao.GravarPisoAtualiza` | src/lib/utils-estoque.ts:465-471 | when product `k` is the first with the line's SKU, the upsert replaces the first product holding `k`'s id (at or before `k`) by the merge of it with the line's fields, and changes nothing else; with distinct ids that is product `k` itself |
| `Importacao.ProcessarPreserva` | src/lib/utils-estoque.ts:426-480 | `ProcessarLinhas` with an upsert that touches only floor products and keeps a valid catalog valid changes only the floor products and keeps counter ids distinct |
| `Importacao.ProcessarAceita` | src/lib/utils-estoque.ts:465-476 | an accepted line is upserted first, the following lines are processed over the result, and the line counts as an update iff the upsert matched a stored SKU |
| `Importacao.ProcessarAtualizacoes` | src/lib/utils-estoque.ts:426-480 | a run of lines that each update a stored product ends in the run's last catalog, counts every line as an update, creates nothing and reports no error |
| `Importacao.ErroDaLinha` | src/lib/utils-estoque.ts:427-449 | every rejected line leaves its own numbered error, whatever follows |
| `Importacao.ErrosPasso` | src/lib/utils-estoque.ts:427-449 | the errors from a line on are that line's own error, when it is rejected, followed by the errors of the lines after it |
| `Importacao.NumeracaoErros` | src/lib/utils-estoque.ts:434 | the first line after the header is reported as line 2 |
| `Importacao.ContagemLinhas` | src/lib/utils-estoque.ts:427-481 | `ProcessarLinhas` reports one error per rejected line and counts one creation or update per accepted line; blank lines count for nothing |
| `Importacao.FiltroClasses` | src/lib/utils-estoque.ts:427-449 | classifying the lines keeps the number of rejected lines and of accepted lines |
| `Importacao.ImportarPisosCSV` | src/lib/utils-estoque.ts:408-489 | a wrong header gives failure, zero counts, one error and no change; otherwise success iff there is no error; accessories and history are untouched |
| `Importacao.ContagemImportacao` | src/lib/utils-estoque.ts:427-488 | with the right header, success iff no line is rejected; errors match rejected lines and creations plus updates match accepted lines |
| `ExportacaoCsv.LinhasProdutos` | src/components/CatalogoProdutos.tsx:243-245 | one line per product, inactive ones included, in catalog order |
| `ExportacaoCsv.LinhaSeparada` | src/components/CatalogoProdutos.tsx:244 | an exported line splits back into its 11 columns, has no line break and is not blank |
| `ExportacaoCsv.CamposAceitos` | src/lib/utils-estoque.ts:432-463 | the columns of an exported line pass every check and read back as the product's fields |
| `ExportacaoCsv.PassoReimportacao` | src/lib/utils-estoque.ts:465-471 | over a catalog with unique ids and SKUs whose first `i` products are already re-imported, product `i`'s fields find product `i` by SKU and update it in place, leaving the first `i + 1` re-imported |
| `ExportacaoCsv.ReimportacaoEncadeada` | src/lib/utils-estoque.ts:426-480 | lines carrying the products in catalog order update each product in turn: no creation, no error, one update per product |
| `ExportacaoCsv.SeparacaoExportacao` | src/components/CatalogoProdutos.tsx:241-247 | the text `ExportarCSV` builds needs no trimming and splits into the importer's header and one line per product |
| `ExportacaoCsv.ExportarImportar` | src/components/CatalogoProdutos.tsx:241-247 | importing `ExportarCSV`'s text into the same catalog updates every product (no creation, no error); ids and fields stay, the coverage is recomputed from the geometry, accessories and history are untouched |
| `ExportacaoCsv.ExportarImportarCoerente` | src/lib/utils-estoque.ts:465-471 | when each coverage already matches its geometry, export then import changes only the update instant |
| `Catalogo.PisosFiltrados` | src/components/CatalogoProdutos.tsx:87-97 | the listed floors are an order-preserving subsequence holding exactly the products that pass the search, finish and active filters, each as many times as the catalog holds it |
| `Catalogo.AcessoriosFiltrados` | src/components/CatalogoProdutos.tsx:99-107 | the listed accessories are an order-preserving subsequence holding exactly those matching by name or SKU and the active filter, each as many times as the catalog holds it |
| `Catalogo.SemFiltrosListaTudo` | src/components/CatalogoProdutos.tsx:88-94 | with no query and no filter the whole catalog is listed |
| `Catalogo.BuscaIgnoraCaixa` | src/components/CatalogoProdutos.tsx:88-91 | a query and its lower-case form list the same products |
| `Catalogo.AtivoParticiona` | src/components/CatalogoProdutos.tsx:94 | the "true" and "false" active filters split the unfiltered list between them |
| `ListaOrcamentos.CalcularTotais` | src/components/ListaOrcamentos.tsx:126-148 | the total area is the sum of the items' loss areas, the product value the sum of loss area times price, the accessory value the sum of the accessory subtotals; the final value is products + accessories + freight − discount |
| `ListaOrcamentos.ProdutoAtivo` | src/components/ListaOrcamentos.tsx:100-154 | none iff no active catalog product has the id; otherwise the first catalog product that is active and has it |
| `ListaOrcamentos.AdicionarProduto` | src/components/ListaOrcamentos.tsx:153-161 | an id naming no active product changes nothing; otherwise one item is appended with the area and the loss (10 when omitted) |
| `ListaOrcamentos.RemoverProduto` | src/components/ListaOrcamentos.tsx:165-166 | only the given position is removed and the rest keep their order; an out-of-range index changes nothing |
| `ListaOrcamentos.TotaisAposAdicionar` | src/components/ListaOrcamentos.tsx:126-161 | adding raises the area by the item's loss area and the product value by that area times the price |
| `ListaOrcamentos.TotaisAposRemover` | src/components/ListaOrcamentos.tsx:126-166 | removing takes exactly the item's area and value out of the totals |
| `ListaOrcamentos.RemoverDesfazAdicionar` | src/components/ListaOrcamentos.tsx:153-166 | removing the item just added restores the quote |
| `ListaOrcamentos.AplicarSugestaoAcessorios` | src/components/ListaOrcamentos.tsx:170-177 | the selection becomes one entry per suggestion, with subtotal = quantity × unit price; everything else is kept |
| `ListaOrcamentos.SugestaoSoAtivos` | src/components/ListaOrcamentos.tsx:101-171 | every accessory written by the suggestion is an active catalog accessory |
| `ListaOrcamentos.ValorAposSugestao` | src/components/ListaOrcamentos.tsx:136-177 | after the suggestion, the accessory value is the sum of quantity × price over the suggestions |
| `ListaOrcamentos.ValidarEnvio` | src/components/ListaOrcamentos.tsx:210-213 | sending is refused, with the fixed message, iff no client is selected or there is no item |
| `ListaOrcamentos.EnvioAcompanhaItens` | src/components/ListaOrcamentos.tsx:153-213 | with a client selected, adding an active product makes the quote sendable to that client, and removing its only item makes it refused with the fixed message |
| `Autenticacao.MinutosRestantes` | src/lib/auth.ts:73 | the minutes shown are the least whole number of minutes covering the time left |
| `Autenticacao.AutenticarUsuario` | src/lib/auth.ts:63-121 | success iff not locked, password right and an active user with the email; a locked email is refused with the minutes left and nothing changes; any other failure gives the generic error and one more failure at `agora`; success clears the counter and stamps the last login on the first active user with the email, leaving every other user as it was |
| `Autenticacao.QuintaFalhaBloqueia` | src/lib/auth.ts:68-109 | the fifth failure locks the email: for 15 minutes any password is refused and nothing changes |
| `Autenticacao.JanelaExpiradaReinicia` | src/lib/auth.ts:79-81 | once the lock has run out, the attempt goes as if the email had never failed |
| `Autenticacao.FalhaConta` | src/lib/auth.ts:87-109 | a failure below the limit adds exactly one to the counter; the lock starts when it reaches 5 |
| `Autenticacao.TemPermissao` | src/lib/auth.ts:203-216 | inactive users may do nothing; active users may view; editing is allowed iff the role is admin |
| `Autenticacao.AdminPodeMais` | src/lib/auth.ts:203-216 | an admin may do everything a seller with the same active flag may do |
| `Autenticacao.PrimeiroLoginAutentica` | src/lib/auth.ts:219-221 | for an active user whose email is not locked, the default-password test passes exactly when login with that password succeeds |
| `Autenticacao.TrocaEncerraPrimeiroLogin` | src/lib/auth.ts:219-237 | a password change succeeds iff the current password passes the default-password test and the new one has at least 6 characters; after a change to a different password the old one fails the test and the new one passes |
| `Autenticacao.AlterarSenha` | src/lib/auth.ts:224-237 | a wrong current password or a new one under 6 characters fails with its message and no change; otherwise only the stored password is replaced |
| `Autenticacao.NovaSenhaEntra` | src/lib/auth.ts:224-237 | after a change the new password logs an active, unlocked user in |

## Left out

- Floating point: areas, prices and quotients are exact rationals. IEEE-754 rounding (50 × 1.1 ≠ 55), NaN and Infinity are not represented.
- `Orcamento.CalcularCaixasNecessarias`: requires a non-zero box coverage, because JavaScript returns Infinity or NaN for a division by zero. The totals and the subtotal go through the loss area only and need nothing.
- `Reposicao.OrdenarPorCriticidade`: the JavaScript comparator gives NaN or −Infinity for a zero minimum, so the order is up to the engine. The model places those entries first, in input order.
- Number parsing (`parseFloat`, `parseInt`) in the import is a pair of reader functions given as a parameter. Rendering a `real` in the export is also a parameter. The round-trip lemmas assume the reader inverts the renderer for each product's numbers.
- `Date.now()` identifiers are replaced by a counter in the state. `new Date()` is replaced by the `agora` parameter.
  Counter ids never collide. `Date.now()` ids do when two records are created in the same millisecond, and `findIndex` then finds the first of them.
  An import whose lines create B and B' in one millisecond and then update B' would, in the source, update B instead; the model cannot show this.
  `Importacao.GravarPisoAtualiza` states the first-id behaviour for whatever ids the catalog holds.
- The accessory suggestion's `justificativa` text (`src/lib/utils-orcamento.ts:44-75`) is not modelled; the suggestion carries the accessory and its quantity only. It is display text built with `toFixed`.
- A stock movement records the acting user by id (`usuario_id`); the `usuario` object attached beside it (`src/lib/utils-estoque.ts:257`) is not modelled, since nothing in the core reads it.
- The `catch` branch of the import cannot be reached once parsing is total, so it is not modelled.
- `toLowerCase` folds ASCII letters only.
- `Autenticacao.AlterarSenha`: the length check counts Dafny characters, not JavaScript's UTF-16 code units. The two differ only for characters outside the Basic Multilingual Plane.
- Text formatting (`formatarMoeda`, `formatarArea`, `toFixed`, `toLocaleDateString`, the emoji and wording of each line): the quote message is modelled as its sections and the values they print, not as one string.
- `Importacao.ContagemImportacao`: counts creations and updates together. Which accepted line creates and which updates depends on the SKUs already stored and on earlier lines, as `Importacao.GravarPiso` states.
- Token and session functions (`gerarToken`, `validarToken`, `salvarSessao`, `obterSessao`, `limparSessao`): browser storage, base64 and JSON.
- The seed catalog and the seeded users and passwords. The states are parameters instead. Seed coverages are rounded literals and would not satisfy the derivation.
- React rendering, dialogs, form state, the WhatsApp URL, `window.open` and the CSV download.
- The movement form's guards (quantity > 0, non-empty reason) belong to the caller. The ledger is modelled without them.
- The middleware passes every request through, so there is nothing to model.
