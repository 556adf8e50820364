# Costing store of `calcula_orcamentos`, modelled in Dafny

`database.py` is the data layer of a small costing calculator for handmade pieces. It keeps six
SQLite tables:

- `materiais`: name, unit, quantity acquired, cost;
- `tecidos`: name, length, width, cost;
- `configuracoes`: a single row with the hourly labour rate and the profit margin;
- `pecas`: name, production hours, last suggested price;
- `pecas_materiais` and `pecas_tecidos`: the association tables, one row per (piece, material or fabric, amount used).

On top of these tables, `compute_peca_cost` prices a piece:
- every material used costs `custo_total / quantidade_adquirida × quantidade_usada`;
- every fabric used costs `custo_total / (comprimento × largura) × area_usada`;
- labour is `horas × valor_hora`;
- the total is the sum of the three costs;
- the suggested price is `total × (1 + margem/100)`.

The model has six modules:

- `Nomes`: the order of `ORDER BY nome ASC`, which is lexicographic by code point. For UTF-8 text this is the same as SQLite's default BINARY collation. The module proves it is a total order.
- `Tabela`: the three tables with an AUTOINCREMENT key and a `UNIQUE NOT NULL` name, as sequences of rows in key order. It provides lookup, the name check, the sorted listing, and INSERT, UPDATE and DELETE. The UNIQUE constraint is a `Falha(NomeDuplicado)` result, and such a result leaves the table unchanged. The module states which invariants each update keeps: keys in order, unique names, keys below the next key.
- `Esquema`: the non-key columns and the configuration row, with `carregar_configuracoes`.
- `Relacoes`: the association tables and the operations on them:
  - `DELETE … WHERE peca_id = ?`;
  - appending usage rows;
  - the clear-then-append sequence that saves a piece's composition;
  - the inner JOINs `materiais_da_peca` and `tecidos_da_peca`, which drop usage rows whose material or fabric no longer exists.
- `Custos`: `compute_peca_cost` specified three ways:
  - `SomaItens`, what the accumulation loop over the joined items computes;
  - `Soma`, an independent sum over the usage rows themselves;
  - `CustoDaPeca`, the whole result, with a `DivisaoPorZero` result where Python raises ZeroDivisionError.

  Lemmas tie `SomaItens` to `Soma` and state how the cost relates to the price. `SomarParcelas` is the `for` loop itself, proved against `SomaItens`.
- `Banco`: the class `Banco`, holding the six tables and three AUTOINCREMENT counters as fields. Every writing function of `database.py` is a method whose `modifies this` and `ensures` give the complete new state. `ComputePecaCost` is a method with no `modifies` clause, so it changes nothing, and it returns exactly `CustoDaPeca` of the current tables. A worked example ends with a proved cost breakdown of 2 + 5 + 40 = 47 and a price of 51.7.

Two facts of the code shape the model:
- **Uniqueness.** The schema declares `UNIQUE` on `nome_material`, `nome_tecido` and `nome_peca` (database.py:21, 32, 52). So a colliding INSERT or rename raises and writes nothing; the model returns `Falha(NomeDuplicado)` with the tables unchanged.
- **Dangling usage rows.** The cost loops iterate over the inner JOIN (database.py:317-320, 331-334), so a usage row whose material or fabric was deleted is skipped silently (`JuntarAposExcluir`, `CustoAposExcluirMaterial`). The lookup inside the loop always finds its row.

Arithmetic uses Dafny's exact `real`. The numeric input checks in the Streamlit pages (non-negative costs, amounts and material quantities; fabric length and width of at least 1) are not preconditions, because `database.py` accepts any values. They appear as hypotheses of the lemmas that need them. `SomaNaoNegativa`'s bound `medida > 0.0` follows from the pages' `>= 0` bound together with `DivisoresNaoNulos`; a zero material quantity, which the material page accepts, makes `CustoDaPeca` return `DivisaoPorZero`.

## Model

| member | source | states |
|---|---|---|
| `Nomes.NomeAntesReflexiva` | database.py:113 | every name sorts at or before itself |
| `Nomes.NomeAntesTotal` | database.py:113 | any two names are comparable in the listing order |
| `Nomes.NomeAntesTransitiva` | database.py:113 | the listing order is transitive |
| `Nomes.NomeAntesAntissimetrica` | database.py:113 | two names that sort at or before each other are equal |
| `Tabela.NomeExiste` | database.py:98-104 | `nome_material_existe` / `nome_tecido_existe` is true exactly when some row has that name |
| `Tabela.Buscar` | database.py:239-255 | a row found by key carries that key |
| `Tabela.BuscarPrimeira` | database.py:239-255 | the lookup finds nothing exactly when no row has the key, and otherwise the first row that has it |
| `Tabela.BuscarUnico` | database.py:20 | with keys in order, looking up a row's own key returns that row |
| `Tabela.BuscarAnexar` | database.py:120-128 | lookup in a table with one row appended: old rows first, otherwise the new row if its key matches |
| `Tabela.PrimeiroAntesDeTodos` | database.py:113 | a row at or before every row of a sorted sequence can be put in front of it |
| `Tabela.AntesDaCabeca` | database.py:113 | a name at or before the first of a sorted sequence is at or before all of them |
| `Tabela.CabecaAntesDoResto` | database.py:113 | the head of a sorted sequence comes before every row of its tail with one row added |
| `Tabela.InserirOrdenado` | database.py:107-117 | inserting into a sorted listing keeps it sorted and adds exactly that row (multiset) |
| `Tabela.Listar` | database.py:107-117 | `listar_materiais` / `listar_tecidos` / `listar_pecas` return every row once (same multiset) in name order |
| `Tabela.Inserir` | database.py:120-128 | INSERT fails with `NomeDuplicado` exactly when the name exists; on success exactly the new row is added, every other key looks up as before, and a fresh key looks up the new row |
| `Tabela.InserirPreservaBemFormada` | database.py:18-25 | inserting under the next key keeps keys ordered and below the counter, and names unique |
| `Tabela.Regravar` | database.py:130-137 | UPDATE by key keeps the table's length, gives row `id` (if present) the new name and columns, and leaves every other key as it was |
| `Tabela.RegravarEmCadaLinha` | database.py:130-137 | UPDATE by key rewrites exactly the rows with that key, position by position |
| `Tabela.RegravarPreservaBemFormada` | database.py:130-137 | an UPDATE whose new name no other row has keeps the table well formed |
| `Tabela.NomeSoDaPropriaLinha` | database.py:52 | with unique names, no row of another key has the name of row `id` |
| `Tabela.Atualizar` | database.py:130-137 | UPDATE fails with `NomeDuplicado` exactly when row `id` exists and another row has the new name; an absent key changes nothing; otherwise row `id` is rewritten and other keys look up as before |
| `Tabela.AtualizarPreservaBemFormada` | database.py:130-137 | a successful UPDATE keeps the table well formed |
| `Tabela.Excluir` | database.py:140-144 | after DELETE by key nothing has that key and every other key looks up as before |
| `Tabela.ExcluirMembros` | database.py:140-144 | the rows left by DELETE are exactly the rows of other keys |
| `Tabela.BemFormadaComCabeca` | database.py:18-25 | a row whose key and name precede those of a well formed table can lead it |
| `Tabela.ExcluirPreservaBemFormada` | database.py:140-144 | DELETE keeps the table well formed |
| `Esquema.CarregarConfiguracoes` | database.py:213-221 | loading yields row 1 when it exists and rate 0, margin 0 otherwise |
| `Relacoes.DaPeca` | database.py:320 | the usage rows selected by `WHERE peca_id = ?`, in table order, never more than the table has (the selection is characterised by `DaPecaMembros`, `DaPecaConcat`, `LimparDaPeca`, `DaPecaNovos`) |
| `Relacoes.Limpar` | database.py:341-346 | `DELETE … WHERE peca_id = ?` keeps at most the rows it had; `LimparDaPeca` states that exactly `p`'s rows go |
| `Relacoes.DaPecaMembros` | database.py:320 | a usage row is selected for `p` exactly when it is in the table and its `peca_id` is `p` |
| `Relacoes.DaPecaConcat` | database.py:320 | the rows of a piece in two concatenated tables are the rows in each, in order |
| `Relacoes.LimparDaPeca` | database.py:341-346 | after `DELETE … WHERE peca_id = p` piece `p` has no usage rows and every other piece keeps its rows in order |
| `Relacoes.LimparTamanho` | database.py:341-346 | the delete removes exactly as many rows as `p` had, and no other |
| `Relacoes.LimparAnexar` | database.py:341-346 | clearing `p` from a table with a row appended: the row survives exactly when it is not `p`'s |
| `Relacoes.LimparConcatPasso` | database.py:341-346 | inductive step of `LimparConcat` |
| `Relacoes.LimparConcat` | database.py:341-346 | clearing distributes over concatenation |
| `Relacoes.LimparIdempotente` | database.py:341-346 | clearing a piece's rows twice is the same as once |
| `Relacoes.Novos` | database.py:349-366 | one appended usage row per (key, amount) pair, in order, each belonging to `p` |
| `Relacoes.DaPecaNovos` | database.py:349-366 | appended rows belong to `p` and to no other piece |
| `Relacoes.LimparNovos` | database.py:341-366 | clearing `p` removes every row appended for `p` |
| `Relacoes.Substituir` | database.py:341-366 | clear-then-add leaves at most the old rows plus one per pair; `SubstituirDefineUsos` states what `p` then uses |
| `Relacoes.SubstituirDefineUsos` | database.py:341-366 | after clear-and-append, `p` uses exactly the given pairs and every other piece is unchanged |
| `Relacoes.SubstituirIdempotente` | database.py:341-366 | saving the same composition twice leaves the same usage table as saving it once |
| `Relacoes.Juntar` | database.py:313-338 | `materiais_da_peca` / `tecidos_da_peca`: at most one item per usage row; `JuntarMembros` and `JuntarReferenciasVivas` state which items |
| `Relacoes.JuntarTodasVivas` | database.py:317-320 | every position of the join references an existing row and carries its name |
| `Relacoes.JuntarReferenciasVivas` | database.py:313-338 | every joined item references an existing row and carries that row's name |
| `Relacoes.JuntarMembros` | database.py:313-338 | an item is in the join exactly when some usage row of `p` whose row exists yields it |
| `Relacoes.JuntarAnexar` | database.py:313-338 | appending a usage row adds its item to the join exactly when it belongs to `p` and its row exists |
| `Relacoes.DaPecaAnexar` | database.py:320 | appending a usage row adds it to the rows of its own piece only |
| `Relacoes.JuntarSoDependeDaPeca` | database.py:320 | the join of `p` depends only on `p`'s usage rows |
| `Relacoes.JuntarAposLimpar` | database.py:341-346 | after clearing, the join of `p` is empty |
| `Relacoes.JuntarAposSubstituir` | database.py:341-366 | after clear-and-append, the join of `p` is that of the new pairs alone |
| `Relacoes.JuntarAposLimparOutra` | database.py:341-346 | clearing `p` leaves every other piece's join unchanged |
| `Relacoes.SemReferenciaAnexar` | database.py:317-320 | filtering out key `k` from a sequence with one item appended |
| `Relacoes.JuntarAposExcluirPasso` | database.py:317-320 | inductive step of `JuntarAposExcluir` |
| `Relacoes.JuntarAposExcluir` | database.py:140-144 | once material or fabric `k` is deleted (usage rows untouched), the join is the old join without the items that reference `k` |
| `Relacoes.JuntarCompleto` | database.py:317-320 | when every usage row of `p` references an existing row, the join has one item per usage row |
| `Custos.BaseMaterial` | database.py:392-394 | a material divides its cost by the quantity acquired (no contract of its own; used by `SomaJuntar`, `CustoDaPecaFalhas`) |
| `Custos.BaseTecido` | database.py:398-401 | a fabric divides its cost by length × width (no contract of its own; used by `SomaJuntar`, `CustoDaPecaFalhas`) |
| `Custos.Cota` | database.py:391-401 | the share (cost / measure) × amount of one item (no contract of its own; used by `SomarParcelas`, `Soma`) |
| `Custos.Parcela` | database.py:391-401 | one loop iteration: the share of the item, or a failure on a zero measure (no contract of its own; stated by `SomaItensAnexar`) |
| `Custos.SomaItens` | database.py:391-401 | what the loop accumulates from 0 (no contract of its own; `SomarParcelas` is proved against it, `SomaJuntar` ties it to `Soma`) |
| `Custos.Soma` | database.py:384-401 | the reference Σ over the usage rows of `p` whose row exists (no contract of its own; `SomaJuntar`, `SomaNaoNegativa`) |
| `Custos.SomaItensAnexar` | database.py:391-401 | one more loop iteration adds its share, or fails |
| `Custos.SomaItensFalhaPrefixo` | database.py:391-401 | once an iteration has failed, the whole loop fails |
| `Custos.DivisoresNaoNulosAnexar` | database.py:392-394 | the non-zero-divisor condition of a table with one usage row appended |
| `Custos.SomaPassoVivo` | database.py:391-394 | inductive step of `SomaJuntar` for a usage row that joins |
| `Custos.SomaPassoMorto` | database.py:391-394 | inductive step of `SomaJuntar` for a usage row that does not join |
| `Custos.SomaJuntar` | database.py:384-401 | the loop over the join yields Σ over `p`'s usage rows whose row exists of (cost / measure) × amount, and fails exactly when one of those rows has a zero divisor |
| `Custos.SomaNaoNegativa` | database.py:384-401 | with non-negative costs and amounts and non-zero (hence positive) measures, the sum is not negative |
| `Custos.CustoDaPecaFechado` | database.py:372-418 | for a piece that can be costed, the material and fabric costs are the reference sums over the usage rows, labour is hours × rate, the total is their sum and the price is total × (1 + margem/100) |
| `Custos.Orcamento` | database.py:404-410 | the breakdown: labour, total and price (no contract of its own; `MargemSobreOTotal`, `MargemZero`, `PrecoCobreCusto`, `PrecoCresceComMargem`) |
| `Custos.MargemSobreOTotal` | database.py:410 | the price exceeds the total by exactly `margem`% of it |
| `Custos.MargemZero` | database.py:410 | with margem 0 the price equals the total |
| `Custos.PrecoCobreCusto` | database.py:404-410 | with non-negative inputs, labour and total are not negative and the price is at least the total |
| `Custos.PrecoCresceComMargem` | database.py:410 | a larger margin never lowers the price of a non-negative total |
| `Custos.CustoDaPeca` | database.py:372-418 | the whole of `compute_peca_cost` (no contract of its own; `CustoDaPecaFalhas`, `CustoDaPecaValores`, `CustoDaPecaFechado`) |
| `Custos.CustoDaPecaFalhas` | database.py:372-401 | the result is `None` exactly when the piece is absent, and the division error exactly when the piece exists and a joined material has quantity 0 or a joined fabric has area 0 |
| `Custos.CustoDaPecaValores` | database.py:372-418 | for a piece that can be costed, the result is the breakdown built from the two reference sums, the piece's hours and the configuration row (or the zero default) |
| `Custos.CustoIgnoraPrecoSalvo` | database.py:301-307 | rewriting a piece's saved price leaves every piece's computed cost unchanged |
| `Custos.ParcelaAposExcluir` | database.py:140-144 | an item that does not reference the deleted key has the same share afterwards |
| `Custos.SomaItensSemReferencia` | database.py:140-144 | items that do not reference the deleted key accumulate the same cost afterwards |
| `Custos.CustoAposExcluirMaterial` | database.py:140-144 | after a material is deleted, the material loop accumulates the cost of the old join without that material's items |
| `Custos.SomarParcelas` | database.py:391-401 | the `for` loop, started at 0 and accumulating (cost / measure) × amount per item, returns exactly `SomaItens`, failing on a zero measure |
| `Banco.Banco.constructor` | database.py:13-80 | a new database has six empty tables and counters at 1, and is well formed |
| `Banco.Banco.NomeMaterialExiste` | database.py:98-104 | true exactly when some material row has that name |
| `Banco.Banco.NomeTecidoExiste` | database.py:150-156 | true exactly when some fabric row has that name |
| `Banco.Banco.ListarMateriais` | database.py:107-117 | every material row once (same multiset), in name order |
| `Banco.Banco.ListarTecidos` | database.py:159-169 | every fabric row once (same multiset), in name order |
| `Banco.Banco.ListarPecas` | database.py:227-236 | every piece row once (same multiset), in name order |
| `Banco.Banco.GetPeca` | database.py:239-255 | `None` exactly when no piece has the key, otherwise a row of the table with that key |
| `Banco.Banco.Configuracoes` | database.py:213-221 | row 1 of `configuracoes`, or rate 0 and margin 0 when it is missing |
| `Banco.Banco.MateriaisDaPeca` | database.py:313-324 | every item references an existing material and carries its current name |
| `Banco.Banco.TecidosDaPeca` | database.py:327-338 | every item references an existing fabric and carries its current name |
| `Banco.Banco.Custo` | database.py:372-401 | `None` exactly for an absent piece; the division error exactly when the piece exists and a joined material or fabric has a zero measure |
| `Banco.Banco.InserirMaterial` | database.py:120-128 | rejects a taken name with the store unchanged; otherwise appends the row under the next key, which then looks it up, and nothing else changes |
| `Banco.Banco.AtualizarMaterial` | database.py:130-137 | rejects renaming to another row's name with the store unchanged; otherwise only the `materiais` table changes, row `id` gets the new values and other keys are untouched |
| `Banco.Banco.ExcluirMaterial` | database.py:140-144 | removes row `id` only; the usage tables and every other table are untouched |
| `Banco.Banco.InserirTecido` | database.py:172-179 | as `InserirMaterial`, for `tecidos` |
| `Banco.Banco.AtualizarTecido` | database.py:182-189 | as `AtualizarMaterial`, for `tecidos` |
| `Banco.Banco.ExcluirTecido` | database.py:192-196 | as `ExcluirMaterial`, for `tecidos` |
| `Banco.Banco.SalvarConfiguracoes` | database.py:202-210 | afterwards `configuracoes` holds exactly row 1 and loading yields the saved values; nothing else changes |
| `Banco.Banco.InserirPeca` | database.py:258-268 | rejects a taken name with the store unchanged; otherwise returns the fresh key, previously unused, whose row has the given name and hours and price 0 |
| `Banco.Banco.AtualizarPeca` | database.py:271-279 | sets name and hours of row `id`, keeping its saved price (the new table is `Regravar` of the old); same UNIQUE rule; other pieces untouched |
| `Banco.Banco.ExcluirPeca` | database.py:282-296 | afterwards neither the piece nor any usage row of it remains; other pieces keep their rows; materials, fabrics and configuration are untouched |
| `Banco.Banco.SalvarPrecoSugerido` | database.py:301-307 | changes that one column of that one piece (the new table is `Regravar` of the old, or the old table if the piece is absent), and no piece's computed cost |
| `Banco.Banco.LimparRelacoesPeca` | database.py:341-346 | removes exactly `p`'s rows from both association tables: `p`'s joins become empty and every other piece's joins are unchanged |
| `Banco.Banco.AdicionarMaterialNaPeca` | database.py:349-356 | appends one usage row; `p`'s join gains its item exactly when the material exists |
| `Banco.Banco.AdicionarTecidoNaPeca` | database.py:359-366 | appends one usage row; `p`'s join gains its item exactly when the fabric exists |
| `Banco.Banco.ComputePecaCost` | database.py:372-418 | writes nothing and returns exactly `CustoDaPeca` of the current tables |
| `Banco.MontarExemplo` | database.py:120-128 | the example's store after its inserts, where the repeated name is rejected |
| `Banco.CustoMateriaisDoExemplo` | database.py:391-394 | 4 zippers bought 100 for 50 cost 2 |
| `Banco.CustoTecidosDoExemplo` | database.py:397-401 | 500 cm² of a 200 × 150 cm fabric bought for 300 cost 5 |
| `Banco.CustoDoExemplo` | database.py:404-410 | with 2 hours at 20 and a 10% margin, the bag costs 47 and is priced 51.7 |
| `Banco.ExemploBolsa` | database.py:372-418 | the worked example through `compute_peca_cost`: duplicate rejected and breakdown (2, 5, 40, 47, 51.7) |

## Left out

- The SQLite connection, cursor and commit plumbing. Each database function is one atomic state change. A crash between the separate statements of `excluir_peca`, or between the clear and the re-adds of a save, is not modelled.
- `init_db`'s DDL and the `preco_sugerido` migration. The constructor models a freshly created database.
- The Streamlit pages and `app.py`. Their numeric input checks (non-negative costs, amounts and material quantities; fabric length and width of at least 1) are hypotheses of `SomaNaoNegativa` and `PrecoCobreCusto`, not preconditions.
- The pages' check that a name is not empty. Names are unconstrained strings throughout the model, as they are in `database.py`. The page sequence that saves a composition (clear, then add each pair) is modelled by `Relacoes.Substituir`.
- IEEE floating-point rounding and two-decimal display. Arithmetic is exact `real`.
- AUTOINCREMENT beyond "fresh key". Each table's counter starts at 1 and never repeats a key; `sqlite_sequence` is not modelled.
- The own key of the association rows, which is never read.
- The foreign-key declarations, which SQLite does not enforce by default. Usage rows may reference absent pieces, materials or fabrics, as in the source.
- The order in which SQLite returns joined rows, which `materiais_da_peca` / `tecidos_da_peca` leave unspecified. `Relacoes.Juntar` fixes it as the order of the usage table. The model does not prove that the sum is the same under every order.
- The row lookup inside the cost loops (database.py:392, 398) never comes back empty for a joined item (`JuntarReferenciasVivas`). `Parcela` still treats a missing row as a failure instead of the Python `TypeError`.
- `Tabela.Buscar`: its own contract only says a found row carries the key. Its complete contract is proved separately in `BuscarPrimeira`.
- Python's exceptions are modelled as result values:
  - `sqlite3.IntegrityError` on a duplicate name becomes `Falha(NomeDuplicado)`;
  - `ZeroDivisionError` in a cost loop becomes `DivisaoPorZero`.
