/** The store behind `database.py`: the six tables as fields of one object, each database
    function as a method (when it writes) or a function (when it only reads), and
    `compute_peca_cost` as a read-only method with the two accumulation loops. */
module Banco {
  import opened Tabela
  import opened Esquema
  import opened Relacoes
  import opened Custos

  /** A snapshot of every table and the three AUTOINCREMENT counters. */
  datatype Estado = Estado(
    materiais: seq<Linha<DadosMaterial>>,
    tecidos: seq<Linha<DadosTecido>>,
    configuracoes: map<int, Configuracao>,
    pecas: seq<Linha<DadosPeca>>,
    pecasMateriais: seq<Uso>,
    pecasTecidos: seq<Uso>,
    proxMaterial: nat,
    proxTecido: nat,
    proxPeca: nat)

  class Banco {
    var materiais: seq<Linha<DadosMaterial>>
    var tecidos: seq<Linha<DadosTecido>>
    var configuracoes: map<int, Configuracao>
    var pecas: seq<Linha<DadosPeca>>
    var pecasMateriais: seq<Uso>
    var pecasTecidos: seq<Uso>
    /** The key the next INSERT into materiais, tecidos or pecas receives. */
    var proxMaterial: nat
    var proxTecido: nat
    var proxPeca: nat

    function Conteudo(): Estado
      reads this
    {
      Estado(materiais, tecidos, configuracoes, pecas, pecasMateriais, pecasTecidos,
             proxMaterial, proxTecido, proxPeca)
    }

    /** Keys in order and below the next key, names unique per table, and configuracoes
        holding at most its row 1. */
    ghost predicate Valid()
      reads this
    {
      && BemFormada(materiais, proxMaterial)
      && BemFormada(tecidos, proxTecido)
      && BemFormada(pecas, proxPeca)
      && configuracoes.Keys <= {1}
    }

    /** `init_db` on a new database file: six empty tables. */
    constructor ()
      ensures Valid()
      ensures Conteudo() == Estado([], [], map[], [], [], [], 1, 1, 1)
    {
      materiais, tecidos, configuracoes, pecas := [], [], map[], [];
      pecasMateriais, pecasTecidos := [], [];
      proxMaterial, proxTecido, proxPeca := 1, 1, 1;
    }

    // -------------------------------------------------------------------------
    // Queries
    // -------------------------------------------------------------------------

    /** `nome_material_existe`. */
    function NomeMaterialExiste(nome: string): (r: bool)
      reads this
      ensures r <==> exists i :: 0 <= i < |materiais| && materiais[i].nome == nome
    {
      NomeExiste(materiais, nome)
    }

    /** `nome_tecido_existe`. */
    function NomeTecidoExiste(nome: string): (r: bool)
      reads this
      ensures r <==> exists i :: 0 <= i < |tecidos| && tecidos[i].nome == nome
    {
      NomeExiste(tecidos, nome)
    }

    /** `listar_materiais`: every row once, in name order. */
    function ListarMateriais(): (r: seq<Linha<DadosMaterial>>)
      reads this
      ensures OrdenadaPorNome(r) && multiset(r) == multiset(materiais)
    {
      Listar(materiais)
    }

    /** `listar_tecidos`. */
    function ListarTecidos(): (r: seq<Linha<DadosTecido>>)
      reads this
      ensures OrdenadaPorNome(r) && multiset(r) == multiset(tecidos)
    {
      Listar(tecidos)
    }

    /** `listar_pecas`. */
    function ListarPecas(): (r: seq<Linha<DadosPeca>>)
      reads this
      ensures OrdenadaPorNome(r) && multiset(r) == multiset(pecas)
    {
      Listar(pecas)
    }

    /** `get_peca`: `None` exactly when no piece has the key, otherwise a row of the table
        with that key. */
    function GetPeca(id: nat): (r: Option<Linha<DadosPeca>>)
      reads this
      ensures r.None? <==> forall i :: 0 <= i < |pecas| ==> pecas[i].id != id
      ensures r.Some? ==> r.value in pecas && r.value.id == id
    {
      BuscarPrimeira(pecas, id);
      Buscar(pecas, id)
    }

    /** `carregar_configuracoes`: row 1, or rate and margin 0 when it is missing. */
    function Configuracoes(): (c: Configuracao)
      reads this
      ensures 1 in configuracoes ==> c == configuracoes[1]
      ensures 1 !in configuracoes ==> c.valorHora == 0.0 && c.margemLucro == 0.0
    {
      CarregarConfiguracoes(configuracoes)
    }

    /** `materiais_da_peca`: every item references an existing material and carries its name. */
    function MateriaisDaPeca(p: nat): (r: seq<ItemDaPeca>)
      reads this
      ensures forall i :: 0 <= i < |r| ==>
        Buscar(materiais, r[i].refId).Some? && Buscar(materiais, r[i].refId).value.nome == r[i].nome
    {
      JuntarTodasVivas(pecasMateriais, materiais, p);
      Juntar(pecasMateriais, materiais, p)
    }

    /** `tecidos_da_peca`: every item references an existing fabric and carries its name. */
    function TecidosDaPeca(p: nat): (r: seq<ItemDaPeca>)
      reads this
      ensures forall i :: 0 <= i < |r| ==>
        Buscar(tecidos, r[i].refId).Some? && Buscar(tecidos, r[i].refId).value.nome == r[i].nome
    {
      JuntarTodasVivas(pecasTecidos, tecidos, p);
      Juntar(pecasTecidos, tecidos, p)
    }

    /** What `compute_peca_cost(p)` returns on the current tables. */
    function Custo(p: nat): (r: ResultadoCusto)
      reads this
      ensures r.PecaNaoEncontrada? <==> Buscar(pecas, p).None?
      ensures r.DivisaoPorZero? <==> (Buscar(pecas, p).Some? &&
        !(DivisoresNaoNulos(pecasMateriais, materiais, p, BaseMaterial) && DivisoresNaoNulos(pecasTecidos, tecidos, p, BaseTecido)))
    {
      CustoDaPecaFalhas(pecas, configuracoes, pecasMateriais, materiais, pecasTecidos, tecidos, p);
      CustoDaPeca(pecas, configuracoes, pecasMateriais, materiais, pecasTecidos, tecidos, p)
    }

    // -------------------------------------------------------------------------
    // Materials and fabrics
    // -------------------------------------------------------------------------

    /** `inserir_material`: appends a row under the next key, unless the name is taken, in
        which case nothing changes. */
    method InserirMaterial(nome: string, unidade: string, qtd: real, custo: real) returns (r: Resultado<()>)
      requires Valid()
      modifies this
      ensures Valid()
      ensures r.Falha? <==> old(NomeMaterialExiste(nome))
      ensures r.Falha? ==> r.erro == NomeDuplicado && Conteudo() == old(Conteudo())
      ensures r.Ok? ==> Conteudo() == old(Conteudo()).(
        materiais := old(materiais) + [Linha(old(proxMaterial), nome, DadosMaterial(unidade, qtd, custo))],
        proxMaterial := old(proxMaterial) + 1)
      ensures r.Ok? ==> Buscar(materiais, old(proxMaterial)) == Some(Linha(old(proxMaterial), nome, DadosMaterial(unidade, qtd, custo)))
    {
      var d := DadosMaterial(unidade, qtd, custo);
      var novo := Inserir(materiais, proxMaterial, nome, d);
      if novo.Falha? {
        return Falha(novo.erro);
      }
      InserirPreservaBemFormada(materiais, proxMaterial, nome, d);
      materiais := novo.valor;
      proxMaterial := proxMaterial + 1;
      return Ok(());
    }

    /** `atualizar_material`: overwrites every column of row `id`; renaming it to another row's
        name is rejected and changes nothing; an absent key changes nothing. */
    method AtualizarMaterial(id: nat, nome: string, unidade: string, qtd: real, custo: real) returns (r: Resultado<()>)
      requires Valid()
      modifies this
      ensures Valid()
      ensures r.Falha? <==> old(Buscar(materiais, id).Some? && NomeEmOutraLinha(materiais, id, nome))
      ensures r.Falha? ==> r.erro == NomeDuplicado && Conteudo() == old(Conteudo())
      ensures r.Ok? ==> Conteudo() == old(Conteudo()).(materiais := Regravar(old(materiais), id, nome, DadosMaterial(unidade, qtd, custo)))
      ensures r.Ok? ==> (Buscar(materiais, id) ==
        if old(Buscar(materiais, id)).Some? then Some(Linha(id, nome, DadosMaterial(unidade, qtd, custo))) else None)
      ensures forall k :: k != id ==> Buscar(materiais, k) == old(Buscar(materiais, k))
    {
      var d := DadosMaterial(unidade, qtd, custo);
      var novo := Atualizar(materiais, id, nome, d);
      if novo.Falha? {
        return Falha(novo.erro);
      }
      AtualizarPreservaBemFormada(materiais, proxMaterial, id, nome, d);
      materiais := novo.valor;
      return Ok(());
    }

    /** `excluir_material`: deletes row `id` and nothing else; usage rows that reference it stay
        (and from then on drop out of the join). */
    method ExcluirMaterial(id: nat)
      requires Valid()
      modifies this
      ensures Valid()
      ensures Conteudo() == old(Conteudo()).(materiais := Excluir(old(materiais), id))
      ensures Buscar(materiais, id).None?
      ensures forall k :: k != id ==> Buscar(materiais, k) == old(Buscar(materiais, k))
    {
      ExcluirPreservaBemFormada(materiais, proxMaterial, id);
      materiais := Excluir(materiais, id);
    }

    /** `inserir_tecido`. */
    method InserirTecido(nome: string, comp: real, larg: real, custo: real) returns (r: Resultado<()>)
      requires Valid()
      modifies this
      ensures Valid()
      ensures r.Falha? <==> old(NomeTecidoExiste(nome))
      ensures r.Falha? ==> r.erro == NomeDuplicado && Conteudo() == old(Conteudo())
      ensures r.Ok? ==> Conteudo() == old(Conteudo()).(
        tecidos := old(tecidos) + [Linha(old(proxTecido), nome, DadosTecido(comp, larg, custo))],
        proxTecido := old(proxTecido) + 1)
      ensures r.Ok? ==> Buscar(tecidos, old(proxTecido)) == Some(Linha(old(proxTecido), nome, DadosTecido(comp, larg, custo)))
    {
      var d := DadosTecido(comp, larg, custo);
      var novo := Inserir(tecidos, proxTecido, nome, d);
      if novo.Falha? {
        return Falha(novo.erro);
      }
      InserirPreservaBemFormada(tecidos, proxTecido, nome, d);
      tecidos := novo.valor;
      proxTecido := proxTecido + 1;
      return Ok(());
    }

    /** `atualizar_tecido`. */
    method AtualizarTecido(id: nat, nome: string, comp: real, larg: real, custo: real) returns (r: Resultado<()>)
      requires Valid()
      modifies this
      ensures Valid()
      ensures r.Falha? <==> old(Buscar(tecidos, id).Some? && NomeEmOutraLinha(tecidos, id, nome))
      ensures r.Falha? ==> r.erro == NomeDuplicado && Conteudo() == old(Conteudo())
      ensures r.Ok? ==> Conteudo() == old(Conteudo()).(tecidos := Regravar(old(tecidos), id, nome, DadosTecido(comp, larg, custo)))
      ensures r.Ok? ==> (Buscar(tecidos, id) ==
        if old(Buscar(tecidos, id)).Some? then Some(Linha(id, nome, DadosTecido(comp, larg, custo))) else None)
      ensures forall k :: k != id ==> Buscar(tecidos, k) == old(Buscar(tecidos, k))
    {
      var d := DadosTecido(comp, larg, custo);
      var novo := Atualizar(tecidos, id, nome, d);
      if novo.Falha? {
        return Falha(novo.erro);
      }
      AtualizarPreservaBemFormada(tecidos, proxTecido, id, nome, d);
      tecidos := novo.valor;
      return Ok(());
    }

    /** `excluir_tecido`: no cascade to pecas_tecidos. */
    method ExcluirTecido(id: nat)
      requires Valid()
      modifies this
      ensures Valid()
      ensures Conteudo() == old(Conteudo()).(tecidos := Excluir(old(tecidos), id))
      ensures Buscar(tecidos, id).None?
      ensures forall k :: k != id ==> Buscar(tecidos, k) == old(Buscar(tecidos, k))
    {
      ExcluirPreservaBemFormada(tecidos, proxTecido, id);
      tecidos := Excluir(tecidos, id);
    }

    // -------------------------------------------------------------------------
    // Labour configuration
    // -------------------------------------------------------------------------

    /** `salvar_configuracoes`: delete every row, then insert row 1. Afterwards the table holds
        exactly that row and loading it gives back the two values. */
    method SalvarConfiguracoes(valorHora: real, margem: real)
      requires Valid()
      modifies this
      ensures Valid()
      ensures Conteudo() == old(Conteudo()).(configuracoes := map[1 := Configuracao(valorHora, margem)])
      ensures configuracoes.Keys == {1}
      ensures Configuracoes() == Configuracao(valorHora, margem)
    {
      configuracoes := map[];
      configuracoes := configuracoes[1 := Configuracao(valorHora, margem)];
    }

    // -------------------------------------------------------------------------
    // Pieces
    // -------------------------------------------------------------------------

    /** `inserir_peca`: appends a row with `preco_sugerido` at its default 0 and returns its key
        (`lastrowid`); a taken name is rejected and changes nothing. */
    method InserirPeca(nome: string, tempo: real) returns (r: Resultado<nat>)
      requires Valid()
      modifies this
      ensures Valid()
      ensures r.Falha? <==> old(NomeExiste(pecas, nome))
      ensures r.Falha? ==> r.erro == NomeDuplicado && Conteudo() == old(Conteudo())
      ensures r.Ok? ==> r.valor == old(proxPeca) && Conteudo() == old(Conteudo()).(
        pecas := old(pecas) + [Linha(r.valor, nome, DadosPeca(tempo, 0.0))],
        proxPeca := old(proxPeca) + 1)
      ensures r.Ok? ==> GetPeca(r.valor) == Some(Linha(r.valor, nome, DadosPeca(tempo, 0.0)))
      ensures r.Ok? ==> old(GetPeca(r.valor)).None?
    {
      var d := DadosPeca(tempo, 0.0);
      var novo := Inserir(pecas, proxPeca, nome, d);
      if novo.Falha? {
        return Falha(novo.erro);
      }
      BuscarPrimeira(pecas, proxPeca);
      InserirPreservaBemFormada(pecas, proxPeca, nome, d);
      pecas := novo.valor;
      r := Ok(proxPeca);
      proxPeca := proxPeca + 1;
    }

    /** `atualizar_peca`: sets the name and the production time of row `id` and keeps its
        saved price; the UNIQUE constraint applies as for materials. */
    method AtualizarPeca(id: nat, nome: string, tempo: real) returns (r: Resultado<()>)
      requires Valid()
      modifies this
      ensures Valid()
      ensures r.Falha? <==> old(Buscar(pecas, id).Some? && NomeEmOutraLinha(pecas, id, nome))
      ensures r.Falha? ==> r.erro == NomeDuplicado && Conteudo() == old(Conteudo())
      ensures r.Ok? ==> (GetPeca(id) ==
        if old(GetPeca(id)).Some? then Some(Linha(id, nome, DadosPeca(tempo, old(GetPeca(id)).value.dados.precoSugerido)))
        else None)
      ensures r.Ok? ==> Conteudo() == old(Conteudo()).(pecas := pecas)
      ensures r.Ok? ==> pecas == Regravar(old(pecas), id, nome,
        DadosPeca(tempo, if old(GetPeca(id)).Some? then old(GetPeca(id)).value.dados.precoSugerido else 0.0))
      ensures forall k :: k != id ==> GetPeca(k) == old(GetPeca(k))
    {
      var atual := Buscar(pecas, id);
      var preco := if atual.Some? then atual.value.dados.precoSugerido else 0.0;
      var d := DadosPeca(tempo, preco);
      var novo := Atualizar(pecas, id, nome, d);
      if novo.Falha? {
        return Falha(novo.erro);
      }
      AtualizarPreservaBemFormada(pecas, proxPeca, id, nome, d);
      pecas := novo.valor;
      return Ok(());
    }

    /** `excluir_peca`: delete the piece's material rows, then its fabric rows, then the piece.
        Afterwards no row of either association table belongs to `id`, every other piece keeps
        its rows, and materials and fabrics are untouched. */
    method ExcluirPeca(id: nat)
      requires Valid()
      modifies this
      ensures Valid()
      ensures Conteudo() == old(Conteudo()).(
        pecasMateriais := Limpar(old(pecasMateriais), id),
        pecasTecidos := Limpar(old(pecasTecidos), id),
        pecas := Excluir(old(pecas), id))
      ensures GetPeca(id).None?
      ensures DaPeca(pecasMateriais, id) == [] && DaPeca(pecasTecidos, id) == []
      ensures forall q :: q != id ==> DaPeca(pecasMateriais, q) == old(DaPeca(pecasMateriais, q))
      ensures forall q :: q != id ==> DaPeca(pecasTecidos, q) == old(DaPeca(pecasTecidos, q))
      ensures forall k :: k != id ==> GetPeca(k) == old(GetPeca(k))
    {
      forall q ensures DaPeca(Limpar(pecasMateriais, id), q) == if q == id then [] else DaPeca(pecasMateriais, q) {
        LimparDaPeca(pecasMateriais, id, q);
      }
      forall q ensures DaPeca(Limpar(pecasTecidos, id), q) == if q == id then [] else DaPeca(pecasTecidos, q) {
        LimparDaPeca(pecasTecidos, id, q);
      }
      ExcluirPreservaBemFormada(pecas, proxPeca, id);
      pecasMateriais := Limpar(pecasMateriais, id);
      pecasTecidos := Limpar(pecasTecidos, id);
      pecas := Excluir(pecas, id);
    }

    /** `salvar_preco_sugerido`: sets that one column of that one piece. No cost depends on it. */
    method SalvarPrecoSugerido(id: nat, preco: real)
      requires Valid()
      modifies this
      ensures Valid()
      ensures GetPeca(id) ==
        if old(GetPeca(id)).Some?
        then Some(old(GetPeca(id)).value.(dados := old(GetPeca(id)).value.dados.(precoSugerido := preco)))
        else None
      ensures forall k :: k != id ==> GetPeca(k) == old(GetPeca(k))
      ensures Conteudo() == old(Conteudo()).(pecas := pecas)
      ensures pecas ==
        if old(GetPeca(id)).Some?
        then Regravar(old(pecas), id, old(GetPeca(id)).value.nome, old(GetPeca(id)).value.dados.(precoSugerido := preco))
        else old(pecas)
      ensures forall q :: Custo(q) == old(Custo(q))
    {
      var atual := Buscar(pecas, id);
      if atual.Some? {
        var l := atual.value;
        NomeSoDaPropriaLinha(pecas, id);
        RegravarPreservaBemFormada(pecas, proxPeca, id, l.nome, l.dados.(precoSugerido := preco));
        forall q ensures CustoDaPeca(Regravar(pecas, id, l.nome, l.dados.(precoSugerido := preco)),
                                     configuracoes, pecasMateriais, materiais, pecasTecidos, tecidos, q) == Custo(q) {
          CustoIgnoraPrecoSalvo(pecas, configuracoes, pecasMateriais, materiais, pecasTecidos, tecidos, id, preco, q);
        }
        pecas := Regravar(pecas, id, l.nome, l.dados.(precoSugerido := preco));
      }
    }

    // -------------------------------------------------------------------------
    // Piece composition
    // -------------------------------------------------------------------------

    /** `limpar_relacoes_peca`: removes exactly the rows of `p` from both association tables. */
    method LimparRelacoesPeca(p: nat)
      requires Valid()
      modifies this
      ensures Valid()
      ensures Conteudo() == old(Conteudo()).(
        pecasMateriais := Limpar(old(pecasMateriais), p),
        pecasTecidos := Limpar(old(pecasTecidos), p))
      ensures MateriaisDaPeca(p) == [] && TecidosDaPeca(p) == []
      ensures forall q :: q != p ==> MateriaisDaPeca(q) == old(MateriaisDaPeca(q))
      ensures forall q :: q != p ==> TecidosDaPeca(q) == old(TecidosDaPeca(q))
    {
      JuntarAposLimpar(pecasMateriais, materiais, p);
      JuntarAposLimpar(pecasTecidos, tecidos, p);
      forall q | q != p ensures Juntar(Limpar(pecasMateriais, p), materiais, q) == MateriaisDaPeca(q) {
        JuntarAposLimparOutra(pecasMateriais, materiais, p, q);
      }
      forall q | q != p ensures Juntar(Limpar(pecasTecidos, p), tecidos, q) == TecidosDaPeca(q) {
        JuntarAposLimparOutra(pecasTecidos, tecidos, p, q);
      }
      pecasMateriais := Limpar(pecasMateriais, p);
      pecasTecidos := Limpar(pecasTecidos, p);
    }

    /** `adicionar_material_na_peca`: appends one usage row; no key is checked. */
    method AdicionarMaterialNaPeca(p: nat, m: nat, qtd: real)
      requires Valid()
      modifies this
      ensures Valid()
      ensures Conteudo() == old(Conteudo()).(pecasMateriais := old(pecasMateriais) + [Uso(p, m, qtd)])
      ensures MateriaisDaPeca(p) == old(MateriaisDaPeca(p)) +
        if Buscar(materiais, m).Some? then [ItemDaPeca(m, qtd, Buscar(materiais, m).value.nome)] else []
    {
      JuntarAnexar(pecasMateriais, Uso(p, m, qtd), materiais, p);
      pecasMateriais := pecasMateriais + [Uso(p, m, qtd)];
    }

    /** `adicionar_tecido_na_peca`: appends one usage row; no key is checked. */
    method AdicionarTecidoNaPeca(p: nat, t: nat, area: real)
      requires Valid()
      modifies this
      ensures Valid()
      ensures Conteudo() == old(Conteudo()).(pecasTecidos := old(pecasTecidos) + [Uso(p, t, area)])
      ensures TecidosDaPeca(p) == old(TecidosDaPeca(p)) +
        if Buscar(tecidos, t).Some? then [ItemDaPeca(t, area, Buscar(tecidos, t).value.nome)] else []
    {
      JuntarAnexar(pecasTecidos, Uso(p, t, area), tecidos, p);
      pecasTecidos := pecasTecidos + [Uso(p, t, area)];
    }

    // -------------------------------------------------------------------------
    // Cost
    // -------------------------------------------------------------------------

    /** `compute_peca_cost`: reads the piece, the configuration and the two joins, runs the two
        accumulation loops, then adds labour and applies the margin. It writes nothing. */
    method ComputePecaCost(p: nat) returns (r: ResultadoCusto)
      ensures r == Custo(p)
    {
      var peca := Buscar(pecas, p);
      if peca.None? {
        return PecaNaoEncontrada;
      }
      var cfg := CarregarConfiguracoes(configuracoes);
      var itensMateriais := Juntar(pecasMateriais, materiais, p);
      var itensTecidos := Juntar(pecasTecidos, tecidos, p);
      var custoMateriais := SomarParcelas(itensMateriais, materiais, BaseMaterial);
      if custoMateriais.None? {
        return DivisaoPorZero;
      }
      var custoTecidos := SomarParcelas(itensTecidos, tecidos, BaseTecido);
      if custoTecidos.None? {
        return DivisaoPorZero;
      }
      var custoMao := peca.value.dados.tempoProducaoHoras * cfg.valorHora;
      var custoTotal := custoMateriais.value + custoTecidos.value + custoMao;
      var precoFinal := custoTotal * (1.0 + cfg.margemLucro / 100.0);
      return Calculado(CustoDetalhado(custoMateriais.value, custoTecidos.value, custoMao, custoTotal, precoFinal));
    }
  }
  const Ziper := Linha(1, "Ziper", DadosMaterial("un", 100.0, 50.0))
  const Algodao := Linha(1, "Algodao", DadosTecido(200.0, 150.0, 300.0))
  const Bolsa := Linha(1, "Bolsa", DadosPeca(2.0, 0.0))

  /** The store of the worked example: a zipper bought 100 at a time for 50, a cotton fabric
      of 200 × 150 cm for 300, and a bag that takes 2 hours, 4 zippers and 500 cm² of cotton,
      at 20 per hour with a 10% margin. A second zipper under the same name is rejected. */
  method MontarExemplo() returns (b: Banco, duplicado: Resultado<()>)
    ensures fresh(b) && b.Valid()
    ensures duplicado == Falha(NomeDuplicado)
    ensures b.Conteudo() == Estado([Ziper], [Algodao], map[1 := Configuracao(20.0, 10.0)], [Bolsa],
                                   [Uso(1, 1, 4.0)], [Uso(1, 1, 500.0)], 2, 2, 2)
  {
    b := new Banco();
    var m := b.InserirMaterial("Ziper", "un", 100.0, 50.0);
    assert b.Conteudo() == Estado([Ziper], [], map[], [], [], [], 2, 1, 1);
    assert NomeExiste([Ziper], "Ziper");
    duplicado := b.InserirMaterial("Ziper", "un", 10.0, 8.0);
    var t := b.InserirTecido("Algodao", 200.0, 150.0, 300.0);
    assert b.Conteudo() == Estado([Ziper], [Algodao], map[], [], [], [], 2, 2, 1);
    var p := b.InserirPeca("Bolsa", 2.0);
    assert b.Conteudo() == Estado([Ziper], [Algodao], map[], [Bolsa], [], [], 2, 2, 2);
    b.AdicionarMaterialNaPeca(1, 1, 4.0);
    b.AdicionarTecidoNaPeca(1, 1, 500.0);
    b.SalvarConfiguracoes(20.0, 10.0);
  }

  /** In the example the four zippers cost 50/100 × 4 = 2. */
  lemma CustoMateriaisDoExemplo()
    ensures SomaItens(Juntar([Uso(1, 1, 4.0)], [Ziper], 1), [Ziper], BaseMaterial) == Some(2.0)
  {
    var item := ItemDaPeca(1, 4.0, "Ziper");
    assert Juntar([Uso(1, 1, 4.0)], [Ziper], 1) == [item];
    assert [item][..0] == [];
    assert Buscar([Ziper], 1) == Some(Ziper);
    assert Cota(BaseMaterial(Ziper.dados), 4.0) == 2.0;
    assert Parcela(item, [Ziper], BaseMaterial) == Some(2.0);
  }

  /** In the example the 500 cm² of cotton cost 300/30000 × 500 = 5. */
  lemma CustoTecidosDoExemplo()
    ensures SomaItens(Juntar([Uso(1, 1, 500.0)], [Algodao], 1), [Algodao], BaseTecido) == Some(5.0)
  {
    var item := ItemDaPeca(1, 500.0, "Algodao");
    assert Juntar([Uso(1, 1, 500.0)], [Algodao], 1) == [item];
    assert [item][..0] == [];
    assert Buscar([Algodao], 1) == Some(Algodao);
    assert Cota(BaseTecido(Algodao.dados), 500.0) == 5.0;
    assert Parcela(item, [Algodao], BaseTecido) == Some(5.0);
  }

  /** With the labour at 2 × 20 = 40 the bag costs 47 in all, and 51.7 with 10% on top. */
  lemma CustoDoExemplo()
    ensures CustoDaPeca([Bolsa], map[1 := Configuracao(20.0, 10.0)], [Uso(1, 1, 4.0)], [Ziper],
                        [Uso(1, 1, 500.0)], [Algodao], 1) == Calculado(CustoDetalhado(2.0, 5.0, 40.0, 47.0, 51.7))
  {
    CustoMateriaisDoExemplo();
    CustoTecidosDoExemplo();
    var cfg := Configuracao(20.0, 10.0);
    assert Buscar([Bolsa], 1) == Some(Bolsa);
    assert CarregarConfiguracoes(map[1 := cfg]) == cfg;
    assert Orcamento(2.0, 5.0, 2.0, cfg) == CustoDetalhado(2.0, 5.0, 40.0, 47.0, 51.7);
  }

  /** The worked example run through `compute_peca_cost`. */
  method ExemploBolsa() returns (duplicado: Resultado<()>, r: ResultadoCusto)
    ensures duplicado == Falha(NomeDuplicado)
    ensures r == Calculado(CustoDetalhado(2.0, 5.0, 40.0, 47.0, 51.7))
  {
    var b;
    b, duplicado := MontarExemplo();
    r := b.ComputePecaCost(1);
    CustoDoExemplo();
  }
}
