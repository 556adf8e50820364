/** `compute_peca_cost`: the proportional cost of a piece's materials and fabrics, its labour
    cost, their total and the price with the profit margin applied. */
module Custos {
  import opened Tabela
  import opened Esquema
  import opened Relacoes

  /** The dictionary `compute_peca_cost` returns for a piece that exists. */
  datatype CustoDetalhado = CustoDetalhado(
    custoMateriais: real,
    custoTecidos: real,
    custoMaoDeObra: real,
    custoTotal: real,
    precoSugerido: real)

  /** `None` for an absent piece, the ZeroDivisionError one of the loops raises, or the costs. */
  datatype ResultadoCusto = PecaNaoEncontrada | DivisaoPorZero | Calculado(custo: CustoDetalhado)

  /** What a loop reads from the referenced row: the cost of what was bought and the measure
      it is divided by. */
  datatype Base = Base(custo: real, medida: real)

  /** A material is priced per unit of the quantity acquired. */
  function BaseMaterial(d: DadosMaterial): Base
  {
    Base(d.custoTotal, d.quantidadeAdquirida)
  }

  /** A fabric is priced per cm² of its area, length times width. */
  function BaseTecido(d: DadosTecido): Base
  {
    Base(d.custoTotal, d.comprimentoTotal * d.larguraTotal)
  }

  /** The share of `quantidade` in what was bought: (cost / measure) × quantidade. */
  function Cota(b: Base, quantidade: real): real
    requires b.medida != 0.0
  {
    b.custo / b.medida * quantidade
  }

  /** One loop iteration: the share of the item's amount, or `None` when the measure is zero
      (or the referenced row is missing, which the join never yields). */
  function Parcela<D>(x: ItemDaPeca, t: seq<Linha<D>>, base: D -> Base): Option<real>
  {
    match Buscar(t, x.refId)
    case None => None
    case Some(l) =>
      var b := base(l.dados);
      if b.medida == 0.0 then None else Some(Cota(b, x.quantidade))
  }

  /** What a loop over `itens` accumulates, starting from 0; `None` once an iteration fails. */
  function SomaItens<D>(itens: seq<ItemDaPeca>, t: seq<Linha<D>>, base: D -> Base): Option<real>
  {
    if |itens| == 0 then Some(0.0)
    else
      match (SomaItens(itens[..|itens| - 1], t, base), Parcela(itens[|itens| - 1], t, base))
      case (Some(s), Some(c)) => Some(s + c)
      case _ => None
  }

  lemma SomaItensAnexar<D>(s: seq<ItemDaPeca>, x: ItemDaPeca, t: seq<Linha<D>>, base: D -> Base)
    ensures SomaItens(s + [x], t, base) ==
      if SomaItens(s, t, base).Some? && Parcela(x, t, base).Some?
      then Some(SomaItens(s, t, base).value + Parcela(x, t, base).value)
      else None
  {
    assert (s + [x])[..|s|] == s;
  }

  /** Once an iteration has failed, the loop as a whole fails. */
  lemma {:induction false} SomaItensFalhaPrefixo<D>(itens: seq<ItemDaPeca>, j: nat, t: seq<Linha<D>>, base: D -> Base)
    requires j <= |itens| && SomaItens(itens[..j], t, base).None?
    ensures SomaItens(itens, t, base).None?
  {
    if j < |itens| {
      var s := itens[..|itens| - 1];
      assert s[..j] == itens[..j];
      SomaItensFalhaPrefixo(s, j, t, base);
    } else {
      assert itens[..j] == itens;
    }
  }

  // ---------------------------------------------------------------------------
  // Reference definition over the usage rows
  // ---------------------------------------------------------------------------

  /** Every usage row of `p` whose referenced row exists divides by a non-zero measure. */
  predicate DivisoresNaoNulos<D>(usos: seq<Uso>, t: seq<Linha<D>>, p: nat, base: D -> Base)
  {
    forall i :: 0 <= i < |usos| && Vivo(usos[i], t, p) ==>
      base(Buscar(t, usos[i].refId).value.dados).medida != 0.0
  }

  /** The cost of the usage rows of `p` whose referenced row still exists:
      Σ (custo_total / measure) × amount used. */
  function Soma<D>(usos: seq<Uso>, t: seq<Linha<D>>, p: nat, base: D -> Base): real
    requires DivisoresNaoNulos(usos, t, p, base)
  {
    if |usos| == 0 then 0.0
    else
      var u := usos[|usos| - 1];
      assert DivisoresNaoNulos(usos[..|usos| - 1], t, p, base) by {
        assert forall i :: 0 <= i < |usos| - 1 ==> usos[..|usos| - 1][i] == usos[i];
      }
      Soma(usos[..|usos| - 1], t, p, base) +
        if Vivo(u, t, p) then Cota(base(Buscar(t, u.refId).value.dados), u.quantidade) else 0.0
  }

  lemma DivisoresNaoNulosAnexar<D>(s: seq<Uso>, u: Uso, t: seq<Linha<D>>, p: nat, base: D -> Base)
    ensures DivisoresNaoNulos(s + [u], t, p, base) <==>
      DivisoresNaoNulos(s, t, p, base) && (Vivo(u, t, p) ==> base(Buscar(t, u.refId).value.dados).medida != 0.0)
  {
    var r := s + [u];
    assert forall i :: 0 <= i < |s| ==> r[i] == s[i];
    assert r[|s|] == u;
  }

  /** The step of `SomaJuntar` for a last usage row that joins. */
  lemma SomaPassoVivo<D>(s: seq<Uso>, u: Uso, t: seq<Linha<D>>, p: nat, base: D -> Base)
    requires Vivo(u, t, p)
    requires SomaItens(Juntar(s, t, p), t, base) ==
      if DivisoresNaoNulos(s, t, p, base) then Some(Soma(s, t, p, base)) else None
    ensures SomaItens(Juntar(s + [u], t, p), t, base) ==
      if DivisoresNaoNulos(s + [u], t, p, base) then Some(Soma(s + [u], t, p, base)) else None
  {
    var x, b := ItemDe(u, t), base(Buscar(t, u.refId).value.dados);
    DivisoresNaoNulosAnexar(s, u, t, p, base);
    JuntarAnexar(s, u, t, p);
    SomaItensAnexar(Juntar(s, t, p), x, t, base);
    if DivisoresNaoNulos(s + [u], t, p, base) {
      assert (s + [u])[..|s|] == s;
      assert Soma(s + [u], t, p, base) == Soma(s, t, p, base) + Cota(b, u.quantidade);
    }
  }

  /** The step of `SomaJuntar` for a last usage row that does not join. */
  lemma SomaPassoMorto<D>(s: seq<Uso>, u: Uso, t: seq<Linha<D>>, p: nat, base: D -> Base)
    requires !Vivo(u, t, p)
    requires SomaItens(Juntar(s, t, p), t, base) ==
      if DivisoresNaoNulos(s, t, p, base) then Some(Soma(s, t, p, base)) else None
    ensures SomaItens(Juntar(s + [u], t, p), t, base) ==
      if DivisoresNaoNulos(s + [u], t, p, base) then Some(Soma(s + [u], t, p, base)) else None
  {
    DivisoresNaoNulosAnexar(s, u, t, p, base);
    JuntarAnexar(s, u, t, p);
    if DivisoresNaoNulos(s + [u], t, p, base) {
      assert (s + [u])[..|s|] == s;
      assert Soma(s + [u], t, p, base) == Soma(s, t, p, base);
    }
  }

  /** The loop over the joined items computes the reference sum over the usage rows, and
      fails exactly when a usage row of a still existing row divides by zero. */
  lemma {:induction false} SomaJuntar<D>(usos: seq<Uso>, t: seq<Linha<D>>, p: nat, base: D -> Base)
    ensures SomaItens(Juntar(usos, t, p), t, base) ==
      if DivisoresNaoNulos(usos, t, p, base) then Some(Soma(usos, t, p, base)) else None
  {
    if |usos| > 0 {
      var s, u := usos[..|usos| - 1], usos[|usos| - 1];
      assert usos == s + [u];
      SomaJuntar(s, t, p, base);
      if Vivo(u, t, p) {
        SomaPassoVivo(s, u, t, p, base);
      } else {
        SomaPassoMorto(s, u, t, p, base);
      }
    }
  }

  /** With the amounts the pages let through (non-negative costs, amounts and material
      quantities; fabric length and width of at least 1) and non-zero divisors, the cost is
      never negative. The bound `medida > 0.0` follows from the pages' `>= 0` together with
      `DivisoresNaoNulos`; a zero material quantity makes `CustoDaPeca` return `DivisaoPorZero`. */
  lemma {:induction false} SomaNaoNegativa<D>(usos: seq<Uso>, t: seq<Linha<D>>, p: nat, base: D -> Base)
    requires DivisoresNaoNulos(usos, t, p, base)
    requires forall i :: 0 <= i < |usos| && Vivo(usos[i], t, p) ==>
      var b := base(Buscar(t, usos[i].refId).value.dados);
      b.custo >= 0.0 && b.medida > 0.0 && usos[i].quantidade >= 0.0
    ensures Soma(usos, t, p, base) >= 0.0
  {
    if |usos| > 0 {
      var s, u := usos[..|usos| - 1], usos[|usos| - 1];
      assert forall i :: 0 <= i < |s| ==> s[i] == usos[i];
      SomaNaoNegativa(s, t, p, base);
      if Vivo(u, t, p) {
        var b := base(Buscar(t, u.refId).value.dados);
        assert b.custo / b.medida >= 0.0;
      }
    }
  }

  // ---------------------------------------------------------------------------
  // Labour, total and price
  // ---------------------------------------------------------------------------

  /** database.py:404-410: labour is hours × rate, the total adds the three costs, and the price is
      the total raised by the margin in percent. */
  function Orcamento(custoMateriais: real, custoTecidos: real, horas: real, cfg: Configuracao): CustoDetalhado
  {
    var mao := horas * cfg.valorHora;
    var total := custoMateriais + custoTecidos + mao;
    CustoDetalhado(custoMateriais, custoTecidos, mao, total, total * (1.0 + cfg.margemLucro / 100.0))
  }

  /** The price exceeds the total by exactly `margem` percent of it. */
  lemma MargemSobreOTotal(cm: real, ct: real, horas: real, cfg: Configuracao)
    ensures var c := Orcamento(cm, ct, horas, cfg);
      c.precoSugerido - c.custoTotal == c.custoTotal * cfg.margemLucro / 100.0
  {
  }

  /** With no margin the price is the total cost. */
  lemma MargemZero(cm: real, ct: real, horas: real, cfg: Configuracao)
    requires cfg.margemLucro == 0.0
    ensures Orcamento(cm, ct, horas, cfg).precoSugerido == Orcamento(cm, ct, horas, cfg).custoTotal
  {
  }

  /** With non-negative inputs and margin, no cost is negative and the price covers the total. */
  lemma PrecoCobreCusto(cm: real, ct: real, horas: real, cfg: Configuracao)
    requires cm >= 0.0 && ct >= 0.0 && horas >= 0.0 && cfg.valorHora >= 0.0 && cfg.margemLucro >= 0.0
    ensures var c := Orcamento(cm, ct, horas, cfg);
      c.custoMaoDeObra >= 0.0 && 0.0 <= c.custoTotal <= c.precoSugerido
  {
    var c := Orcamento(cm, ct, horas, cfg);
    var m := cfg.margemLucro / 100.0;
    assert horas * cfg.valorHora >= 0.0;
    assert c.custoTotal * m >= 0.0;
    assert c.precoSugerido == c.custoTotal + c.custoTotal * m;
  }

  /** A larger margin never lowers the price of a piece whose total is not negative. */
  lemma PrecoCresceComMargem(cm: real, ct: real, horas: real, cfg: Configuracao, margem: real)
    requires Orcamento(cm, ct, horas, cfg).custoTotal >= 0.0 && margem >= cfg.margemLucro
    ensures Orcamento(cm, ct, horas, cfg).precoSugerido <= Orcamento(cm, ct, horas, cfg.(margemLucro := margem)).precoSugerido
  {
    var total := Orcamento(cm, ct, horas, cfg).custoTotal;
    var a, b := cfg.margemLucro / 100.0, margem / 100.0;
    assert total * (b - a) >= 0.0;
    assert total * (1.0 + b) == total * (1.0 + a) + total * (b - a);
  }

  // ---------------------------------------------------------------------------
  // The whole computation
  // ---------------------------------------------------------------------------

  /** `compute_peca_cost(p)` on the tables it reads. */
  function CustoDaPeca(
    pecas: seq<Linha<DadosPeca>>, cfgs: map<int, Configuracao>,
    pecasMateriais: seq<Uso>, materiais: seq<Linha<DadosMaterial>>,
    pecasTecidos: seq<Uso>, tecidos: seq<Linha<DadosTecido>>, p: nat): ResultadoCusto
  {
    match Buscar(pecas, p)
    case None => PecaNaoEncontrada
    case Some(peca) =>
      var cfg := CarregarConfiguracoes(cfgs);
      match (SomaItens(Juntar(pecasMateriais, materiais, p), materiais, BaseMaterial),
             SomaItens(Juntar(pecasTecidos, tecidos, p), tecidos, BaseTecido))
      case (Some(cm), Some(ct)) => Calculado(Orcamento(cm, ct, peca.dados.tempoProducaoHoras, cfg))
      case _ => DivisaoPorZero
  }

  /** When `compute_peca_cost` fails: `None` exactly for an absent piece, and the division
      error exactly when, for a piece that exists, a usage row of a still existing material has
      acquired quantity zero or one of a still existing fabric has zero area. */
  lemma CustoDaPecaFalhas(
    pecas: seq<Linha<DadosPeca>>, cfgs: map<int, Configuracao>,
    pm: seq<Uso>, materiais: seq<Linha<DadosMaterial>>,
    pt: seq<Uso>, tecidos: seq<Linha<DadosTecido>>, p: nat)
    ensures CustoDaPeca(pecas, cfgs, pm, materiais, pt, tecidos, p).PecaNaoEncontrada? <==> Buscar(pecas, p).None?
    ensures CustoDaPeca(pecas, cfgs, pm, materiais, pt, tecidos, p).DivisaoPorZero? <==>
      (Buscar(pecas, p).Some? &&
       !(DivisoresNaoNulos(pm, materiais, p, BaseMaterial) && DivisoresNaoNulos(pt, tecidos, p, BaseTecido)))
  {
    SomaJuntar(pm, materiais, p, BaseMaterial);
    SomaJuntar(pt, tecidos, p, BaseTecido);
  }

  /** What `compute_peca_cost` returns for a piece it can cost: the breakdown built from the
      reference sums over the usage rows, the piece's production time and the configuration
      row (or the zero default). */
  lemma CustoDaPecaValores(
    pecas: seq<Linha<DadosPeca>>, cfgs: map<int, Configuracao>,
    pm: seq<Uso>, materiais: seq<Linha<DadosMaterial>>,
    pt: seq<Uso>, tecidos: seq<Linha<DadosTecido>>, p: nat)
    requires Buscar(pecas, p).Some?
    requires DivisoresNaoNulos(pm, materiais, p, BaseMaterial) && DivisoresNaoNulos(pt, tecidos, p, BaseTecido)
    ensures CustoDaPeca(pecas, cfgs, pm, materiais, pt, tecidos, p) ==
      Calculado(Orcamento(Soma(pm, materiais, p, BaseMaterial), Soma(pt, tecidos, p, BaseTecido),
                          Buscar(pecas, p).value.dados.tempoProducaoHoras, CarregarConfiguracoes(cfgs)))
  {
    SomaJuntar(pm, materiais, p, BaseMaterial);
    SomaJuntar(pt, tecidos, p, BaseTecido);
  }

  /** The closed form of `compute_peca_cost` for a piece it can cost: the material and fabric
      costs are the reference sums over the usage rows, labour is hours × rate, the total adds
      the three, and the price is the total raised by the margin in percent. */
  lemma CustoDaPecaFechado(
    pecas: seq<Linha<DadosPeca>>, cfgs: map<int, Configuracao>,
    pm: seq<Uso>, materiais: seq<Linha<DadosMaterial>>,
    pt: seq<Uso>, tecidos: seq<Linha<DadosTecido>>, p: nat)
    requires Buscar(pecas, p).Some?
    requires DivisoresNaoNulos(pm, materiais, p, BaseMaterial) && DivisoresNaoNulos(pt, tecidos, p, BaseTecido)
    ensures var r := CustoDaPeca(pecas, cfgs, pm, materiais, pt, tecidos, p);
      var cfg := CarregarConfiguracoes(cfgs);
      var mao := Buscar(pecas, p).value.dados.tempoProducaoHoras * cfg.valorHora;
      && r.Calculado?
      && r.custo.custoMateriais == Soma(pm, materiais, p, BaseMaterial)
      && r.custo.custoTecidos == Soma(pt, tecidos, p, BaseTecido)
      && r.custo.custoMaoDeObra == mao
      && r.custo.custoTotal == Soma(pm, materiais, p, BaseMaterial) + Soma(pt, tecidos, p, BaseTecido) + mao
      && r.custo.precoSugerido == r.custo.custoTotal * (1.0 + cfg.margemLucro / 100.0)
  {
    CustoDaPecaValores(pecas, cfgs, pm, materiais, pt, tecidos, p);
  }

  /** The cached `preco_sugerido` column never enters the computation: re-saving a piece with
      the same production time and any price leaves every piece's cost as it was. */
  lemma CustoIgnoraPrecoSalvo(
    pecas: seq<Linha<DadosPeca>>, cfgs: map<int, Configuracao>,
    pm: seq<Uso>, materiais: seq<Linha<DadosMaterial>>,
    pt: seq<Uso>, tecidos: seq<Linha<DadosTecido>>, id: nat, preco: real, q: nat)
    requires Buscar(pecas, id).Some?
    ensures var l := Buscar(pecas, id).value;
      var pecas' := Regravar(pecas, id, l.nome, l.dados.(precoSugerido := preco));
      CustoDaPeca(pecas', cfgs, pm, materiais, pt, tecidos, q) == CustoDaPeca(pecas, cfgs, pm, materiais, pt, tecidos, q)
  {
  }

  /** Deleting a material or fabric drops its usage rows from the computation: the cost of
      every piece is then that of the usage rows that do not reference it. */
  lemma CustoAposExcluirMaterial(pm: seq<Uso>, materiais: seq<Linha<DadosMaterial>>, k: nat, p: nat)
    ensures SomaItens(Juntar(pm, Excluir(materiais, k), p), Excluir(materiais, k), BaseMaterial) ==
      SomaItens(SemReferencia(Juntar(pm, materiais, p), k), materiais, BaseMaterial)
  {
    JuntarAposExcluir(pm, materiais, k, p);
    SomaItensSemReferencia(Juntar(pm, materiais, p), materiais, k, BaseMaterial);
  }

  lemma ParcelaAposExcluir<D>(x: ItemDaPeca, t: seq<Linha<D>>, k: nat, base: D -> Base)
    requires x.refId != k
    ensures Parcela(x, Excluir(t, k), base) == Parcela(x, t, base)
  {
    assert Buscar(Excluir(t, k), x.refId) == Buscar(t, x.refId);
  }

  /** Looking items up in a table with row `k` gone gives the same shares for items that do
      not reference `k`. */
  lemma {:induction false} SomaItensSemReferencia<D>(itens: seq<ItemDaPeca>, t: seq<Linha<D>>, k: nat, base: D -> Base)
    ensures SomaItens(SemReferencia(itens, k), Excluir(t, k), base) == SomaItens(SemReferencia(itens, k), t, base)
  {
    if |itens| > 0 {
      var s, x := itens[..|itens| - 1], itens[|itens| - 1];
      assert itens == s + [x];
      SomaItensSemReferencia(s, t, k, base);
      SemReferenciaAnexar(s, x, k);
      if x.refId != k {
        SomaItensAnexar(SemReferencia(s, k), x, Excluir(t, k), base);
        SomaItensAnexar(SemReferencia(s, k), x, t, base);
        ParcelaAposExcluir(x, t, k, base);
      }
    }
  }

  // ---------------------------------------------------------------------------
  // The loops
  // ---------------------------------------------------------------------------

  /** The `for` loop of database.py:391-394 (materials) or 397-401 (fabrics): for each joined item,
      fetch the referenced row, divide its cost by its measure and add the share, starting
      from 0. A zero measure stops the loop with the error. */
  method SomarParcelas<D>(itens: seq<ItemDaPeca>, t: seq<Linha<D>>, base: D -> Base) returns (r: Option<real>)
    ensures r == SomaItens(itens, t, base)
  {
    var custo := 0.0;
    var i := 0;
    while i < |itens|
      invariant 0 <= i <= |itens|
      invariant SomaItens(itens[..i], t, base) == Some(custo)
    {
      assert itens[..i + 1] == itens[..i] + [itens[i]];
      SomaItensAnexar(itens[..i], itens[i], t, base);
      var linha := Buscar(t, itens[i].refId);
      if linha.None? {
        SomaItensFalhaPrefixo(itens, i + 1, t, base);
        return None;
      }
      var b := base(linha.value.dados);
      if b.medida == 0.0 {
        SomaItensFalhaPrefixo(itens, i + 1, t, base);
        return None;
      }
      assert Parcela(itens[i], t, base) == Some(Cota(b, itens[i].quantidade));
      assert Cota(b, itens[i].quantidade) == (b.custo / b.medida) * itens[i].quantidade;
      custo := custo + (b.custo / b.medida) * itens[i].quantidade;
      i := i + 1;
    }
    assert itens[..i] == itens;
    return Some(custo);
  }
}
