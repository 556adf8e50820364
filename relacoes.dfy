/** The two association tables pecas_materiais and pecas_tecidos, and the queries and
    updates the store runs on them. */
module Relacoes {
  import opened Tabela

  /** One usage row: the piece, the material or fabric it uses (`refId`) and the amount used
      (quantidade_usada for a material, area_usada_cm2 for a fabric). The row's own key is
      never read and is not kept. */
  datatype Uso = Uso(pecaId: nat, refId: nat, quantidade: real)

  /** One row of `materiais_da_peca` / `tecidos_da_peca`: referenced key, amount used, and the
      name of the referenced material or fabric. */
  datatype ItemDaPeca = ItemDaPeca(refId: nat, quantidade: real, nome: string)

  /** The usage rows of piece `p`, in table order. */
  function DaPeca(usos: seq<Uso>, p: nat): (r: seq<Uso>)
    ensures |r| <= |usos|
  {
    if |usos| == 0 then []
    else
      var u := usos[|usos| - 1];
      DaPeca(usos[..|usos| - 1], p) + (if u.pecaId == p then [u] else [])
  }

  /** A usage row is selected exactly when it is in the table and belongs to `p`. */
  lemma {:induction false} DaPecaMembros(usos: seq<Uso>, p: nat, u: Uso)
    ensures u in DaPeca(usos, p) <==> u in usos && u.pecaId == p
  {
    if |usos| > 0 {
      var s, v := usos[..|usos| - 1], usos[|usos| - 1];
      assert usos == s + [v];
      DaPecaMembros(s, p, u);
    }
  }

  lemma {:induction false} DaPecaConcat(a: seq<Uso>, b: seq<Uso>, p: nat)
    ensures DaPeca(a + b, p) == DaPeca(a, p) + DaPeca(b, p)
  {
    if |b| > 0 {
      var u := b[|b| - 1];
      assert (a + b)[..|a + b| - 1] == a + b[..|b| - 1];
      DaPecaConcat(a, b[..|b| - 1], p);
    } else {
      assert a + b == a;
    }
  }

  /** `limpar_relacoes_peca` on one table: `DELETE ... WHERE peca_id = ?`. */
  function Limpar(usos: seq<Uso>, p: nat): (r: seq<Uso>)
    ensures |r| <= |usos|
  {
    if |usos| == 0 then []
    else
      var u := usos[|usos| - 1];
      Limpar(usos[..|usos| - 1], p) + (if u.pecaId == p then [] else [u])
  }

  /** After the delete the rows of `p` are gone and every other piece keeps its rows, in order. */
  lemma {:induction false} LimparDaPeca(usos: seq<Uso>, p: nat, q: nat)
    ensures DaPeca(Limpar(usos, p), q) == if q == p then [] else DaPeca(usos, q)
  {
    if |usos| > 0 {
      var s, u := usos[..|usos| - 1], usos[|usos| - 1];
      assert usos == s + [u];
      LimparDaPeca(s, p, q);
      LimparAnexar(s, u, p);
      DaPecaAnexar(s, u, q);
      if u.pecaId != p {
        DaPecaAnexar(Limpar(s, p), u, q);
      }
    }
  }

  /** Only the rows of `p` are removed. */
  lemma {:induction false} LimparTamanho(usos: seq<Uso>, p: nat)
    ensures |Limpar(usos, p)| + |DaPeca(usos, p)| == |usos|
  {
    if |usos| > 0 {
      LimparTamanho(usos[..|usos| - 1], p);
    }
  }

  lemma LimparAnexar(s: seq<Uso>, u: Uso, p: nat)
    ensures Limpar(s + [u], p) == if u.pecaId == p then Limpar(s, p) else Limpar(s, p) + [u]
  {
    assert (s + [u])[..|s|] == s;
  }

  lemma LimparConcatPasso(a: seq<Uso>, b: seq<Uso>, u: Uso, p: nat)
    requires Limpar(a + b, p) == Limpar(a, p) + Limpar(b, p)
    ensures Limpar(a + (b + [u]), p) == Limpar(a, p) + Limpar(b + [u], p)
  {
    assert a + (b + [u]) == (a + b) + [u];
    LimparAnexar(a + b, u, p);
    LimparAnexar(b, u, p);
  }

  lemma {:induction false} LimparConcat(a: seq<Uso>, b: seq<Uso>, p: nat)
    ensures Limpar(a + b, p) == Limpar(a, p) + Limpar(b, p)
  {
    if |b| > 0 {
      var b0, u := b[..|b| - 1], b[|b| - 1];
      assert b == b0 + [u];
      LimparConcat(a, b0, p);
      LimparConcatPasso(a, b0, u, p);
    } else {
      assert a + b == a;
    }
  }

  /** Clearing a piece's rows a second time changes nothing. */
  lemma {:induction false} LimparIdempotente(usos: seq<Uso>, p: nat)
    ensures Limpar(Limpar(usos, p), p) == Limpar(usos, p)
  {
    if |usos| > 0 {
      var s, u := usos[..|usos| - 1], usos[|usos| - 1];
      assert usos == s + [u];
      LimparIdempotente(s, p);
      LimparAnexar(s, u, p);
      if u.pecaId != p {
        LimparAnexar(Limpar(s, p), u, p);
      }
    }
  }

  /** The rows `adicionar_material_na_peca(p, ref, amount)` (or `adicionar_tecido_na_peca`)
      appends, one call per pair, in order. */
  function Novos(p: nat, itens: seq<(nat, real)>): (r: seq<Uso>)
    ensures |r| == |itens|
    ensures forall i :: 0 <= i < |itens| ==> r[i] == Uso(p, itens[i].0, itens[i].1)
  {
    if |itens| == 0 then []
    else
      var (ref, qtd) := itens[|itens| - 1];
      Novos(p, itens[..|itens| - 1]) + [Uso(p, ref, qtd)]
  }

  lemma {:induction false} DaPecaNovos(p: nat, itens: seq<(nat, real)>, q: nat)
    ensures DaPeca(Novos(p, itens), q) == if q == p then Novos(p, itens) else []
  {
    if |itens| > 0 {
      var n := Novos(p, itens);
      assert n[..|n| - 1] == Novos(p, itens[..|itens| - 1]);
      DaPecaNovos(p, itens[..|itens| - 1], q);
    }
  }

  lemma {:induction false} LimparNovos(p: nat, itens: seq<(nat, real)>)
    ensures Limpar(Novos(p, itens), p) == []
  {
    if |itens| > 0 {
      var n := Novos(p, itens);
      assert n[..|n| - 1] == Novos(p, itens[..|itens| - 1]);
      LimparNovos(p, itens[..|itens| - 1]);
    }
  }

  /** Saving a piece's composition: clear its usage rows, then append one row per pair. */
  function Substituir(usos: seq<Uso>, p: nat, itens: seq<(nat, real)>): (r: seq<Uso>)
    ensures |r| <= |usos| + |itens|
  {
    Limpar(usos, p) + Novos(p, itens)
  }

  /** After the save, `p` uses exactly the given pairs, whatever it used before, and every
      other piece's rows are as before. */
  lemma SubstituirDefineUsos(usos: seq<Uso>, p: nat, itens: seq<(nat, real)>, q: nat)
    ensures DaPeca(Substituir(usos, p, itens), q) ==
      if q == p then Novos(p, itens) else DaPeca(usos, q)
  {
    DaPecaConcat(Limpar(usos, p), Novos(p, itens), q);
    LimparDaPeca(usos, p, q);
    DaPecaNovos(p, itens, q);
  }

  /** Saving the same composition twice leaves the same usage table as saving it once. */
  lemma SubstituirIdempotente(usos: seq<Uso>, p: nat, itens: seq<(nat, real)>)
    ensures Substituir(Substituir(usos, p, itens), p, itens) == Substituir(usos, p, itens)
  {
    LimparConcat(Limpar(usos, p), Novos(p, itens), p);
    LimparIdempotente(usos, p);
    LimparNovos(p, itens);
  }

  /** The item a usage row of `p` yields in the inner join with `t`, if its row still exists. */
  predicate Vivo<D>(u: Uso, t: seq<Linha<D>>, p: nat)
  {
    u.pecaId == p && Buscar(t, u.refId).Some?
  }

  function ItemDe<D>(u: Uso, t: seq<Linha<D>>): ItemDaPeca
    requires Buscar(t, u.refId).Some?
  {
    ItemDaPeca(u.refId, u.quantidade, Buscar(t, u.refId).value.nome)
  }

  /** `materiais_da_peca` / `tecidos_da_peca`: the usage rows of `p` joined (inner JOIN) with the
      table they reference. Rows whose material or fabric was deleted are dropped; each item
      carries the name of the row it joins with. */
  function Juntar<D>(usos: seq<Uso>, t: seq<Linha<D>>, p: nat): (r: seq<ItemDaPeca>)
    ensures |r| <= |usos|
  {
    if |usos| == 0 then []
    else
      var u := usos[|usos| - 1];
      Juntar(usos[..|usos| - 1], t, p) + (if Vivo(u, t, p) then [ItemDe(u, t)] else [])
  }

  /** Every joined item references an existing row and carries that row's name. */
  lemma {:induction false} JuntarReferenciasVivas<D>(usos: seq<Uso>, t: seq<Linha<D>>, p: nat, i: nat)
    requires i < |Juntar(usos, t, p)|
    ensures var x := Juntar(usos, t, p)[i];
      Buscar(t, x.refId).Some? && Buscar(t, x.refId).value.nome == x.nome
  {
    var s, u := usos[..|usos| - 1], usos[|usos| - 1];
    if i < |Juntar(s, t, p)| {
      JuntarReferenciasVivas(s, t, p, i);
    }
  }

  /** `JuntarReferenciasVivas` for every position of the join at once. */
  lemma JuntarTodasVivas<D>(usos: seq<Uso>, t: seq<Linha<D>>, p: nat)
    ensures forall i :: 0 <= i < |Juntar(usos, t, p)| ==>
      Buscar(t, Juntar(usos, t, p)[i].refId).Some? &&
      Buscar(t, Juntar(usos, t, p)[i].refId).value.nome == Juntar(usos, t, p)[i].nome
  {
    forall i | 0 <= i < |Juntar(usos, t, p)|
      ensures Buscar(t, Juntar(usos, t, p)[i].refId).Some? &&
        Buscar(t, Juntar(usos, t, p)[i].refId).value.nome == Juntar(usos, t, p)[i].nome
    {
      JuntarReferenciasVivas(usos, t, p, i);
    }
  }

  /** The join holds an item exactly for each usage row of `p` whose referenced row exists. */
  lemma {:induction false} JuntarMembros<D>(usos: seq<Uso>, t: seq<Linha<D>>, p: nat, x: ItemDaPeca)
    ensures x in Juntar(usos, t, p) <==> exists u :: u in usos && Vivo(u, t, p) && x == ItemDe(u, t)
  {
    if |usos| > 0 {
      var s, u := usos[..|usos| - 1], usos[|usos| - 1];
      assert usos == s + [u];
      JuntarMembros(s, t, p, x);
      JuntarAnexar(s, u, t, p);
      assert forall v :: v in usos <==> v in s || v == u;
    }
  }

  lemma JuntarAnexar<D>(s: seq<Uso>, u: Uso, t: seq<Linha<D>>, p: nat)
    ensures Juntar(s + [u], t, p) == if Vivo(u, t, p) then Juntar(s, t, p) + [ItemDe(u, t)] else Juntar(s, t, p)
  {
    assert (s + [u])[..|s|] == s;
  }

  lemma DaPecaAnexar(s: seq<Uso>, u: Uso, p: nat)
    ensures DaPeca(s + [u], p) == if u.pecaId == p then DaPeca(s, p) + [u] else DaPeca(s, p)
  {
    assert (s + [u])[..|s|] == s;
  }

  lemma {:induction false} JuntarSoDependeDaPeca<D>(usos: seq<Uso>, t: seq<Linha<D>>, p: nat)
    ensures Juntar(usos, t, p) == Juntar(DaPeca(usos, p), t, p)
  {
    if |usos| > 0 {
      var s, u := usos[..|usos| - 1], usos[|usos| - 1];
      assert usos == s + [u];
      JuntarSoDependeDaPeca(s, t, p);
      JuntarAnexar(s, u, t, p);
      DaPecaAnexar(s, u, p);
      if u.pecaId == p {
        JuntarAnexar(DaPeca(s, p), u, t, p);
      } else {
        assert DaPeca(usos, p) == DaPeca(s, p);
      }
    }
  }

  /** Once a piece's rows are cleared, the join of that piece is empty. */
  lemma JuntarAposLimpar<D>(usos: seq<Uso>, t: seq<Linha<D>>, p: nat)
    ensures Juntar(Limpar(usos, p), t, p) == []
  {
    JuntarSoDependeDaPeca(Limpar(usos, p), t, p);
    LimparDaPeca(usos, p, p);
  }

  /** Once the composition of `p` is saved, its join is the join of the new pairs alone. */
  lemma JuntarAposSubstituir<D>(usos: seq<Uso>, t: seq<Linha<D>>, p: nat, itens: seq<(nat, real)>)
    ensures Juntar(Substituir(usos, p, itens), t, p) == Juntar(Novos(p, itens), t, p)
  {
    JuntarSoDependeDaPeca(Substituir(usos, p, itens), t, p);
    SubstituirDefineUsos(usos, p, itens, p);
    JuntarSoDependeDaPeca(Novos(p, itens), t, p);
    DaPecaNovos(p, itens, p);
  }

  /** Clearing the rows of `p` leaves the join of every other piece as it was. */
  lemma JuntarAposLimparOutra<D>(usos: seq<Uso>, t: seq<Linha<D>>, p: nat, q: nat)
    requires q != p
    ensures Juntar(Limpar(usos, p), t, q) == Juntar(usos, t, q)
  {
    JuntarSoDependeDaPeca(Limpar(usos, p), t, q);
    JuntarSoDependeDaPeca(usos, t, q);
    LimparDaPeca(usos, p, q);
  }

  /** The items whose referenced key is not `k`, in order. */
  function SemReferencia(itens: seq<ItemDaPeca>, k: nat): seq<ItemDaPeca>
  {
    if |itens| == 0 then []
    else
      var x := itens[|itens| - 1];
      SemReferencia(itens[..|itens| - 1], k) + (if x.refId != k then [x] else [])
  }

  lemma SemReferenciaAnexar(s: seq<ItemDaPeca>, x: ItemDaPeca, k: nat)
    ensures SemReferencia(s + [x], k) == if x.refId != k then SemReferencia(s, k) + [x] else SemReferencia(s, k)
  {
    assert (s + [x])[..|s|] == s;
  }

  lemma JuntarAposExcluirPasso<D>(usos: seq<Uso>, t: seq<Linha<D>>, k: nat, p: nat)
    requires |usos| > 0
    requires Juntar(usos[..|usos| - 1], Excluir(t, k), p) == SemReferencia(Juntar(usos[..|usos| - 1], t, p), k)
    ensures Juntar(usos, Excluir(t, k), p) == SemReferencia(Juntar(usos, t, p), k)
  {
    var s, u, t' := usos[..|usos| - 1], usos[|usos| - 1], Excluir(t, k);
    assert Buscar(t', u.refId) == if u.refId == k then None else Buscar(t, u.refId);
    if Vivo(u, t, p) {
      SemReferenciaAnexar(Juntar(s, t, p), ItemDe(u, t), k);
      if u.refId != k {
        assert Vivo(u, t', p) && ItemDe(u, t') == ItemDe(u, t);
      } else {
        assert !Vivo(u, t', p);
      }
    } else {
      assert !Vivo(u, t', p);
      assert Juntar(usos, t, p) == Juntar(s, t, p);
      assert Juntar(usos, t', p) == Juntar(s, t', p);
    }
  }

  /** Deleting material (or fabric) `k` does not touch the usage rows, but the join stops
      returning the rows that use `k`. */
  lemma {:induction false} JuntarAposExcluir<D>(usos: seq<Uso>, t: seq<Linha<D>>, k: nat, p: nat)
    ensures Juntar(usos, Excluir(t, k), p) == SemReferencia(Juntar(usos, t, p), k)
  {
    if |usos| > 0 {
      JuntarAposExcluir(usos[..|usos| - 1], t, k, p);
      JuntarAposExcluirPasso(usos, t, k, p);
    }
  }

  /** When every usage row of `p` references an existing row, the join returns one item per row. */
  lemma {:induction false} JuntarCompleto<D>(usos: seq<Uso>, t: seq<Linha<D>>, p: nat)
    requires forall u :: u in usos && u.pecaId == p ==> Buscar(t, u.refId).Some?
    ensures |Juntar(usos, t, p)| == |DaPeca(usos, p)|
  {
    if |usos| > 0 {
      JuntarCompleto(usos[..|usos| - 1], t, p);
    }
  }
}
