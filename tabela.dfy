/** The three tables with an integer key and a unique name (materiais, tecidos, pecas), as
    sequences of rows in key order, and the queries and updates the store runs on them. */
module Tabela {
  import opened Nomes

  datatype Option<T> = None | Some(value: T)

  /** What the store's UNIQUE constraint on the name column reports. */
  datatype Erro = NomeDuplicado

  datatype Resultado<T> = Ok(valor: T) | Falha(erro: Erro)

  /** One row: the AUTOINCREMENT key, the UNIQUE NOT NULL name, and the remaining columns. */
  datatype Linha<D> = Linha(id: nat, nome: string, dados: D)

  // ---------------------------------------------------------------------------
  // Table invariants
  // ---------------------------------------------------------------------------

  /** Rows are kept in key order, so every key occurs once. */
  predicate IdsCrescentes<D>(t: seq<Linha<D>>)
  {
    forall i, j :: 0 <= i < j < |t| ==> t[i].id < t[j].id
  }

  predicate NomesUnicos<D>(t: seq<Linha<D>>)
  {
    forall i, j :: 0 <= i < j < |t| ==> t[i].nome != t[j].nome
  }

  /** Every key is below the next key AUTOINCREMENT hands out. */
  predicate IdsAbaixo<D>(t: seq<Linha<D>>, prox: nat)
  {
    forall i :: 0 <= i < |t| ==> t[i].id < prox
  }

  predicate BemFormada<D>(t: seq<Linha<D>>, prox: nat)
  {
    IdsCrescentes(t) && NomesUnicos(t) && IdsAbaixo(t, prox)
  }

  // ---------------------------------------------------------------------------
  // Queries
  // ---------------------------------------------------------------------------

  /** `SELECT 1 FROM <table> WHERE nome = ?` found a row. */
  function NomeExiste<D>(t: seq<Linha<D>>, nome: string): (r: bool)
    ensures r <==> exists i :: 0 <= i < |t| && t[i].nome == nome
  {
    if |t| == 0 then false
    else if t[0].nome == nome then true
    else
      var r := NomeExiste(t[1..], nome);
      assert r ==> exists i :: 0 <= i < |t[1..]| && t[1..][i].nome == nome;
      assert (exists i :: 0 <= i < |t| && t[i].nome == nome) ==>
        exists i :: 0 <= i < |t[1..]| && t[1..][i].nome == nome by {
        if i :| 0 <= i < |t| && t[i].nome == nome {
          assert i != 0 && t[1..][i - 1].nome == nome;
        }
      }
      r
  }

  /** `SELECT ... WHERE id = ?` followed by `fetchone()`: the first row with that key. */
  function Buscar<D>(t: seq<Linha<D>>, id: nat): (r: Option<Linha<D>>)
    ensures r.Some? ==> r.value.id == id
  {
    if |t| == 0 then None
    else if t[0].id == id then Some(t[0])
    else Buscar(t[1..], id)
  }

  /** `Buscar` finds nothing exactly when no row has the key, and otherwise the first row
      that has it. */
  lemma {:induction false} BuscarPrimeira<D>(t: seq<Linha<D>>, id: nat)
    ensures Buscar(t, id).None? <==> forall i :: 0 <= i < |t| ==> t[i].id != id
    ensures Buscar(t, id).Some? ==>
      exists i :: 0 <= i < |t| && t[i] == Buscar(t, id).value && (forall j :: 0 <= j < i ==> t[j].id != id)
  {
    if |t| > 0 && t[0].id != id {
      BuscarPrimeira(t[1..], id);
      assert forall i :: 1 <= i < |t| ==> t[i] == t[1..][i - 1];
      if Buscar(t, id).Some? {
        var i :| 0 <= i < |t[1..]| && t[1..][i] == Buscar(t, id).value &&
          forall j :: 0 <= j < i ==> t[1..][j].id != id;
        assert t[i + 1] == Buscar(t, id).value;
        assert forall j :: 0 <= j < i + 1 ==> t[j].id != id by {
          assert forall j :: 1 <= j < i + 1 ==> t[j] == t[1..][j - 1];
        }
      }
    } else if |t| > 0 {
      assert t[0] == Buscar(t, id).value;
    }
  }

  /** With keys in order, looking a row's key up finds that very row. */
  lemma {:induction false} BuscarUnico<D>(t: seq<Linha<D>>, i: nat)
    requires IdsCrescentes(t) && i < |t|
    ensures Buscar(t, t[i].id) == Some(t[i])
  {
    if i > 0 {
      assert t[1..][i - 1] == t[i];
      BuscarUnico(t[1..], i - 1);
    }
  }

  /** Looking up a key in a table with one row appended. */
  lemma {:induction false} BuscarAnexar<D>(t: seq<Linha<D>>, x: Linha<D>, k: nat)
    ensures Buscar(t + [x], k) ==
      if Buscar(t, k).Some? then Buscar(t, k) else if x.id == k then Some(x) else None
  {
    if |t| > 0 && t[0].id != k {
      assert (t + [x])[1..] == t[1..] + [x];
      BuscarAnexar(t[1..], x, k);
    }
  }

  predicate OrdenadaPorNome<D>(s: seq<Linha<D>>)
  {
    forall i, j :: 0 <= i < j < |s| ==> NomeAntes(s[i].nome, s[j].nome)
  }

  /** A row that sorts at or before every row of a sorted sequence may be put in front of it. */
  lemma PrimeiroAntesDeTodos<D>(y: Linha<D>, s: seq<Linha<D>>)
    requires OrdenadaPorNome(s)
    requires forall x :: x in s ==> NomeAntes(y.nome, x.nome)
    ensures OrdenadaPorNome([y] + s)
  {
    forall i, j | 0 <= i < j < |[y] + s|
      ensures NomeAntes(([y] + s)[i].nome, ([y] + s)[j].nome)
    {
      if i == 0 {
        assert ([y] + s)[j] == s[j - 1] && s[j - 1] in s;
      } else {
        assert ([y] + s)[i] == s[i - 1] && ([y] + s)[j] == s[j - 1];
      }
    }
  }

  /** A name at or before the first of a sorted sequence is at or before all of them. */
  lemma AntesDaCabeca<D>(x: Linha<D>, s: seq<Linha<D>>)
    requires OrdenadaPorNome(s) && |s| > 0 && NomeAntes(x.nome, s[0].nome)
    ensures forall y :: y in s ==> NomeAntes(x.nome, y.nome)
  {
    forall y | y in s ensures NomeAntes(x.nome, y.nome) {
      var j :| 0 <= j < |s| && s[j] == y;
      if j > 0 {
        NomeAntesTransitiva(x.nome, s[0].nome, y.nome);
      }
    }
  }

  /** The head of a sorted sequence is at or before every element of its tail with `x` added. */
  lemma CabecaAntesDoResto<D>(c: Linha<D>, cauda: seq<Linha<D>>, x: Linha<D>, resto: seq<Linha<D>>)
    requires OrdenadaPorNome([c] + cauda) && NomeAntes(c.nome, x.nome)
    requires multiset(resto) == multiset(cauda) + multiset{x}
    ensures forall y :: y in resto ==> NomeAntes(c.nome, y.nome)
  {
    forall y | y in resto ensures NomeAntes(c.nome, y.nome) {
      assert y in multiset(resto);
      if y != x {
        assert y in multiset(cauda);
        assert y in cauda;
        var j :| 0 <= j < |cauda| && cauda[j] == y;
        var s := [c] + cauda;
        assert s[0] == c && s[j + 1] == y;
        assert NomeAntes(s[0].nome, s[j + 1].nome);
      }
    }
  }

  /** One step of insertion sort on names. */
  function InserirOrdenado<D>(x: Linha<D>, s: seq<Linha<D>>): (r: seq<Linha<D>>)
    requires OrdenadaPorNome(s)
    ensures OrdenadaPorNome(r)
    ensures multiset(r) == multiset(s) + multiset{x}
  {
    if |s| == 0 then [x]
    else if NomeAntes(x.nome, s[0].nome) then
      AntesDaCabeca(x, s);
      PrimeiroAntesDeTodos(x, s);
      [x] + s
    else
      NomeAntesTotal(x.nome, s[0].nome);
      assert s == [s[0]] + s[1..];
      var resto := InserirOrdenado(x, s[1..]);
      CabecaAntesDoResto(s[0], s[1..], x, resto);
      PrimeiroAntesDeTodos(s[0], resto);
      [s[0]] + resto
  }

  /** `SELECT ... ORDER BY nome ASC`: every row of the table, once, in name order. */
  function Listar<D>(t: seq<Linha<D>>): (r: seq<Linha<D>>)
    ensures OrdenadaPorNome(r)
    ensures multiset(r) == multiset(t)
  {
    if |t| == 0 then []
    else
      assert t == [t[0]] + t[1..];
      InserirOrdenado(t[0], Listar(t[1..]))
  }

  // ---------------------------------------------------------------------------
  // Updates
  // ---------------------------------------------------------------------------

  /** `INSERT` of a row with key `id`; the UNIQUE constraint rejects a name already present. */
  function Inserir<D>(t: seq<Linha<D>>, id: nat, nome: string, dados: D): (r: Resultado<seq<Linha<D>>>)
    ensures r.Falha? <==> NomeExiste(t, nome)
    ensures r.Falha? ==> r.erro == NomeDuplicado
    ensures r.Ok? ==> multiset(r.valor) == multiset(t) + multiset{Linha(id, nome, dados)}
    ensures r.Ok? ==> forall k :: k != id ==> Buscar(r.valor, k) == Buscar(t, k)
    ensures r.Ok? && IdsAbaixo(t, id) ==> Buscar(r.valor, id) == Some(Linha(id, nome, dados))
  {
    if NomeExiste(t, nome) then Falha(NomeDuplicado)
    else
      var novo := Linha(id, nome, dados);
      forall k ensures Buscar(t + [novo], k) ==
        if Buscar(t, k).Some? then Buscar(t, k) else if id == k then Some(novo) else None
      {
        BuscarAnexar(t, novo, k);
      }
      BuscarPrimeira(t, id);
      Ok(t + [novo])
  }

  lemma InserirPreservaBemFormada<D>(t: seq<Linha<D>>, prox: nat, nome: string, dados: D)
    requires BemFormada(t, prox)
    requires Inserir(t, prox, nome, dados).Ok?
    ensures BemFormada(Inserir(t, prox, nome, dados).valor, prox + 1)
  {
    var r := t + [Linha(prox, nome, dados)];
    assert Inserir(t, prox, nome, dados).valor == r;
    assert forall i :: 0 <= i < |t| ==> r[i] == t[i];
  }

  /** `UPDATE <table> SET nome = ?, ... WHERE id = ?` with no constraint check: every row with
      that key gets the new name and columns; the other rows stay as they were. */
  function Regravar<D>(t: seq<Linha<D>>, id: nat, nome: string, dados: D): (r: seq<Linha<D>>)
    ensures |r| == |t|
    ensures Buscar(r, id) == if Buscar(t, id).Some? then Some(Linha(id, nome, dados)) else None
    ensures forall k :: k != id ==> Buscar(r, k) == Buscar(t, k)
  {
    if |t| == 0 then []
    else
      var cabeca := if t[0].id == id then Linha(id, nome, dados) else t[0];
      var resto := Regravar(t[1..], id, nome, dados);
      assert ([cabeca] + resto)[1..] == resto;
      [cabeca] + resto
  }

  lemma {:induction false} RegravarEmCadaLinha<D>(t: seq<Linha<D>>, id: nat, nome: string, dados: D, i: nat)
    requires i < |t|
    ensures Regravar(t, id, nome, dados)[i] == if t[i].id == id then Linha(id, nome, dados) else t[i]
  {
    if i > 0 {
      RegravarEmCadaLinha(t[1..], id, nome, dados, i - 1);
    }
  }

  /** Overwriting row `id` keeps the table well formed as long as no other row has the new name. */
  lemma RegravarPreservaBemFormada<D>(t: seq<Linha<D>>, prox: nat, id: nat, nome: string, dados: D)
    requires BemFormada(t, prox)
    requires forall i :: 0 <= i < |t| && t[i].id != id ==> t[i].nome != nome
    ensures BemFormada(Regravar(t, id, nome, dados), prox)
  {
    var r := Regravar(t, id, nome, dados);
    forall i | 0 <= i < |t|
      ensures r[i].id == t[i].id && r[i].nome == if t[i].id == id then nome else t[i].nome
    {
      RegravarEmCadaLinha(t, id, nome, dados, i);
    }
    assert IdsCrescentes(r) && IdsAbaixo(r, prox);
    forall i, j | 0 <= i < j < |r| ensures r[i].nome != r[j].nome {
      assert t[i].id < t[j].id;
    }
  }

  /** In a table with unique names, the name of row `id` is carried by no row of another key. */
  lemma NomeSoDaPropriaLinha<D>(t: seq<Linha<D>>, id: nat)
    requires NomesUnicos(t) && Buscar(t, id).Some?
    ensures forall i :: 0 <= i < |t| && t[i].id != id ==> t[i].nome != Buscar(t, id).value.nome
  {
    BuscarPrimeira(t, id);
  }

  /** A row other than `id` already carries `nome`. */
  predicate NomeEmOutraLinha<D>(t: seq<Linha<D>>, id: nat, nome: string)
  {
    exists i :: 0 <= i < |t| && t[i].id != id && t[i].nome == nome
  }

  /** `UPDATE <table> SET nome = ?, ... WHERE id = ?`: the UNIQUE constraint rejects renaming an
      existing row to a name another row has; an absent key matches no row and changes nothing. */
  function Atualizar<D>(t: seq<Linha<D>>, id: nat, nome: string, dados: D): (r: Resultado<seq<Linha<D>>>)
    ensures r.Falha? <==> Buscar(t, id).Some? && NomeEmOutraLinha(t, id, nome)
    ensures r.Falha? ==> r.erro == NomeDuplicado
    ensures r.Ok? ==> Buscar(r.valor, id) == if Buscar(t, id).Some? then Some(Linha(id, nome, dados)) else None
    ensures r.Ok? ==> forall k :: k != id ==> Buscar(r.valor, k) == Buscar(t, k)
  {
    if Buscar(t, id).Some? && NomeEmOutraLinha(t, id, nome) then Falha(NomeDuplicado)
    else Ok(Regravar(t, id, nome, dados))
  }

  lemma AtualizarPreservaBemFormada<D>(t: seq<Linha<D>>, prox: nat, id: nat, nome: string, dados: D)
    requires BemFormada(t, prox)
    requires Atualizar(t, id, nome, dados).Ok?
    ensures BemFormada(Atualizar(t, id, nome, dados).valor, prox)
  {
    if Buscar(t, id).Some? {
      RegravarPreservaBemFormada(t, prox, id, nome, dados);
    } else {
      BuscarPrimeira(t, id);
      var r := Regravar(t, id, nome, dados);
      forall i | 0 <= i < |t| ensures r[i] == t[i] {
        RegravarEmCadaLinha(t, id, nome, dados, i);
      }
      assert r == t;
    }
  }

  /** `DELETE FROM <table> WHERE id = ?`: drops the rows with that key and nothing else. */
  function Excluir<D>(t: seq<Linha<D>>, id: nat): (r: seq<Linha<D>>)
    ensures Buscar(r, id) == None
    ensures forall k :: k != id ==> Buscar(r, k) == Buscar(t, k)
  {
    if |t| == 0 then []
    else
      var resto := Excluir(t[1..], id);
      if t[0].id == id then resto
      else
        assert ([t[0]] + resto)[1..] == resto;
        [t[0]] + resto
  }

  /** The rows left by `Excluir` are exactly the rows of other keys. */
  lemma {:induction false} ExcluirMembros<D>(t: seq<Linha<D>>, id: nat, x: Linha<D>)
    ensures x in Excluir(t, id) <==> x in t && x.id != id
  {
    if |t| > 0 {
      ExcluirMembros(t[1..], id, x);
      assert t == [t[0]] + t[1..];
    }
  }

  /** A row whose key and name come before every row's of a well formed table may lead it. */
  lemma BemFormadaComCabeca<D>(y: Linha<D>, s: seq<Linha<D>>, prox: nat)
    requires BemFormada(s, prox) && y.id < prox
    requires forall i :: 0 <= i < |s| ==> y.id < s[i].id && y.nome != s[i].nome
    ensures BemFormada([y] + s, prox)
  {
    var r := [y] + s;
    assert forall i :: 0 < i < |r| ==> r[i] == s[i - 1];
  }

  lemma {:induction false} ExcluirPreservaBemFormada<D>(t: seq<Linha<D>>, prox: nat, id: nat)
    requires BemFormada(t, prox)
    ensures BemFormada(Excluir(t, id), prox)
  {
    if |t| > 0 {
      var resto := Excluir(t[1..], id);
      assert BemFormada(t[1..], prox) by {
        assert forall i :: 0 <= i < |t[1..]| ==> t[1..][i] == t[i + 1];
      }
      ExcluirPreservaBemFormada(t[1..], prox, id);
      if t[0].id != id {
        forall j | 0 <= j < |resto|
          ensures t[0].id < resto[j].id && t[0].nome != resto[j].nome
        {
          ExcluirMembros(t[1..], id, resto[j]);
          var k :| 0 <= k < |t[1..]| && t[1..][k] == resto[j];
          assert t[k + 1] == resto[j];
        }
        BemFormadaComCabeca(t[0], resto, prox);
      }
    }
  }
}
