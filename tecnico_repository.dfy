/** The `Tecnico` table and its repository (backend/LegacyProcs/Repositories/TecnicoRepository.cs). */
module TecnicoRepo {
  import opened Wrappers
  import opened Text
  import opened Models
  import Table
  import Sorting

  function IdOf(t: Tecnico): int { t.id }

  /** The `WHERE` of the listing: no filter (null or "") keeps every row, otherwise
      `Nome LIKE '%filtro%' OR Especialidade LIKE '%filtro%'`; a null Especialidade matches nothing. */
  predicate Combina(t: Tecnico, filtro: Option<string>) {
    || IsFalsy(filtro)
    || Contains(t.nome, filtro.value)
    || (t.especialidade.Some? && Contains(t.especialidade.value, filtro.value))
  }

  /** The rows the `WHERE` keeps, in table order. */
  function Selecionados(rows: seq<Tecnico>, filtro: Option<string>): (r: seq<Tecnico>)
    ensures |r| <= |rows|
    ensures forall x :: x in r <==> x in rows && Combina(x, filtro)
  {
    if rows == [] then []
    else
      var init, last := rows[..|rows| - 1], rows[|rows| - 1];
      assert rows == init + [last];
      Selecionados(init, filtro) + (if Combina(last, filtro) then [last] else [])
  }

  lemma {:induction false} SemFiltroTodos(rows: seq<Tecnico>, filtro: Option<string>)
    requires IsFalsy(filtro)
    ensures Selecionados(rows, filtro) == rows
  {
    if rows != [] {
      SemFiltroTodos(rows[..|rows| - 1], filtro);
      assert rows == rows[..|rows| - 1] + [rows[|rows| - 1]];
    }
  }

  /** `WHERE Status = 'Ativo'`, in table order. */
  function Ativos(rows: seq<Tecnico>): (r: seq<Tecnico>)
    ensures |r| <= |rows|
    ensures forall x :: x in r <==> x in rows && x.status == Ativo
  {
    if rows == [] then []
    else
      var init, last := rows[..|rows| - 1], rows[|rows| - 1];
      assert rows == init + [last];
      Ativos(init) + (if last.status == Ativo then [last] else [])
  }

  /** `ORDER BY Nome`. */
  predicate PorNome(a: Tecnico, b: Tecnico) { StrLe(a.nome, b.nome) }

  lemma PorNomeOrdena()
    ensures Sorting.IsTotalPreorder(PorNome)
  {
    forall a: Tecnico, b: Tecnico ensures PorNome(a, b) || PorNome(b, a) {
      StrLeTotal(a.nome, b.nome);
    }
    forall a: Tecnico, b: Tecnico, c: Tecnico | PorNome(a, b) && PorNome(b, c) ensures PorNome(a, c) {
      StrLeTransitive(a.nome, b.nome, c.nome);
    }
  }

  function Listagem(rows: seq<Tecnico>, filtro: Option<string>): (r: seq<Tecnico>)
    ensures Sorting.SortedBy(r, PorNome)
    ensures multiset(r) == multiset(Selecionados(rows, filtro))
  {
    PorNomeOrdena();
    Sorting.Sort(Selecionados(rows, filtro), PorNome)
  }

  function ListagemDisponiveis(rows: seq<Tecnico>): (r: seq<Tecnico>)
    ensures Sorting.SortedBy(r, PorNome)
    ensures multiset(r) == multiset(Ativos(rows))
  {
    PorNomeOrdena();
    Sorting.Sort(Ativos(rows), PorNome)
  }

  /** The row `UPDATE` leaves: Nome, Email, Telefone, Especialidade and Status from the request; Id
      and DataCadastro keep their stored values. */
  function Atualizado(antigo: Tecnico, t: Tecnico): (r: Tecnico)
    ensures r.id == antigo.id && r.dataCadastro == antigo.dataCadastro
    ensures r.nome == t.nome && r.email == t.email && r.telefone == t.telefone
    ensures r.especialidade == t.especialidade && r.status == t.status
  {
    t.(id := antigo.id, dataCadastro := antigo.dataCadastro)
  }

  class TecnicoRepository {
    var rows: seq<Tecnico>
    var nextId: int

    predicate Valid()
      reads this
    {
      Table.IdsIncreasing(rows, IdOf) && Table.IdsBelow(rows, IdOf, nextId) && nextId >= 1
    }

    constructor()
      ensures Valid() && rows == [] && nextId == 1
    {
      rows := [];
      nextId := 1;
    }

    /** `GetAllAsync`: the rows the filter selects, each once, ordered by Nome. */
    method GetAll(filtro: Option<string>) returns (lista: seq<Tecnico>)
      ensures Sorting.SortedBy(lista, PorNome)
      ensures multiset(lista) == multiset(Selecionados(rows, filtro))
    {
      var consulta := Listagem(rows, filtro);
      lista := Table.ReadAll(consulta);
    }

    /** `GetDisponiveisAsync`: the technicians whose Status is "Ativo", each once, ordered by Nome. */
    method GetDisponiveis() returns (lista: seq<Tecnico>)
      ensures Sorting.SortedBy(lista, PorNome)
      ensures multiset(lista) == multiset(Ativos(rows))
    {
      var consulta := ListagemDisponiveis(rows);
      lista := Table.ReadAll(consulta);
    }

    /** `GetByIdAsync`: the row with that id, or null. */
    function GetById(id: int): (r: Option<Tecnico>)
      reads this
      ensures r.Some? <==> Table.HasId(rows, IdOf, id)
      ensures r.Some? ==> r.value in rows && r.value.id == id
    {
      Table.Find(rows, IdOf, id)
    }

    /** `CreateAsync`: every field but Id is stored; the new row gets the next identity value,
        which is returned. */
    method Create(t: Tecnico) returns (id: int)
      requires Valid()
      modifies this
      ensures Valid()
      ensures id == old(nextId) && !Table.HasId(old(rows), IdOf, id)
      ensures rows == old(rows) + [t.(id := id)] && nextId == old(nextId) + 1
      ensures GetById(id) == Some(t.(id := id))
    {
      id := nextId;
      Table.AppendKeepsOrder(rows, IdOf, t.(id := id), nextId);
      Table.FindAppended(rows, IdOf, t.(id := id));
      rows := rows + [t.(id := id)];
      nextId := nextId + 1;
    }

    /** `UpdateAsync`: true iff a row has the request's Id; that row takes the five editable
        fields, and no other row changes. */
    method Update(t: Tecnico) returns (existia: bool)
      requires Valid()
      modifies this
      ensures Valid() && nextId == old(nextId)
      ensures existia <==> Table.HasId(old(rows), IdOf, t.id)
      ensures |rows| == |old(rows)|
      ensures forall i :: 0 <= i < |rows| ==>
                rows[i] == if old(rows)[i].id == t.id then Atualizado(old(rows)[i], t) else old(rows)[i]
    {
      var k := Table.IndexOf(rows, IdOf, t.id);
      if k.None? {
        return false;
      }
      var i := k.value;
      rows := rows[i := Atualizado(rows[i], t)];
      return true;
    }

    /** `DeleteAsync`: true iff the id existed; only that row goes. */
    method Delete(id: int) returns (existia: bool)
      requires Valid()
      modifies this
      ensures Valid() && nextId == old(nextId)
      ensures existia <==> Table.HasId(old(rows), IdOf, id)
      ensures rows == Table.Remove(old(rows), IdOf, id)
      ensures |rows| == if existia then |old(rows)| - 1 else |old(rows)|
      ensures GetById(id).None?
    {
      existia := Table.IndexOf(rows, IdOf, id).Some?;
      Table.RemoveKeepsOrder(rows, IdOf, id, nextId);
      Table.RemoveCount(rows, IdOf, id);
      Table.FindRemoved(rows, IdOf, id);
      rows := Table.Remove(rows, IdOf, id);
    }
  }

  lemma ListagemSemFiltro(rows: seq<Tecnico>)
    ensures multiset(Listagem(rows, None)) == multiset(rows)
  {
    SemFiltroTodos(rows, None);
  }

  /** Every available technician is also in the unfiltered listing, and the available ones are
      exactly its members whose Status is "Ativo". */
  lemma DisponiveisSaoAtivosDaListagem(rows: seq<Tecnico>, x: Tecnico)
    ensures x in ListagemDisponiveis(rows) <==> x in Listagem(rows, None) && x.status == Ativo
  {
    ListagemSemFiltro(rows);
    assert x in ListagemDisponiveis(rows) <==> x in multiset(Ativos(rows));
    assert x in Listagem(rows, None) <==> x in multiset(rows);
  }
}
