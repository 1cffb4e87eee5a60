/** The `Cliente` table and its repository (backend/LegacyProcs/Repositories/ClienteRepository.cs). */
module ClienteRepo {
  import opened Wrappers
  import opened Text
  import opened Models
  import Table
  import Sorting

  function IdOf(c: Cliente): int { c.id }

  /** The `WHERE` of the listing: no search text (null or "") keeps every row, otherwise
      `RazaoSocial LIKE '%busca%' OR CNPJ LIKE '%busca%'`. */
  predicate Combina(c: Cliente, busca: Option<string>) {
    IsFalsy(busca) || Contains(c.razaoSocial, busca.value) || Contains(c.cnpj, busca.value)
  }

  /** The rows the `WHERE` keeps, in table order. */
  function Selecionados(rows: seq<Cliente>, busca: Option<string>): (r: seq<Cliente>)
    ensures |r| <= |rows|
    ensures forall x :: x in r <==> x in rows && Combina(x, busca)
  {
    if rows == [] then []
    else
      var init, last := rows[..|rows| - 1], rows[|rows| - 1];
      assert rows == init + [last];
      Selecionados(init, busca) + (if Combina(last, busca) then [last] else [])
  }

  lemma {:induction false} SemBuscaTodos(rows: seq<Cliente>, busca: Option<string>)
    requires IsFalsy(busca)
    ensures Selecionados(rows, busca) == rows
  {
    if rows != [] {
      SemBuscaTodos(rows[..|rows| - 1], busca);
      assert rows == rows[..|rows| - 1] + [rows[|rows| - 1]];
    }
  }

  /** `ORDER BY RazaoSocial`. */
  predicate PorRazaoSocial(a: Cliente, b: Cliente) { StrLe(a.razaoSocial, b.razaoSocial) }

  lemma PorRazaoSocialOrdena()
    ensures Sorting.IsTotalPreorder(PorRazaoSocial)
  {
    forall a: Cliente, b: Cliente ensures PorRazaoSocial(a, b) || PorRazaoSocial(b, a) {
      StrLeTotal(a.razaoSocial, b.razaoSocial);
    }
    forall a: Cliente, b: Cliente, c: Cliente | PorRazaoSocial(a, b) && PorRazaoSocial(b, c)
      ensures PorRazaoSocial(a, c)
    {
      StrLeTransitive(a.razaoSocial, b.razaoSocial, c.razaoSocial);
    }
  }

  /** The result set the listing query streams back. */
  function Listagem(rows: seq<Cliente>, busca: Option<string>): (r: seq<Cliente>)
    ensures Sorting.SortedBy(r, PorRazaoSocial)
    ensures multiset(r) == multiset(Selecionados(rows, busca))
  {
    PorRazaoSocialOrdena();
    Sorting.Sort(Selecionados(rows, busca), PorRazaoSocial)
  }

  /** The row `UPDATE` leaves: the nine editable fields from the request; Id and DataCadastro keep
      their stored values. */
  function Atualizado(antigo: Cliente, c: Cliente): (r: Cliente)
    ensures r.id == antigo.id && r.dataCadastro == antigo.dataCadastro
    ensures r.razaoSocial == c.razaoSocial && r.nomeFantasia == c.nomeFantasia && r.cnpj == c.cnpj
    ensures r.email == c.email && r.telefone == c.telefone && r.endereco == c.endereco
    ensures r.cidade == c.cidade && r.estado == c.estado && r.cep == c.cep
  {
    c.(id := antigo.id, dataCadastro := antigo.dataCadastro)
  }

  class ClienteRepository {
    var rows: seq<Cliente>
    var nextId: int

    predicate Valid()
      reads this
    {
      Table.IdsIncreasing(rows, IdOf) && Table.IdsBelow(rows, IdOf, nextId) && nextId >= 1
    }

    constructor()
      ensures Valid() && rows == [] && nextId == 1
    {
      rows := [];
      nextId := 1;
    }

    /** `GetAllAsync`: the rows the search selects, each once, ordered by RazaoSocial. */
    method GetAll(busca: Option<string>) returns (lista: seq<Cliente>)
      ensures Sorting.SortedBy(lista, PorRazaoSocial)
      ensures multiset(lista) == multiset(Selecionados(rows, busca))
    {
      var consulta := Listagem(rows, busca);
      lista := Table.ReadAll(consulta);
    }

    /** `GetByIdAsync`: the row with that id, or null. */
    function GetById(id: int): (r: Option<Cliente>)
      reads this
      ensures r.Some? <==> Table.HasId(rows, IdOf, id)
      ensures r.Some? ==> r.value in rows && r.value.id == id
    {
      Table.Find(rows, IdOf, id)
    }

    /** `CreateAsync`: every field but Id is stored; the new row gets the next identity value,
        which is returned. */
    method Create(c: Cliente) returns (id: int)
      requires Valid()
      modifies this
      ensures Valid()
      ensures id == old(nextId) && !Table.HasId(old(rows), IdOf, id)
      ensures rows == old(rows) + [c.(id := id)] && nextId == old(nextId) + 1
      ensures GetById(id) == Some(c.(id := id))
    {
      id := nextId;
      Table.AppendKeepsOrder(rows, IdOf, c.(id := id), nextId);
      Table.FindAppended(rows, IdOf, c.(id := id));
      rows := rows + [c.(id := id)];
      nextId := nextId + 1;
    }

    /** `UpdateAsync`: true iff a row has the request's Id; that row takes the nine editable fields,
        and no other row changes. */
    method Update(c: Cliente) returns (existia: bool)
      requires Valid()
      modifies this
      ensures Valid() && nextId == old(nextId)
      ensures existia <==> Table.HasId(old(rows), IdOf, c.id)
      ensures |rows| == |old(rows)|
      ensures forall i :: 0 <= i < |rows| ==>
                rows[i] == if old(rows)[i].id == c.id then Atualizado(old(rows)[i], c) else old(rows)[i]
    {
      var k := Table.IndexOf(rows, IdOf, c.id);
      if k.None? {
        return false;
      }
      var i := k.value;
      rows := rows[i := Atualizado(rows[i], c)];
      return true;
    }

    /** `DeleteAsync`: true iff the id existed; only that row goes. */
    method Delete(id: int) returns (existia: bool)
      requires Valid()
      modifies this
      ensures Valid() && nextId == old(nextId)
      ensures existia <==> Table.HasId(old(rows), IdOf, id)
      ensures rows == Table.Remove(old(rows), IdOf, id)
      ensures |rows| == if existia then |old(rows)| - 1 else |old(rows)|
      ensures GetById(id).None?
    {
      existia := Table.IndexOf(rows, IdOf, id).Some?;
      Table.RemoveKeepsOrder(rows, IdOf, id, nextId);
      Table.RemoveCount(rows, IdOf, id);
      Table.FindRemoved(rows, IdOf, id);
      rows := Table.Remove(rows, IdOf, id);
    }
  }

  /** Without a search text the listing holds every row. */
  lemma ListagemSemBusca(rows: seq<Cliente>)
    ensures multiset(Listagem(rows, None)) == multiset(rows)
  {
    SemBuscaTodos(rows, None);
  }

  /** A search for a client's whole CNPJ finds that client. */
  lemma BuscaPorCnpjEncontra(rows: seq<Cliente>, c: Cliente)
    requires c in rows
    ensures c in Listagem(rows, Some(c.cnpj))
  {
    ContainsSelf(c.cnpj);
    assert c in Selecionados(rows, Some(c.cnpj));
    assert c in multiset(Selecionados(rows, Some(c.cnpj)));
  }
}
