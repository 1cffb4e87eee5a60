/** The `OrdemServico` table and its repository
    (backend/LegacyProcs/Repositories/OrdemServicoRepository.cs). */
module OrdemServicoRepo {
  import opened Wrappers
  import opened Text
  import opened Models
  import Table
  import Sorting

  function IdOf(o: OrdemServico): int { o.id }

  /** The `WHERE` of the listing: no filter (null or "") keeps every row, otherwise `Titulo LIKE
      '%filtro%'`. */
  predicate Combina(o: OrdemServico, filtro: Option<string>) {
    IsFalsy(filtro) || Contains(o.titulo, filtro.value)
  }

  /** The rows the `WHERE` keeps, in table order. */
  function Selecionadas(rows: seq<OrdemServico>, filtro: Option<string>): (r: seq<OrdemServico>)
    ensures |r| <= |rows|
    ensures forall x :: x in r <==> x in rows && Combina(x, filtro)
  {
    if rows == [] then []
    else
      var init, last := rows[..|rows| - 1], rows[|rows| - 1];
      assert rows == init + [last];
      Selecionadas(init, filtro) + (if Combina(last, filtro) then [last] else [])
  }

  /** Without a filter every row is selected. */
  lemma {:induction false} SemFiltroTodas(rows: seq<OrdemServico>, filtro: Option<string>)
    requires IsFalsy(filtro)
    ensures Selecionadas(rows, filtro) == rows
  {
    if rows != [] {
      SemFiltroTodas(rows[..|rows| - 1], filtro);
      assert rows == rows[..|rows| - 1] + [rows[|rows| - 1]];
    }
  }

  /** `ORDER BY DataCriacao DESC`: newer orders first. */
  predicate MaisRecentePrimeiro(a: OrdemServico, b: OrdemServico) { a.dataCriacao >= b.dataCriacao }

  lemma MaisRecentePrimeiroOrdena()
    ensures Sorting.IsTotalPreorder(MaisRecentePrimeiro)
  {
  }

  /** The result set the listing query streams back: the selected rows, newest first. */
  function Listagem(rows: seq<OrdemServico>, filtro: Option<string>): (r: seq<OrdemServico>)
    ensures Sorting.SortedBy(r, MaisRecentePrimeiro)
    ensures multiset(r) == multiset(Selecionadas(rows, filtro))
  {
    MaisRecentePrimeiroOrdena();
    Sorting.Sort(Selecionadas(rows, filtro), MaisRecentePrimeiro)
  }

  /** The row `INSERT` stores: the given Titulo, Descricao, Tecnico, Status and DataCriacao, the
      identity value as Id, and no DataAtualizacao. */
  function Inserida(o: OrdemServico, id: int): (r: OrdemServico)
    ensures r.id == id && r.dataAtualizacao.None?
    ensures r.titulo == o.titulo && r.descricao == o.descricao && r.tecnico == o.tecnico
    ensures r.status == o.status && r.dataCriacao == o.dataCriacao
  {
    OrdemServico(id, o.titulo, o.descricao, o.tecnico, o.status, o.dataCriacao, None)
  }

  /** The row after `UPDATE`: Titulo, Descricao, Tecnico and Status from the request, DataAtualizacao
      the clock's time; Id and DataCriacao keep their stored values. */
  function Atualizada(antiga: OrdemServico, o: OrdemServico, agora: DateTime): (r: OrdemServico)
    ensures r.id == antiga.id && r.dataCriacao == antiga.dataCriacao
    ensures r.titulo == o.titulo && r.descricao == o.descricao && r.tecnico == o.tecnico
    ensures r.status == o.status && r.dataAtualizacao == Some(agora)
  {
    antiga.(titulo := o.titulo, descricao := o.descricao, tecnico := o.tecnico, status := o.status,
            dataAtualizacao := Some(agora))
  }

  /** The offset as the source computes it, in 32-bit `int` arithmetic. */
  function OffsetComoEscrito(pageNumber: Int32, pageSize: Int32): (r: Int32)
    ensures (r as int - (pageNumber as int - 1) * pageSize as int) % 0x1_0000_0000 == 0
  {
    Wrap32((pageNumber as int - 1) * pageSize as int)
  }

  /** Page 214748366 of size 10 passes the controller's clamping unchanged, yet the 32-bit product
      wraps to a negative offset, which SQL Server refuses: the request fails with 500 although the
      exact offset is a valid one. */
  lemma OffsetComoEscritoTransborda()
    ensures OffsetComoEscrito(214748366, 10) < 0
    ensures (214748366 - 1) * 10 >= 0
  {
  }

  /** Page 429496731 of size 10 also passes the clamping unchanged, and its 32-bit product wraps
      past 2^32 to offset 4: the request succeeds, but answers rows 5 to 14 of the listing instead
      of the page the exact offset names. */
  lemma OffsetComoEscritoVoltaAoInicio()
    ensures OffsetComoEscrito(429496731, 10) == 4
    ensures (429496731 - 1) * 10 == 4294967300
  {
  }

  /** For any listing of more than 4 and at most 4294967300 rows, the page taken at the wrapped
      offset of page 429496731 (size 10) differs from the page at the exact offset: the first holds
      rows, the second is empty. */
  lemma PaginaComoEscritoErrada(s: seq<OrdemServico>)
    requires 4 < |s| <= 4294967300
    ensures Table.Page(s, OffsetComoEscrito(429496731, 10) as int, 10) != Table.Page(s, (429496731 - 1) * 10, 10)
  {
    OffsetComoEscritoVoltaAoInicio();
    assert |Table.Page(s, 4, 10)| > 0;
  }

  /** The exact offset never wraps: for page numbers and sizes of at least 1 it is never negative. */
  lemma OffsetExatoNaoNegativo(pageNumber: Int32, pageSize: Int32)
    requires pageNumber >= 1 && pageSize >= 1
    ensures (pageNumber as int - 1) * pageSize as int >= 0
  {
  }

  class OrdemServicoRepository {
    /** The table, in identity order. */
    var rows: seq<OrdemServico>
    /** The next value of the `IDENTITY` column. */
    var nextId: int

    predicate Valid()
      reads this
    {
      Table.IdsIncreasing(rows, IdOf) && Table.IdsBelow(rows, IdOf, nextId) && nextId >= 1
    }

    constructor()
      ensures Valid() && rows == [] && nextId == 1
    {
      rows := [];
      nextId := 1;
    }

    /** `GetAllAsync`: the rows the filter selects, each once, newest first. The order of rows with
        the same DataCriacao is not promised. */
    method GetAll(filtro: Option<string>) returns (lista: seq<OrdemServico>)
      ensures Sorting.SortedBy(lista, MaisRecentePrimeiro)
      ensures multiset(lista) == multiset(Selecionadas(rows, filtro))
    {
      var consulta := Listagem(rows, filtro);
      lista := Table.ReadAll(consulta);
    }

    /** `GetByIdAsync`: the row with that id, or null. */
    function GetById(id: int): (r: Option<OrdemServico>)
      reads this
      ensures r.Some? <==> Table.HasId(rows, IdOf, id)
      ensures r.Some? ==> r.value in rows && r.value.id == id
    {
      Table.Find(rows, IdOf, id)
    }

    /** `CreateAsync`: one row appended under the next identity value, which is returned. */
    method Create(o: OrdemServico) returns (id: int)
      requires Valid()
      modifies this
      ensures Valid()
      ensures id == old(nextId) && !Table.HasId(old(rows), IdOf, id)
      ensures rows == old(rows) + [Inserida(o, id)] && nextId == old(nextId) + 1
      ensures GetById(id) == Some(Inserida(o, id))
    {
      id := nextId;
      Table.AppendKeepsOrder(rows, IdOf, Inserida(o, id), nextId);
      Table.FindAppended(rows, IdOf, Inserida(o, id));
      rows := rows + [Inserida(o, id)];
      nextId := nextId + 1;
    }

    /** `UpdateAsync`: true iff a row has the request's Id; that row is rewritten as `Atualizada`
        says, and no other row changes. */
    method Update(o: OrdemServico, agora: DateTime) returns (existia: bool)
      requires Valid()
      modifies this
      ensures Valid() && nextId == old(nextId)
      ensures existia <==> Table.HasId(old(rows), IdOf, o.id)
      ensures |rows| == |old(rows)|
      ensures forall i :: 0 <= i < |rows| ==>
                rows[i] == if old(rows)[i].id == o.id then Atualizada(old(rows)[i], o, agora) else old(rows)[i]
    {
      var k := Table.IndexOf(rows, IdOf, o.id);
      if k.None? {
        return false;
      }
      var i := k.value;
      rows := rows[i := Atualizada(rows[i], o, agora)];
      return true;
    }

    /** `DeleteAsync`: true iff the id existed; afterwards no row has it, the other rows stay in
        their order, and exactly one row fewer remains when it existed. */
    method Delete(id: int) returns (existia: bool)
      requires Valid()
      modifies this
      ensures Valid() && nextId == old(nextId)
      ensures existia <==> Table.HasId(old(rows), IdOf, id)
      ensures rows == Table.Remove(old(rows), IdOf, id)
      ensures |rows| == if existia then |old(rows)| - 1 else |old(rows)|
      ensures GetById(id).None?
    {
      existia := Table.IndexOf(rows, IdOf, id).Some?;
      Table.RemoveKeepsOrder(rows, IdOf, id, nextId);
      Table.RemoveCount(rows, IdOf, id);
      Table.FindRemoved(rows, IdOf, id);
      rows := Table.Remove(rows, IdOf, id);
    }

    /** The paged query at a given offset. SQL Server refuses a negative OFFSET and a FETCH of
        fewer than one row; otherwise the page is the slice of the ordered listing that starts at
        the offset, newest first, and TotalCount counts every selected row whatever the page. */
    method PaginaNoOffset(offset: int, pageNumber: Int32, pageSize: Int32, filtro: Option<string>)
      returns (r: Reply<PagedResult<OrdemServico>>)
      ensures r.Threw? <==> offset < 0 || pageSize < 1
      ensures r.Returned? ==>
        && r.value.pageNumber == pageNumber as int && r.value.pageSize == pageSize as int
        && r.value.totalCount == |Selecionadas(rows, filtro)|
        && r.value.items == Table.Page(Listagem(rows, filtro), offset, pageSize as int)
      ensures r.Returned? ==>
        |r.value.items| == if offset >= r.value.totalCount then 0
                           else if pageSize as int <= r.value.totalCount - offset then pageSize as int
                           else r.value.totalCount - offset
      ensures r.Returned? ==> Sorting.SortedBy(r.value.items, MaisRecentePrimeiro)
      ensures r.Returned? ==> multiset(r.value.items) <= multiset(Selecionadas(rows, filtro))
    {
      var total := |Selecionadas(rows, filtro)|;
      if offset < 0 || pageSize < 1 {
        return Threw;
      }
      var consulta := Table.Page(Listagem(rows, filtro), offset, pageSize as int);
      var items := Table.ReadAll(consulta);
      assert |Listagem(rows, filtro)| == total by {
        assert |multiset(Listagem(rows, filtro))| == |multiset(Selecionadas(rows, filtro))|;
      }
      Table.PageWithin(Listagem(rows, filtro), offset, pageSize as int);
      return Returned(PagedResult(items, total, pageNumber as int, pageSize as int));
    }

    /** `GetPagedAsync`, with the offset computed exactly: it fails only on a negative offset or a
        size below 1, and the page is the offset slice of the newest-first listing. */
    method GetPaged(pageNumber: Int32, pageSize: Int32, filtro: Option<string>)
      returns (r: Reply<PagedResult<OrdemServico>>)
      ensures r.Threw? <==> (pageNumber as int - 1) * pageSize as int < 0 || pageSize < 1
      ensures r.Returned? ==>
        && r.value.pageNumber == pageNumber as int && r.value.pageSize == pageSize as int
        && r.value.totalCount == |Selecionadas(rows, filtro)|
        && r.value.items == Table.Page(Listagem(rows, filtro), (pageNumber as int - 1) * pageSize as int, pageSize as int)
      ensures r.Returned? ==>
        var offset := (pageNumber as int - 1) * pageSize as int;
        |r.value.items| == if offset >= r.value.totalCount then 0
                           else if pageSize as int <= r.value.totalCount - offset then pageSize as int
                           else r.value.totalCount - offset
      ensures r.Returned? ==> Sorting.SortedBy(r.value.items, MaisRecentePrimeiro)
      ensures r.Returned? ==> multiset(r.value.items) <= multiset(Selecionadas(rows, filtro))
    {
      r := PaginaNoOffset((pageNumber as int - 1) * pageSize as int, pageNumber, pageSize, filtro);
    }

    /** `GetPagedAsync` as written: the offset is the 32-bit product, which wraps once it passes
        2^31 - 1. The query fails exactly when that wrapped offset is negative or the size is below
        1, and otherwise returns the page that starts at the wrapped offset. */
    method GetPagedComoEscrito(pageNumber: Int32, pageSize: Int32, filtro: Option<string>)
      returns (r: Reply<PagedResult<OrdemServico>>)
      ensures r.Threw? <==> OffsetComoEscrito(pageNumber, pageSize) < 0 || pageSize < 1
      ensures r.Returned? ==>
        && r.value.pageNumber == pageNumber as int && r.value.pageSize == pageSize as int
        && r.value.totalCount == |Selecionadas(rows, filtro)|
        && r.value.items == Table.Page(Listagem(rows, filtro), OffsetComoEscrito(pageNumber, pageSize) as int,
                                       pageSize as int)
    {
      r := PaginaNoOffset(OffsetComoEscrito(pageNumber, pageSize) as int, pageNumber, pageSize, filtro);
    }
  }

  /** Without a filter the listing holds every row of the table. */
  lemma ListagemSemFiltro(rows: seq<OrdemServico>)
    ensures multiset(Listagem(rows, None)) == multiset(rows)
  {
    SemFiltroTodas(rows, None);
  }
}
