/** The backend's records (Models/OrdemServico.cs, Cliente.cs, Tecnico.cs), the page of a paged
    listing, and the C# `int` type. */
module Models {
  import opened Wrappers

  /** A `DateTime` read from the clock, opaque except for its order. */
  type DateTime = int

  /** C#'s `int`. */
  newtype Int32 = x: int | -0x8000_0000 <= x < 0x8000_0000

  /** Unchecked C# `int` arithmetic: the mathematical result reduced into the 32-bit range. */
  function Wrap32(x: int): (r: Int32)
    ensures -0x8000_0000 <= x < 0x8000_0000 ==> r as int == x
    ensures (r as int - x) % 0x1_0000_0000 == 0
  {
    ((x + 0x8000_0000) % 0x1_0000_0000 - 0x8000_0000) as Int32
  }

  datatype OrdemServico = OrdemServico(
    id: int,
    titulo: string,
    descricao: Option<string>,
    tecnico: string,
    status: string,
    dataCriacao: DateTime,
    dataAtualizacao: Option<DateTime>)

  datatype Cliente = Cliente(
    id: int,
    razaoSocial: string,
    nomeFantasia: Option<string>,
    cnpj: string,
    email: Option<string>,
    telefone: Option<string>,
    endereco: Option<string>,
    cidade: Option<string>,
    estado: Option<string>,
    cep: Option<string>,
    dataCadastro: DateTime)

  datatype Tecnico = Tecnico(
    id: int,
    nome: string,
    email: Option<string>,
    telefone: Option<string>,
    especialidade: Option<string>,
    status: string,
    dataCadastro: DateTime)

  const Ativo := "Ativo"

  /** One page of a paged listing. */
  datatype PagedResult<T> = PagedResult(items: seq<T>, totalCount: nat, pageNumber: int, pageSize: int)

  /** The number of pages: the least page count whose pages hold every row. */
  function TotalPages<T>(p: PagedResult<T>): (n: nat)
    requires p.pageSize > 0
    ensures n * p.pageSize >= p.totalCount
    ensures n == 0 || (n - 1) * p.pageSize < p.totalCount
  {
    (p.totalCount + p.pageSize - 1) / p.pageSize
  }

  predicate HasPrevious<T>(p: PagedResult<T>) { p.pageNumber > 1 }

  predicate HasNext<T>(p: PagedResult<T>)
    requires p.pageSize > 0
  {
    p.pageNumber < TotalPages(p)
  }

  /** There is a next page exactly when rows remain after the last row of this page. */
  lemma HasNextIffRowsRemain<T>(p: PagedResult<T>)
    requires p.pageSize > 0 && p.pageNumber >= 1
    ensures HasNext(p) <==> p.pageNumber * p.pageSize < p.totalCount
  {
    var n := TotalPages(p);
    if p.pageNumber < n {
      MulMonotone(p.pageNumber, n - 1, p.pageSize);
    } else {
      MulMonotone(n, p.pageNumber, p.pageSize);
    }
  }

  lemma MulMonotone(a: int, b: int, c: int)
    requires a <= b && c >= 0
    ensures a * c <= b * c
  {
    assert b * c - a * c == (b - a) * c;
  }

  /** The cases the backend's unit tests check. */
  lemma PagedResultVectors<T>(items: seq<T>)
    ensures TotalPages(PagedResult(items, 25, 0, 10)) == 3
    ensures !HasPrevious(PagedResult(items, 0, 1, 0)) && HasPrevious(PagedResult(items, 0, 2, 0))
    ensures HasNext(PagedResult(items, 25, 1, 10)) && !HasNext(PagedResult(items, 25, 3, 10))
  {
  }
}
