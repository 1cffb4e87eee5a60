/** The service-order endpoints (backend/LegacyProcs/Controllers/OrdemServicoController.cs). */
module OrdemServicoCtl {
  import opened Wrappers
  import opened Models
  import opened Http
  import Table
  import OrdemServicoRepo
  import CreateOrdemServico
  import Sorting

  function GetAll(reply: Reply<seq<OrdemServico>>): (r: Response<seq<OrdemServico>>)
    ensures r.Ok? <==> reply.Returned?
    ensures r.Ok? ==> r.body == reply.value
    ensures r.ServerError? <==> reply.Threw?
  {
    FromListing(reply)
  }

  /** `GetPaged`: the page number is raised to at least 1 and the size brought into 1..100 (a size
      below 1 becomes 10), then the repository is asked for that page. With the exact offset the
      clamped request never fails, so in the model, whose repository raises no connection errors,
      the answer is always 200. */
  method GetPaged(repo: OrdemServicoRepo.OrdemServicoRepository, pageNumber: Int32, pageSize: Int32,
                  filtro: Option<string>)
    returns (r: Response<PagedResult<OrdemServico>>)
    ensures r.Ok?
    ensures r.body.pageNumber >= 1 && 1 <= r.body.pageSize <= 100
    ensures r.body.pageNumber == if pageNumber < 1 then 1 else pageNumber as int
    ensures r.body.pageSize == if pageSize < 1 then 10 else if pageSize > 100 then 100 else pageSize as int
    ensures r.body.totalCount == |OrdemServicoRepo.Selecionadas(repo.rows, filtro)|
    ensures (r.body.pageNumber - 1) * r.body.pageSize >= 0
    ensures r.body.items == Table.Page(OrdemServicoRepo.Listagem(repo.rows, filtro),
                                       (r.body.pageNumber - 1) * r.body.pageSize, r.body.pageSize)
    ensures Sorting.SortedBy(r.body.items, OrdemServicoRepo.MaisRecentePrimeiro)
    ensures multiset(r.body.items) <= multiset(OrdemServicoRepo.Selecionadas(repo.rows, filtro))
  {
    var pn, ps := pageNumber, pageSize;
    if pn < 1 { pn := 1; }
    if ps < 1 { ps := 10; }
    if ps > 100 { ps := 100; }
    OrdemServicoRepo.OffsetExatoNaoNegativo(pn, ps);
    var reply := repo.GetPaged(pn, ps, filtro);
    match reply
    case Returned(p) => r := Ok(p);
  }

  /** The page number `GetPaged` passes on: at least 1, and unchanged when already positive. */
  function PaginaAjustada(pageNumber: Int32): (r: Int32)
    ensures r >= 1
    ensures pageNumber >= 1 ==> r == pageNumber
  {
    if pageNumber < 1 then 1 else pageNumber
  }

  /** The page size `GetPaged` passes on: within 1..100, unchanged inside that range, 10 for a size
      below 1 and 100 for one above. */
  function TamanhoAjustado(pageSize: Int32): (r: Int32)
    ensures 1 <= r <= 100
    ensures 1 <= pageSize <= 100 ==> r == pageSize
    ensures pageSize < 1 ==> r == 10
    ensures pageSize > 100 ==> r == 100
  {
    if pageSize < 1 then 10 else if pageSize > 100 then 100 else pageSize
  }

  /** `GetPaged` over the repository's query as written, whose offset is the 32-bit product: the
      clamped request answers 500 exactly when that wrapped offset is negative, and otherwise 200
      with the page that starts at the wrapped offset. */
  method GetPagedComoEscrito(repo: OrdemServicoRepo.OrdemServicoRepository, pageNumber: Int32, pageSize: Int32,
                             filtro: Option<string>)
    returns (r: Response<PagedResult<OrdemServico>>)
    ensures r.Ok? || r.ServerError?
    ensures r.ServerError? <==>
      OrdemServicoRepo.OffsetComoEscrito(PaginaAjustada(pageNumber), TamanhoAjustado(pageSize)) < 0
    ensures r.Ok? ==>
      && r.body.pageNumber == PaginaAjustada(pageNumber) as int
      && r.body.pageSize == TamanhoAjustado(pageSize) as int
      && r.body.totalCount == |OrdemServicoRepo.Selecionadas(repo.rows, filtro)|
      && r.body.items == Table.Page(OrdemServicoRepo.Listagem(repo.rows, filtro),
           OrdemServicoRepo.OffsetComoEscrito(PaginaAjustada(pageNumber), TamanhoAjustado(pageSize)) as int,
           TamanhoAjustado(pageSize) as int)
  {
    var pn, ps := pageNumber, pageSize;
    if pn < 1 { pn := 1; }
    if ps < 1 { ps := 10; }
    if ps > 100 { ps := 100; }
    var reply := repo.GetPagedComoEscrito(pn, ps, filtro);
    match reply
    case Returned(p) => r := Ok(p);
    case Threw => r := ServerError;
  }

  /** `GetById`: the mediator's row, or 404 when it found none. */
  function GetById(id: int, consulta: Reply<Option<OrdemServico>>): (r: Response<OrdemServico>)
    ensures r.Ok? <==> consulta.Returned? && consulta.value.Some?
    ensures r.Ok? ==> r.body == consulta.value.value
    ensures r.NotFound? <==> consulta == Returned(None)
    ensures r.ServerError? <==> consulta.Threw?
  {
    FromLookup(consulta)
  }

  /** The body of the 201 answer: the new id and the command's Titulo, Descricao and Tecnico. */
  datatype Criada = Criada(id: int, titulo: string, descricao: Option<string>, tecnico: string)

  /** `Create`: an invalid model is 400 with no command sent; otherwise the command goes to the
      mediator once and its id comes back in a 201 pointing at `GetById`. */
  function Create(modeloValido: bool, cmd: CreateOrdemServico.CreateOrdemServicoCommand, enviado: Reply<int>)
    : (h: Handled<Criada, CreateOrdemServico.CreateOrdemServicoCommand>)
    ensures !modeloValido <==> h == Handled(BadRequest, None)
    ensures modeloValido ==> h.call == Some(cmd)
    ensures modeloValido && enviado.Returned? ==>
              h.response == CreatedAt(enviado.value, Criada(enviado.value, cmd.titulo, cmd.descricao, cmd.tecnico))
    ensures modeloValido && enviado.Threw? ==> h.response == ServerError
  {
    if !modeloValido then Handled(BadRequest, None)
    else match enviado
      case Threw => Handled(ServerError, Some(cmd))
      case Returned(id) => Handled(CreatedAt(id, Criada(id, cmd.titulo, cmd.descricao, cmd.tecnico)), Some(cmd))
  }

  /** `Update`: a route id that differs from the body's Id is 400 and the repository is not called;
      otherwise the body goes to `UpdateAsync` unchanged and its answer decides 204 or 404. */
  function Update(id: int, o: OrdemServico, atualizado: Reply<bool>): (h: Handled<(), OrdemServico>)
    ensures id != o.id <==> h == Handled(BadRequest, None)
    ensures id == o.id ==> h.call == Some(o) && h.response == FromSuccess(atualizado)
  {
    if id != o.id then Handled(BadRequest, None) else Handled(FromSuccess(atualizado), Some(o))
  }

  /** `Delete`: the id goes to `DeleteAsync` and its answer decides 204 or 404. */
  function Delete(id: int, excluido: Reply<bool>): (h: Handled<(), int>)
    ensures h.call == Some(id)
    ensures h.response.NoContent? <==> excluido == Returned(true)
    ensures h.response.NotFound? <==> excluido == Returned(false)
    ensures h.response.ServerError? <==> excluido.Threw?
  {
    Handled(FromSuccess(excluido), Some(id))
  }

  // ------------------------------------------------ wired to the repository

  /** `Create` through the command handler to the repository: the 201 answer's id names a stored
      order holding the command's texts, status "Aberta" and the clock's time. */
  method CreateComRepositorio(repo: OrdemServicoRepo.OrdemServicoRepository,
                              cmd: CreateOrdemServico.CreateOrdemServicoCommand, agora: DateTime)
    returns (r: Response<Criada>)
    requires repo.Valid()
    modifies repo
    ensures repo.Valid()
    ensures r.CreatedAt? && r == Create(true, cmd, Returned(r.id)).response
    ensures repo.rows == old(repo.rows) + [OrdemServicoRepo.Inserida(CreateOrdemServico.Handle(cmd, agora, Returned(0)).criada, r.id)]
    ensures repo.nextId == old(repo.nextId) + 1
    ensures repo.GetById(r.id).Some?
    ensures var o := repo.GetById(r.id).value;
      o.titulo == cmd.titulo && o.descricao == cmd.descricao && o.tecnico == cmd.tecnico
      && o.status == CreateOrdemServico.Aberta && o.dataCriacao == agora
    ensures !Table.HasId(old(repo.rows), OrdemServicoRepo.IdOf, r.id)
  {
    var criada := CreateOrdemServico.Handle(cmd, agora, Returned(0)).criada;
    var id := repo.Create(criada);
    r := Create(true, cmd, Returned(id)).response;
  }

  /** `Update` against the repository: a mismatched id touches nothing; otherwise 204 exactly when
      the order existed. */
  method UpdateComRepositorio(repo: OrdemServicoRepo.OrdemServicoRepository, id: int, o: OrdemServico,
                              agora: DateTime)
    returns (r: Response<()>)
    requires repo.Valid()
    modifies repo
    ensures repo.Valid()
    ensures repo.nextId == old(repo.nextId)
    ensures id == o.id ==> |repo.rows| == |old(repo.rows)|
    ensures id == o.id ==> forall i :: 0 <= i < |repo.rows| ==>
              repo.rows[i] == if old(repo.rows)[i].id == id then OrdemServicoRepo.Atualizada(old(repo.rows)[i], o, agora) else old(repo.rows)[i]
    ensures id != o.id ==> r.BadRequest? && repo.rows == old(repo.rows)
    ensures r.NoContent? <==> id == o.id && old(repo.GetById(id)).Some?
    ensures r.NotFound? <==> id == o.id && old(repo.GetById(id)).None?
  {
    if id != o.id {
      return BadRequest;
    }
    var existia := repo.Update(o, agora);
    r := Update(id, o, Returned(existia)).response;
  }

  /** `Delete` against the repository: 204 exactly when the order existed, and it is gone after. */
  method DeleteComRepositorio(repo: OrdemServicoRepo.OrdemServicoRepository, id: int) returns (r: Response<()>)
    requires repo.Valid()
    modifies repo
    ensures repo.Valid()
    ensures repo.rows == Table.Remove(old(repo.rows), OrdemServicoRepo.IdOf, id) && repo.nextId == old(repo.nextId)
    ensures r.NoContent? <==> old(repo.GetById(id)).Some?
    ensures r.NotFound? <==> old(repo.GetById(id)).None?
    ensures repo.GetById(id).None?
  {
    var existia := repo.Delete(id);
    r := Delete(id, Returned(existia)).response;
  }
}
