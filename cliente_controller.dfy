/** The client endpoints (backend/LegacyProcs/Controllers/ClienteController.cs). */
module ClienteCtl {
  import opened Wrappers
  import opened Models
  import opened Http
  import Table
  import ClienteRepo

  function GetAll(reply: Reply<seq<Cliente>>): (r: Response<seq<Cliente>>)
    ensures r.Ok? <==> reply.Returned?
    ensures r.Ok? ==> r.body == reply.value
    ensures r.ServerError? <==> reply.Threw?
  {
    FromListing(reply)
  }

  /** `GetById`: the repository's row, or 404 when there is none. */
  function GetById(id: int, consulta: Reply<Option<Cliente>>): (r: Response<Cliente>)
    ensures r.Ok? <==> consulta.Returned? && consulta.value.Some?
    ensures r.Ok? ==> r.body == consulta.value.value
    ensures r.NotFound? <==> consulta == Returned(None)
    ensures r.ServerError? <==> consulta.Threw?
  {
    FromLookup(consulta)
  }

  /** `Create`: an invalid model is 400 with no repository call. Otherwise the client is stamped with
      the clock's time as DataCadastro and stored; the 201 answer carries that client with the id
      the repository returned. */
  function Create(modeloValido: bool, c: Cliente, agora: DateTime, criado: Reply<int>): (h: Handled<Cliente, Cliente>)
    ensures !modeloValido <==> h == Handled(BadRequest, None)
    ensures modeloValido ==> h.call == Some(c.(dataCadastro := agora))
    ensures modeloValido && criado.Returned? ==>
              && h.response.CreatedAt? && h.response.id == criado.value
              && h.response.created == c.(dataCadastro := agora, id := criado.value)
    ensures modeloValido && criado.Threw? ==> h.response == ServerError
  {
    if !modeloValido then Handled(BadRequest, None)
    else
      var enviado := c.(dataCadastro := agora);
      match criado
      case Threw => Handled(ServerError, Some(enviado))
      case Returned(id) => Handled(CreatedAt(id, enviado.(id := id)), Some(enviado))
  }

  /** `Update`: a route id that differs from the body's Id is 400 and the repository is not called;
      otherwise the body goes to `UpdateAsync` unchanged and its answer decides 204 or 404. */
  function Update(id: int, c: Cliente, atualizado: Reply<bool>): (h: Handled<(), Cliente>)
    ensures id != c.id <==> h == Handled(BadRequest, None)
    ensures id == c.id ==> h.call == Some(c) && h.response == FromSuccess(atualizado)
  {
    if id != c.id then Handled(BadRequest, None) else Handled(FromSuccess(atualizado), Some(c))
  }

  /** `Delete`: the id goes to `DeleteAsync` and its answer decides 204 or 404. */
  function Delete(id: int, excluido: Reply<bool>): (h: Handled<(), int>)
    ensures h.call == Some(id)
    ensures h.response.NoContent? <==> excluido == Returned(true)
    ensures h.response.NotFound? <==> excluido == Returned(false)
    ensures h.response.ServerError? <==> excluido.Threw?
  {
    Handled(FromSuccess(excluido), Some(id))
  }

  // ------------------------------------------------ wired to the repository

  /** `Create` against the repository: the client in the 201 answer is the row `GetById` then
      finds under the id it carries. */
  method CreateComRepositorio(repo: ClienteRepo.ClienteRepository, c: Cliente, agora: DateTime)
    returns (r: Response<Cliente>)
    requires repo.Valid()
    modifies repo
    ensures repo.Valid()
    ensures r.CreatedAt? && r == Create(true, c, agora, Returned(r.id)).response
    ensures repo.rows == old(repo.rows) + [r.created] && repo.nextId == old(repo.nextId) + 1
    ensures repo.GetById(r.id) == Some(r.created) && !Table.HasId(old(repo.rows), ClienteRepo.IdOf, r.id)
  {
    var enviado := c.(dataCadastro := agora);
    var id := repo.Create(enviado);
    r := Create(true, c, agora, Returned(id)).response;
  }

  /** `Update` against the repository: a mismatched id touches nothing; otherwise 204 exactly when
      the client existed. */
  method UpdateComRepositorio(repo: ClienteRepo.ClienteRepository, id: int, c: Cliente)
    returns (r: Response<()>)
    requires repo.Valid()
    modifies repo
    ensures repo.Valid()
    ensures repo.nextId == old(repo.nextId)
    ensures id == c.id ==> |repo.rows| == |old(repo.rows)|
    ensures id == c.id ==> forall i :: 0 <= i < |repo.rows| ==>
              repo.rows[i] == if old(repo.rows)[i].id == id then ClienteRepo.Atualizado(old(repo.rows)[i], c) else old(repo.rows)[i]
    ensures id != c.id ==> r.BadRequest? && repo.rows == old(repo.rows)
    ensures r.NoContent? <==> id == c.id && old(repo.GetById(id)).Some?
    ensures r.NotFound? <==> id == c.id && old(repo.GetById(id)).None?
  {
    if id != c.id {
      return BadRequest;
    }
    var existia := repo.Update(c);
    r := Update(id, c, Returned(existia)).response;
  }

  /** `Delete` against the repository: 204 exactly when the client existed, and it is gone after. */
  method DeleteComRepositorio(repo: ClienteRepo.ClienteRepository, id: int) returns (r: Response<()>)
    requires repo.Valid()
    modifies repo
    ensures repo.Valid()
    ensures repo.rows == Table.Remove(old(repo.rows), ClienteRepo.IdOf, id) && repo.nextId == old(repo.nextId)
    ensures r.NoContent? <==> old(repo.GetById(id)).Some?
    ensures r.NotFound? <==> old(repo.GetById(id)).None?
    ensures repo.GetById(id).None?
  {
    var existia := repo.Delete(id);
    r := Delete(id, Returned(existia)).response;
  }
}
