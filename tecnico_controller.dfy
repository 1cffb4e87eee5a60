/** The technician endpoints (backend/LegacyProcs/Controllers/TecnicoController.cs). */
module TecnicoCtl {
  import opened Wrappers
  import opened Models
  import opened Http
  import Table
  import TecnicoRepo

  function GetAll(reply: Reply<seq<Tecnico>>): (r: Response<seq<Tecnico>>)
    ensures r.Ok? <==> reply.Returned?
    ensures r.Ok? ==> r.body == reply.value
    ensures r.ServerError? <==> reply.Threw?
  {
    FromListing(reply)
  }

  function GetDisponiveis(reply: Reply<seq<Tecnico>>): (r: Response<seq<Tecnico>>)
    ensures r.Ok? <==> reply.Returned?
    ensures r.Ok? ==> r.body == reply.value
    ensures r.ServerError? <==> reply.Threw?
  {
    FromListing(reply)
  }

  /** `GetById`: the repository's row, or 404 when there is none. */
  function GetById(id: int, consulta: Reply<Option<Tecnico>>): (r: Response<Tecnico>)
    ensures r.Ok? <==> consulta.Returned? && consulta.value.Some?
    ensures r.Ok? ==> r.body == consulta.value.value
    ensures r.NotFound? <==> consulta == Returned(None)
    ensures r.ServerError? <==> consulta.Threw?
  {
    FromLookup(consulta)
  }

  /** `Create`: an invalid model is 400 with no repository call. Otherwise the technician is stamped
      with the clock's time and forced to status "Ativo", whatever the request said, and stored; the
      201 answer carries it with the id the repository returned. */
  function Create(modeloValido: bool, t: Tecnico, agora: DateTime, criado: Reply<int>): (h: Handled<Tecnico, Tecnico>)
    ensures !modeloValido <==> h == Handled(BadRequest, None)
    ensures modeloValido ==> h.call.Some? && h.call.value.status == Ativo
    ensures modeloValido ==> h.call == Some(t.(dataCadastro := agora, status := Ativo))
    ensures modeloValido && criado.Returned? ==>
              && h.response.CreatedAt? && h.response.id == criado.value
              && h.response.created == t.(dataCadastro := agora, status := Ativo, id := criado.value)
    ensures modeloValido && criado.Threw? ==> h.response == ServerError
  {
    if !modeloValido then Handled(BadRequest, None)
    else
      var enviado := t.(dataCadastro := agora, status := Ativo);
      match criado
      case Threw => Handled(ServerError, Some(enviado))
      case Returned(id) => Handled(CreatedAt(id, enviado.(id := id)), Some(enviado))
  }

  /** `Update`: a route id that differs from the body's Id is 400 and the repository is not called;
      otherwise the body goes to `UpdateAsync` unchanged and its answer decides 204 or 404. */
  function Update(id: int, t: Tecnico, atualizado: Reply<bool>): (h: Handled<(), Tecnico>)
    ensures id != t.id <==> h == Handled(BadRequest, None)
    ensures id == t.id ==> h.call == Some(t) && h.response == FromSuccess(atualizado)
  {
    if id != t.id then Handled(BadRequest, None) else Handled(FromSuccess(atualizado), Some(t))
  }

  /** `Delete`: the id goes to `DeleteAsync` and its answer decides 204 or 404. */
  function Delete(id: int, excluido: Reply<bool>): (h: Handled<(), int>)
    ensures h.call == Some(id)
    ensures h.response.NoContent? <==> excluido == Returned(true)
    ensures h.response.NotFound? <==> excluido == Returned(false)
    ensures h.response.ServerError? <==> excluido.Threw?
  {
    Handled(FromSuccess(excluido), Some(id))
  }

  // ------------------------------------------------ wired to the repository

  /** `Create` against the repository: the technician in the 201 answer is the row `GetById` then
      finds under the id it carries, and its status is "Ativo". */
  method CreateComRepositorio(repo: TecnicoRepo.TecnicoRepository, t: Tecnico, agora: DateTime)
    returns (r: Response<Tecnico>)
    requires repo.Valid()
    modifies repo
    ensures repo.Valid()
    ensures r.CreatedAt? && r == Create(true, t, agora, Returned(r.id)).response
    ensures repo.rows == old(repo.rows) + [r.created] && repo.nextId == old(repo.nextId) + 1
    ensures repo.GetById(r.id) == Some(r.created) && r.created.status == Ativo
    ensures !Table.HasId(old(repo.rows), TecnicoRepo.IdOf, r.id)
  {
    var enviado := t.(dataCadastro := agora, status := Ativo);
    var id := repo.Create(enviado);
    r := Create(true, t, agora, Returned(id)).response;
  }

  /** `Update` against the repository: a mismatched id touches nothing; otherwise 204 exactly when
      the technician existed. */
  method UpdateComRepositorio(repo: TecnicoRepo.TecnicoRepository, id: int, t: Tecnico)
    returns (r: Response<()>)
    requires repo.Valid()
    modifies repo
    ensures repo.Valid()
    ensures repo.nextId == old(repo.nextId)
    ensures id == t.id ==> |repo.rows| == |old(repo.rows)|
    ensures id == t.id ==> forall i :: 0 <= i < |repo.rows| ==>
              repo.rows[i] == if old(repo.rows)[i].id == id then TecnicoRepo.Atualizado(old(repo.rows)[i], t) else old(repo.rows)[i]
    ensures id != t.id ==> r.BadRequest? && repo.rows == old(repo.rows)
    ensures r.NoContent? <==> id == t.id && old(repo.GetById(id)).Some?
    ensures r.NotFound? <==> id == t.id && old(repo.GetById(id)).None?
  {
    if id != t.id {
      return BadRequest;
    }
    var existia := repo.Update(t);
    r := Update(id, t, Returned(existia)).response;
  }

  /** `Delete` against the repository: 204 exactly when the technician existed, and it is gone after. */
  method DeleteComRepositorio(repo: TecnicoRepo.TecnicoRepository, id: int) returns (r: Response<()>)
    requires repo.Valid()
    modifies repo
    ensures repo.Valid()
    ensures repo.rows == Table.Remove(old(repo.rows), TecnicoRepo.IdOf, id) && repo.nextId == old(repo.nextId)
    ensures r.NoContent? <==> old(repo.GetById(id)).Some?
    ensures r.NotFound? <==> old(repo.GetById(id)).None?
    ensures repo.GetById(id).None?
  {
    var existia := repo.Delete(id);
    r := Delete(id, Returned(existia)).response;
  }
}
