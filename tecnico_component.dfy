/** The technician screen's form state (frontend/src/app/tecnico/tecnico.component.ts). */
module TecnicoTela {
  import opened Wrappers
  import opened Text
  import opened Models

  /** The form model `novoTecnico`; a field copied from a technician may be null. */
  datatype FormTecnico = FormTecnico(nome: Option<string>, email: Option<string>, telefone: Option<string>,
                                     especialidade: Option<string>, status: Option<string>)

  /** The form `limparFormulario` leaves: every text "" and the status "Ativo". */
  const FormVazio := FormTecnico(Some(""), Some(""), Some(""), Some(""), Some(Ativo))

  /** The five fields `editarTecnico` copies from a technician. */
  function FormDe(t: Tecnico): (f: FormTecnico)
    ensures f.nome == Some(t.nome) && f.email == t.email && f.telefone == t.telefone
    ensures f.especialidade == t.especialidade && f.status == Some(t.status)
  {
    FormTecnico(Some(t.nome), t.email, t.telefone, t.especialidade, Some(t.status))
  }

  /** The technician object `atualizar` sends. */
  datatype CorpoTecnico = CorpoTecnico(id: int, campos: FormTecnico)

  /** The `atualizar` body: the id of the technician under edit, every other field, status included,
      from the form. */
  function CorpoAtualizacao(original: Tecnico, form: FormTecnico): (b: CorpoTecnico)
    ensures b.id == original.id && b.campos == form
  {
    CorpoTecnico(original.id, form)
  }

  /** Saving an edit without touching the form sends the technician's own fields back. */
  lemma EdicaoIntactaDevolveOTecnico(t: Tecnico)
    ensures var b := CorpoAtualizacao(t, FormDe(t));
      b.id == t.id && b.campos.nome == Some(t.nome) && b.campos.email == t.email
      && b.campos.telefone == t.telefone && b.campos.especialidade == t.especialidade
      && b.campos.status == Some(t.status)
  {
  }

  /** `alterarStatus`'s body `{ ...tecnico, status: novoStatus }`: the technician with only its status
      replaced. */
  function ComStatus(t: Tecnico, novoStatus: string): (r: Tecnico)
    ensures r.status == novoStatus
    ensures r.(status := t.status) == t
  {
    t.(status := novoStatus)
  }

  /** The three known statuses and their CSS classes. */
  const ClassesDeStatus: map<string, string> := map[
    "Ativo" := "status-ativo",
    "Inativo" := "status-inativo",
    "F\U{00E9}rias" := "status-ferias"]

  /** `getStatusClass`: the class of a known status, "" for any other string. */
  function StatusClass(status: string): (c: string)
    ensures status in ClassesDeStatus ==> c == ClassesDeStatus[status]
    ensures status !in ClassesDeStatus ==> c == ""
  {
    if status == "Ativo" then "status-ativo"
    else if status == "Inativo" then "status-inativo"
    else if status == "F\U{00E9}rias" then "status-ferias"
    else ""
  }

  /** The class is non-empty exactly for the known statuses, and no two known statuses share one. */
  lemma StatusClassDistingue(a: string, b: string)
    ensures StatusClass(a) != "" <==> a in ClassesDeStatus
    ensures a in ClassesDeStatus && StatusClass(a) == StatusClass(b) ==> a == b
  {
  }

  /** What `salvar` does: one of its two warnings, or the service call it dispatches to. */
  datatype AcaoSalvar =
    | NomeObrigatorio
    | EspecialidadeObrigatoria
    | Criar(novo: FormTecnico)
    | Atualizar(id: int, corpo: CorpoTecnico)

  class TecnicoComponent {
    var mostrarFormulario: bool
    var editando: bool
    var novoTecnico: FormTecnico
    var tecnicoEditando: Option<Tecnico>

    constructor()
      ensures !mostrarFormulario && !editando && novoTecnico == FormVazio && tecnicoEditando.None?
    {
      mostrarFormulario := false;
      editando := false;
      novoTecnico := FormVazio;
      tecnicoEditando := None;
    }

    /** `limparFormulario`: an empty form with status "Ativo" and no technician under edit. */
    method LimparFormulario()
      modifies this
      ensures novoTecnico == FormVazio && tecnicoEditando.None?
      ensures mostrarFormulario == old(mostrarFormulario) && editando == old(editando)
    {
      novoTecnico := FormVazio;
      tecnicoEditando := None;
    }

    /** `abrirFormulario`: the form is shown, in creation mode, empty. */
    method AbrirFormulario()
      modifies this
      ensures mostrarFormulario && !editando
      ensures novoTecnico == FormVazio && tecnicoEditando.None?
    {
      mostrarFormulario := true;
      editando := false;
      LimparFormulario();
    }

    /** `fecharFormulario`: the form is hidden and cleared; `editando` is left as it was. */
    method FecharFormulario()
      modifies this
      ensures !mostrarFormulario && editando == old(editando)
      ensures novoTecnico == FormVazio && tecnicoEditando.None?
    {
      mostrarFormulario := false;
      LimparFormulario();
    }

    /** `editarTecnico`: the technician goes under edit, its five fields into the form, and the
        form is shown in edit mode. */
    method EditarTecnico(t: Tecnico)
      modifies this
      ensures tecnicoEditando == Some(t) && novoTecnico == FormDe(t)
      ensures mostrarFormulario && editando
    {
      tecnicoEditando := Some(t);
      novoTecnico := FormDe(t);
      mostrarFormulario := true;
      editando := true;
    }

    /** `salvar`: Nome must be non-blank; Especialidade only non-empty, so white space passes; then
        `atualizar` when editing a technician and `criar` otherwise. It changes no field itself. */
    method Salvar() returns (acao: AcaoSalvar)
      ensures IsJsBlank(novoTecnico.nome) ==> acao == NomeObrigatorio
      ensures !IsJsBlank(novoTecnico.nome) && IsFalsy(novoTecnico.especialidade) ==> acao == EspecialidadeObrigatoria
      ensures acao.Criar? || acao.Atualizar? <==> !IsJsBlank(novoTecnico.nome) && !IsFalsy(novoTecnico.especialidade)
      ensures acao.Atualizar? <==> (acao.Criar? || acao.Atualizar?) && editando && tecnicoEditando.Some?
      ensures acao.Criar? ==> acao.novo == novoTecnico
      ensures acao.Atualizar? ==> acao.id == tecnicoEditando.value.id
                                  && acao.corpo == CorpoAtualizacao(tecnicoEditando.value, novoTecnico)
    {
      if IsJsBlank(novoTecnico.nome) {
        return NomeObrigatorio;
      }
      if IsFalsy(novoTecnico.especialidade) {
        return EspecialidadeObrigatoria;
      }
      if editando && tecnicoEditando.Some? {
        var t := tecnicoEditando.value;
        return Atualizar(t.id, CorpoAtualizacao(t, novoTecnico));
      }
      return Criar(novoTecnico);
    }
  }

  /** The two gates differ: an Especialidade of spaces is blank to the Nome test but passes its own. */
  lemma EspecialidadeDeEspacosPassa()
    ensures IsJsBlank(Some(" ")) && !IsFalsy(Some(" "))
  {
    assert IsJsWhitespace(" "[0]);
  }
}
