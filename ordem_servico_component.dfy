/** The service-order screen's form state (frontend/src/app/ordem-servico/ordem-servico.component.ts). */
module OrdemServicoTela {
  import opened Wrappers
  import opened Text
  import opened Models

  /** The form model `novaOrdem`; a field copied from an order may be null (Descricao). */
  datatype FormOrdem = FormOrdem(titulo: Option<string>, descricao: Option<string>, tecnico: Option<string>)

  /** The form `limparFormulario` leaves: every field "". */
  const FormVazio := FormOrdem(Some(""), Some(""), Some(""))

  /** The fields `editarOrdem` copies from an order. */
  function FormDe(o: OrdemServico): (f: FormOrdem)
    ensures f.titulo == Some(o.titulo) && f.descricao == o.descricao && f.tecnico == Some(o.tecnico)
  {
    FormOrdem(Some(o.titulo), o.descricao, Some(o.tecnico))
  }

  /** The order object `atualizar` sends: six properties, no DataAtualizacao. */
  datatype CorpoOrdem = CorpoOrdem(id: int, titulo: Option<string>, descricao: Option<string>,
                                   tecnico: Option<string>, status: string, dataCriacao: DateTime)

  /** The `atualizar` body: identity, status and creation date of the order under edit, the three
      editable texts from the form. */
  function CorpoAtualizacao(original: OrdemServico, form: FormOrdem): (b: CorpoOrdem)
    ensures b.id == original.id && b.status == original.status && b.dataCriacao == original.dataCriacao
    ensures b.titulo == form.titulo && b.descricao == form.descricao && b.tecnico == form.tecnico
  {
    CorpoOrdem(original.id, form.titulo, form.descricao, form.tecnico, original.status, original.dataCriacao)
  }

  /** Saving an edit without touching the form sends the order's own six properties back. */
  lemma EdicaoIntactaDevolveAOrdem(o: OrdemServico)
    ensures var b := CorpoAtualizacao(o, FormDe(o));
      b.id == o.id && b.titulo == Some(o.titulo) && b.descricao == o.descricao
      && b.tecnico == Some(o.tecnico) && b.status == o.status && b.dataCriacao == o.dataCriacao
  {
  }

  /** `alterarStatus`'s body `{ ...ordem, status: novoStatus }`: the order with only its status replaced. */
  function ComStatus(o: OrdemServico, novoStatus: string): (r: OrdemServico)
    ensures r.status == novoStatus
    ensures r.(status := o.status) == o
  {
    o.(status := novoStatus)
  }

  /** The four known statuses and their CSS classes. */
  const ClassesDeStatus: map<string, string> := map[
    "Aberta" := "status-aberta",
    "Pendente" := "status-pendente",
    "Em Andamento" := "status-andamento",
    "Conclu\U{00ED}da" := "status-concluida"]

  /** `getStatusClass`: the class of a known status, "" for any other string. */
  function StatusClass(status: string): (c: string)
    ensures status in ClassesDeStatus ==> c == ClassesDeStatus[status]
    ensures status !in ClassesDeStatus ==> c == ""
  {
    if status == "Aberta" then "status-aberta"
    else if status == "Pendente" then "status-pendente"
    else if status == "Em Andamento" then "status-andamento"
    else if status == "Conclu\U{00ED}da" then "status-concluida"
    else ""
  }

  /** The class is non-empty exactly for the known statuses, and no two known statuses share one. */
  lemma StatusClassDistingue(a: string, b: string)
    ensures StatusClass(a) != "" <==> a in ClassesDeStatus
    ensures a in ClassesDeStatus && StatusClass(a) == StatusClass(b) ==> a == b
  {
  }

  /** What `salvar` does: one of its two warnings, or the service call it dispatches to. */
  datatype AcaoSalvar =
    | TituloObrigatorio
    | TecnicoObrigatorio
    | Criar(dto: FormOrdem)
    | Atualizar(id: int, corpo: CorpoOrdem)

  class OrdemServicoComponent {
    var mostrarFormulario: bool
    var editando: bool
    var novaOrdem: FormOrdem
    var ordemEditando: Option<OrdemServico>

    constructor()
      ensures !mostrarFormulario && !editando && novaOrdem == FormVazio && ordemEditando.None?
    {
      mostrarFormulario := false;
      editando := false;
      novaOrdem := FormVazio;
      ordemEditando := None;
    }

    /** `limparFormulario`: an empty form and no order under edit; the flags stay as they are. */
    method LimparFormulario()
      modifies this
      ensures novaOrdem == FormVazio && ordemEditando.None?
      ensures mostrarFormulario == old(mostrarFormulario) && editando == old(editando)
    {
      novaOrdem := FormVazio;
      ordemEditando := None;
    }

    /** `abrirFormulario`: the form is shown, in creation mode, empty. */
    method AbrirFormulario()
      modifies this
      ensures mostrarFormulario && !editando
      ensures novaOrdem == FormVazio && ordemEditando.None?
    {
      mostrarFormulario := true;
      editando := false;
      LimparFormulario();
    }

    /** `fecharFormulario`: the form is hidden and cleared; `editando` is left as it was. */
    method FecharFormulario()
      modifies this
      ensures !mostrarFormulario && editando == old(editando)
      ensures novaOrdem == FormVazio && ordemEditando.None?
    {
      mostrarFormulario := false;
      LimparFormulario();
    }

    /** `editarOrdem`: the order goes under edit, its three texts into the form, and the form is
        shown in edit mode. */
    method EditarOrdem(o: OrdemServico)
      modifies this
      ensures ordemEditando == Some(o) && novaOrdem == FormDe(o)
      ensures mostrarFormulario && editando
    {
      ordemEditando := Some(o);
      novaOrdem := FormDe(o);
      mostrarFormulario := true;
      editando := true;
    }

    /** `salvar`: Titulo, then Tecnico, must be non-blank (Descricao is optional); then `atualizar`
        when editing an order and `criar` otherwise. It changes no field itself. */
    method Salvar() returns (acao: AcaoSalvar)
      ensures IsJsBlank(novaOrdem.titulo) ==> acao == TituloObrigatorio
      ensures !IsJsBlank(novaOrdem.titulo) && IsJsBlank(novaOrdem.tecnico) ==> acao == TecnicoObrigatorio
      ensures acao.Criar? || acao.Atualizar? <==> !IsJsBlank(novaOrdem.titulo) && !IsJsBlank(novaOrdem.tecnico)
      ensures acao.Atualizar? <==> (acao.Criar? || acao.Atualizar?) && editando && ordemEditando.Some?
      ensures acao.Criar? ==> acao.dto == novaOrdem
      ensures acao.Atualizar? ==> acao.id == ordemEditando.value.id
                                  && acao.corpo == CorpoAtualizacao(ordemEditando.value, novaOrdem)
    {
      if IsJsBlank(novaOrdem.titulo) {
        return TituloObrigatorio;
      }
      if IsJsBlank(novaOrdem.tecnico) {
        return TecnicoObrigatorio;
      }
      if editando && ordemEditando.Some? {
        var o := ordemEditando.value;
        return Atualizar(o.id, CorpoAtualizacao(o, novaOrdem));
      }
      return Criar(novaOrdem);
    }
  }
}
