/** The client screen's form state (frontend/src/app/cliente/cliente.component.ts). */
module ClienteTela {
  import opened Wrappers
  import opened Text
  import opened Models
  import Cnpj

  /** The form model `novoCliente`: nine fields, each possibly null once copied from a client. */
  datatype FormCliente = FormCliente(
    razaoSocial: Option<string>,
    nomeFantasia: Option<string>,
    cnpj: Option<string>,
    email: Option<string>,
    telefone: Option<string>,
    endereco: Option<string>,
    cidade: Option<string>,
    estado: Option<string>,
    cep: Option<string>)

  /** The form `limparFormulario` leaves: every field "". */
  const FormVazio := FormCliente(Some(""), Some(""), Some(""), Some(""), Some(""), Some(""), Some(""), Some(""), Some(""))

  /** The fields `editarCliente` copies from a client. */
  function FormDe(c: Cliente): (f: FormCliente)
    ensures f.razaoSocial == Some(c.razaoSocial) && f.cnpj == Some(c.cnpj)
    ensures f.nomeFantasia == c.nomeFantasia && f.email == c.email && f.telefone == c.telefone
    ensures f.endereco == c.endereco && f.cidade == c.cidade && f.estado == c.estado && f.cep == c.cep
  {
    FormCliente(Some(c.razaoSocial), c.nomeFantasia, Some(c.cnpj), c.email, c.telefone,
                c.endereco, c.cidade, c.estado, c.cep)
  }

  /** The body `atualizar` sends: the id of the client being edited and the nine fields of the form. */
  datatype CorpoCliente = CorpoCliente(id: int, campos: FormCliente)

  /** What `salvar` does: one of its three warnings, or the service call it dispatches to. */
  datatype AcaoSalvar =
    | RazaoSocialObrigatoria
    | CnpjObrigatorio
    | CnpjInvalido
    | Criar(novo: FormCliente)
    | Atualizar(id: int, corpo: CorpoCliente)

  class ClienteComponent {
    var mostrarFormulario: bool
    var editando: bool
    var novoCliente: FormCliente
    var clienteEditando: Option<Cliente>

    constructor()
      ensures !mostrarFormulario && !editando && novoCliente == FormVazio && clienteEditando.None?
    {
      mostrarFormulario := false;
      editando := false;
      novoCliente := FormVazio;
      clienteEditando := None;
    }

    /** `limparFormulario`: an empty form and no client under edit; the flags stay as they are. */
    method LimparFormulario()
      modifies this
      ensures novoCliente == FormVazio && clienteEditando.None?
      ensures mostrarFormulario == old(mostrarFormulario) && editando == old(editando)
    {
      novoCliente := FormVazio;
      clienteEditando := None;
    }

    /** `abrirFormulario`: the form is shown, in creation mode, empty. */
    method AbrirFormulario()
      modifies this
      ensures mostrarFormulario && !editando
      ensures novoCliente == FormVazio && clienteEditando.None?
    {
      mostrarFormulario := true;
      editando := false;
      LimparFormulario();
    }

    /** `fecharFormulario`: the form is hidden and cleared; `editando` is left as it was. */
    method FecharFormulario()
      modifies this
      ensures !mostrarFormulario && editando == old(editando)
      ensures novoCliente == FormVazio && clienteEditando.None?
    {
      mostrarFormulario := false;
      LimparFormulario();
    }

    /** `editarCliente`: the client goes under edit, its fields into the form, and the form is shown
        in edit mode. */
    method EditarCliente(c: Cliente)
      modifies this
      ensures clienteEditando == Some(c) && novoCliente == FormDe(c)
      ensures mostrarFormulario && editando
    {
      clienteEditando := Some(c);
      novoCliente := FormDe(c);
      mostrarFormulario := true;
      editando := true;
    }

    /** `salvar`: the three checks in their order, then `atualizar` when editing a client and `criar`
        otherwise. It changes no field itself; the service callbacks do. */
    method Salvar() returns (acao: AcaoSalvar)
      ensures IsJsBlank(novoCliente.razaoSocial) ==> acao == RazaoSocialObrigatoria
      ensures !IsJsBlank(novoCliente.razaoSocial) && IsJsBlank(novoCliente.cnpj) ==> acao == CnpjObrigatorio
      ensures (!IsJsBlank(novoCliente.razaoSocial) && !IsJsBlank(novoCliente.cnpj)
               && !Cnpj.EhValido(novoCliente.cnpj)) ==> acao == CnpjInvalido
      ensures acao.Criar? || acao.Atualizar? <==>
                !IsJsBlank(novoCliente.razaoSocial) && !IsJsBlank(novoCliente.cnpj) && Cnpj.EhValido(novoCliente.cnpj)
      ensures acao.Atualizar? <==> (acao.Criar? || acao.Atualizar?) && editando && clienteEditando.Some?
      ensures acao.Criar? ==> acao.novo == novoCliente
      ensures acao.Atualizar? ==> acao.id == clienteEditando.value.id
                                  && acao.corpo == CorpoCliente(clienteEditando.value.id, novoCliente)
    {
      if IsJsBlank(novoCliente.razaoSocial) {
        return RazaoSocialObrigatoria;
      }
      if IsJsBlank(novoCliente.cnpj) {
        return CnpjObrigatorio;
      }
      var ok := Cnpj.ValidarCnpj(novoCliente.cnpj);
      if !ok {
        return CnpjInvalido;
      }
      if editando && clienteEditando.Some? {
        var c := clienteEditando.value;
        return Atualizar(c.id, CorpoCliente(c.id, novoCliente));
      }
      return Criar(novoCliente);
    }
  }
}
