/** The creation command and its handler
    (backend/LegacyProcs/Application/Commands/CreateOrdemServicoCommand.cs). */
module CreateOrdemServico {
  import opened Wrappers
  import opened Models

  datatype CreateOrdemServicoCommand = CreateOrdemServicoCommand(
    titulo: string,
    descricao: Option<string>,
    tecnico: string)

  const Aberta := "Aberta"

  /** What the handler did: the record it passed to `CreateAsync` (exactly one call) and the id it
      returns, or the repository's exception. */
  datatype Handled = Handled(criada: OrdemServico, resultado: Reply<int>)

  /** `Handle`: builds a new order from the command, status "Aberta", created at the clock's time,
      makes one `CreateAsync` call with it and returns the id that call returned. */
  function Handle(cmd: CreateOrdemServicoCommand, agora: DateTime, repositorio: Reply<int>): (h: Handled)
    ensures h.criada.status == Aberta
    ensures h.criada.titulo == cmd.titulo && h.criada.descricao == cmd.descricao && h.criada.tecnico == cmd.tecnico
    ensures h.criada.dataCriacao == agora && h.criada.dataAtualizacao.None?
    ensures h.resultado == repositorio
  {
    Handled(OrdemServico(0, cmd.titulo, cmd.descricao, cmd.tecnico, Aberta, agora, None), repositorio)
  }
}
