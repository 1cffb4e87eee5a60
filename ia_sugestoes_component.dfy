/** The AI-suggestion button (frontend/src/app/components/ia-sugestoes/ia-sugestoes.component.ts). */
module IaSugestoesTela {
  import opened Wrappers
  import opened Text

  /** The four `tipo` values the component declares. At run time the input is a plain string, so
      any other value also reaches the code. */
  const TipoDescricao := "descricao"
  const TipoTecnico := "tecnico"
  const TipoPrioridade := "prioridade"
  const TipoTempo := "tempo"

  /** One call of the AI-assistant service, with the text it is sent. */
  datatype Pedido =
    | GerarDescricao(texto: string)
    | SugerirTecnico(texto: string)
    | AnalisarPrioridade(texto: string)
    | EstimarTempo(texto: string)

  /** The service call each known `tipo` selects; None for an unknown one. */
  function PedidoPara(tipo: string, texto: string): (p: Option<Pedido>)
    ensures p.Some? <==> tipo in {TipoDescricao, TipoTecnico, TipoPrioridade, TipoTempo}
    ensures p.Some? ==> p.value.texto == texto
    ensures tipo == TipoDescricao <==> p == Some(GerarDescricao(texto))
    ensures tipo == TipoTecnico <==> p == Some(SugerirTecnico(texto))
    ensures tipo == TipoPrioridade <==> p == Some(AnalisarPrioridade(texto))
    ensures tipo == TipoTempo <==> p == Some(EstimarTempo(texto))
  {
    if tipo == TipoDescricao then Some(GerarDescricao(texto))
    else if tipo == TipoTecnico then Some(SugerirTecnico(texto))
    else if tipo == TipoPrioridade then Some(AnalisarPrioridade(texto))
    else if tipo == TipoTempo then Some(EstimarTempo(texto))
    else None
  }

  /** A service response; a property the body does not carry is undefined. */
  datatype Resposta = Resposta(descricao: Option<string>, especialidade: Option<string>,
                               prioridade: Option<string>, tempo: Option<string>)

  /** The four properties in the order the value is looked for. */
  function Campos(r: Resposta): seq<Option<string>> {
    [r.descricao, r.especialidade, r.prioridade, r.tempo]
  }

  /** `descricao || especialidade || prioridade || tempo || ''`: the first property that is neither
      missing nor empty, or "" when all are. */
  function Valor(r: Resposta): (v: string)
    ensures v == "" <==> forall i :: 0 <= i < 4 ==> IsFalsy(Campos(r)[i])
    ensures v != "" ==> exists i :: 0 <= i < 4 && Campos(r)[i] == Some(v)
                                    && forall j :: 0 <= j < i ==> IsFalsy(Campos(r)[j])
  {
    var c := Campos(r);
    if !IsFalsy(r.descricao) then assert c[0] == r.descricao; r.descricao.value
    else if !IsFalsy(r.especialidade) then assert c[1] == r.especialidade; r.especialidade.value
    else if !IsFalsy(r.prioridade) then assert c[2] == r.prioridade; r.prioridade.value
    else if !IsFalsy(r.tempo) then assert c[3] == r.tempo; r.tempo.value
    else ""
  }

  /** The one-field bodies the AI-assistant endpoints answer with each give back that field. */
  lemma ValorDeRespostaUnica(s: string)
    ensures Valor(Resposta(Some(s), None, None, None)) == s
    ensures Valor(Resposta(None, Some(s), None, None)) == s
    ensures Valor(Resposta(None, None, Some(s), None)) == s
    ensures Valor(Resposta(None, None, None, Some(s))) == s
  {
  }

  /** The button labels of the four known `tipo` values. */
  const Rotulos: map<string, string> := map[
    TipoDescricao := "Gerar Descri\U{00E7}\U{00E3}o IA",
    TipoTecnico := "Sugerir T\U{00E9}cnico IA",
    TipoPrioridade := "Analisar Prioridade IA",
    TipoTempo := "Estimar Tempo IA"]

  class IaSugestoesComponent {
    var tipo: string
    var inputValue: Option<string>
    var disabled: bool
    var gerando: bool

    /** The declared defaults: `tipo` "descricao", an empty input, enabled, not generating. */
    constructor()
      ensures tipo == TipoDescricao && inputValue == Some("") && !disabled && !gerando
    {
      tipo := TipoDescricao;
      inputValue := Some("");
      disabled := false;
      gerando := false;
    }

    /** `gerarSugestao`: with a missing or empty input, or when disabled, nothing is called and
        nothing changes. Otherwise `gerando` is set and the call for `tipo` is made; an unknown
        `tipo` leaves no observable to subscribe to, so the method then fails with `gerando` set. */
    method GerarSugestao() returns (chamada: Option<Pedido>)
      modifies this
      ensures IsFalsy(old(inputValue)) || old(disabled) ==> chamada.None? && gerando == old(gerando)
      ensures !IsFalsy(old(inputValue)) && !old(disabled) ==> gerando && chamada == PedidoPara(old(tipo), old(inputValue).value)
      ensures tipo == old(tipo) && inputValue == old(inputValue) && disabled == old(disabled)
    {
      if IsFalsy(inputValue) || disabled {
        return None;
      }
      gerando := true;
      chamada := PedidoPara(tipo, inputValue.value);
    }

    /** The success callback: emits the response's value and clears `gerando`. */
    method AoResponder(r: Resposta) returns (emitido: string)
      modifies this
      ensures emitido == Valor(r) && !gerando
      ensures tipo == old(tipo) && inputValue == old(inputValue) && disabled == old(disabled)
    {
      emitido := Valor(r);
      gerando := false;
    }

    /** The error callback: clears `gerando`. */
    method AoFalhar()
      modifies this
      ensures !gerando
      ensures tipo == old(tipo) && inputValue == old(inputValue) && disabled == old(disabled)
    {
      gerando := false;
    }

    /** The `textoBotao` getter: "Gerando..." while generating, else the label of `tipo`, and
        "Gerar com IA" for an unknown one. */
    function TextoBotao(): (s: string)
      reads this
      ensures gerando ==> s == "Gerando..."
      ensures !gerando && tipo in Rotulos ==> s == Rotulos[tipo]
      ensures !gerando && tipo !in Rotulos ==> s == "Gerar com IA"
    {
      if gerando then "Gerando..."
      else if tipo == TipoDescricao then "Gerar Descri\U{00E7}\U{00E3}o IA"
      else if tipo == TipoTecnico then "Sugerir T\U{00E9}cnico IA"
      else if tipo == TipoPrioridade then "Analisar Prioridade IA"
      else if tipo == TipoTempo then "Estimar Tempo IA"
      else "Gerar com IA"
    }

    /** The `icone` getter: the hourglass exactly while generating. */
    function Icone(): (s: string)
      reads this
      ensures s == "hourglass_empty" <==> gerando
      ensures !gerando ==> s == "auto_awesome"
    {
      if gerando then "hourglass_empty" else "auto_awesome"
    }
  }
}
