/** The AI-assistant endpoints (backend/LegacyProcs/Controllers/IAAssistenteController.cs). The
    language-model service is outside the model: its answer, or its failure, is an input. */
module IaAssistenteCtl {
  import opened Wrappers
  import opened Text
  import opened Models
  import opened Http

  /** The one-field JSON bodies of the 200 answers. */
  datatype Corpo =
    | Descricao(descricao: string)
    | Especialidade(especialidade: string)
    | Prioridade(prioridade: string)
    | Tempo(tempo: string)

  /** A call to the language-model service, with its arguments. */
  datatype ChamadaIa =
    | GerarDescricaoIa(titulo: string)
    | SugerirTecnicoIa(descricao: string, candidatos: seq<string>)
    | AnalisarPrioridadeIa(descricao: string)
    | EstimarTempoIa(descricao: string)

  /** A response, whether the technician table was read, and the service call made, if any. */
  datatype Atendimento = Atendimento(resposta: Response<Corpo>, leuTecnicos: bool, ia: Option<ChamadaIa>)

  const SemTecnicoNoMomento := "Nenhum t\U{00E9}cnico dispon\U{00ED}vel no momento"
  const SemTecnicoAdequado := "Nenhum t\U{00E9}cnico dispon\U{00ED}vel com especialidade adequada para este servi\U{00E7}o"

  /** The three endpoints that only forward a text: a null, empty or white-space text is 400 and the
      service is not called; otherwise the service's answer is returned in `campo`, or its failure
      becomes 500. */
  function Encaminhar(texto: Option<string>, chamada: string -> ChamadaIa, campo: string -> Corpo,
                      ia: Reply<string>): (a: Atendimento)
    ensures IsNullOrWhiteSpace(texto) <==> a.resposta.BadRequest?
    ensures IsNullOrWhiteSpace(texto) ==> a.ia.None?
    ensures !IsNullOrWhiteSpace(texto) ==> a.ia == Some(chamada(texto.value))
    ensures !IsNullOrWhiteSpace(texto) && ia.Returned? ==> a.resposta == Ok(campo(ia.value))
    ensures !IsNullOrWhiteSpace(texto) && ia.Threw? ==> a.resposta == ServerError
    ensures !a.leuTecnicos
  {
    if IsNullOrWhiteSpace(texto) then Atendimento(BadRequest, false, None)
    else match ia
      case Threw => Atendimento(ServerError, false, Some(chamada(texto.value)))
      case Returned(s) => Atendimento(Ok(campo(s)), false, Some(chamada(texto.value)))
  }

  /** `GerarDescricao`. */
  function GerarDescricao(titulo: Option<string>, ia: Reply<string>): (a: Atendimento)
    ensures IsNullOrWhiteSpace(titulo) <==> a == Atendimento(BadRequest, false, None)
    ensures !IsNullOrWhiteSpace(titulo) ==> a.ia == Some(GerarDescricaoIa(titulo.value))
    ensures !IsNullOrWhiteSpace(titulo) && ia.Returned? ==> a.resposta == Ok(Descricao(ia.value))
    ensures !IsNullOrWhiteSpace(titulo) && ia.Threw? ==> a.resposta == ServerError
  {
    Encaminhar(titulo, s => GerarDescricaoIa(s), s => Descricao(s), ia)
  }

  /** `AnalisarPrioridade`. */
  function AnalisarPrioridade(descricao: Option<string>, ia: Reply<string>): (a: Atendimento)
    ensures IsNullOrWhiteSpace(descricao) <==> a == Atendimento(BadRequest, false, None)
    ensures !IsNullOrWhiteSpace(descricao) ==> a.ia == Some(AnalisarPrioridadeIa(descricao.value))
    ensures !IsNullOrWhiteSpace(descricao) && ia.Returned? ==> a.resposta == Ok(Prioridade(ia.value))
    ensures !IsNullOrWhiteSpace(descricao) && ia.Threw? ==> a.resposta == ServerError
  {
    Encaminhar(descricao, s => AnalisarPrioridadeIa(s), s => Prioridade(s), ia)
  }

  /** `EstimarTempo`. */
  function EstimarTempo(descricao: Option<string>, ia: Reply<string>): (a: Atendimento)
    ensures IsNullOrWhiteSpace(descricao) <==> a == Atendimento(BadRequest, false, None)
    ensures !IsNullOrWhiteSpace(descricao) ==> a.ia == Some(EstimarTempoIa(descricao.value))
    ensures !IsNullOrWhiteSpace(descricao) && ia.Returned? ==> a.resposta == Ok(Tempo(ia.value))
    ensures !IsNullOrWhiteSpace(descricao) && ia.Threw? ==> a.resposta == ServerError
  {
    Encaminhar(descricao, s => EstimarTempoIa(s), s => Tempo(s), ia)
  }

  // ----------------------------------------------------- technician suggestion

  /** `Status.Equals("Ativo", StringComparison.OrdinalIgnoreCase)`. */
  predicate EhAtivo(t: Tecnico) { EqualsIgnoreCase(t.status, Ativo) }

  /** The active technicians, in repository order. */
  function Ativos(ts: seq<Tecnico>): (r: seq<Tecnico>)
    ensures |r| <= |ts|
    ensures forall x :: x in r <==> x in ts && EhAtivo(x)
  {
    if ts == [] then []
    else (if EhAtivo(ts[0]) then [ts[0]] else []) + Ativos(ts[1..])
  }

  /** Filtering keeps the repository order: the active ones of a concatenation are the active ones
      of each part, in turn. */
  lemma {:induction false} AtivosConcat(a: seq<Tecnico>, b: seq<Tecnico>)
    ensures Ativos(a + b) == Ativos(a) + Ativos(b)
  {
    if a == [] {
      assert a + b == b;
    } else {
      assert (a + b)[0] == a[0] && (a + b)[1..] == a[1..] + b;
      AtivosConcat(a[1..], b);
    }
  }

  /** With no active technician the filtered list is empty. */
  lemma {:induction false} NenhumAtivo(ts: seq<Tecnico>)
    requires forall i :: 0 <= i < |ts| ==> !EhAtivo(ts[i])
    ensures Ativos(ts) == []
  {
    if ts != [] {
      assert !EhAtivo(ts[0]);
      NenhumAtivo(ts[1..]);
    }
  }

  /** `$"{t.Nome} ({t.Especialidade ?? "Geral"})"`. */
  function Rotulo(t: Tecnico): (s: string)
    ensures var esp := if t.especialidade.Some? then t.especialidade.value else "Geral";
      s == t.nome + " (" + esp + ")"
  {
    t.nome + " (" + (if t.especialidade.Some? then t.especialidade.value else "Geral") + ")"
  }

  /** The candidate list sent to the service: one label per active technician, in order. */
  function Candidatos(ts: seq<Tecnico>): (r: seq<string>)
    ensures |r| == |Ativos(ts)|
    ensures forall i :: 0 <= i < |r| ==> r[i] == Rotulo(Ativos(ts)[i])
  {
    var a := Ativos(ts);
    seq(|a|, i requires 0 <= i < |a| => Rotulo(a[i]))
  }

  /** The answer says there is none: it equals "NENHUM" or contains "nenhum", ignoring case. */
  predicate IndicaNenhum(resposta: string) {
    EqualsIgnoreCase(resposta, "NENHUM") || ContainsIgnoreCase(resposta, "nenhum")
  }

  /** The equality test adds nothing: it is the containment test alone. */
  lemma IndicaNenhumEhConter(resposta: string)
    ensures IndicaNenhum(resposta) <==> ContainsIgnoreCase(resposta, "nenhum")
  {
    EqualsImpliesContainsIgnoreCase(resposta, "NENHUM");
    assert UpperAll("NENHUM") == UpperAll("nenhum");
  }

  /** Some technician's Nome occurs in the answer, ignoring case, active or not. */
  predicate NomeConhecido(resposta: string, ts: seq<Tecnico>) {
    exists i :: 0 <= i < |ts| && ContainsIgnoreCase(resposta, ts[i].nome)
  }

  /** `SugerirTecnico`. */
  function SugerirTecnico(descricao: Option<string>, todos: Reply<seq<Tecnico>>, ia: Reply<string>): (a: Atendimento)
    ensures IsNullOrWhiteSpace(descricao) <==> a == Atendimento(BadRequest, false, None)
    ensures !IsNullOrWhiteSpace(descricao) ==> a.leuTecnicos
    ensures a.ia.Some? <==> !IsNullOrWhiteSpace(descricao) && todos.Returned? && Candidatos(todos.value) != []
    ensures a.ia.Some? ==> a.ia == Some(SugerirTecnicoIa(descricao.value, Candidatos(todos.value)))
    ensures !IsNullOrWhiteSpace(descricao) && todos.Returned? && Candidatos(todos.value) == [] ==>
              a.resposta == Ok(Especialidade(SemTecnicoNoMomento))
    ensures a.ia.Some? && ia.Returned? && IndicaNenhum(ia.value) ==>
              a.resposta == Ok(Especialidade(SemTecnicoAdequado))
    ensures a.ia.Some? && ia.Returned? && !IndicaNenhum(ia.value) ==>
              a.resposta == Ok(Especialidade(if NomeConhecido(ia.value, todos.value) then ia.value else SemTecnicoAdequado))
    ensures a.resposta.ServerError? <==> !IsNullOrWhiteSpace(descricao) && (todos.Threw? || (a.ia.Some? && ia.Threw?))
    ensures a.resposta.Ok? ==> a.resposta.body.Especialidade?
    ensures a.resposta.Ok? ==>
              var e := a.resposta.body.especialidade;
              e == SemTecnicoNoMomento || e == SemTecnicoAdequado || NomeConhecido(e, todos.value)
  {
    if IsNullOrWhiteSpace(descricao) then Atendimento(BadRequest, false, None)
    else match todos
      case Threw => Atendimento(ServerError, true, None)
      case Returned(ts) =>
        var candidatos := Candidatos(ts);
        if candidatos == [] then Atendimento(Ok(Especialidade(SemTecnicoNoMomento)), true, None)
        else
          var chamada := Some(SugerirTecnicoIa(descricao.value, candidatos));
          match ia
          case Threw => Atendimento(ServerError, true, chamada)
          case Returned(sugerido) =>
            if IndicaNenhum(sugerido) then Atendimento(Ok(Especialidade(SemTecnicoAdequado)), true, chamada)
            else if !NomeConhecido(sugerido, ts) then Atendimento(Ok(Especialidade(SemTecnicoAdequado)), true, chamada)
            else Atendimento(Ok(Especialidade(sugerido)), true, chamada)
  }

  /** Only inactive technicians, or none, means the fixed "none at the moment" answer and no call. */
  lemma SemAtivosNaoChamaIa(descricao: string, ts: seq<Tecnico>, ia: Reply<string>)
    requires !IsNullOrWhiteSpace(Some(descricao))
    requires forall i :: 0 <= i < |ts| ==> !EhAtivo(ts[i])
    ensures SugerirTecnico(Some(descricao), Returned(ts), ia) ==
              Atendimento(Ok(Especialidade(SemTecnicoNoMomento)), true, None)
  {
    NenhumAtivo(ts);
  }

  /** An answer that repeats one candidate label, for a technician whose name and specialty do not
      mention "nenhum", is returned verbatim. */
  lemma RotuloCandidatoAceito(descricao: string, ts: seq<Tecnico>, i: nat)
    requires !IsNullOrWhiteSpace(Some(descricao))
    requires i < |Candidatos(ts)|
    requires !IndicaNenhum(Candidatos(ts)[i])
    ensures SugerirTecnico(Some(descricao), Returned(ts), Returned(Candidatos(ts)[i])).resposta ==
              Ok(Especialidade(Candidatos(ts)[i]))
  {
    var t := Ativos(ts)[i];
    assert t in Ativos(ts);
    var j :| 0 <= j < |ts| && ts[j] == t;
    var esp := if t.especialidade.Some? then t.especialidade.value else "Geral";
    PrefixContainedIgnoreCase(t.nome, " (" + esp + ")");
    assert t.nome + " (" + esp + ")" == t.nome + (" (" + esp + ")");
    assert NomeConhecido(Candidatos(ts)[i], ts);
  }

  /** A technician with an empty Nome is contained in every answer, so with one in the table any
      answer that does not mention "nenhum" is accepted as it is. */
  lemma NomeVazioAceitaTudo(resposta: string, ts: seq<Tecnico>, j: nat)
    requires j < |ts| && ts[j].nome == ""
    ensures NomeConhecido(resposta, ts)
  {
    ContainsEmpty(UpperAll(resposta));
    assert UpperAll(ts[j].nome) == "";
    assert ContainsIgnoreCase(resposta, ts[j].nome);
  }
}
