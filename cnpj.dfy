/** The CNPJ (Brazilian company tax id) rule and masks of the client screen
    (frontend/src/app/cliente/cliente.component.ts). */
module Cnpj {
  import opened Wrappers
  import opened Text

  function DigitValue(c: char): (v: int)
    requires IsDigit(c)
    ensures 0 <= v <= 9
  {
    c as int - '0' as int
  }

  /** Weights of the first check digit, applied to digits 1..12. */
  const PesosPrimeiro: seq<int> := [5, 4, 3, 2, 9, 8, 7, 6, 5, 4, 3, 2]

  /** Weights of the second check digit, applied to digits 1..13. */
  const PesosSegundo: seq<int> := [6, 5, 4, 3, 2, 9, 8, 7, 6, 5, 4, 3, 2]

  /** The sum, from position `i` on, of digit times weight; `ds` may be longer than `ws`. */
  function Dot(ds: string, ws: seq<int>, i: nat): int
    requires |ws| <= |ds| && AllDigits(ds)
    decreases |ws| - i
  {
    if i >= |ws| then 0 else DigitValue(ds[i]) * ws[i] + Dot(ds, ws, i + 1)
  }

  /** Only the first `|ws|` digits take part in the sum. */
  lemma {:induction false} DotPrefix(ds: string, ws: seq<int>, i: nat)
    requires |ws| <= |ds| && AllDigits(ds)
    ensures Dot(ds[..|ws|], ws, i) == Dot(ds, ws, i)
    decreases |ws| - i
  {
    if i < |ws| {
      DotPrefix(ds, ws, i + 1);
    }
  }

  /** Check digit of a weighted sum: 0 when the remainder modulo 11 is below 2, else 11 minus it. */
  function DigitoVerificador(soma: int): (r: int)
    ensures 0 <= r <= 9
    ensures r == 0 <==> soma % 11 < 2
    ensures (soma + r) % 11 == 0 || soma % 11 == 1
  {
    if soma % 11 < 2 then 0 else 11 - soma % 11
  }

  /** Two or more copies of one character: what `/^(\d)\1+$/` matches on a string of digits. */
  predicate TodosIguais(d: string) {
    |d| >= 2 && forall i :: 0 <= i < |d| ==> d[i] == d[0]
  }

  /** The Receita Federal rule: after dropping every non-digit there are 14 digits, not all equal, and
      digits 13 and 14 are the check digits of digits 1..12 and 1..13. Null and "" are invalid. */
  predicate EhValido(cnpj: Option<string>) {
    && cnpj.Some? && cnpj.value != ""
    && var d := Digits(cnpj.value);
    && |d| == 14
    && !TodosIguais(d)
    && DigitValue(d[12]) == DigitoVerificador(Dot(d, PesosPrimeiro, 0))
    && DigitValue(d[13]) == DigitoVerificador(Dot(d, PesosSegundo, 0))
  }

  /** The weights `validarCNPJ`'s loop produces: `pos` starts at `p`, goes down by one, and wraps from 1 to 9. */
  function Posicoes(p: int, n: nat): (ws: seq<int>)
    ensures |ws| == n
    decreases n
  {
    if n == 0 then [] else [p] + Posicoes(if p - 1 < 2 then 9 else p - 1, n - 1)
  }

  /** The weights run down from 9 to 2 and start over: the `k`-th weight is a fixed function of `k`
      with period 8. */
  lemma {:induction false} PosicoesCiclo(p: int, n: nat)
    requires 2 <= p <= 9
    ensures forall k :: 0 <= k < n ==> Posicoes(p, n)[k] == (p - 2 - k) % 8 + 2
    decreases n
  {
    if n >= 1 {
      var q := if p - 1 < 2 then 9 else p - 1;
      PosicoesCiclo(q, n - 1);
      forall k | 1 <= k < n ensures Posicoes(p, n)[k] == (p - 2 - k) % 8 + 2 {
        assert Posicoes(p, n)[k] == Posicoes(q, n - 1)[k - 1];
      }
    }
  }

  /** A sequence of length `n` that follows the cycle from `p` is the loop's weight sequence. */
  lemma CicloDaPosicoes(p: int, n: nat, ws: seq<int>)
    requires 2 <= p <= 9 && |ws| == n
    requires forall k :: 0 <= k < n ==> ws[k] == (p - 2 - k) % 8 + 2
    ensures Posicoes(p, n) == ws
  {
    PosicoesCiclo(p, n);
  }

  /** A sequence of length `n` is the loop's weight sequence from `p` exactly when it follows the
      cycle from `p`. */
  lemma PosicoesPeloCiclo(p: int, n: nat, ws: seq<int>)
    requires 2 <= p <= 9 && |ws| == n
    ensures Posicoes(p, n) == ws <==> forall k :: 0 <= k < n ==> ws[k] == (p - 2 - k) % 8 + 2
  {
    PosicoesCiclo(p, n);
  }

  lemma PesosPrimeiroNoCiclo()
    ensures |PesosPrimeiro| == 12
    ensures forall k :: 0 <= k < 12 ==> PesosPrimeiro[k] == (5 - 2 - k) % 8 + 2
  {
  }

  lemma PesosSegundoNoCiclo()
    ensures |PesosSegundo| == 13
    ensures forall k :: 0 <= k < 13 ==> PesosSegundo[k] == (6 - 2 - k) % 8 + 2
  {
  }

  /** For the block of 12 digits the loop's weights are the first check digit's. */
  lemma PosicoesDoPrimeiro()
    ensures Posicoes(12 - 7, 12) == PesosPrimeiro
  {
    PesosPrimeiroNoCiclo();
    CicloDaPosicoes(5, 12, PesosPrimeiro);
  }

  /** For the block of 13 digits they are the second check digit's. */
  lemma PosicoesDoSegundo()
    ensures Posicoes(13 - 7, 13) == PesosSegundo
  {
    PesosSegundoNoCiclo();
    CicloDaPosicoes(6, 13, PesosSegundo);
  }

  /** One step of the weight sequence: its head is the current weight and its tail starts at the next. */
  lemma PosicoesPasso(ws: seq<int>, k: nat, pos: int, i: nat)
    requires i >= 1 && k <= |ws| && ws[k..] == Posicoes(pos, i)
    ensures k < |ws| && ws[k] == pos
    ensures ws[k + 1..] == Posicoes(if pos - 1 < 2 then 9 else pos - 1, i - 1)
  {
    assert ws[k..][0] == ws[k];
    assert ws[k + 1..] == ws[k..][1..];
  }

  /** What the weighted-sum loop still has to add when `n` digits remain from position `k` on and
      the current weight is `pos`. */
  function Restante(ds: string, k: nat, pos: int, n: nat): int
    requires k + n <= |ds| && AllDigits(ds)
    decreases n
  {
    if n == 0 then 0
    else DigitValue(ds[k]) * pos + Restante(ds, k + 1, if pos - 1 < 2 then 9 else pos - 1, n - 1)
  }

  /** What remains is the weighted sum from `k` on, with the weights that `Posicoes` generates. */
  lemma {:induction false} RestanteEhDot(ds: string, ws: seq<int>, k: nat, pos: int, n: nat)
    requires AllDigits(ds) && |ws| <= |ds| && k + n == |ws| && ws[k..] == Posicoes(pos, n)
    ensures Restante(ds, k, pos, n) == Dot(ds, ws, k)
    decreases n
  {
    if n >= 1 {
      PosicoesPasso(ws, k, pos, n);
      RestanteEhDot(ds, ws, k + 1, if pos - 1 < 2 then 9 else pos - 1, n - 1);
    }
  }

  /** The weighted-sum loop of `validarCNPJ` over the block `numeros`, whose length is `tamanho`. */
  method SomaPonderada(numeros: string) returns (soma: int)
    requires AllDigits(numeros)
    ensures soma == Dot(numeros, Posicoes(|numeros| - 7, |numeros|), 0)
  {
    var tamanho := |numeros|;
    soma := 0;
    var pos := tamanho - 7;
    var i := tamanho;
    while i >= 1
      invariant 0 <= i <= tamanho
      invariant soma + Restante(numeros, tamanho - i, pos, i) == Restante(numeros, 0, tamanho - 7, tamanho)
    {
      soma := soma + DigitValue(numeros[tamanho - i]) * pos;
      pos := pos - 1;
      if pos < 2 { pos := 9; }
      i := i - 1;
    }
    RestanteEhDot(numeros, Posicoes(tamanho - 7, tamanho), 0, tamanho - 7, tamanho);
  }

  /** `validarCNPJ`. */
  method ValidarCnpj(cnpj: Option<string>) returns (ok: bool)
    ensures ok == EhValido(cnpj)
  {
    if cnpj.None? || cnpj.value == "" { return false; }
    var d := Digits(cnpj.value);
    if |d| != 14 { return false; }
    if TodosIguais(d) { return false; }

    PosicoesDoPrimeiro();
    PosicoesDoSegundo();
    var tamanho := |d| - 2;
    var numeros := d[..tamanho];
    var digitos := d[tamanho..];
    var soma := SomaPonderada(numeros);
    DotPrefix(d, PesosPrimeiro, 0);
    var resultado := DigitoVerificador(soma);
    if resultado != DigitValue(digitos[0]) { return false; }

    tamanho := tamanho + 1;
    numeros := d[..tamanho];
    soma := SomaPonderada(numeros);
    DotPrefix(d, PesosSegundo, 0);
    resultado := DigitoVerificador(soma);
    return resultado == DigitValue(digitos[1]);
  }

  // ------------------------------------------------------------------ masks

  predicate EhCnpjSemMascara(s: string) { |s| == 14 && AllDigits(s) }

  /** `formatarCNPJ`: fourteen digits become NN.NNN.NNN/NNNN-NN; null and "" become ""; anything
      else is returned as it is. */
  function FormatarCnpj(cnpj: Option<string>): (r: string)
    ensures IsFalsy(cnpj) ==> r == ""
    ensures cnpj.Some? && cnpj.value != "" && !EhCnpjSemMascara(cnpj.value) ==> r == cnpj.value
    ensures cnpj.Some? && EhCnpjSemMascara(cnpj.value) ==>
              |r| == 18 && r[2] == '.' && r[6] == '.' && r[10] == '/' && r[15] == '-'
  {
    if IsFalsy(cnpj) then ""
    else
      var s := cnpj.value;
      if EhCnpjSemMascara(s) then s[..2] + "." + s[2..5] + "." + s[5..8] + "/" + s[8..12] + "-" + s[12..]
      else s
  }

  /** A one-character separator between two pieces disappears. */
  lemma DigitsSeparados(x: string, sep: string, y: string)
    requires |sep| == 1 && !IsDigit(sep[0]) && AllDigits(y)
    ensures Digits(x + sep + y) == Digits(x) + y
  {
    DigitsConcat(x, sep);
    DigitsConcat(x + sep, y);
  }

  /** Digits of the 2.3.3/4-2 mask over five groups of digits. */
  lemma DigitsDaMascara(a: string, b: string, c: string, d: string, e: string)
    requires AllDigits(a) && AllDigits(b) && AllDigits(c) && AllDigits(d) && AllDigits(e)
    ensures Digits(a + "." + b + "." + c + "/" + d + "-" + e) == a + b + c + d + e
  {
    DigitsSeparados(a, ".", b);
    DigitsSeparados(a + "." + b, ".", c);
    DigitsSeparados(a + "." + b + "." + c, "/", d);
    DigitsSeparados(a + "." + b + "." + c + "/" + d, "-", e);
  }

  /** Fourteen digits are cut into groups of 2, 3, 3, 4 and 2, separated by '.', '.', '/' and '-'. */
  lemma FormatarCnpjEmGrupos(a: string, b: string, c: string, d: string, e: string)
    requires |a| == 2 && |b| == 3 && |c| == 3 && |d| == 4 && |e| == 2
    requires AllDigits(a + b + c + d + e)
    ensures FormatarCnpj(Some(a + b + c + d + e)) == a + "." + b + "." + c + "/" + d + "-" + e
  {
    var s := a + b + c + d + e;
    assert s[..2] == a && s[2..5] == b && s[5..8] == c && s[8..12] == d && s[12..] == e;
  }

  /** Removing the mask gives back the digits. */
  lemma FormatarCnpjIda(s: string)
    requires EhCnpjSemMascara(s)
    ensures Digits(FormatarCnpj(Some(s))) == s
  {
    var a, b, c, d, e := s[..2], s[2..5], s[5..8], s[8..12], s[12..];
    DigitsDaMascara(a, b, c, d, e);
    assert a + b + c + d + e == s;
  }

  /** `formatarCEP`: eight digits become NNNNN-NNN; null and "" become ""; anything else is returned
      as it is. */
  function FormatarCep(cep: Option<string>): (r: string)
    ensures IsFalsy(cep) ==> r == ""
    ensures cep.Some? && cep.value != "" && !(|cep.value| == 8 && AllDigits(cep.value)) ==> r == cep.value
    ensures cep.Some? && |cep.value| == 8 && AllDigits(cep.value) ==> |r| == 9 && r[5] == '-'
  {
    if IsFalsy(cep) then ""
    else
      var s := cep.value;
      if |s| == 8 && AllDigits(s) then s[..5] + "-" + s[5..] else s
  }

  lemma FormatarCepIda(s: string)
    requires |s| == 8 && AllDigits(s)
    ensures Digits(FormatarCep(Some(s))) == s
  {
    DigitsConcat(s[..5], "-");
    DigitsConcat(s[..5] + "-", s[5..]);
    assert s[..5] + s[5..] == s;
  }

  // ------------------------------------------------------------- properties

  /** The verdict depends only on the digits: a masked CNPJ and its bare digits get the same answer. */
  lemma ValidadeSoDependeDosDigitos(s: string)
    ensures EhValido(Some(s)) == EhValido(Some(Digits(s)))
  {
    DigitsIdempotent(s);
  }

  /** Masking a CNPJ does not change its verdict. */
  lemma MascaraPreservaValidade(s: string)
    requires EhCnpjSemMascara(s)
    ensures EhValido(Some(FormatarCnpj(Some(s)))) == EhValido(Some(s))
  {
    FormatarCnpjIda(s);
    ValidadeSoDependeDosDigitos(FormatarCnpj(Some(s)));
  }

  /** Any digit count other than 14 is rejected, whatever else the string holds. */
  lemma QuatorzeDigitos(s: string)
    requires |Digits(s)| != 14
    ensures !EhValido(Some(s))
  {
  }

  /** Fourteen zeros pass both check digits ... */
  lemma ZerosPassamNosVerificadores()
    ensures var z := "00000000000000";
      && DigitValue(z[12]) == DigitoVerificador(Dot(z, PesosPrimeiro, 0))
      && DigitValue(z[13]) == DigitoVerificador(Dot(z, PesosSegundo, 0))
  {
    PrimeiraSoma00000000000000();
    SegundaSoma00000000000000();
  }

  /** ... so only the all-equal rule rejects them. */
  lemma ZerosRejeitados()
    ensures !EhValido(Some("00000000000000"))
  {
    assert TodosIguais("00000000000000");
  }

  /** Fourteen copies of any digit are rejected. */
  lemma TodosIguaisRejeitado(c: char)
    requires IsDigit(c)
    ensures !EhValido(Some(seq(14, _ => c)))
  {
    var z := seq(14, _ => c);
    assert TodosIguais(z);
  }

  /** A string of 14 digits is judged by the all-equal rule and its two check digits. */
  lemma CatorzeDigitos(s: string)
    requires |s| == 14 && AllDigits(s)
    ensures EhValido(Some(s)) <==>
      && !TodosIguais(s)
      && DigitValue(s[12]) == DigitoVerificador(Dot(s, PesosPrimeiro, 0))
      && DigitValue(s[13]) == DigitoVerificador(Dot(s, PesosSegundo, 0))
  {
  }

  /** A valid CNPJ of the component's unit tests. */
  lemma Valido11222333000181()
    ensures EhValido(Some("11222333000181"))
  {
    var s := "11222333000181";
    assert AllDigits(s) && s[2] != s[0];
    PrimeiraSoma11222333000181();
    SegundaSoma11222333000181();
    CatorzeDigitos(s);
  }

  /** A valid CNPJ of the component's unit tests. */
  lemma Valido11444777000161()
    ensures EhValido(Some("11444777000161"))
  {
    var s := "11444777000161";
    assert AllDigits(s) && s[2] != s[0];
    PrimeiraSoma11444777000161();
    SegundaSoma11444777000161();
    CatorzeDigitos(s);
  }

  /** A valid CNPJ of the component's unit tests. */
  lemma Valido34028316000103()
    ensures EhValido(Some("34028316000103"))
  {
    var s := "34028316000103";
    assert AllDigits(s) && s[1] != s[0];
    PrimeiraSoma34028316000103();
    SegundaSoma34028316000103();
    CatorzeDigitos(s);
  }

  /** A valid CNPJ of the component's unit tests. */
  lemma Valido00000000000191()
    ensures EhValido(Some("00000000000191"))
  {
    var s := "00000000000191";
    assert AllDigits(s) && s[11] != s[0];
    PrimeiraSoma00000000000191();
    SegundaSoma00000000000191();
    CatorzeDigitos(s);
  }

  /** Wrong check digits (both). */
  lemma Invalido12345678000100()
    ensures !EhValido(Some("12345678000100"))
  {
    var s := "12345678000100";
    assert AllDigits(s) && s[1] != s[0];
    PrimeiraSoma12345678000100();
    SegundaSoma12345678000100();
    CatorzeDigitos(s);
  }

  /** Wrong second check digit. */
  lemma Invalido11222333000171()
    ensures !EhValido(Some("11222333000171"))
  {
    var s := "11222333000171";
    assert AllDigits(s) && s[2] != s[0];
    PrimeiraSoma11222333000171();
    SegundaSoma11222333000171();
    CatorzeDigitos(s);
  }

  /** Listed among the valid numbers of the component's unit tests (cliente.component.spec.ts:100-107), but
      its first check digit under the code's rule is 0, not 6, so the first check-digit test rejects it. */
  lemma Invalido07526557000162()
    ensures !EhValido(Some("07526557000162"))
  {
    var s := "07526557000162";
    assert AllDigits(s) && s[1] != s[0];
    PrimeiraSoma07526557000162();
    SegundaSoma07526557000162();
    CatorzeDigitos(s);
  }

  /** The valid number on the base 075265570001: both check digits are 0. */
  lemma Valido07526557000100()
    ensures EhValido(Some("07526557000100"))
  {
    var s := "07526557000100";
    assert AllDigits(s) && s[1] != s[0];
    PrimeiraSoma07526557000100();
    SegundaSoma07526557000100();
    CatorzeDigitos(s);
  }

  /** Too short. */
  lemma CnpjCurto()
    ensures !EhValido(Some("123456789"))
  {
    var curto := "123456789";
    assert AllDigits(curto);
    QuatorzeDigitos(curto);
  }

  /** Too long. */
  lemma CnpjLongo()
    ensures !EhValido(Some("123456789012345"))
  {
    var longo := "123456789012345";
    assert AllDigits(longo);
    QuatorzeDigitos(longo);
  }

  /** Null and empty. */
  lemma CnpjAusente()
    ensures !EhValido(None) && !EhValido(Some(""))
  {
  }

  /** The CNPJ mask of the component's unit tests. */
  lemma MascaraCnpjConhecida()
    ensures FormatarCnpj(Some("11222333000181")) == "11.222.333/0001-81"
  {
    MascaraCnpjEmGrupos();
    GruposComSeparadores();
  }

  lemma MascaraCnpjEmGrupos()
    ensures FormatarCnpj(Some("11222333000181")) == "11" + "." + "222" + "." + "333" + "/" + "0001" + "-" + "81"
  {
    assert "11" + "222" + "333" + "0001" + "81" == "11222333000181";
    FormatarCnpjEmGrupos("11", "222", "333", "0001", "81");
  }

  lemma GruposComSeparadores()
    ensures "11" + "." + "222" + "." + "333" + "/" + "0001" + "-" + "81" == "11.222.333/0001-81"
  {
  }

  /** Null and "" give an empty mask. */
  lemma MascaraVazia()
    ensures FormatarCnpj(Some("")) == "" && FormatarCnpj(None) == ""
    ensures FormatarCep(Some("")) == "" && FormatarCep(None) == ""
  {
  }

  /** The CEP mask of the component's unit tests. */
  lemma MascaraCepConhecida()
    ensures FormatarCep(Some("01310100")) == "01310-100"
  {
    var s := "01310100";
    assert AllDigits(s);
    assert s[..5] == "01310" && s[5..] == "100";
  }

  /** A letter in place of the last digit leaves 13 digits. */
  lemma InvalidoComLetra()
    ensures !EhValido(Some("1122233300018A"))
  {
    LetraNoFim();
    DigitosAntesDaLetra();
    QuatorzeDigitos("1122233300018A");
  }

  lemma LetraNoFim()
    ensures "1122233300018" + "A" == "1122233300018A"
  {
  }

  lemma DigitosAntesDaLetra()
    ensures |Digits("1122233300018" + "A")| == 13
  {
    var a := "1122233300018";
    assert AllDigits(a);
    DigitsConcat(a, "A");
  }

  // The two weighted sums of each test vector, one lemma per sum so that each evaluation stays small.

  lemma PrimeiraSoma11222333000181()
    ensures Dot("11222333000181", PesosPrimeiro, 0) == 102
  {
  }

  lemma SegundaSoma11222333000181()
    ensures Dot("11222333000181", PesosSegundo, 0) == 120
  {
  }

  lemma PrimeiraSoma11444777000161()
    ensures Dot("11444777000161", PesosPrimeiro, 0) == 214
  {
  }

  lemma SegundaSoma11444777000161()
    ensures Dot("11444777000161", PesosSegundo, 0) == 230
  {
  }

  lemma PrimeiraSoma34028316000103()
    ensures Dot("34028316000103", PesosPrimeiro, 0) == 176
  {
  }

  lemma SegundaSoma34028316000103()
    ensures Dot("34028316000103", PesosSegundo, 0) == 140
  {
  }

  lemma PrimeiraSoma00000000000191()
    ensures Dot("00000000000191", PesosPrimeiro, 0) == 2
  {
  }

  lemma SegundaSoma00000000000191()
    ensures Dot("00000000000191", PesosSegundo, 0) == 21
  {
  }

  lemma PrimeiraSoma12345678000100()
    ensures Dot("12345678000100", PesosPrimeiro, 0) == 222
  {
  }

  lemma SegundaSoma12345678000100()
    ensures Dot("12345678000100", PesosSegundo, 0) == 219
  {
  }

  lemma PrimeiraSoma11222333000171()
    ensures Dot("11222333000171", PesosPrimeiro, 0) == 102
  {
  }

  lemma SegundaSoma11222333000171()
    ensures Dot("11222333000171", PesosSegundo, 0) == 118
  {
  }

  lemma PrimeiraSoma07526557000162()
    ensures Dot("07526557000162", PesosPrimeiro, 0) == 220
  {
  }

  lemma SegundaSoma07526557000162()
    ensures Dot("07526557000162", PesosSegundo, 0) == 222
  {
  }

  lemma PrimeiraSoma07526557000100()
    ensures Dot("07526557000100", PesosPrimeiro, 0) == 220
  {
  }

  lemma SegundaSoma07526557000100()
    ensures Dot("07526557000100", PesosSegundo, 0) == 210
  {
  }

  lemma PrimeiraSoma00000000000000()
    ensures Dot("00000000000000", PesosPrimeiro, 0) == 0
  {
  }

  lemma SegundaSoma00000000000000()
    ensures Dot("00000000000000", PesosSegundo, 0) == 0
  {
  }
}
