/**
 * The transaction service: the monthly summary (totals by type over the
 * transactions of one month) and the month-by-month history that walks back
 * from the current month. The remote query for one month's transactions is
 * an oracle: a function from (month, year) to what the query returned.
 */
module Transacoes {

  datatype Tipo = Entrada | Saida

  /** A transaction; `valor` is a whole amount. */
  datatype Transacao = Transacao(id: string, clienteId: string, valor: int, tipo: Tipo, descricao: string, data: string)

  /** What the month query gives back: rows, an error object, or a thrown exception. */
  datatype Consulta = Linhas(transacoes: seq<Transacao>) | ErroConsulta | Excecao

  datatype ResumoMensal = ResumoMensal(totalEntradas: int, totalSaidas: int, saldoFinal: int, transacoes: seq<Transacao>)

  datatype MesHistorico = MesHistorico(mes: int, ano: int, totalFaturado: int)

  /** `transacoes.filter(t => t.tipo === tipo)`. */
  function DoTipo(ts: seq<Transacao>, tipo: Tipo): (r: seq<Transacao>)
    ensures |r| <= |ts|
    ensures forall t | t in r :: t in ts && t.tipo == tipo
    ensures forall t | t in ts && t.tipo == tipo :: t in r
  {
    if ts == [] then []
    else (if ts[0].tipo == tipo then [ts[0]] else []) + DoTipo(ts[1..], tipo)
  }

  /** Filtering a concatenation filters each part and keeps them in order. */
  lemma {:induction false} DoTipoConcat(a: seq<Transacao>, b: seq<Transacao>, tipo: Tipo)
    ensures DoTipo(a + b, tipo) == DoTipo(a, tipo) + DoTipo(b, tipo)
  {
    if a != [] {
      assert (a + b)[1..] == a[1..] + b;
      DoTipoConcat(a[1..], b, tipo);
    } else {
      assert a + b == b;
    }
  }

  /** `.reduce((acc, t) => acc + t.valor, 0)`. */
  function Soma(ts: seq<Transacao>): (r: int)
    ensures (forall i | 0 <= i < |ts| :: ts[i].valor >= 0) ==> r >= 0
    ensures (forall i | 0 <= i < |ts| :: ts[i].valor == 0) ==> r == 0
    ensures |ts| == 1 ==> r == ts[0].valor
  {
    if ts == [] then 0
    else
      assert |ts| == 1 ==> ts[1..] == [];
      ts[0].valor + Soma(ts[1..])
  }

  /** The sum over a concatenation is the sum of the sums. */
  lemma {:induction false} SomaConcat(a: seq<Transacao>, b: seq<Transacao>)
    ensures Soma(a + b) == Soma(a) + Soma(b)
  {
    if a != [] {
      assert (a + b)[1..] == a[1..] + b;
      SomaConcat(a[1..], b);
    } else {
      assert a + b == b;
    }
  }

  /** Income plus expenses is the sum over every transaction: the two types partition the list. */
  lemma {:induction false} TiposParticionam(ts: seq<Transacao>)
    ensures Soma(DoTipo(ts, Entrada)) + Soma(DoTipo(ts, Saida)) == Soma(ts)
  {
    if ts != [] {
      TiposParticionam(ts[1..]);
      var e := if ts[0].tipo == Entrada then [ts[0]] else [];
      var s := if ts[0].tipo == Saida then [ts[0]] else [];
      SomaConcat(e, DoTipo(ts[1..], Entrada));
      SomaConcat(s, DoTipo(ts[1..], Saida));
    }
  }

  /**
   * `getResumoMensal` once the month's query has returned: an error or an
   * exception gives zero totals and no transactions; rows give the income
   * total, the expense total, their difference and the rows themselves.
   */
  function GetResumoMensal(consulta: Consulta): (r: ResumoMensal)
    ensures !consulta.Linhas? ==> r == ResumoMensal(0, 0, 0, [])
    ensures consulta.Linhas? ==>
      && r.transacoes == consulta.transacoes
      && r.totalEntradas == Soma(DoTipo(consulta.transacoes, Entrada))
      && r.totalSaidas == Soma(DoTipo(consulta.transacoes, Saida))
    ensures r.saldoFinal == r.totalEntradas - r.totalSaidas
    ensures r.totalEntradas + r.totalSaidas == Soma(r.transacoes)
  {
    match consulta
    case Linhas(ts) =>
      TiposParticionam(ts);
      var totalEntradas := Soma(DoTipo(ts, Entrada));
      var totalSaidas := Soma(DoTipo(ts, Saida));
      ResumoMensal(totalEntradas, totalSaidas, totalEntradas - totalSaidas, ts)
    case _ => ResumoMensal(0, 0, 0, [])
  }

  /** JavaScript's integer quotient for a positive divisor: it truncates toward zero. */
  function JsQuot(a: int, b: int): int
    requires b > 0
  {
    if a >= 0 then a / b else -((-a) / b)
  }

  /**
   * JavaScript's `%` for a positive divisor: the remainder takes the sign of
   * the dividend, and the dividend is the truncated quotient times the divisor
   * plus the remainder, so the remainder is fixed by the dividend.
   */
  function JsRem(a: int, b: int): (r: int)
    requires b > 0
    ensures -b < r < b
    ensures a >= 0 ==> r == a % b
    ensures a < 0 ==> r <= 0
    ensures a == b * JsQuot(a, b) + r
  {
    if a >= 0 then a % b else -((-a) % b)
  }

  /**
   * Why the month is shifted by 12: a month before January leaves a negative
   * JavaScript remainder, which the shift brings back into `0..11`.
   */
  lemma NegativeMonthNeedsShift()
    ensures JsRem(-1, 12) == -1 && JsRem(JsRem(-1, 12) + 12, 12) == 11
    ensures JsRem(-13, 12) == -1
  {
  }

  /** `((mes % 12) + 12) % 12` is the Euclidean remainder, always a month index. */
  lemma MesAjustadoIsEuclidean(mes: int)
    ensures JsRem(JsRem(mes, 12) + 12, 12) == mes % 12
    ensures 0 <= JsRem(JsRem(mes, 12) + 12, 12) < 12
  {
    if mes < 0 {
      var q := (-mes) / 12;
      var m := (-mes) % 12;
      assert -mes == q * 12 + m;
      if m == 0 {
        assert mes == (-q) * 12;
      } else {
        assert mes == (-q - 1) * 12 + (12 - m);
      }
    }
  }

  /**
   * `getHistoricoMensal`: one entry per `i = 0 .. quantidadeMeses - 1`, in that
   * order, each one month before the previous, each carrying that month's
   * income. `consultar` answers the month query; `(mesAtual, anoAtual)` is today;
   * the count defaults to 12 months.
   */
  method GetHistoricoMensal(mesAtual: int, anoAtual: int, consultar: (int, int) -> Consulta, quantidadeMeses: int := 12)
    returns (historico: seq<MesHistorico>)
    requires 0 <= mesAtual < 12
    ensures |historico| == if quantidadeMeses > 0 then quantidadeMeses else 0
    ensures forall i | 0 <= i < |historico| ::
      && 0 <= historico[i].mes < 12
      && historico[i].ano * 12 + historico[i].mes == anoAtual * 12 + mesAtual - i
      && historico[i].totalFaturado == GetResumoMensal(consultar(historico[i].mes, historico[i].ano)).totalEntradas
    ensures forall i | 0 < i < |historico| ::
      historico[i].ano * 12 + historico[i].mes == historico[i - 1].ano * 12 + historico[i - 1].mes - 1
  {
    historico := [];
    var i := 0;
    while i < quantidadeMeses
      invariant 0 <= i <= (if quantidadeMeses > 0 then quantidadeMeses else 0)
      invariant |historico| == i
      invariant forall k | 0 <= k < i ::
        && 0 <= historico[k].mes < 12
        && historico[k].ano * 12 + historico[k].mes == anoAtual * 12 + mesAtual - k
        && historico[k].totalFaturado == GetResumoMensal(consultar(historico[k].mes, historico[k].ano)).totalEntradas
    {
      var mes := mesAtual - i;
      var ano := anoAtual + mes / 12;
      MesAjustadoIsEuclidean(mes);
      var mesAjustado := JsRem(JsRem(mes, 12) + 12, 12);
      assert ano * 12 + mesAjustado == anoAtual * 12 + mes;
      var resumo := GetResumoMensal(consultar(mesAjustado, ano));
      historico := historico + [MesHistorico(mesAjustado, ano, resumo.totalEntradas)];
      i := i + 1;
    }
  }
}
