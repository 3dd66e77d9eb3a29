/**
 * The client list's pagination bar: the previous/next handlers, the window of
 * at most five page numbers around the current page, and the guard that hides
 * the bar when there is at most one page.
 */
module ClientesPagination {
  import opened Wrappers

  const MOSTRAR_MAX_PAGINAS: int := 5

  function Max(a: int, b: int): int { if a >= b then a else b }
  function Min(a: int, b: int): int { if a <= b then a else b }

  /** `irParaPaginaAnterior`: the page handed to `onChange`, if any. */
  function IrParaPaginaAnterior(paginaAtual: int): (emitted: Option<int>)
    ensures emitted.Some? <==> paginaAtual > 1
    ensures emitted.Some? ==> emitted.value == paginaAtual - 1
  {
    if paginaAtual > 1 then Some(paginaAtual - 1) else None
  }

  /** `irParaProximaPagina`: the page handed to `onChange`, if any. */
  function IrParaProximaPagina(paginaAtual: int, totalPaginas: int): (emitted: Option<int>)
    ensures emitted.Some? <==> paginaAtual < totalPaginas
    ensures emitted.Some? ==> emitted.value == paginaAtual + 1
  {
    if paginaAtual < totalPaginas then Some(paginaAtual + 1) else None
  }

  /** From a page in range, both buttons can only move to a page in range. */
  lemma NavigationStaysInRange(paginaAtual: int, totalPaginas: int)
    requires 1 <= paginaAtual <= totalPaginas
    ensures var p := IrParaPaginaAnterior(paginaAtual); p.Some? ==> 1 <= p.value <= totalPaginas
    ensures var n := IrParaProximaPagina(paginaAtual, totalPaginas); n.Some? ==> 1 <= n.value <= totalPaginas
  {
  }

  /** The ascending run `inicio, inicio + 1, ..., fim` (empty when `fim < inicio`). */
  predicate IsRun(paginas: seq<int>, inicio: int, fim: int) {
    && |paginas| == Max(0, fim - inicio + 1)
    && forall k | 0 <= k < |paginas| :: paginas[k] == inicio + k
  }

  /**
   * `gerarPaginas`. The window starts two pages before the current one, is cut
   * at the last page, and is moved back to hold five pages when it can.
   */
  method GerarPaginas(paginaAtual: int, totalPaginas: int) returns (paginas: seq<int>)
    ensures forall k | 0 < k < |paginas| :: paginas[k] == paginas[k - 1] + 1
    ensures forall k | 0 <= k < |paginas| :: 1 <= paginas[k] <= totalPaginas
    ensures |paginas| == Min(MOSTRAR_MAX_PAGINAS, Max(0, totalPaginas))
    ensures totalPaginas >= MOSTRAR_MAX_PAGINAS ==> |paginas| == MOSTRAR_MAX_PAGINAS
    ensures 1 <= paginaAtual <= totalPaginas ==> paginaAtual in paginas
    ensures |paginas| > 0 ==> paginas[0] == Max(1, Min(paginaAtual - 2, totalPaginas - MOSTRAR_MAX_PAGINAS + 1))
  {
    paginas := [];
    var inicio := Max(1, paginaAtual - 2);
    var fim := Min(totalPaginas, inicio + MOSTRAR_MAX_PAGINAS - 1);
    if fim - inicio + 1 < MOSTRAR_MAX_PAGINAS {
      inicio := Max(1, fim - MOSTRAR_MAX_PAGINAS + 1);
    }
    assert 1 <= paginaAtual <= totalPaginas ==> inicio <= paginaAtual <= fim;
    var i := inicio;
    while i <= fim
      invariant inicio <= i <= Max(inicio, fim + 1)
      invariant IsRun(paginas, inicio, i - 1)
    {
      paginas := paginas + [i];
      i := i + 1;
    }
    assert IsRun(paginas, inicio, fim);
    if 1 <= paginaAtual <= totalPaginas {
      assert paginas[paginaAtual - inicio] == paginaAtual;
    }
  }

  /** What the bar renders: the page buttons, which one is active, and the arrows' state. */
  datatype PaginationView = PaginationView(
    paginas: seq<int>,
    ativa: seq<bool>,
    anteriorDesabilitado: bool,
    proximoDesabilitado: bool)

  /**
   * The component's output: nothing when `totalPaginas <= 1`; otherwise the
   * window of pages, the current one marked active, and each arrow disabled on
   * the page it cannot leave.
   */
  method Render(paginaAtual: int, totalPaginas: int) returns (view: Option<PaginationView>)
    ensures view.None? <==> totalPaginas <= 1
    ensures view.Some? ==>
      && |view.value.ativa| == |view.value.paginas|
      && (forall k | 0 <= k < |view.value.paginas| :: view.value.ativa[k] <==> view.value.paginas[k] == paginaAtual)
      && (view.value.anteriorDesabilitado <==> paginaAtual == 1)
      && (view.value.proximoDesabilitado <==> paginaAtual == totalPaginas)
    ensures view.Some? ==>
      && |view.value.paginas| == Min(MOSTRAR_MAX_PAGINAS, totalPaginas)
      && (forall k | 0 < k < |view.value.paginas| :: view.value.paginas[k] == view.value.paginas[k - 1] + 1)
      && (forall k | 0 <= k < |view.value.paginas| :: 1 <= view.value.paginas[k] <= totalPaginas)
      && view.value.paginas[0] == Max(1, Min(paginaAtual - 2, totalPaginas - MOSTRAR_MAX_PAGINAS + 1))
    ensures view.Some? && 1 <= paginaAtual <= totalPaginas ==>
      exists k | 0 <= k < |view.value.paginas| :: view.value.ativa[k]
  {
    if totalPaginas <= 1 {
      return None;
    }
    var paginas := GerarPaginas(paginaAtual, totalPaginas);
    var ativa := seq(|paginas|, k requires 0 <= k < |paginas| => paginas[k] == paginaAtual);
    view := Some(PaginationView(paginas, ativa, paginaAtual == 1, paginaAtual == totalPaginas));
    if 1 <= paginaAtual <= totalPaginas {
      var k :| 0 <= k < |paginas| && paginas[k] == paginaAtual;
      assert ativa[k];
    }
  }
}
