/**
 * The client list: the filter over search term, category and plan, the
 * page slice shown, and the handlers that save, delete and re-page clients.
 */
module ClientesList {
  import opened Wrappers
  import opened Text
  import ClientesPagination

  datatype Status = Ativo | Inativo | Pendente

  /** A client record; `plano` and `vencimento` are optional properties. */
  datatype Cliente = Cliente(
    id: string,
    nome: string,
    email: string,
    telefone: string,
    empresa: string,
    status: Status,
    usuario: string,
    senha: string,
    whatsapp: string,
    categoria: string,
    mac: string,
    notasCliente: string,
    enviarNotificacoes: string,
    cpfCnpj: string,
    endereco: string,
    temCpfCnpj: bool,
    temEndereco: bool,
    plano: Option<string>,
    vencimento: Option<string>)

  /** The list the component starts from. */
  const CLIENTES_INICIAIS: seq<Cliente> := [
    Cliente("1", "Isaac", "cloverstreamings@gmail.com", "5585985704035", "Clover", Ativo,
      "isaac", "senha123", "5585985704035", "basic", "", "", "Email", "", "", false, false,
      Some("BÃSICO"), Some("05/03/2025"))
  ]

  const ITENS_POR_PAGINA_INICIAL: nat := 25

  /** Name or email contains the term ignoring case, or the phone contains it as typed. */
  predicate MatchesSearch(c: Cliente, searchTerm: string) {
    || Includes(ToLower(c.nome), ToLower(searchTerm))
    || Includes(ToLower(c.email), ToLower(searchTerm))
    || Includes(c.telefone, searchTerm)
  }

  /** The three conditions of the filter; an empty selection accepts every client. */
  predicate Matches(c: Cliente, searchTerm: string, categoria: string, plano: string)
    ensures searchTerm == "" && categoria == "" && plano == "" ==> Matches(c, searchTerm, categoria, plano)
    ensures Matches(c, searchTerm, categoria, plano) && categoria != "" ==> c.categoria == categoria
    ensures Matches(c, searchTerm, categoria, plano) && plano != "" ==> c.plano == Some(plano)
  {
    && MatchesSearch(c, searchTerm)
    && (categoria == "" || c.categoria == categoria)
    && (plano == "" || c.plano == Some(plano))
  }

  /** `filteredClientes`: the clients that match, in their original order. */
  function FilteredClientes(cs: seq<Cliente>, searchTerm: string, categoria: string, plano: string): (r: seq<Cliente>)
    ensures |r| <= |cs|
    ensures forall c | c in r :: c in cs && Matches(c, searchTerm, categoria, plano)
    ensures forall c | c in cs && Matches(c, searchTerm, categoria, plano) :: c in r
  {
    if cs == [] then []
    else
      (if Matches(cs[0], searchTerm, categoria, plano) then [cs[0]] else [])
      + FilteredClientes(cs[1..], searchTerm, categoria, plano)
  }

  /** Filtering a concatenation filters each part and keeps them in order. */
  lemma {:induction false} FilterConcat(a: seq<Cliente>, b: seq<Cliente>, searchTerm: string, categoria: string, plano: string)
    ensures FilteredClientes(a + b, searchTerm, categoria, plano)
      == FilteredClientes(a, searchTerm, categoria, plano) + FilteredClientes(b, searchTerm, categoria, plano)
  {
    if a != [] {
      assert (a + b)[1..] == a[1..] + b;
      FilterConcat(a[1..], b, searchTerm, categoria, plano);
    } else {
      assert a + b == b;
    }
  }

  /** With an empty search term and no selections every client is kept, in order. */
  lemma {:induction false} EmptyFiltersKeepAll(cs: seq<Cliente>)
    ensures FilteredClientes(cs, "", "", "") == cs
  {
    if cs != [] {
      assert ToLower("") == "";
      assert Includes(ToLower(cs[0].nome), "");
      EmptyFiltersKeepAll(cs[1..]);
    }
  }

  /** `Math.ceil(totalRegistros / itensPorPagina)`: the fewest pages that hold every record. */
  function TotalPaginas(totalRegistros: nat, itensPorPagina: nat): (r: nat)
    requires itensPorPagina >= 1
    ensures totalRegistros <= r * itensPorPagina
    ensures r > 0 ==> (r - 1) * itensPorPagina < totalRegistros
  {
    var q := (totalRegistros + itensPorPagina - 1) / itensPorPagina;
    assert q * itensPorPagina + (totalRegistros + itensPorPagina - 1) % itensPorPagina == totalRegistros + itensPorPagina - 1;
    q
  }

  /** `Array.prototype.slice(inicio, fim)` for non-negative bounds: both are clamped to the length. */
  function Slice<T>(s: seq<T>, inicio: nat, fim: nat): (r: seq<T>)
    ensures inicio <= fim ==> |r| <= fim - inicio
    ensures fim <= inicio || |s| <= inicio ==> r == []
    ensures inicio <= fim <= |s| ==> r == s[inicio..fim]
    ensures inicio <= |s| <= fim ==> r == s[inicio..]
  {
    var a := if inicio <= |s| then inicio else |s|;
    var b := if fim <= |s| then fim else |s|;
    if a < b then s[a..b] else []
  }

  /**
   * `clientesPaginados`: the slice `[(p - 1) * n, p * n)` of the filtered list,
   * empty past its end.
   */
  function ClientesPaginados<T>(filtrados: seq<T>, paginaAtual: nat, itensPorPagina: nat): (page: seq<T>)
    requires paginaAtual >= 1 && itensPorPagina >= 1
    ensures |page| <= itensPorPagina
    ensures (paginaAtual - 1) * itensPorPagina <= |filtrados| ==>
      page == filtrados[(paginaAtual - 1) * itensPorPagina .. ClientesPagination.Min(paginaAtual * itensPorPagina, |filtrados|)]
    ensures (paginaAtual - 1) * itensPorPagina >= |filtrados| ==> page == []
  {
    var indiceFinal := paginaAtual * itensPorPagina;
    var indiceInicial := indiceFinal - itensPorPagina;
    assert indiceInicial == (paginaAtual - 1) * itensPorPagina;
    Slice(filtrados, indiceInicial, indiceFinal)
  }

  /** Pages `1..k`, one after the other. */
  function PaginasAte<T>(filtrados: seq<T>, itensPorPagina: nat, k: nat): seq<T>
    requires itensPorPagina >= 1
  {
    if k == 0 then [] else PaginasAte(filtrados, itensPorPagina, k - 1) + ClientesPaginados(filtrados, k, itensPorPagina)
  }

  /** The first `k` pages together are exactly the first `k * n` filtered clients. */
  lemma {:induction false} PagesPartition<T>(filtrados: seq<T>, itensPorPagina: nat, k: nat)
    requires itensPorPagina >= 1
    ensures PaginasAte(filtrados, itensPorPagina, k) == filtrados[..ClientesPagination.Min(k * itensPorPagina, |filtrados|)]
  {
    if k > 0 {
      PagesPartition(filtrados, itensPorPagina, k - 1);
      var lo := ClientesPagination.Min((k - 1) * itensPorPagina, |filtrados|);
      var hi := ClientesPagination.Min(k * itensPorPagina, |filtrados|);
      assert (k - 1) * itensPorPagina <= k * itensPorPagina;
      if (k - 1) * itensPorPagina <= |filtrados| {
        assert filtrados[..lo] + filtrados[lo..hi] == filtrados[..hi];
      } else {
        assert lo == hi;
      }
    }
  }

  /** All `totalPaginas` pages together are the whole filtered list. */
  lemma AllPagesCoverFiltered<T>(filtrados: seq<T>, itensPorPagina: nat)
    requires itensPorPagina >= 1
    ensures PaginasAte(filtrados, itensPorPagina, TotalPaginas(|filtrados|, itensPorPagina)) == filtrados
  {
    PagesPartition(filtrados, itensPorPagina, TotalPaginas(|filtrados|, itensPorPagina));
  }

  /** `prev.map(c => c.id === cliente.id ? cliente : c)`. */
  function ReplaceById(cs: seq<Cliente>, cliente: Cliente): (r: seq<Cliente>)
    ensures |r| == |cs|
    ensures forall i | 0 <= i < |cs| :: r[i] == (if cs[i].id == cliente.id then cliente else cs[i])
  {
    if cs == [] then []
    else [if cs[0].id == cliente.id then cliente else cs[0]] + ReplaceById(cs[1..], cliente)
  }

  /** The ids of a list, in order. */
  function Ids(cs: seq<Cliente>): (ids: seq<string>)
    ensures |ids| == |cs|
    ensures forall i | 0 <= i < |cs| :: ids[i] == cs[i].id
  {
    seq(|cs|, i requires 0 <= i < |cs| => cs[i].id)
  }

  /** Saving an existing client keeps the list's ids, and saving it twice is saving it once. */
  lemma ReplaceByIdKeepsIds(cs: seq<Cliente>, cliente: Cliente)
    ensures Ids(ReplaceById(cs, cliente)) == Ids(cs)
    ensures ReplaceById(ReplaceById(cs, cliente), cliente) == ReplaceById(cs, cliente)
  {
    assert forall i | 0 <= i < |cs| :: Ids(ReplaceById(cs, cliente))[i] == Ids(cs)[i];
  }

  /** `prev.filter(cliente => cliente.id !== id)`. */
  function RemoveById(cs: seq<Cliente>, id: string): (r: seq<Cliente>)
    ensures |r| <= |cs|
    ensures forall c | c in r :: c in cs && c.id != id
    ensures forall c | c in cs && c.id != id :: c in r
  {
    if cs == [] then []
    else (if cs[0].id != id then [cs[0]] else []) + RemoveById(cs[1..], id)
  }

  /** Deleting from a concatenation deletes from each part and keeps them in order. */
  lemma {:induction false} RemoveConcat(a: seq<Cliente>, b: seq<Cliente>, id: string)
    ensures RemoveById(a + b, id) == RemoveById(a, id) + RemoveById(b, id)
  {
    if a != [] {
      assert (a + b)[1..] == a[1..] + b;
      RemoveConcat(a[1..], b, id);
    } else {
      assert a + b == b;
    }
  }

  /** Deleting an id no client has changes nothing. */
  lemma {:induction false} RemoveAbsentId(cs: seq<Cliente>, id: string)
    requires forall i | 0 <= i < |cs| :: cs[i].id != id
    ensures RemoveById(cs, id) == cs
  {
    if cs != [] {
      RemoveAbsentId(cs[1..], id);
    }
  }

  /** The list component's state. */
  class ClientesListState {
    var searchTerm: string
    var clientesData: seq<Cliente>
    var clienteParaEditar: Option<Cliente>
    var dialogOpen: bool
    var paginaAtual: nat
    var itensPorPagina: nat
    var categoriaSelecionada: string
    var planoSelecionado: string

    /** The current page is at least 1 and a page holds at least one item. */
    ghost predicate Valid()
      reads this
    {
      paginaAtual >= 1 && itensPorPagina >= 1
    }

    constructor ()
      ensures Valid()
      ensures clientesData == CLIENTES_INICIAIS && paginaAtual == 1 && itensPorPagina == ITENS_POR_PAGINA_INICIAL
      ensures searchTerm == categoriaSelecionada == planoSelecionado == ""
      ensures clienteParaEditar.None? && !dialogOpen
    {
      searchTerm := "";
      clientesData := CLIENTES_INICIAIS;
      clienteParaEditar := None;
      dialogOpen := false;
      paginaAtual := 1;
      itensPorPagina := ITENS_POR_PAGINA_INICIAL;
      categoriaSelecionada := "";
      planoSelecionado := "";
    }

    /** The clients the current filters keep. */
    function Filtrados(): seq<Cliente>
      reads this
    {
      FilteredClientes(clientesData, searchTerm, categoriaSelecionada, planoSelecionado)
    }

    /** The clients shown on the current page. */
    function Visiveis(): (page: seq<Cliente>)
      reads this
      requires Valid()
      ensures |page| <= itensPorPagina
      ensures forall c | c in page :: c in clientesData && Matches(c, searchTerm, categoriaSelecionada, planoSelecionado)
    {
      ClientesPaginados(Filtrados(), paginaAtual, itensPorPagina)
    }

    /**
     * `handleSalvarCliente`: a client with an id replaces every entry with that
     * id; one without is prepended with a fresh id. The dialog closes.
     */
    method HandleSalvarCliente(cliente: Cliente, novoId: string)
      requires Valid()
      requires novoId != "" && forall i | 0 <= i < |clientesData| :: clientesData[i].id != novoId
      modifies this`clientesData, this`dialogOpen, this`clienteParaEditar
      ensures Valid()
      ensures cliente.id != "" ==> clientesData == ReplaceById(old(clientesData), cliente)
      ensures cliente.id == "" ==> clientesData == [cliente.(id := novoId)] + old(clientesData)
      ensures !dialogOpen && clienteParaEditar.None?
    {
      if cliente.id != "" {
        clientesData := ReplaceById(clientesData, cliente);
      } else {
        var novoCliente := cliente.(id := novoId);
        clientesData := [novoCliente] + clientesData;
      }
      dialogOpen := false;
      clienteParaEditar := None;
    }

    /** `handleExcluirCliente`: once confirmed, drop exactly the entries with that id. */
    method HandleExcluirCliente(id: string, confirmado: bool)
      modifies this`clientesData
      ensures confirmado ==> clientesData == RemoveById(old(clientesData), id)
      ensures !confirmado ==> clientesData == old(clientesData)
    {
      if confirmado {
        clientesData := RemoveById(clientesData, id);
      }
    }

    /** `handleChangePagina`: the pagination bar only ever emits pages from 1 up. */
    method HandleChangePagina(pagina: nat)
      requires Valid() && pagina >= 1
      modifies this`paginaAtual
      ensures Valid() && paginaAtual == pagina
    {
      paginaAtual := pagina;
    }

    /** `handleChangeItensPorPagina`: new page size, back to page 1. */
    method HandleChangeItensPorPagina(itens: nat)
      requires Valid() && itens >= 1
      modifies this`itensPorPagina, this`paginaAtual
      ensures Valid() && itensPorPagina == itens && paginaAtual == 1
    {
      itensPorPagina := itens;
      paginaAtual := 1;
    }
  }
}
