/** The per-client loop of `carregar_dados_excel` and the sums the
    dashboard draws from its result. */
module Portfolio {
  import opened Wrappers
  import opened Cells
  import opened Ticker
  import opened Tables

  /** How a client's entry came about: both tables read, no sheet of that
      name in the workbook, or a sheet whose processing failed. */
  datatype Status = Loaded | SheetMissing | Unreadable(error: LoadError)

  /** One entry of `dados_completos_clientes`. */
  datatype ClientData = ClientData(status: Status, tables: Tables)

  /** The empty `investimentos` and `opcoes` frames a failing client gets. */
  const NoTables: Tables := Tables([], [])

  /** The entry the loop stores for `name`. */
  function ClientEntry(name: string, sheets: map<string, Grid>): (d: ClientData)
    ensures d.status == SheetMissing <==> name !in sheets
    ensures name in sheets ==> (d.status == Loaded <==> LoadSheet(sheets[name]).Ok?)
    ensures d.status == Loaded ==> d.tables == LoadSheet(sheets[name]).value
    ensures d.status != Loaded ==> d.tables == NoTables
  {
    if name !in sheets then ClientData(SheetMissing, NoTables)
    else
      match LoadSheet(sheets[name])
      case Ok(t) => ClientData(Loaded, t)
      case Err(e) => ClientData(Unreadable(e), NoTables)
  }

  /** Builds the map from client name to tables. `names` is the `Nome`
      column of the 'Clientes' sheet, or `None` when that sheet cannot be
      read; `sheets` holds the workbook's sheets by name. Every listed
      client gets an entry that depends on its own sheet only. */
  method LoadPortfolios(names: Option<seq<string>>, sheets: map<string, Grid>)
    returns (data: map<string, ClientData>)
    ensures names.None? ==> data == map[]
    ensures names.Some? ==> data.Keys == set n | n in names.value
    ensures forall n :: n in data ==> data[n] == ClientEntry(n, sheets)
  {
    data := map[];
    if names.None? {
      return;
    }
    var ns := names.value;
    var i := 0;
    while i < |ns|
      invariant i <= |ns|
      invariant data.Keys == set k | 0 <= k < i :: ns[k]
      invariant forall n :: n in data ==> data[n] == ClientEntry(n, sheets)
    {
      var name := ns[i];
      var entry: ClientData;
      if name in sheets {
        var r := LoadClientSheet(sheets[name]);
        if r.Ok? {
          entry := ClientData(Loaded, r.value);
        } else {
          entry := ClientData(Unreadable(r.error), NoTables);
        }
      } else {
        entry := ClientData(SheetMissing, NoTables);
      }
      data := data[name := entry];
      i := i + 1;
    }
    assert forall n :: n in ns ==> exists k :: 0 <= k < |ns| && ns[k] == n;
  }

  // ---------------------------------------------------------------------
  // Total invested.

  /** `Valor Investido.sum()`: missing values are skipped. */
  function InvestedSum(rows: seq<InvestmentRow>): real {
    if |rows| == 0 then 0.0
    else InvestedSum(rows[..|rows| - 1]) + rows[|rows| - 1].invested.GetOr(0.0)
  }

  /** The sum over two stretches of rows is the sum of their sums. */
  lemma {:induction false} InvestedSumAppend(a: seq<InvestmentRow>, b: seq<InvestmentRow>)
    ensures InvestedSum(a + b) == InvestedSum(a) + InvestedSum(b)
    decreases |b|
  {
    if |b| > 0 {
      var b' := b[..|b| - 1];
      assert (a + b)[..|a + b| - 1] == a + b';
      InvestedSumAppend(a, b');
    } else {
      assert a + b == a;
    }
  }

  /** The overview's total: the investments sums of the listed clients
      that have an entry with a non-empty investments table, a client
      listed twice counting twice. */
  function TotalEquity(names: seq<string>, data: map<string, ClientData>): real {
    if |names| == 0 then 0.0
    else
      var n := names[|names| - 1];
      TotalEquity(names[..|names| - 1], data) +
      (if n in data && data[n].tables.investments != [] then InvestedSum(data[n].tables.investments) else 0.0)
  }

  /** The same total taken over the loaded clients only, with no test for
      emptiness. */
  function LoadedEquity(names: seq<string>, data: map<string, ClientData>): real {
    if |names| == 0 then 0.0
    else
      var n := names[|names| - 1];
      LoadedEquity(names[..|names| - 1], data) +
      (if n in data && data[n].status == Loaded then InvestedSum(data[n].tables.investments) else 0.0)
  }

  /** Clients whose sheet is missing or failed add nothing to the total:
      it is the sum over the loaded clients. */
  lemma {:induction false} FailedClientsAddNothing(names: seq<string>, data: map<string, ClientData>)
    requires forall n :: n in data && data[n].status != Loaded ==> data[n].tables == NoTables
    ensures TotalEquity(names, data) == LoadedEquity(names, data)
  {
    if |names| > 0 {
      FailedClientsAddNothing(names[..|names| - 1], data);
      var n := names[|names| - 1];
      if n in data && data[n].status == Loaded && data[n].tables.investments == [] {
        assert InvestedSum(data[n].tables.investments) == 0.0;
      }
    }
  }

  /** On the map the loader builds, the overview's total counts the loaded
      clients only. */
  lemma TotalOfLoadedClients(names: seq<string>, sheets: map<string, Grid>, data: map<string, ClientData>)
    requires forall n :: n in data ==> data[n] == ClientEntry(n, sheets)
    ensures TotalEquity(names, data) == LoadedEquity(names, data)
  {
    FailedClientsAddNothing(names, data);
  }

  // ---------------------------------------------------------------------
  // Quantities of calls and puts.

  /** `df[df['Tipo'] == k]['Quantidade'].sum()`: the quantities of the rows
      of kind `k`, missing quantities skipped. */
  function QuantityOf(rows: seq<OptionRow>, k: OptionKind): int {
    if |rows| == 0 then 0
    else
      var o := rows[|rows| - 1];
      QuantityOf(rows[..|rows| - 1], k) + (if o.kind == k then o.quantity.GetOr(0) else 0)
  }

  /** All the rows' quantities, missing ones skipped. */
  function TotalQuantity(rows: seq<OptionRow>): int {
    if |rows| == 0 then 0
    else TotalQuantity(rows[..|rows| - 1]) + rows[|rows| - 1].quantity.GetOr(0)
  }

  /** Each row is a call, a put or neither, so the three sums make up the
      total quantity. */
  lemma {:induction false} QuantitiesPartition(rows: seq<OptionRow>)
    ensures QuantityOf(rows, Call) + QuantityOf(rows, Put) + QuantityOf(rows, Unknown) == TotalQuantity(rows)
  {
    if |rows| > 0 {
      QuantitiesPartition(rows[..|rows| - 1]);
    }
  }

  /** The sum of a kind over two stretches of rows is the sum of its sums. */
  lemma {:induction false} QuantityOfAppend(a: seq<OptionRow>, b: seq<OptionRow>, k: OptionKind)
    ensures QuantityOf(a + b, k) == QuantityOf(a, k) + QuantityOf(b, k)
    decreases |b|
  {
    if |b| > 0 {
      var b' := b[..|b| - 1];
      assert (a + b)[..|a + b| - 1] == a + b';
      QuantityOfAppend(a, b', k);
    } else {
      assert a + b == a;
    }
  }
}
