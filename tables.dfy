/** The two tables `carregar_dados_excel` builds from one client sheet: the
    investments table under the "CÓDIGO" header and the options table
    gathered from the month blocks. */
module Tables {
  import opened Wrappers
  import opened Cells
  import opened Months
  import opened Money
  import opened Ticker
  import opened Locator

  /** One row of the investments table: `Código`, `Quantidade`,
      `Preço Médio`, `Valor Investido`; `None` is a missing value. */
  datatype InvestmentRow = InvestmentRow(
    code: Cell, quantity: Option<int>, averagePrice: Option<real>, invested: Option<real>)

  /** One row of the options table: the seven columns read from the sheet,
      then `Mês` and `Tipo`. */
  datatype OptionRow = OptionRow(
    status: Cell, asset: Cell, ticker: Cell, strike: real, recommendation: Cell,
    quantity: Option<int>, executedPrice: real, month: string, kind: OptionKind)

  datatype Tables = Tables(investments: seq<InvestmentRow>, options: seq<OptionRow>)

  /** The reasons a client sheet cannot be processed: it has no column 0,
      it has a "CÓDIGO" header but fewer than four columns, or a
      "SITUAÇÃO" header (in the given row) fewer than seven columns from
      the right edge. */
  datatype LoadError = NoColumnA | InvestmentsNarrowerThanFour | OptionsNarrowerThanSeven(header: nat)

  // ---------------------------------------------------------------------
  // Selecting rows.

  /** The rows `keep` accepts, each turned into a table row by `build`, in
      sheet order: a boolean-mask selection followed by a conversion. */
  function Select<T>(rows: seq<seq<Cell>>, keep: seq<Cell> -> bool, build: seq<Cell> -> T): seq<T> {
    if |rows| == 0 then []
    else
      var last := rows[|rows| - 1];
      Select(rows[..|rows| - 1], keep, build) + (if keep(last) then [build(last)] else [])
  }

  /** Selecting from one more row appends that row if it is accepted. */
  lemma SelectStep<T>(rows: seq<seq<Cell>>, k: nat, keep: seq<Cell> -> bool, build: seq<Cell> -> T)
    requires k < |rows|
    ensures Select(rows[..k + 1], keep, build)
         == Select(rows[..k], keep, build) + (if keep(rows[k]) then [build(rows[k])] else [])
  {
    assert rows[..k + 1][..k] == rows[..k];
  }

  /** Every accepted row is in the selection. */
  lemma {:induction false} SelectComplete<T>(rows: seq<seq<Cell>>, keep: seq<Cell> -> bool, build: seq<Cell> -> T, r: nat)
    requires r < |rows| && keep(rows[r])
    ensures build(rows[r]) in Select(rows, keep, build)
  {
    if r < |rows| - 1 {
      SelectComplete(rows[..|rows| - 1], keep, build, r);
    }
  }

  /** Every entry of the selection is built from an accepted row. */
  lemma {:induction false} SelectSound<T>(rows: seq<seq<Cell>>, keep: seq<Cell> -> bool, build: seq<Cell> -> T, i: nat)
    requires i < |Select(rows, keep, build)|
    ensures exists r :: 0 <= r < |rows| && keep(rows[r]) && Select(rows, keep, build)[i] == build(rows[r])
  {
    var init := rows[..|rows| - 1];
    var prev := Select(init, keep, build);
    var r: nat;
    if i < |prev| {
      SelectSound(init, keep, build, i);
      r :| 0 <= r < |init| && keep(init[r]) && prev[i] == build(init[r]);
    } else {
      r := |rows| - 1;
    }
    assert keep(rows[r]) && Select(rows, keep, build)[i] == build(rows[r]);
  }

  /** Selection keeps the sheet order: two rows that are both accepted
      appear in the order they have in the sheet. */
  lemma {:induction false} SelectOrdered<T>(rows: seq<seq<Cell>>, keep: seq<Cell> -> bool, build: seq<Cell> -> T, r: nat)
    requires r < |rows| && keep(rows[r])
    ensures Select(rows, keep, build) == Select(rows[..r], keep, build) + [build(rows[r])] + Select(rows[r + 1..], keep, build)
  {
    SelectSplit(rows, r, keep, build);
    SelectSplit(rows[r..], 1, keep, build);
    assert rows[r..][..1] == [rows[r]];
    assert rows[r..][1..] == rows[r + 1..];
    assert Select([rows[r]], keep, build) == [build(rows[r])] by {
      assert [rows[r]][..0] == [];
    }
  }

  /** Selecting from two stretches of rows is selecting from each. */
  lemma {:induction false} SelectSplit<T>(rows: seq<seq<Cell>>, k: nat, keep: seq<Cell> -> bool, build: seq<Cell> -> T)
    requires k <= |rows|
    ensures Select(rows, keep, build) == Select(rows[..k], keep, build) + Select(rows[k..], keep, build)
    decreases |rows|
  {
    if |rows| == k {
      assert rows[..k] == rows;
      assert rows[k..] == [];
    } else {
      var init := rows[..|rows| - 1];
      SelectSplit(init, k, keep, build);
      assert init[..k] == rows[..k];
      assert rows[k..][..|rows[k..]| - 1] == init[k..];
    }
  }

  // ---------------------------------------------------------------------
  // The investments table.

  /** All four cells of columns A to D are empty. */
  predicate BlankRow(row: seq<Cell>) {
    CellAt(row, 0) == Blank && CellAt(row, 1) == Blank && CellAt(row, 2) == Blank && CellAt(row, 3) == Blank
  }

  /** `dropna(how='all')` keeps the row. */
  predicate NotBlank(row: seq<Cell>) {
    !BlankRow(row)
  }

  /** Columns A to D of a sheet row, read without filling empty cells:
      the quantity is coerced and rounded, the two amounts cleaned. */
  function InvestmentOf(row: seq<Cell>): InvestmentRow {
    InvestmentRow(CellAt(row, 0), ToQuantity(CellAt(row, 1)), CleanMoney(CellAt(row, 2)), CleanMoney(CellAt(row, 3)))
  }

  /** The investments table: empty when no row starts with "CÓDIGO",
      an error when the sheet is narrower than four columns, otherwise
      every later row that is not blank in all four columns. */
  function InvestmentsTable(g: Grid): Result<seq<InvestmentRow>, LoadError> {
    match InvestmentsHeader(g.rows)
    case None => Ok([])
    case Some(h) =>
      if g.width < 4 then Err(InvestmentsNarrowerThanFour)
      else Ok(Select(g.rows[h + 1..], NotBlank, InvestmentOf))
  }

  // ---------------------------------------------------------------------
  // The options table.

  /** The row's `Situação` cell, at column `c`, is not empty once filled. */
  function KeepStatus(c: nat): seq<Cell> -> bool {
    row => FillNa(CellAt(row, c)) != Text("")
  }

  /** The seven cells from column `c` of a filled sheet row as an options
      row of month `tag`: strike and executed price cleaned, quantity
      coerced and rounded, kind read off the ticker. */
  function OptionOf(row: seq<Cell>, c: nat, tag: string): OptionRow {
    var cell := (j: nat) => FillNa(CellAt(row, c + j));
    OptionRow(cell(0), cell(1), cell(2), MoneyOf(cell(3)), cell(4),
              ToQuantity(cell(5)), MoneyOf(cell(6)), tag, Classify(cell(2)))
  }

  function OptionAt(c: nat, tag: string): seq<Cell> -> OptionRow {
    row => OptionOf(row, c, tag)
  }

  /** One block's contribution: nothing without a "SITUAÇÃO" header;
      an error when the header sits fewer than seven columns from the
      right edge; otherwise the rows below the header, up to the block's
      end, whose `Situação` is not empty. */
  function BlockTable(g: Grid, b: Block, tag: string): Result<seq<OptionRow>, LoadError>
    requires b.start <= b.end <= |g.rows|
  {
    match SituacaoRow(g.rows, b)
    case None => Ok([])
    case Some(h) =>
      var c := SituacaoColumn(g.rows[h]);
      if c + 7 > g.width then Err(OptionsNarrowerThanSeven(h))
      else Ok(Select(g.rows[h + 1..b.end], KeepStatus(c), OptionAt(c, tag)))
  }

  /** The `i`-th month block of the sheet. */
  function BlockAt(g: Grid, i: nat): (b: Block)
    requires i < |Markers(g.rows)|
    ensures b.start < b.end <= |g.rows| && IsMarkerRow(g.rows[b.start])
  {
    var ms := Markers(g.rows);
    BlocksContiguous(ms, |g.rows|);
    Blocks(ms, |g.rows|)[i]
  }

  /** The `i`-th block's rows, tagged with its marker row's month. */
  function BlockResult(g: Grid, i: nat): Result<seq<OptionRow>, LoadError>
    requires i < |Markers(g.rows)|
  {
    var b := BlockAt(g, i);
    BlockTable(g, b, MonthLabel(g.rows[b.start]))
  }

  /** The results of all the sheet's blocks, in sheet order. */
  function BlockResults(g: Grid): seq<Result<seq<OptionRow>, LoadError>> {
    seq(|Markers(g.rows)|, i requires 0 <= i < |Markers(g.rows)| => BlockResult(g, i))
  }

  /** The blocks' rows concatenated in sheet order (`pd.concat`), or the
      first error among them. */
  function Gather(rs: seq<Result<seq<OptionRow>, LoadError>>): Result<seq<OptionRow>, LoadError> {
    if |rs| == 0 then Ok([])
    else
      var prev := Gather(rs[..|rs| - 1]);
      if prev.Err? then prev
      else
        match rs[|rs| - 1]
        case Err(e) => Err(e)
        case Ok(t) => Ok(prev.value + t)
  }

  /** The options table of the whole sheet. */
  function OptionsTable(g: Grid): Result<seq<OptionRow>, LoadError> {
    Gather(BlockResults(g))
  }

  /** One client sheet: both tables, or the error that makes the client
      fall back to empty tables. */
  function LoadSheet(g: Grid): Result<Tables, LoadError> {
    if g.width == 0 then Err(NoColumnA)
    else
      match InvestmentsTable(g)
      case Err(e) => Err(e)
      case Ok(investments) =>
        match OptionsTable(g)
        case Err(e) => Err(e)
        case Ok(options) => Ok(Tables(investments, options))
  }

  // ---------------------------------------------------------------------
  // Gathering the blocks.

  /** Gathering succeeds exactly when every block succeeds. */
  lemma {:induction false} GatherSucceeds(rs: seq<Result<seq<OptionRow>, LoadError>>)
    ensures Gather(rs).Ok? <==> forall i :: 0 <= i < |rs| ==> rs[i].Ok?
  {
    if |rs| > 0 {
      var init := rs[..|rs| - 1];
      GatherSucceeds(init);
      assert forall i :: 0 <= i < |init| ==> init[i] == rs[i];
    }
  }

  /** When block `i` is the first to fail, gathering fails with its error. */
  lemma {:induction false} GatherFails(rs: seq<Result<seq<OptionRow>, LoadError>>, i: nat)
    requires i < |rs| && rs[i].Err? && forall k :: 0 <= k < i ==> rs[k].Ok?
    ensures Gather(rs) == rs[i]
  {
    var init := rs[..|rs| - 1];
    if i == |rs| - 1 {
      GatherSucceeds(init);
    } else {
      GatherFails(init, i);
    }
  }

  /** A failing block after successful ones decides the gathered result. */
  lemma GatherFailsAfter(rs: seq<Result<seq<OptionRow>, LoadError>>, i: nat)
    requires i < |rs| && Gather(rs[..i]).Ok? && rs[i].Err?
    ensures Gather(rs) == rs[i]
  {
    GatherSucceeds(rs[..i]);
    assert forall k :: 0 <= k < i ==> rs[..i][k] == rs[k];
    GatherFails(rs, i);
  }

  /** Gathering one more successful block appends its rows. */
  lemma GatherStep(rs: seq<Result<seq<OptionRow>, LoadError>>, i: nat)
    requires i < |rs| && Gather(rs[..i]).Ok? && rs[i].Ok?
    ensures Gather(rs[..i + 1]) == Ok(Gather(rs[..i]).value + rs[i].value)
  {
    assert rs[..i + 1][..i] == rs[..i];
  }

  /** Every gathered row is a row of some block. */
  lemma {:induction false} GatherSound(rs: seq<Result<seq<OptionRow>, LoadError>>, j: nat)
    requires Gather(rs).Ok? && j < |Gather(rs).value|
    ensures exists i, k :: 0 <= i < |rs| && rs[i].Ok? && 0 <= k < |rs[i].value| && Gather(rs).value[j] == rs[i].value[k]
  {
    var init := rs[..|rs| - 1];
    var prev := Gather(init).value;
    if j < |prev| {
      GatherSound(init, j);
      var i, k :| 0 <= i < |init| && init[i].Ok? && 0 <= k < |init[i].value| && prev[j] == init[i].value[k];
      assert rs[i] == init[i];
    } else {
      assert Gather(rs).value[j] == rs[|rs| - 1].value[j - |prev|];
    }
  }

  // ---------------------------------------------------------------------
  // The loader.

  /** Reads the rows under a block's "SITUAÇÃO" header. */
  method MaterializeBlock(g: Grid, b: Block, tag: string) returns (r: Result<seq<OptionRow>, LoadError>)
    requires b.start <= b.end <= |g.rows|
    ensures r == BlockTable(g, b, tag)
  {
    var header := SituacaoRow(g.rows, b);
    if header.None? {
      return Ok([]);
    }
    var h := header.value;
    var c := SituacaoColumn(g.rows[h]);
    if c + 7 > g.width {
      return Err(OptionsNarrowerThanSeven(h));
    }
    var below := g.rows[h + 1..b.end];
    var rows: seq<OptionRow> := [];
    var k := 0;
    while k < |below|
      invariant k <= |below|
      invariant rows == Select(below[..k], KeepStatus(c), OptionAt(c, tag))
    {
      SelectStep(below, k, KeepStatus(c), OptionAt(c, tag));
      if FillNa(CellAt(below[k], c)) != Text("") {
        rows := rows + [OptionOf(below[k], c, tag)];
      }
      k := k + 1;
    }
    assert below[..k] == below;
    return Ok(rows);
  }

  /** Processes one client sheet: the investments table, then the month
      blocks in order, stopping at the first error. */
  method LoadClientSheet(g: Grid) returns (r: Result<Tables, LoadError>)
    ensures r == LoadSheet(g)
  {
    if g.width == 0 {
      return Err(NoColumnA);
    }
    var investments := InvestmentsTable(g);
    if investments.Err? {
      return Err(investments.error);
    }
    var ms := LocateMarkers(g.rows);
    ghost var rs := BlockResults(g);
    var options: seq<OptionRow> := [];
    var i := 0;
    while i < |ms|
      invariant i <= |ms| == |rs|
      invariant Gather(rs[..i]) == Ok(options)
    {
      var b := BlockAt(g, i);
      var block := MaterializeBlock(g, b, MonthLabel(g.rows[b.start]));
      assert block == rs[i];
      if block.Err? {
        GatherFailsAfter(rs, i);
        return Err(block.error);
      }
      GatherStep(rs, i);
      options := options + block.value;
      i := i + 1;
    }
    assert rs[..i] == rs;
    return Ok(Tables(investments.value, options));
  }

  // ---------------------------------------------------------------------
  // Properties of the tables.

  /** A month tag: the title of one of the twelve months. */
  predicate IsTitle(s: string) {
    exists m :: Title(m) == s
  }

  /** What every options row carries: a non-empty `Situação`, the kind
      its ticker gives and a month title. */
  predicate WellFormedOption(o: OptionRow) {
    o.status != Text("") && o.kind == Classify(o.ticker) && IsTitle(o.month)
  }

  /** Every selected options row has a non-empty `Situação`, the month
      it was tagged with and the kind its ticker gives. */
  lemma SelectedOptionTagged(rows: seq<seq<Cell>>, c: nat, tag: string, j: nat)
    requires j < |Select(rows, KeepStatus(c), OptionAt(c, tag))|
    ensures var o := Select(rows, KeepStatus(c), OptionAt(c, tag))[j];
      o.status != Text("") && o.month == tag && o.kind == Classify(o.ticker)
  {
    SelectSound(rows, KeepStatus(c), OptionAt(c, tag), j);
  }

  /** A row is selected exactly when its `Situação` is not empty. */
  lemma SelectedOptionsExact(rows: seq<seq<Cell>>, c: nat, tag: string, r: nat)
    requires r < |rows|
    ensures FillNa(CellAt(rows[r], c)) != Text("") <==> OptionOf(rows[r], c, tag) in Select(rows, KeepStatus(c), OptionAt(c, tag))
  {
    var t := Select(rows, KeepStatus(c), OptionAt(c, tag));
    var o := OptionOf(rows[r], c, tag);
    if FillNa(CellAt(rows[r], c)) != Text("") {
      SelectComplete(rows, KeepStatus(c), OptionAt(c, tag), r);
    } else {
      OptionStatus(rows[r], c, tag);
      forall j | 0 <= j < |t|
        ensures t[j] != o
      {
        SelectedOptionTagged(rows, c, tag, j);
      }
    }
  }

  /** Once the sheet is filled with `fillna('')`, a row is dropped exactly
      when its `Situação` cell was empty or held the empty string. */
  lemma DroppedStatus(row: seq<Cell>, c: nat)
    ensures !KeepStatus(c)(row) <==> CellAt(row, c) == Blank || CellAt(row, c) == Text("")
  {
  }

  /** In a frame pandas builds, the "SITUAÇÃO" column found in a block's
      header row lies inside the frame. */
  lemma SituacaoColumnInFrame(g: Grid, b: Block, h: nat)
    requires WellFormed(g) && b.start <= b.end <= |g.rows|
    requires SituacaoRow(g.rows, b) == Some(h)
    ensures SituacaoColumn(g.rows[h]) < g.width
  {
    assert h < |g.rows|;
  }

  /** An options row's `Situação` is the filled cell at its first column. */
  lemma OptionStatus(row: seq<Cell>, c: nat, tag: string)
    ensures OptionOf(row, c, tag).status == FillNa(CellAt(row, c))
  {
  }

  /** A block's rows are exactly the rows below its header whose
      `Situação` is not empty, each tagged with the block's month. */
  lemma BlockRowsExact(g: Grid, b: Block, tag: string, h: nat, r: nat)
    requires b.start <= b.end <= |g.rows| && SituacaoRow(g.rows, b) == Some(h)
    requires BlockTable(g, b, tag).Ok? && h < r < b.end
    ensures var c := SituacaoColumn(g.rows[h]);
      FillNa(CellAt(g.rows[r], c)) != Text("") <==> OptionOf(g.rows[r], c, tag) in BlockTable(g, b, tag).value
  {
    var rows := g.rows[h + 1..b.end];
    var c := SituacaoColumn(g.rows[h]);
    assert BlockTable(g, b, tag) == Ok(Select(rows, KeepStatus(c), OptionAt(c, tag)));
    assert rows[r - h - 1] == g.rows[r];
    SelectedOptionsExact(rows, c, tag, r - h - 1);
  }

  /** Every row a block contributes is well formed and carries the
      block's month. */
  lemma BlockRowsWellFormed(g: Grid, i: nat, j: nat)
    requires i < |Markers(g.rows)| && BlockResult(g, i).Ok? && j < |BlockResult(g, i).value|
    ensures WellFormedOption(BlockResult(g, i).value[j])
    ensures BlockResult(g, i).value[j].month == MonthLabel(g.rows[BlockAt(g, i).start])
  {
    var b := BlockAt(g, i);
    var row := g.rows[b.start];
    var tag := MonthLabel(row);
    var h := SituacaoRow(g.rows, b).value;
    var c := SituacaoColumn(g.rows[h]);
    var t := Select(g.rows[h + 1..b.end], KeepStatus(c), OptionAt(c, tag));
    assert BlockResult(g, i) == Ok(t);
    SelectedOptionTagged(g.rows[h + 1..b.end], c, tag, j);
    MonthLabelIsTitle(row);
    assert Title(MonthOf(row[MonthColumn(row).value]).value) == t[j].month;
  }

  /** Every options row of a loaded sheet is well formed. */
  lemma LoadedOptionsWellFormed(g: Grid)
    requires LoadSheet(g).Ok?
    ensures forall o :: o in LoadSheet(g).value.options ==> WellFormedOption(o)
  {
    var options := LoadSheet(g).value.options;
    assert OptionsTable(g) == Ok(options);
    forall j | 0 <= j < |options|
      ensures WellFormedOption(options[j])
    {
      OptionRowWellFormed(g, j);
    }
  }

  /** The `j`-th row of a sheet's options table is well formed. */
  lemma OptionRowWellFormed(g: Grid, j: nat)
    requires OptionsTable(g).Ok? && j < |OptionsTable(g).value|
    ensures WellFormedOption(OptionsTable(g).value[j])
  {
    var rs := BlockResults(g);
    GatherSound(rs, j);
    var i, k :| 0 <= i < |rs| && rs[i].Ok? && 0 <= k < |rs[i].value| && OptionsTable(g).value[j] == rs[i].value[k];
    assert rs[i] == BlockResult(g, i);
    BlockRowsWellFormed(g, i, k);
  }

  /** Every row after the header that is not blank in all four columns is
      kept in the investments table; `InvestmentRowsFromSheet` is the
      converse. */
  lemma InvestmentRowsKept(g: Grid, h: nat, r: nat)
    requires InvestmentsHeader(g.rows) == Some(h) && g.width >= 4 && h < r < |g.rows|
    ensures !BlankRow(g.rows[r]) ==> InvestmentOf(g.rows[r]) in InvestmentsTable(g).value
  {
    var rows := g.rows[h + 1..];
    assert rows[r - h - 1] == g.rows[r];
    if !BlankRow(g.rows[r]) {
      SelectComplete(rows, NotBlank, InvestmentOf, r - h - 1);
    }
  }

  /** No investments row is blank in all four columns: each comes from a
      row after the header. */
  lemma InvestmentRowsFromSheet(g: Grid, h: nat, i: nat)
    requires InvestmentsHeader(g.rows) == Some(h) && g.width >= 4 && i < |InvestmentsTable(g).value|
    ensures exists r :: h < r < |g.rows| && !BlankRow(g.rows[r]) && InvestmentsTable(g).value[i] == InvestmentOf(g.rows[r])
  {
    var rows := g.rows[h + 1..];
    SelectSound(rows, NotBlank, InvestmentOf, i);
    var k :| 0 <= k < |rows| && NotBlank(rows[k]) && InvestmentsTable(g).value[i] == InvestmentOf(rows[k]);
    assert rows[k] == g.rows[h + 1 + k];
  }

  /** A sheet without a "CÓDIGO" row has an empty investments table and
      fails, if at all, only on its options. */
  lemma NoHeaderNoInvestments(g: Grid)
    requires g.width > 0 && InvestmentsHeader(g.rows).None?
    ensures LoadSheet(g).Ok? <==> OptionsTable(g).Ok?
    ensures LoadSheet(g).Ok? ==> LoadSheet(g).value.investments == []
  {
  }

  /** A sheet without month markers has an empty options table. */
  lemma NoMarkersNoOptions(g: Grid)
    requires Markers(g.rows) == []
    ensures OptionsTable(g) == Ok([])
  {
  }

  /** The options header search starts at the marker row itself. */
  lemma MarkerRowIsSearched(g: Grid, i: nat)
    requires i < |Markers(g.rows)|
    requires HasSituacao(g.rows[BlockAt(g, i).start])
    ensures SituacaoRow(g.rows, BlockAt(g, i)) == Some(BlockAt(g, i).start)
  {
  }

  /** A "SITUAÇÃO" header fewer than seven columns from the right edge, in
      any block, makes the whole sheet fail. */
  lemma NarrowOptionsHeaderFails(g: Grid, i: nat)
    requires i < |Markers(g.rows)|
    requires SituacaoRow(g.rows, BlockAt(g, i)).Some?
    requires SituacaoColumn(g.rows[SituacaoRow(g.rows, BlockAt(g, i)).value]) + 7 > g.width
    ensures LoadSheet(g).Err?
  {
    var rs := BlockResults(g);
    assert rs[i].Err?;
    GatherSucceeds(rs);
  }
}
