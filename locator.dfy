/** Where the two kinds of table sit in a client sheet: the investments
    header, the month marker rows, the blocks they cut the sheet into and
    the options header inside each block. */
module Locator {
  import opened Wrappers
  import opened Strings
  import opened Cells
  import opened Months

  const CODIGO: string := "CÓDIGO"
  const SITUACAO: string := "SITUAÇÃO"

  /** The first index in `[lo, hi)` whose element satisfies `p`: the
      `.index[0]` of a boolean mask, `None` where that raises `IndexError`. */
  function FirstIndex<T>(s: seq<T>, p: T -> bool, lo: nat, hi: nat): (r: Option<nat>)
    requires lo <= hi <= |s|
    ensures r.Some? ==> lo <= r.value < hi && p(s[r.value])
    ensures r.Some? ==> forall i :: lo <= i < r.value ==> !p(s[i])
    ensures r.None? ==> forall i :: lo <= i < hi ==> !p(s[i])
    decreases hi - lo
  {
    if lo == hi then None
    else if p(s[lo]) then Some(lo)
    else FirstIndex(s, p, lo + 1, hi)
  }

  // ---------------------------------------------------------------------
  // The investments header.

  /** Column 0 of the row holds exactly "CÓDIGO". */
  predicate IsInvestmentsHeader(row: seq<Cell>) {
    |row| > 0 && row[0] == Text(CODIGO)
  }

  /** The header row of the investments block, if the sheet has one. */
  function InvestmentsHeader(rows: seq<seq<Cell>>): Option<nat> {
    FirstIndex(rows, IsInvestmentsHeader, 0, |rows|)
  }

  // ---------------------------------------------------------------------
  // Month markers.

  /** The month a cell names: its text upper-cased is one of the twelve
      names. Numbers, dates and blanks never name a month. */
  function MonthOf(c: Cell): Option<Month> {
    if c.Text? then MonthNamed(Upper(c.s)) else None
  }

  predicate IsMonthCell(c: Cell) {
    MonthOf(c).Some?
  }

  /** The first column of the row that names a month. */
  function MonthColumn(row: seq<Cell>): Option<nat> {
    FirstIndex(row, IsMonthCell, 0, |row|)
  }

  /** Some cell of the row names a month. */
  predicate IsMarkerRow(row: seq<Cell>) {
    MonthColumn(row).Some?
  }

  /** A row is a marker exactly when one of its cells names a month. */
  lemma MarkerRowHasMonthCell(row: seq<Cell>)
    ensures IsMarkerRow(row) <==> exists j :: 0 <= j < |row| && IsMonthCell(row[j])
  {
    if !IsMarkerRow(row) {
      assert forall j :: 0 <= j < |row| ==> !IsMonthCell(row[j]);
    }
  }

  /** The `Mês` label of a marker row: its first month cell, capitalized. */
  function MonthLabel(row: seq<Cell>): string
    requires IsMarkerRow(row)
  {
    Capitalize(row[MonthColumn(row).value].s)
  }

  /** The label is the title of the month the first month cell names,
      whatever case the cell was written in. */
  lemma MonthLabelIsTitle(row: seq<Cell>)
    requires IsMarkerRow(row)
    ensures MonthLabel(row) == Title(MonthOf(row[MonthColumn(row).value]).value)
  {
    var c := row[MonthColumn(row).value];
    CapitalizedMarker(c.s, MonthOf(c).value);
  }

  predicate StrictlyIncreasing(ms: seq<nat>) {
    forall i, j :: 0 <= i < j < |ms| ==> ms[i] < ms[j]
  }

  /** The marker rows among the first `n` rows, in sheet order. */
  function MarkersBelow(rows: seq<seq<Cell>>, n: nat): (ms: seq<nat>)
    requires n <= |rows|
    ensures StrictlyIncreasing(ms)
    ensures forall i :: 0 <= i < |ms| ==> ms[i] < n && IsMarkerRow(rows[ms[i]])
    ensures forall k :: 0 <= k < n && IsMarkerRow(rows[k]) ==> k in ms
  {
    if n == 0 then []
    else MarkersBelow(rows, n - 1) + (if IsMarkerRow(rows[n - 1]) then [n - 1] else [])
  }

  /** `month_rows_indices`: every marker row of the sheet, in order. */
  function Markers(rows: seq<seq<Cell>>): seq<nat> {
    MarkersBelow(rows, |rows|)
  }

  /** The row scan that collects the marker rows. */
  method LocateMarkers(rows: seq<seq<Cell>>) returns (ms: seq<nat>)
    ensures ms == Markers(rows)
  {
    ms := [];
    var k := 0;
    while k < |rows|
      invariant k <= |rows|
      invariant ms == MarkersBelow(rows, k)
    {
      if IsMarkerRow(rows[k]) {
        ms := ms + [k];
      }
      k := k + 1;
    }
  }

  // ---------------------------------------------------------------------
  // Month blocks.

  /** The half-open row range `[start, end)` of one month's block. */
  datatype Block = Block(start: nat, end: nat)

  /** Block `i` runs from marker `i` up to the next marker, the last one up
      to the row count `n`. */
  function Blocks(ms: seq<nat>, n: nat): seq<Block> {
    seq(|ms|, i requires 0 <= i < |ms| => Block(ms[i], if i + 1 < |ms| then ms[i + 1] else n))
  }

  /** The markers of a sheet with `n` rows. */
  predicate MarkersOf(ms: seq<nat>, n: nat) {
    StrictlyIncreasing(ms) && forall i :: 0 <= i < |ms| ==> ms[i] < n
  }

  /** Each block is non-empty and starts where the previous one ends; the
      first starts at the first marker and the last ends at the row count. */
  lemma BlocksContiguous(ms: seq<nat>, n: nat)
    requires MarkersOf(ms, n)
    ensures var bs := Blocks(ms, n);
      (forall i :: 0 <= i < |bs| ==> bs[i].start < bs[i].end <= n) &&
      (forall i :: 0 <= i < |bs| - 1 ==> bs[i].end == bs[i + 1].start) &&
      (|bs| > 0 ==> bs[0].start == ms[0] && bs[|bs| - 1].end == n)
  {
  }

  /** An earlier block ends before a later one starts. */
  lemma BlocksDisjoint(ms: seq<nat>, n: nat, i: nat, j: nat)
    requires MarkersOf(ms, n) && i < j < |ms|
    ensures Blocks(ms, n)[i].end <= Blocks(ms, n)[j].start
  {
    if i + 1 < j {
      assert ms[i + 1] < ms[j];
    }
  }

  /** Every row from the first marker on lies in some block. */
  lemma {:induction false} BlocksCover(ms: seq<nat>, n: nat, r: nat)
    requires MarkersOf(ms, n) && |ms| > 0 && ms[0] <= r < n
    ensures exists i :: 0 <= i < |ms| && Blocks(ms, n)[i].start <= r < Blocks(ms, n)[i].end
  {
    if |ms| == 1 {
      assert Blocks(ms, n)[0] == Block(ms[0], n);
    } else if r < ms[1] {
      assert Blocks(ms, n)[0] == Block(ms[0], ms[1]);
    } else {
      var tail := ms[1..];
      BlocksCover(tail, n, r);
      var i :| 0 <= i < |tail| && Blocks(tail, n)[i].start <= r < Blocks(tail, n)[i].end;
      assert Blocks(ms, n)[i + 1] == Blocks(tail, n)[i];
    }
  }

  /** Rows above the first marker belong to no block. */
  lemma RowsAboveFirstMarker(ms: seq<nat>, n: nat, r: nat)
    requires MarkersOf(ms, n) && |ms| > 0 && r < ms[0]
    ensures forall i :: 0 <= i < |ms| ==> !(Blocks(ms, n)[i].start <= r < Blocks(ms, n)[i].end)
  {
    forall i | 0 <= i < |ms|
      ensures r < Blocks(ms, n)[i].start
    {
      if i > 0 {
        assert ms[0] < ms[i];
      }
    }
  }

  /** No marker lies strictly inside a block. */
  lemma NoMarkerInsideBlock(ms: seq<nat>, n: nat, i: nat, r: nat)
    requires MarkersOf(ms, n) && i < |ms|
    requires Blocks(ms, n)[i].start < r < Blocks(ms, n)[i].end
    ensures r !in ms
  {
    forall k | 0 <= k < |ms|
      ensures ms[k] != r
    {
      if k <= i {
        assert ms[k] <= ms[i];
      } else if k > i + 1 {
        assert ms[i + 1] < ms[k];
      }
    }
  }

  /** For the sheet's own markers, a block starts on a marker row and no row
      after its first is a marker. */
  lemma BlockHasOneMarker(rows: seq<seq<Cell>>, i: nat, r: nat)
    requires i < |Markers(rows)|
    requires Blocks(Markers(rows), |rows|)[i].start < r < Blocks(Markers(rows), |rows|)[i].end
    ensures IsMarkerRow(rows[Blocks(Markers(rows), |rows|)[i].start])
    ensures !IsMarkerRow(rows[r])
  {
    var ms := Markers(rows);
    NoMarkerInsideBlock(ms, |rows|, i, r);
  }

  // ---------------------------------------------------------------------
  // The options header inside a block.

  predicate IsSituacaoCell(c: Cell) {
    c == Text(SITUACAO)
  }

  /** Some cell of the row reads exactly "SITUAÇÃO". */
  predicate HasSituacao(row: seq<Cell>) {
    exists j :: 0 <= j < |row| && IsSituacaoCell(row[j])
  }

  /** The first row of the block holding a "SITUAÇÃO" cell; the marker row
      itself is searched too. */
  function SituacaoRow(rows: seq<seq<Cell>>, b: Block): Option<nat>
    requires b.start <= b.end <= |rows|
  {
    FirstIndex(rows, HasSituacao, b.start, b.end)
  }

  /** The column of the first "SITUAÇÃO" cell of the row. */
  function SituacaoColumn(row: seq<Cell>): (c: nat)
    requires HasSituacao(row)
    ensures c < |row| && IsSituacaoCell(row[c])
    ensures forall j :: 0 <= j < c ==> !IsSituacaoCell(row[j])
  {
    var r := FirstIndex(row, IsSituacaoCell, 0, |row|);
    assert r.Some?;
    r.value
  }
}
