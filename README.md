# Client dashboard loader: a verified model

`dashboard.py` is a Streamlit dashboard that follows clients' investment and
options portfolios kept in an Excel workbook. Its core is the function
`carregar_dados_excel`. It reads the client list, then walks each client's
sheet to extract two tables:

- the **investments table**, found under a row whose first cell is "CÓDIGO";
- the **options table**, gathered from month blocks. A month block starts at
  a row naming a month ("JANEIRO" … "DEZEMBRO"). Inside it, the options
  table starts at a "SITUAÇÃO" header and spans seven columns.

Three value helpers support the loader:

- the money-text parser `limpar_valor_monetario`;
- the money formatter `formatar_valor_brl`;
- the B3 option-ticker classifier `identificar_tipo_opcao`.

This project models those helpers and the loader in Dafny and proves what
they promise.

The modules are:

- `Wrappers`: `Option` and `Result`.
- `Strings`: the Python string operations the code relies on (`strip`,
  `replace`, `upper`, `capitalize`) and decimal digits.
- `Cells`: a sheet cell as pandas delivers it, `fillna('')`, and the sheet
  grid.
- `Months`: the twelve month names.
- `Money`: `limpar_valor_monetario`, `formatar_valor_brl` over whole cents,
  and the quantity coercion `to_numeric(errors='coerce').round()`.
- `Ticker`: `identificar_tipo_opcao`.
- `Locator`:
  - the investments header;
  - the month marker rows and the blocks they cut the sheet into;
  - the options header inside a block.
- `Tables`: the two tables of one client sheet.
  - `LoadClientSheet` is the imperative loader. It loops over the blocks and
    appends their rows.
  - `MaterializeBlock` reads one block with a row loop.
  - `MaterializeBlock` is proved equal to the specification function
    `BlockTable`, and `LoadClientSheet` to `LoadSheet`.
- `Portfolio`:
  - the per-client loop `LoadPortfolios`, which fills the client map;
  - the overview's total invested (lines 192-195);
  - the call and put quantity sums (lines 292-293).

Three behaviours of the code are easy to misread, and the model follows the
code in each:

- Only investment rows that are blank in all four columns are dropped. A row
  with a blank `Código` and some other value stays.
- Quantities are rounded half to even, as numpy does, not half up.
- Amounts may be negative. The formatter writes the sign after "R$ ".

## Model

| member | source | states |
|---|---|---|
| Strings.StripLeftDropsLeadingSpace | dashboard.py:52 | `lstrip` drops exactly the leading whitespace: the result is a suffix, every dropped character is whitespace, and the first kept one is not |
| Strings.StripRightDropsTrailingSpace | dashboard.py:52 | `rstrip` drops exactly the trailing whitespace: the result is a prefix, every dropped character is whitespace, and the last kept one is not |
| Strings.StripChars | dashboard.py:52 | every character left by `strip` was in the text |
| Strings.CountStrip | dashboard.py:52 | `strip` keeps every occurrence of a non-whitespace character |
| Strings.ReplaceNoOccurrence | dashboard.py:44 | `replace` leaves text in which the pattern occurs nowhere unchanged |
| Strings.ReplacePrefix | dashboard.py:52 | `replace` substitutes a leading occurrence and continues after it |
| Strings.ReplaceCharConcat | dashboard.py:44 | replacing one character distributes over concatenation |
| Strings.CountReplace | dashboard.py:52 | `replace` with a pattern and a replacement that lack a character keeps that character's count |
| Strings.CountReplaceChar | dashboard.py:52 | after `replace(",", ".")` there are as many points as there were commas and points together |
| Strings.CapitalizeOfUpper | dashboard.py:118 | `capitalize` gives the same result on a text and on its upper-case form |
| Strings.Digits | dashboard.py:44 | the decimal rendering of a natural number is a non-empty digit string whose value is that number, with no leading zero ("0" for zero) |
| Months.MonthNamed | dashboard.py:91 | a text is in the month-name list exactly when it is the upper-case name of some month, and then of that month |
| Months.MonthNamedOf | dashboard.py:91 | the twelve names are distinct, so looking a month's own name up in the list gives that month back |
| Months.CapitalizedMarker | dashboard.py:118 | a cell whose upper-case text is a month name is capitalized to that month's title, whatever its case |
| Money.CleanMoney | dashboard.py:46-57 | a number is returned unchanged (NaN stays missing), a non-number non-string gives 0, and the result is missing only for an empty cell |
| Money.CleanMoneyNoDigit | dashboard.py:52-56 | text without an ASCII digit cleans to 0 instead of raising, under the modelled `float` grammar (see Money.CleanMoney under "Left out") |
| Money.CleanMoneyTwoCommas | dashboard.py:52-56 | text with two or more commas ("1,2,3") cleans to 0, because the rewritten numeral has two points |
| Money.ParseFloatNeedsDigit | dashboard.py:54 | the modelled `float` fails on text without an ASCII digit |
| Money.ParseFloatOnePoint | dashboard.py:54 | `float` fails on text with two points |
| Money.FormatBrl | dashboard.py:42-43 | a missing value is formatted as "R$ 0,00" |
| Money.FormatBrlShape | dashboard.py:44 | the three replacements give "R$ ", the sign, the integer part grouped in threes by '.', a ',' and exactly two decimals |
| Money.RewriteRendered | dashboard.py:44-52 | the parser's rewrites turn a formatted amount back into the plain English numeral sign, digits, '.', two decimals |
| Money.ParseNumeral | dashboard.py:54 | `float` reads the English numeral of `c` cents as `c / 100`, negative amounts included |
| Money.FormatThenClean | dashboard.py:40-57 | for every amount with at most two decimals, `limpar_valor_monetario(formatar_valor_brl(x)) == x` |
| Money.RoundHalfEven | dashboard.py:104 | `round()` gives an integer within one half of the value, and the even one on a tie |
| Money.ToQuantity | dashboard.py:104 | a number is rounded half to even; a text gives a quantity exactly when it parses as a number, and then it is that number rounded ("2.5" gives 2, "3.7" gives 4); any other cell is missing |
| Ticker.Classify | dashboard.py:59-71 | a non-string or a text shorter than five is 'N/D'; otherwise the kind is Call exactly when the upper-cased fifth character is A to L, and Put exactly when it is M to X |
| Ticker.ClassifySeriesLetter | dashboard.py:63-64 | a ticker whose fifth character is the B3 series letter of a call or put, in either case, is classified as that kind |
| Ticker.ExpiryNumber | dashboard.py:63-64 | the fifth character of a call or put encodes a month number from 1 to 12 |
| Ticker.SeriesOfClassified | dashboard.py:63-65 | every classified call or put carries the series letter of its kind and its expiry month |
| Ticker.ClassifyUpper | dashboard.py:65 | classifying an upper-cased ticker gives the same kind |
| Ticker.ClassifyLower | dashboard.py:65 | classifying a lower-cased ticker gives the same kind |
| Ticker.ClassifyFifthOnly | dashboard.py:65-71 | two tickers of length at least five that agree on the upper-cased fifth character have the same kind |
| Locator.FirstIndex | dashboard.py:123-125 | `.index[0]` of a mask: the first index that satisfies it, none before it, or none at all when the mask is empty |
| Locator.MarkerRowHasMonthCell | dashboard.py:113 | a row is a month marker exactly when one of its cells names a month |
| Locator.MonthLabelIsTitle | dashboard.py:118 | a block's `Mês` label is the title of the month named by the marker row's first month cell |
| Locator.MarkersBelow | dashboard.py:113 | the marker list is strictly increasing, holds only marker rows, and holds every marker row |
| Locator.LocateMarkers | dashboard.py:113 | the row scan returns exactly the sheet's marker rows in order |
| Locator.BlocksContiguous | dashboard.py:115-116 | each block is non-empty and starts where the previous one ends; the first starts at the first marker, the last ends at the row count |
| Locator.BlocksDisjoint | dashboard.py:115-116 | an earlier block ends before a later one starts |
| Locator.BlocksCover | dashboard.py:115-116 | every row from the first marker on lies in some block |
| Locator.RowsAboveFirstMarker | dashboard.py:113-116 | rows above the first marker lie in no block |
| Locator.NoMarkerInsideBlock | dashboard.py:115-116 | no marker lies strictly inside a block |
| Locator.BlockHasOneMarker | dashboard.py:113-119 | a block starts on a marker row and no later row of it is a marker |
| Locator.SituacaoColumn | dashboard.py:125 | the options table starts at the first cell of the header row that reads "SITUAÇÃO" |
| Tables.SelectComplete | dashboard.py:133 | a boolean-mask selection keeps every accepted row |
| Tables.SelectSound | dashboard.py:133 | every selected entry comes from an accepted row |
| Tables.SelectOrdered | dashboard.py:133 | the selection keeps sheet order around any accepted row |
| Tables.SelectSplit | dashboard.py:133 | selecting from two stretches of rows is selecting from each and concatenating |
| Tables.InvestmentRowsKept | dashboard.py:99-106 | every row after the "CÓDIGO" header that is not blank in columns A to D is in the investments table |
| Tables.InvestmentRowsFromSheet | dashboard.py:99-106 | every investments entry comes from a row after the header that is not blank in columns A to D |
| Tables.NoHeaderNoInvestments | dashboard.py:98-108 | without a "CÓDIGO" row the investments table is empty and the sheet fails only if its options fail |
| Tables.SelectedOptionTagged | dashboard.py:133-145 | every selected options row has a non-empty `Situação`, its block's month and the kind of its ticker |
| Tables.DroppedStatus | dashboard.py:96-133 | after `fillna('')` an options row is dropped exactly when its `Situação` cell was empty or held the empty string |
| Tables.SelectedOptionsExact | dashboard.py:133 | a row is selected exactly when its `Situação` cell is not empty |
| Tables.BlockRowsExact | dashboard.py:123-133 | a block's table holds exactly the rows after its header, up to the block's end, whose `Situação` is not empty |
| Tables.BlockRowsWellFormed | dashboard.py:118-145 | every row a block contributes is well formed and carries the block's marker-row label |
| Tables.GatherSucceeds | dashboard.py:115-141 | the options table is built exactly when every block succeeds |
| Tables.GatherFails | dashboard.py:115-141 | the first failing block decides the error |
| Tables.GatherFailsAfter | dashboard.py:115-141 | a failing block after successful ones fails the whole options table |
| Tables.GatherStep | dashboard.py:138-141 | a successful block's rows are appended after those of the earlier blocks |
| Tables.GatherSound | dashboard.py:141 | every row of the concatenated table is a row of some block |
| Tables.MaterializeBlock | dashboard.py:117-138 | reading a block gives its table: nothing without a header, an error when the header is too close to the right edge, and otherwise the kept rows |
| Tables.LoadClientSheet | dashboard.py:96-145 | processing one sheet gives exactly the specified tables or error |
| Tables.LoadedOptionsWellFormed | dashboard.py:133-145 | every options row of a loaded sheet has a non-empty `Situação`, the kind of its ticker and a month title |
| Tables.NoMarkersNoOptions | dashboard.py:110-141 | a sheet without month markers has an empty options table |
| Tables.MarkerRowIsSearched | dashboard.py:119-123 | the header search includes the marker row itself |
| Tables.SituacaoColumnInFrame | dashboard.py:125 | in a frame whose rows lie within its width, the "SITUAÇÃO" column of a block's header row is a column of the frame |
| Tables.NarrowOptionsHeaderFails | dashboard.py:129-153 | a "SITUAÇÃO" header fewer than seven columns from the right edge, in any block, makes the whole sheet fail |
| Portfolio.ClientEntry | dashboard.py:93-156 | a client without a sheet is marked missing; otherwise it is loaded exactly when its sheet loads; a client that is not loaded gets empty tables |
| Portfolio.LoadPortfolios | dashboard.py:80-156 | an unreadable client list gives an empty map; otherwise every listed client has exactly one entry, which depends only on its own sheet |
| Portfolio.InvestedSumAppend | dashboard.py:193 | the invested sum over two stretches of rows is the sum of their sums |
| Portfolio.FailedClientsAddNothing | dashboard.py:192-195 | the overview total equals the sum over loaded clients only |
| Portfolio.TotalOfLoadedClients | dashboard.py:192-195 | on the loader's map, clients whose sheet is missing or failed add nothing to the total |
| Portfolio.QuantitiesPartition | dashboard.py:292-293 | the call, put and 'N/D' quantity sums make up the total quantity |
| Portfolio.QuantityOfAppend | dashboard.py:292-293 | a kind's quantity sum over two stretches of rows is the sum of its sums |

## Left out

- File I/O, the workbook reader and the `@st.cache_data(ttl=600)` cache are
  not modelled. A client sheet is a given grid of cells, the workbook is a
  map from sheet name to grid, and the client list is given as a
  `seq<string>`. An unreadable 'Clientes' sheet is `None`.
- The 'Clientes' frame that the loader also returns is not modelled. The same
  goes for its `Início do Acompanhamento` date coercion, because pandas date
  parsing is opaque.
- Both reads of a client sheet are assumed to number rows and columns the
  same way. The reader may skip blank rows, and that is not modelled.
- Tables.InvestmentsTable: the second read of columns A to D is assumed to
  deliver the same cell values as the first read. In fact pandas infers a
  type per column in that read, and can turn the text of a column that
  otherwise holds numbers into numbers. Two examples:
  - A `Preço Médio` text "12.5" among numbers reaches the code as 12.5.
    The model cleans `Text("12.5")` to 125.0.
  - A `Código` "00123" becomes 123, while the model keeps the text.
  That per-column type inference is not modelled.
- Cells beyond a short row read as empty (`Cells.CellAt`). Any other way
  pandas might pad a ragged sheet is not modelled.
- Cells.WellFormed: the loader functions accept any grid, including rows
  longer than the frame's width, which pandas never builds. Only
  `Tables.SituacaoColumnInFrame` assumes the rows lie within the width.
- `str()` of a number, a date or a boolean is assumed never to equal
  "CÓDIGO", "SITUAÇÃO" or a month name. That holds for the values pandas
  produces.
- Money.FormatBrl: modelled over whole cents. Binary floating point and the
  `,.2f` rounding of amounts with more than two decimals are not modelled.
- Money.CleanMoney: `float()` is modelled on
  sign? (digits ('.' digits?)? | '.' digits) after whitespace is stripped.
  Exponents, "inf", "nan", digit-group underscores and non-ASCII decimal
  digits (Python reads "１２" as 12.0) parse as failures here, so they
  clean to 0.
- Money.CleanMoney: Python booleans are `int`s and would be returned
  unchanged. Here they are `Other` cells and give 0.
- Money.ToQuantity: `pd.to_numeric` on text is modelled with the same decimal
  grammar, and 64-bit overflow of `astype('Int64')` is not modelled.
- Strings.Upper, Strings.Lower, Strings.Capitalize: case mapping covers ASCII
  letters and ç/Ç only. Other Unicode case pairs are not modelled.
- The empty frames that different failures produce are all the same empty
  table. Column labels of empty frames are not modelled.
- The Streamlit pages, the charts, the month, asset and status filters that
  the dashboard applies before summing quantities, and the other metrics
  are user interface. The quantity sums are modelled over whatever rows
  they are given.
- Option expiry-date computation and writing back to the workbook are not
  part of this model. `dashboard.py` does neither.
