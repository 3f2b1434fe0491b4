# Order extraction and box packaging, modelled in Dafny

Three scripts read the text lines of an order document, exported from a PDF.
They are tags_clean.py, tags_clean2.py and tags_excel.py. Each one recovers:

- the client;
- the order number (`pedido`);
- the product rows;
- in the first two scripts, one output record per shipping box, from a capacity table (`base_quantities.xlsx`).

This project models that core and proves properties of it:

- the regular expressions as hand-written recognisers over `seq<char>`;
- Python's `re.search`, `str.strip`, `str.zfill`, `str.split()[0]`, `float()`, `//` and `%`, as functions;
- the scripts' loops as methods with `while` loops, each proved equal to a specification function.

Modules:

- `Results`: `Option` and `Result`.
- `Text`: character classes (ASCII `\d`, `\s`, `[A-Z]`), greedy runs, `re.search` as the leftmost matching position, `strip`, `zfill`, decimal digits, the first token, comma-to-dot replacement and string order.
- `Quantity`: `int(float(q))` on decimal text. A text that is not a float literal makes the conversion fail.
- `Metadata`: the `Cliente:` recogniser and the two `pedido nº:` recognisers. It also holds the last-match-wins variable, the candidate set, and the header loop `ScanHeader` shared by all three scripts.
- `Layouts`: the row layouts. They are the ledger row of tags_clean.py, the romaneio and unit rows of tags_clean2.py, and the romaneio and GRAMPO orcamento rows of tags_excel.py. The lazy description group is modelled with the backtracking of the `\s+` in front of it.
- `Extraction`: pages of lines, the conversion of a recognised row into a product, and the row loops.
- `Packaging`: `gerar_pacotes` and its tags_clean2.py twin, with Python's floor division.
- `CapacityTable`: the column checks, key padding and the dictionary built from the sheet.
- `Descriptions`: `parse_description` of tags_excel.py.
- `TagsClean`, `TagsClean2`, `TagsExcel`: each script from top to bottom.

Reading files, the clock, the PDF library and the spreadsheet library are replaced by parameters:

- a document is a sequence of `Page(number, lines)`;
- the capacity sheet is a `Sheet(columns, entries)`.

Errors that end a run are values of `RunError`:

- a quantity `float()` refuses;
- a missing column;
- a capacity of 0, which makes `//` raise.

Where the design intent and the code disagree, the model follows the code. Lemmas show each disagreement:

- The order-number fallback of tags_clean.py is `sorted(...)[0]`, the smallest candidate in string order, not in numeric order: {"12","7","20"} gives "12" (`TagsClean.StringOrderOfCandidates`).
- On a line with three leading digit runs, tags_clean.py's fallback captures the third run, which is the product code on a ledger row, not the leading index column (`TagsClean.LedgerCandidateIsCode`).
- A quantity `float()` refuses raises and ends the run; it is not a skipped row (`Extraction.BadQuantityAborts`, `TagsClean2.ThousandsSeparatorAborts`).
- A capacity of 0 raises `ZeroDivisionError` and ends the run. A negative capacity yields no boxes (`Packaging.PackagesFailure`, `Packaging.NoBoxes`).
- tags_clean2.py pads and strips the table keys but looks row codes up as read, so a code shorter than 8 digits always gets the default capacity (`TagsClean2.ShortCodeGetsDefault`).
- The fallback of tags_clean2.py and tags_excel.py is some member of the candidate set, in set iteration order, not a minimum. The defaults are "SEM PEDIDO" and "Unknown". tags_excel.py has no default client.
- tags_clean.py checks no columns. Its `str.zfill(8)` of `Produto` and its `set_index("Produto")["Qtd.Embalagem"]` (tags_clean.py:71-72) raise on a missing column, which is modelled as the same failure as the explicit check of tags_clean2.py.

## Model

| member | source | states |
|---|---|---|
| Text.Leftmost | tags_clean.py:39 | `re.search`: the result is a position where the pattern matches, and no earlier position matches |
| Text.LeftmostIs | tags_clean.py:39 | the first matching position is the one found |
| Text.LeftmostNone | tags_clean.py:39 | when no position matches, the search finds nothing |
| Text.RunEnd | tags_clean.py:45 | a greedy `\d+`/`\s*` run: it stays in the class and stops at the end or at a character outside it |
| Text.RunEndIs | tags_clean.py:45 | a maximal run is the one found |
| Text.Trim | tags_clean.py:40 | `str.strip()`: the result starts and ends with a non-space and is no longer than the input |
| Text.TrimOfPadded | tags_clean.py:59 | stripping whitespace-padded trimmed text gives that text back |
| Text.TrimIdempotent | tags_clean.py:59 | stripping twice is stripping once |
| Text.TrimKeepsNonSpace | tags_excel.py:46 | a text holding a non-space does not strip to empty |
| Text.ZFill | tags_clean.py:62 | `str.zfill(8)`: the length is max(len, 8); a long text is unchanged; an unsigned text is a suffix behind zeros; a sign stays in front |
| Text.ZFillIdempotent | tags_clean.py:71 | padding twice is padding once |
| Text.ZFillSameNumber | tags_clean.py:62 | two digit codes of at most the width pad alike exactly when they have the same value |
| Text.ZFillOfDigits | tags_clean.py:62 | a short digit code pads to zeros followed by the code |
| Text.Decimal | tags_clean.py:94 | `str(n)`: a digit text without a leading zero whose value is n |
| Text.FirstToken | tags_clean2.py:89 | `line.split()[0]`: present exactly when the line holds a non-space; it is the first non-space run, after leading whitespace only |
| Text.CommasToDots | tags_clean.py:58 | `replace(",", ".")`: same length, each comma turned into a dot, every other character kept |
| Text.LexMin | tags_clean.py:51 | `sorted(s)[0]`: an element no larger in string order than any other |
| Text.LexMinExists | tags_clean.py:51 | a non-empty set has exactly one smallest string |
| Text.LexTotal | tags_clean.py:51 | string order is total |
| Text.LexTransitive | tags_clean.py:51 | string order is transitive |
| Text.LexAntisymmetric | tags_clean.py:51 | string order is antisymmetric |
| Quantity.TruncatedAcceptsFloatText | tags_clean.py:58 | `float()` accepts exactly the texts of digits with at most one dot and at least one digit |
| Quantity.TruncatedWhole | tags_clean.py:80 | `int(float(d))` of a digit text is its value |
| Quantity.TruncatedWithFraction | tags_clean.py:80 | `int(float(i.f))` is the value of the integer part |
| Quantity.TwoDotsRejected | tags_clean2.py:114 | a text with two dots is refused |
| Quantity.DotsAfterReplace | tags_clean2.py:114 | after the replacement the dots are the old dots plus the old commas |
| Quantity.ReplacedConverts | tags_clean2.py:114 | a `[\d.,]+` quantity converts exactly when it has one separator at most and a digit |
| Quantity.WholeConverts | tags_clean.py:58 | a whole quantity converts to its value |
| Quantity.CommaDecimalConverts | tags_clean.py:58 | `i,f` converts to the value of `i` |
| Metadata.NameEnd | tags_clean.py:39 | the lazy `(.+?)` stops at the first `\s*\(\d+\)` or at the end of the line |
| Metadata.ClientName | tags_clean.py:39-40 | a name is found exactly when `Cliente:` occurs with a character after it; the name is stripped |
| Metadata.ClientNameBeforeNumberAt | tags_clean.py:39-40 | a trimmed name followed by `(digits)` after the first `Cliente:` is the client, whenever no `\s*\(\d+\)` starts inside the name (where the lazy group would stop earlier) |
| Metadata.ClientNameAtEndAt | tags_clean.py:39-40 | a trimmed name running to the end of the line (trailing whitespace allowed) is the client, whenever no `\s*\(\d+\)` starts inside it, so a name such as `ACME (SP)` qualifies |
| Metadata.ClientNameAtEnd | tags_clean.py:39-40 | the same, for a line written as `pre + "Cliente:" + ws + name + ws` with no `Cliente:` in `pre` |
| Metadata.OrderDigitsAt | tags_clean.py:41 | `pedido\s*nº:\s*(\d+)` ignoring case: the group is a maximal digit run after the label |
| Metadata.PlainOrder | tags_clean.py:41 | the explicit order number, when present, is a non-empty digit run |
| Metadata.PlainOrderRecognised | tags_clean.py:41-42 | a line `pre + pedido + ws + nº: + ws + digits + rest` states `digits`, in any letter case, whenever no match starts inside `pre` (the leftmost match wins) |
| Metadata.DatedOrder | tags_clean2.py:84 | the number of `pedido nº: … data:` is a non-empty digit run |
| Metadata.DatedOrderIs | tags_clean2.py:84 | digits followed by whitespace and `data:` are the stated number when no dated match starts earlier |
| Metadata.DatedOrderRecognised | tags_clean2.py:84-85 | a line with `data:` after the digits states those digits whenever no dated match starts inside `pre` |
| Metadata.NoOrderBefore | tags_clean2.py:84 | no plain or dated match can start before the first `p`/`P`, so `p`-free text meets the leftmost condition above |
| Metadata.LastMatchIsLast | tags_clean.py:38-42 | the variable holds the value of the last line that matches |
| Metadata.LastMatchNone | tags_clean.py:34-40 | the variable stays `None` exactly when no line matches |
| Metadata.CollectedIff | tags_clean.py:45-48 | a value is collected exactly when some line yields it |
| Metadata.ScanHeader | tags_clean2.py:77-89 | the loop leaves the last client, the last stated number and the candidates of the lines without one |
| Metadata.CandidatesAre | tags_clean2.py:84-89 | the candidates are the fallback values of exactly the lines that state no number (the `elif`) |
| Layouts.DigitsThenSpace | tags_clean.py:47 | `\d+\s+` at a position: a digit run followed by a whitespace run |
| Layouts.ColumnFrom | tags_clean.py:47 | `\d+\s+(\d+)` from a position: the span of the second digit run |
| Layouts.ThirdColumn | tags_clean.py:45 | `^\d+\s+\d+\s+(\d+)`: the span of the third digit run |
| Layouts.SecondColumn | tags_clean.py:47 | `^\d+\s+(\d+)`: the span of the second digit run |
| Layouts.ThirdColumnIs | tags_clean.py:45 | three runs laid out at given positions give that span |
| Layouts.ShortDecimalEnd | tags_clean2.py:66 | `\d{1,3}(?:,\d{1,4})?` then the end of the line: where it ends |
| Layouts.RomaneioQuantityAt | tags_clean2.py:66 | the romaneio quantity at a position is a short decimal running to the end |
| Layouts.LedgerQuantityAt | tags_clean.py:56 | `\d+[\d,]*$` at a position: a digit, then digits and commas, to the end |
| Layouts.UnitFrom | tags_clean2.py:67 | the unit alternation tried in its written order |
| Layouts.UnitQuantityAt | tags_clean2.py:67 | `\s+(?:PC\|UN\|…)\s+([\d.,]+)` at a position |
| Layouts.OrcamentoQuantityAt | tags_excel.py:65 | `\s+PC\s+(qty)(?:\s+.*)?$` at a position: a short decimal, then the end or whitespace |
| Layouts.LazyGroup | tags_clean.py:56 | the lazy `(.*?)` ends at the first position where the rest of the pattern matches |
| Layouts.CodeThenLazy | tags_clean.py:56 | the code column, the whitespace before the lazy group, and the group, with the backtracking of `\s+` |
| Layouts.CodeThenLazyIs | tags_clean.py:56 | a row laid out with its first quantity match at `e` reads code, description and quantity from it |
| Layouts.LedgerRow | tags_clean.py:56 | a ledger row has a digit code in the third column and a `\d+[\d,]*` quantity ending the line |
| Layouts.RomaneioRow | tags_clean2.py:66 | a romaneio row has a digit code in the third column and a short decimal quantity ending the line |
| Layouts.UnitRow | tags_clean2.py:67 | a unit row has a digit code, a non-empty description and a `[\d.,]+` quantity |
| Layouts.OrcamentoRow | tags_excel.py:65 | an orcamento row has a digit code in the second column, a description starting with GRAMPO and a short decimal quantity |
| Layouts.GrampoRow | tags_excel.py:65 | the `\s+(GRAMPO.*?)` part after the code column |
| Layouts.LedgerQuantityConverts | tags_clean.py:56-58 | a ledger quantity converts exactly when it has one comma at most |
| Layouts.ShortDecimalConverts | tags_clean2.py:114 | a short decimal always converts |
| Layouts.ShortDecimalChars | tags_clean2.py:66 | a short decimal holds only digits and commas |
| Layouts.ThousandsSeparatorRejected | tags_clean2.py:114 | "1.234,5" becomes "1.234.5", which `float()` refuses |
| Layouts.LedgerRowRecognised | tags_clean.py:56-57 | a line `n ws n ws code ws desc ws qty` reads back as (code, desc, qty) |
| Layouts.RomaneioRowRecognised | tags_clean2.py:66 | the same for the romaneio layout |
| Layouts.UnitRowRecognised | tags_clean2.py:67 | a line `ws n ws code ws desc ws unit ws qty after` reads back as (code, desc, qty) |
| Layouts.OrcamentoRowRecognised | tags_excel.py:65 | a line `n ws code ws GRAMPO… ws PC ws qty after` reads back as (code, desc, qty) |
| Layouts.UnitFromIs | tags_clean2.py:67 | the unit token found in the line is the one the alternation takes |
| Layouts.RomaneioEmptyDescription | tags_clean2.py:66 | with only whitespace before the quantity, the description is empty when the `\s+` can give a character back, and the row fails otherwise |
| Layouts.LazyGivesBackOne | tags_clean.py:56 | backtracking: `\s+` gives up one whitespace so that `(.*?)` matches it |
| Layouts.LazyNothingToGiveBack | tags_clean.py:56 | a single whitespace cannot be shared, so no row |
| Layouts.NoRomaneioQuantityInside | tags_clean2.py:66 | no romaneio quantity starts inside or after a short decimal that ends the line |
| Layouts.IndexIsFirstToken | tags_clean2.py:89 | on a line starting `\s*\d+\s+`, `split()[0]` is the leading digit run |
| Layouts.RowFirstToken | tags_clean2.py:88-89 | on a line any layout reads, `split()[0]` is its index column, a digit run |
| Layouts.OrcamentoRowAt | tags_excel.py:65 | a GRAMPO description followed by its first quantity match gives that row |
| Extraction.OrElse | tags_clean.py:63 | `x or default`: the default exactly when x is `None` or empty (or the default itself) |
| Extraction.ConvertedIs | tags_clean.py:57-59 | a row becomes a product exactly when its quantity is a float text; the code is normalised, the description stripped, the quantity the integer part |
| Extraction.ExtractAllSucceedsIff | tags_clean.py:55-59 | the scan succeeds exactly when every recognised quantity converts, with one product per recognised line |
| Extraction.ExtractAllAppend | tags_clean.py:55 | rows keep line order: scanning `a + b` is scanning `a` then `b` |
| Extraction.ExtractAllFailureStays | tags_clean.py:58 | after the first failure later lines change nothing |
| Extraction.ScanRows | tags_clean.py:54-59 | the row loop returns the scan of all lines |
| Extraction.ScanPages | tags_clean2.py:100-115 | the page-then-line loop returns the scan of the lines of all pages |
| Extraction.PagesFailureStays | tags_clean2.py:114 | a failure on the first pages is the outcome |
| Extraction.ExtractAllCodes | tags_clean.py:62 | every product code has the normaliser's minimum width |
| Extraction.ExtractOne | tags_clean.py:56-59 | a scan of one line |
| Extraction.BadQuantityAborts | tags_clean.py:58 | a recognised row whose quantity `float()` refuses ends the run with that text |
| Packaging.FloorDiv | tags_clean.py:83 | Python `//`: the quotient rounded towards minus infinity |
| Packaging.FloorMod | tags_clean.py:84 | Python `%`: `a == b*(a//b) + r`, with r taking the sign of b |
| Packaging.GeneratePackages | tags_clean.py:75-99 | the loops return the expansion of every product, or the code of the first with capacity 0 |
| Packaging.AppendBoxes | tags_clean.py:87-98 | the inner loop appends exactly the product's box records |
| Packaging.ProductBoxAt | tags_clean.py:87-98 | box i holds the capacity while i <= qty//cap, else the remainder, and is labelled `i/N` |
| Packaging.BoxCountIsCeiling | tags_clean.py:83-85 | N is the ceiling of qty / cap |
| Packaging.ProductBoxesShape | tags_clean.py:87-98 | N records; all but the last hold the capacity, every box holds 1..cap; code, description, total, capacity, client and order repeat |
| Packaging.NoBoxes | tags_clean.py:85-87 | no records exactly when qty is 0 or the capacity is negative |
| Packaging.ProductBoxesSum | tags_clean.py:83-88 | the boxes hold the whole quantity |
| Packaging.LabelRoundTrip | tags_clean.py:94 | the label `i/N` reads back as (i, N) |
| Packaging.ProductBoxesLabels | tags_clean.py:87-94 | the labels count 1/N … N/N in order |
| Packaging.PackagesSucceedIff | tags_clean.py:81-84 | the expansion fails exactly when some product's capacity is 0 |
| Packaging.PackagesFailure | tags_clean.py:83 | a failure names the first product with capacity 0 |
| Packaging.PackagesAppend | tags_clean.py:77 | products keep input order: expanding `ps + qs` is expanding each |
| Packaging.PackagesSum | tags_clean.py:77-98 | with positive capacities all records together hold every product's quantity |
| Packaging.PackagesCarryHeader | tags_clean.py:90-91 | every record carries the client and order of the run |
| CapacityTable.MissingColumns | tags_clean2.py:35 | the list holds exactly the required columns that are absent |
| CapacityTable.LoadTable | tags_clean2.py:34-40 | loading fails exactly when `Produto` or `Qtd.Embalagem` is absent, naming only absent columns |
| CapacityTable.CheckExcelColumns | tags_excel.py:29-32 | the check fails exactly when `COD.PRODUTO` or `QTD.EMBALAGEM` is absent, naming exactly those |
| CapacityTable.ToDictKeys | tags_clean2.py:40 | a key is in the dictionary exactly when some row's normalised code is that key |
| CapacityTable.ToDictLastWins | tags_clean2.py:40 | the last row with a key decides its capacity |
| CapacityTable.PaddedKeysMatchByNumber | tags_clean.py:62-71 | padded codes and padded keys of up to 8 digits match exactly when their numbers are equal |
| CapacityTable.StrippedDigitKey | tags_clean2.py:39 | for a digit key, the strip after zfill changes nothing and the key has at least 8 characters |
| CapacityTable.ShortCodeMissesPaddedTable | tags_clean2.py:39-40 | a code of fewer than 8 characters is never a key of a digit table |
| Descriptions.DigitsEnd | tags_excel.py:44 | `\d+` at a position: the end of the maximal digit run, absent without a digit |
| Descriptions.MetricEnd | tags_excel.py:44 | `M\s?\d+`: an `M`, an optional whitespace, then digits |
| Descriptions.InchEnd | tags_excel.py:44 | `\d+/\d+"?`: digits, a slash, digits and an optional `"` |
| Descriptions.ModelAt | tags_excel.py:44 | `\s*([A-Z]{1,2})`: one or two capitals |
| Descriptions.RestAt | tags_excel.py:44 | groups 2 to 4 after the gauge: two digit runs and a model, with the given gauge |
| Descriptions.ParseDescription | tags_excel.py:43-61 | `None` exactly when the description is missing, whitespace-only, or matched at no position; a result is the groups of the leftmost position where the pattern matches |
| Descriptions.MetricShape | tags_excel.py:44 | the metric gauge is `M`, optionally a whitespace, then digits |
| Descriptions.InchShape | tags_excel.py:44 | the inch gauge is digits/digits, optionally with `"` |
| Descriptions.ParsedShape | tags_excel.py:49-55 | a parsed description has a metric or inch gauge, digit opening and length, and a model of 1-2 capitals |
| Descriptions.GaugeAt | tags_excel.py:44 | a gauge written at a position is read back as that gauge |
| Descriptions.RestWritten | tags_excel.py:44 | ` x opening x length model` reads back as those three groups |
| Descriptions.WrittenAt | tags_excel.py:44 | the whole pattern written at a position reads back as its four groups |
| Descriptions.ParseWritten | tags_excel.py:44-55 | round trip: a description `gauge x opening x length model`, behind text with no `M` and no digit, parses back to its four groups |
| TagsClean.FallbackColumn | tags_clean.py:45-48 | the fallback group is a non-empty digit run |
| TagsClean.Run | tags_clean.py:127-130 | `main()` gives the outcome of extraction, table loading and expansion |
| TagsClean.ClientIsLast | tags_clean.py:38-63 | the last client line decides the client; an empty name gives the default |
| TagsClean.ClientDefault | tags_clean.py:63 | without a client line the client is "CLIENTE NÃO IDENTIFICADO" |
| TagsClean.ExplicitOrderWins | tags_clean.py:41-51 | the last explicit order number is the order; candidates never replace it |
| TagsClean.ChosenOrderIs | tags_clean.py:50-63 | without an explicit number: the smallest candidate string, or "SEM PEDIDO" |
| TagsClean.NoEmptyCandidate | tags_clean.py:45-48 | no candidate is empty |
| TagsClean.FallbackIsSmallest | tags_clean.py:45-63 | without an explicit line the order is the string-smallest candidate, or the default |
| TagsClean.StringOrderOfCandidates | tags_clean.py:51 | candidates {"12","7","20"} give "12" |
| TagsClean.LedgerCandidateIsCode | tags_clean.py:45-46 | on a ledger row the candidate is the product code |
| TagsClean.LedgerProduct | tags_clean.py:56-62 | a ledger row gives a product with the padded code unless its quantity has two commas |
| TagsClean.ProductCodesPadded | tags_clean.py:62 | every product code has at least 8 characters |
| TagsClean.OutcomeHoldsEverything | tags_clean.py:127-130 | with positive capacities the records hold every product's quantity |
| TagsClean2.Run | tags_clean2.py:34-149 | the order chosen by the fallback rule, and the outcome of table loading, extraction and expansion |
| TagsClean2.StatedOrderWins | tags_clean2.py:84-93 | the last `pedido nº: … data:` decides the order |
| TagsClean2.FallbackOrder | tags_clean2.py:88-93 | without a stated number the order is the index column of some table row, or "Unknown" |
| TagsClean2.RecordsCarryClient | tags_clean2.py:142-144 | every record names the last client (or "NÃO IDENTIFICADO") and the order |
| TagsClean2.ShortCodeGetsDefault | tags_clean2.py:133 | a code shorter than 8 digits gets capacity 10 against a digit table |
| TagsClean2.ThousandsSeparatorAborts | tags_clean2.py:114 | a quantity "1.234,5" ends the run |
| TagsClean2.RomaneioQuantityConverts | tags_clean2.py:105-114 | a romaneio quantity always converts |
| TagsClean2.UnitQuantityConverts | tags_clean2.py:108-114 | a unit quantity converts exactly when it has a digit and one separator at most |
| TagsExcel.Tagged | tags_excel.py:115-116 | each line of a page is paired with that page's number |
| TagsExcel.Classify | tags_excel.py:115-128 | every line goes to exactly one side: an item or a report |
| TagsExcel.ScanPage | tags_excel.py:116-128 | the inner loop extends the second pass by one page's lines |
| TagsExcel.SecondPass | tags_excel.py:115-128 | the loops return the classification of all numbered lines |
| TagsExcel.Run | tags_excel.py:28-128 | fails exactly on a missing column; else the last client, the order chosen by the fallback rule, the warning flag set exactly when there are several candidates, and the second pass |
| TagsExcel.ClassifyAppend | tags_excel.py:115-126 | items and reports keep page-then-line order |
| TagsExcel.UnmatchedIff | tags_excel.py:127-128 | a line is reported, with its page, exactly when no layout reads it |
| TagsExcel.ItemsIff | tags_excel.py:117-126 | an item appears exactly when some line's row converts to it |
| TagsExcel.NumberedIff | tags_excel.py:115-116 | a numbered line is exactly a line of a page with that number |
| TagsExcel.NumberedLines | tags_excel.py:80-85 | the second pass reads the lines of all pages, in page-then-line order |
| TagsExcel.ItemsWellFormed | tags_excel.py:119-126 | with short-decimal quantities every item has a stripped description and a quantity `float()` accepts |
| TagsExcel.ExcelItemsWellFormed | tags_excel.py:117-126 | `float()` never raises in the second pass and descriptions are stripped |
| TagsExcel.StatedOrderWins | tags_excel.py:96-108 | the last `pedido nº: … data:` decides the order |
| TagsExcel.FallbackOrder | tags_excel.py:99-108 | without a stated number the order is the index column of some romaneio or orcamento row, or "Unknown" |

## Left out

- Reading the PDF (pdfplumber), reading and writing spreadsheets, and the timestamped output names are I/O. Documents and sheets are parameters.
- Label rendering (reportlab drawing in the printing scripts) is float page geometry and foreign code.
- The `print` diagnostics are not modelled, except that tags_excel.py's report of unmatched lines is kept as data.
- The script-level `glob` of PDF files and the missing-file checks are file-system I/O.
- Quantities are decimal text. `int(float(q))` is modelled as the integer part, which holds for modest digit counts, not for IEEE rounding of very long texts.
- tags_excel.py keeps `float(q)`. Its items keep the dot-separated text, and `float()` accepting that text is proved.
- Python set iteration order (tags_clean2.py:93, tags_excel.py:108) is modelled as "some member of the set".
- tags_excel.py:131-137 builds the product frame and indexes it by `COD.PRODUTO`, a column it does not have, so it raises. The model stops before that line. The `materiais` table (tags_excel.py:68-72) is unused.
- The pandas KeyError of tags_clean.py:62 on an empty product frame is not modelled. An empty scan is an empty product list.
- `\d` and `\s` are ASCII here; Python's are Unicode. The same holds for `Text.Trim` and `Text.FirstToken` (`str.strip()` and `str.split()` also treat U+00A0 and U+0085 as whitespace) and for `Text.MatchesIgnoringCase` (Python's `re.IGNORECASE` also lets `İ` and `ı` match `i`).
- NaN cells and `int()` of non-integer capacity cells are not modelled. Capacities are integers.
- Descriptions.ParseDescription: the input is `Option<string>`. `None` stands for NaN or a non-string cell, and the `except` branch cannot be reached in the model.
- TagsClean2.Run: the box records carry total and capacity fields that tags_clean2.py does not write. The record type is the one of tags_clean.py.
- Layouts.UnitRowRecognised: `NoUnitAfterSpace(desc)` is a sufficient condition for the lazy description to stop at the intended unit, not a characterisation.
- Layouts.OrcamentoRowRecognised: `NoPcAfterSpace(desc)` is a sufficient condition in the same sense.
- Descriptions.ParseWritten: the text in front of the pattern is required to hold no `M` and no digit. A prefix in which a match could start is not covered.
- TagsExcel.Run: the order number is only known to satisfy the fallback rule, because of set iteration order.
- TagsClean2.Run: the order number is only known to satisfy the fallback rule, for the same reason.
