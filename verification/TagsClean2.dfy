/**
 * tags_clean2.py: the capacity table is loaded first (keys padded, then
 * stripped); one scan of all lines finds the client, the order number
 * (`pedido nº: … data:`) and the fallback candidates; a scan page by page
 * reads romaneio rows and, failing that, unit rows; then the box expansion,
 * which looks codes up as they were read.
 */
module TagsClean2 {
  import opened Results
  import opened Text
  import opened Quantity
  import opened Metadata
  import opened Layouts
  import opened Packaging
  import opened CapacityTable
  import opened Extraction

  const NoClient := "NÃO IDENTIFICADO"
  const NoOrder := "Unknown"

  /** The row of a line: the romaneio layout first, the unit layout second. */
  function PageRow(line: string): Option<RawRow> {
    if RomaneioRow(line).Some? then RomaneioRow(line) else UnitRow(line)
  }

  /** `line.split()[0]` of a line either layout matches. */
  function IndexToken(line: string): Option<string> {
    if RomaneioRow(line).Some? || UnitRow(line).Some? then FirstToken(line) else None
  }

  /** Codes are used as read. */
  function AsRead(code: string): string {
    code
  }

  function Client(pages: seq<Page>): string {
    OrElse(LastMatch(JoinedLines(pages), ClientName), NoClient)
  }

  function Candidates(pages: seq<Page>): set<string> {
    Collected(JoinedLines(pages), Unless(DatedOrder, IndexToken))
  }

  function Products(pages: seq<Page>): Result<seq<Product>, RunError> {
    ExtractAll(Flatten(pages), PageRow, AsRead)
  }

  /** Everything the script produces, for the order number it settled on. */
  function Outcome(pages: seq<Page>, sheet: Sheet, order: string): Result<seq<BoxRecord>, RunError> {
    match LoadTable(sheet, PaddedStrippedKey)
    case Failure(missing) => Failure(MissingColumns(missing))
    case Success(table) =>
      match Products(pages)
      case Failure(e) => Failure(e)
      case Success(products) =>
        match Packages(products, table, Client(pages), order)
        case Failure(code) => Failure(ZeroCapacity(code))
        case Success(records) => Success(records)
  }

  /** The script from top to bottom. */
  method Run(pages: seq<Page>, sheet: Sheet) returns (order: string, r: Result<seq<BoxRecord>, RunError>)
    ensures IsChosenOrder(order, LastMatch(JoinedLines(pages), DatedOrder), Candidates(pages), NoOrder)
    ensures r == Outcome(pages, sheet, order)
  {
    var client, stated, candidates := ScanHeader(JoinedLines(pages), DatedOrder, IndexToken);
    if stated.Some? && stated.value != "" {
      order := stated.value;
    } else if candidates == {} {
      order := NoOrder;
    } else {
      order :| order in candidates;
    }
    var table := LoadTable(sheet, PaddedStrippedKey);
    if table.Failure? {
      return order, Failure(MissingColumns(table.error));
    }
    var products := ScanPages(pages, PageRow, AsRead);
    if products.Failure? {
      return order, Failure(products.error);
    }
    var boxes := GeneratePackages(products.value, table.value, OrElse(client, NoClient), order);
    if boxes.Failure? {
      return order, Failure(ZeroCapacity(boxes.error));
    }
    r := Success(boxes.value);
  }

  // ---------------------------------------------------------------- properties

  /** The last `pedido nº: … data:` line decides the order number; candidates never replace it. */
  lemma StatedOrderWins(pages: seq<Page>, k: nat, o: string)
    requires k < |JoinedLines(pages)| && DatedOrder(JoinedLines(pages)[k]).Some?
    requires forall j :: k < j < |JoinedLines(pages)| ==> DatedOrder(JoinedLines(pages)[j]).None?
    requires IsChosenOrder(o, LastMatch(JoinedLines(pages), DatedOrder), Candidates(pages), NoOrder)
    ensures o == DatedOrder(JoinedLines(pages)[k]).value
  {
    LastMatchIsLast(JoinedLines(pages), DatedOrder, k);
  }

  /** `o` is the index column of a table row `line`. */
  predicate IsIndexOf(o: string, line: string) {
    (RomaneioRow(line).Some? || UnitRow(line).Some?) && o == IndexColumn(line) && IsDigits(o)
  }

  /** Without a stated number the order is the index column of some table row, else "Unknown". */
  lemma FallbackOrder(pages: seq<Page>, o: string)
    requires forall j :: 0 <= j < |JoinedLines(pages)| ==> DatedOrder(JoinedLines(pages)[j]).None?
    requires IsChosenOrder(o, LastMatch(JoinedLines(pages), DatedOrder), Candidates(pages), NoOrder)
    ensures o == NoOrder || exists k :: 0 <= k < |JoinedLines(pages)| && IsIndexOf(o, JoinedLines(pages)[k])
  {
    LastMatchNone(JoinedLines(pages), DatedOrder);
    if o != NoOrder {
      CandidatesAre(JoinedLines(pages), DatedOrder, IndexToken, o);
      var k :| 0 <= k < |JoinedLines(pages)| && DatedOrder(JoinedLines(pages)[k]).None? && IndexToken(JoinedLines(pages)[k]) == Some(o);
      RowFirstToken(JoinedLines(pages)[k]);
    }
  }

  /** Every record names the client of the last `Cliente:` line, or the default. */
  lemma RecordsCarryClient(pages: seq<Page>, sheet: Sheet, order: string)
    requires Outcome(pages, sheet, order).Success?
    ensures forall b :: b in Outcome(pages, sheet, order).value ==>
      b.client == OrElse(LastMatch(JoinedLines(pages), ClientName), NoClient) && b.order == order
  {
    var table := LoadTable(sheet, PaddedStrippedKey).value;
    PackagesCarryHeader(Products(pages).value, table, Client(pages), order);
  }

  /**
   * Codes are looked up as read while the table's keys are padded: a row code
   * shorter than 8 digits gets the default capacity against a table of digit
   * codes.
   */
  lemma ShortCodeGetsDefault(sheet: Sheet, code: string)
    requires LoadTable(sheet, PaddedStrippedKey).Success?
    requires forall j :: 0 <= j < |sheet.entries| ==> All(Digit, sheet.entries[j].product)
    requires |code| < 8
    ensures Capacity(LoadTable(sheet, PaddedStrippedKey).value, code) == DefaultCapacity
  {
    ShortCodeMissesPaddedTable(sheet.entries, code);
  }

  /** A quantity written with a thousands separator makes `float()` raise and ends the run. */
  lemma ThousandsSeparatorAborts(line: string, raw: RawRow)
    requires PageRow(line) == Some(raw) && raw.quantity == "1.234,5"
    ensures ExtractAll([line], PageRow, AsRead) == Failure(BadQuantity("1.234.5"))
  {
    ThousandsSeparatorRejected();
    BadQuantityAborts(line, PageRow, AsRead, raw);
  }

  /** A romaneio quantity always converts. */
  lemma RomaneioQuantityConverts(line: string, raw: RawRow)
    requires RomaneioRow(line) == Some(raw)
    ensures Truncated(CommasToDots(raw.quantity)).Some?
  {
    ShortDecimalConverts(raw.quantity);
  }

  /** A unit quantity converts exactly when it holds a digit and one separator at most. */
  lemma UnitQuantityConverts(line: string, raw: RawRow)
    requires UnitRow(line) == Some(raw)
    ensures Truncated(CommasToDots(raw.quantity)).Some? <==>
      Count('.', raw.quantity) + Count(',', raw.quantity) <= 1 &&
      exists m :: 0 <= m < |raw.quantity| && IsDigit(raw.quantity[m])
  {
    ReplacedConverts(raw.quantity);
  }
}
