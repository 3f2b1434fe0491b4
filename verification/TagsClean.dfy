/**
 * tags_clean.py: one scan of all lines for the client name, the order number
 * and the fallback candidates; a second scan for ledger rows, whose codes are
 * padded to 8 digits; the capacity table with padded keys; and the box
 * expansion.
 */
module TagsClean {
  import opened Results
  import opened Text
  import opened Quantity
  import opened Metadata
  import opened Layouts
  import opened Packaging
  import opened CapacityTable
  import opened Extraction

  const NoClient := "CLIENTE NÃO IDENTIFICADO"
  const NoOrder := "SEM PEDIDO"

  /** The fallback `elif` chain: `^\d+\s+\d+\s+(\d+)`, else `^\d+\s+(\d+)`. */
  function FallbackColumn(line: string): (r: Option<string>)
    ensures r.Some? ==> r.value != [] && All(Digit, r.value)
  {
    match ThirdColumn(line)
    case Some((b, c)) => Some(line[b..c])
    case None =>
      match SecondColumn(line)
      case Some((b, c)) => Some(line[b..c])
      case None => None
  }

  /** What a line adds to `pedido_values`: nothing when it states the order explicitly. */
  function Candidate(line: string): Option<string> {
    Unless(PlainOrder, FallbackColumn)(line)
  }

  /** The client name written to every record. */
  function Client(lines: seq<string>): string {
    OrElse(LastMatch(lines, ClientName), NoClient)
  }

  /**
   * The order number: the explicit one if any, else the smallest candidate
   * in string order, else the default.
   */
  function ChosenOrder(order: Option<string>, candidates: set<string>): string {
    var pedido := if OrElse(order, "") == "" && candidates != {} then Some(LexMin(candidates)) else order;
    OrElse(pedido, NoOrder)
  }

  function Order(lines: seq<string>): string {
    ChosenOrder(LastMatch(lines, PlainOrder), Collected(lines, Unless(PlainOrder, FallbackColumn)))
  }

  /** The products of the ledger rows, codes padded to 8 digits. */
  function Products(lines: seq<string>): Result<seq<Product>, RunError> {
    ExtractAll(lines, LedgerRow, PaddedKey)
  }

  /** Everything the script produces from the document lines and the capacity sheet. */
  function Outcome(lines: seq<string>, sheet: Sheet): Result<seq<BoxRecord>, RunError> {
    match Products(lines)
    case Failure(e) => Failure(e)
    case Success(products) =>
      match LoadTable(sheet, PaddedKey)
      case Failure(missing) => Failure(MissingColumns(missing))
      case Success(table) =>
        match Packages(products, table, Client(lines), Order(lines))
        case Failure(code) => Failure(ZeroCapacity(code))
        case Success(records) => Success(records)
  }

  // ---------------------------------------------------------------- the scans

  /** `main()`: extract, load the capacity table, expand into boxes. */
  method Run(lines: seq<string>, sheet: Sheet) returns (r: Result<seq<BoxRecord>, RunError>)
    ensures r == Outcome(lines, sheet)
  {
    var client, order, candidates := ScanHeader(lines, PlainOrder, FallbackColumn);
    var products := ScanRows(lines, LedgerRow, PaddedKey);
    if products.Failure? {
      return Failure(products.error);
    }
    var table := LoadTable(sheet, PaddedKey);
    if table.Failure? {
      return Failure(MissingColumns(table.error));
    }
    var pedido := if OrElse(order, "") == "" && candidates != {} then Some(LexMin(candidates)) else order;
    var boxes := GeneratePackages(products.value, table.value, OrElse(client, NoClient), OrElse(pedido, NoOrder));
    if boxes.Failure? {
      return Failure(ZeroCapacity(boxes.error));
    }
    return Success(boxes.value);
  }

  // ---------------------------------------------------------------- properties

  /** The last line naming a client decides it; no such line, or an empty name, gives the default. */
  lemma ClientIsLast(lines: seq<string>, k: nat)
    requires k < |lines| && ClientName(lines[k]).Some?
    requires forall j :: k < j < |lines| ==> ClientName(lines[j]).None?
    ensures Client(lines) == if ClientName(lines[k]).value == "" then NoClient else ClientName(lines[k]).value
  {
    LastMatchIsLast(lines, ClientName, k);
  }

  lemma ClientDefault(lines: seq<string>)
    requires forall j :: 0 <= j < |lines| ==> ClientName(lines[j]).None?
    ensures Client(lines) == NoClient
  {
    LastMatchNone(lines, ClientName);
  }

  /** An explicit order number is never replaced by a candidate; the last one wins. */
  lemma ExplicitOrderWins(lines: seq<string>, k: nat)
    requires k < |lines| && PlainOrder(lines[k]).Some?
    requires forall j :: k < j < |lines| ==> PlainOrder(lines[j]).None?
    ensures Order(lines) == PlainOrder(lines[k]).value
  {
    LastMatchIsLast(lines, PlainOrder, k);
  }

  /** Without an explicit number the order is the smallest candidate string, and the default without one. */
  lemma ChosenOrderIs(order: Option<string>, candidates: set<string>)
    requires order.None? && "" !in candidates
    ensures candidates != {} ==> IsLexMin(ChosenOrder(order, candidates), candidates)
    ensures candidates == {} ==> ChosenOrder(order, candidates) == NoOrder
  {
    if candidates != {} {
      assert LexMin(candidates) in candidates;
    }
  }

  lemma NoEmptyCandidate(lines: seq<string>)
    ensures "" !in Collected(lines, Unless(PlainOrder, FallbackColumn))
  {
    CandidatesAre(lines, PlainOrder, FallbackColumn, "");
  }

  /** Without an explicit number the order is the smallest candidate, or the default when there is none. */
  lemma FallbackIsSmallest(lines: seq<string>)
    requires forall j :: 0 <= j < |lines| ==> PlainOrder(lines[j]).None?
    ensures var candidates := Collected(lines, Unless(PlainOrder, FallbackColumn));
      (candidates != {} ==> IsLexMin(Order(lines), candidates)) &&
      (candidates == {} ==> Order(lines) == NoOrder)
  {
    LastMatchNone(lines, PlainOrder);
    NoEmptyCandidate(lines);
    ChosenOrderIs(None, Collected(lines, Unless(PlainOrder, FallbackColumn)));
  }

  /** Candidates compare as strings, not numbers: "12" comes before "7". */
  lemma StringOrderOfCandidates()
    ensures ChosenOrder(None, {"12", "7", "20"}) == "12"
  {
    var s: set<string> := {"12", "7", "20"};
    assert LexLe("12", "7") && LexLe("12", "20") && LexLe("12", "12");
    assert IsLexMin("12", s);
    LexMinUnique(LexMin(s), "12", s);
  }

  /**
   * On a ledger row the first fallback pattern captures the product code, so
   * the candidates are product codes rather than an index column.
   */
  lemma LedgerCandidateIsCode(line: string)
    requires LedgerRow(line).Some? && PlainOrder(line).None?
    ensures Candidate(line) == Some(LedgerRow(line).value.code)
  {
    var span := ThirdColumn(line).value;
    assert FallbackColumn(line) == Some(line[span.0..span.1]);
  }

  /** A ledger row becomes a product with the padded code unless its quantity has two commas. */
  lemma LedgerProduct(line: string, raw: RawRow)
    requires LedgerRow(line) == Some(raw)
    ensures Products([line]).Success? <==> Count(',', raw.quantity) <= 1
    ensures Products([line]).Success? ==>
      Products([line]).value == [Product(ZFill(raw.code, 8), Trim(raw.description), Truncated(CommasToDots(raw.quantity)).value)]
  {
    ExtractOne(line, LedgerRow, PaddedKey);
    LedgerQuantityConverts(raw.quantity);
  }

  /** Every product code of the output has at least 8 characters. */
  lemma ProductCodesPadded(lines: seq<string>)
    requires Products(lines).Success?
    ensures forall p :: p in Products(lines).value ==> |p.code| >= 8
  {
    ExtractAllCodes(lines, LedgerRow, PaddedKey, 8);
  }

  /** With positive capacities every product's quantity ends up in its boxes. */
  lemma OutcomeHoldsEverything(lines: seq<string>, sheet: Sheet)
    requires Products(lines).Success? && LoadTable(sheet, PaddedKey).Success?
    requires forall p :: p in Products(lines).value ==> Capacity(LoadTable(sheet, PaddedKey).value, p.code) > 0
    ensures Outcome(lines, sheet).Success?
    ensures SumInBox(Outcome(lines, sheet).value) == SumQuantity(Products(lines).value)
  {
    var ps := Products(lines).value;
    var table := LoadTable(sheet, PaddedKey).value;
    assert forall k :: 0 <= k < |ps| ==> ps[k] in ps;
    PackagesSum(ps, table, Client(lines), Order(lines));
  }
}
