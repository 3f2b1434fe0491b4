/**
 * tags_excel.py: the capacity sheet must carry `COD.PRODUTO` and
 * `QTD.EMBALAGEM`; one scan of all lines finds the client, the order number
 * (`pedido nº: … data:`) and the fallback candidates, warning when there are
 * several; a scan page by page turns romaneio rows and, failing that,
 * GRAMPO orcamento rows into items and reports every other line with its
 * page number.
 */
module TagsExcel {
  import opened Results
  import opened Text
  import opened Quantity
  import opened Metadata
  import opened Layouts
  import opened CapacityTable
  import opened Extraction

  const NoOrder := "Unknown"

  /** A row of the product frame: code, trimmed description, quantity text with a decimal point. */
  datatype Item = Item(code: string, description: string, quantity: string)

  /** What the second pass leaves: the items in order, and the lines no layout read with their page numbers. */
  datatype Extracted = Extracted(items: seq<Item>, unmatched: seq<(nat, string)>)

  /** What a run settles on before the product frame is built. */
  datatype Report = Report(client: Option<string>, order: string, several: bool, rows: Extracted)

  /** The row of a line: the romaneio layout first, the orcamento layout second. */
  function ExcelRow(line: string): Option<RawRow> {
    if RomaneioRow(line).Some? then RomaneioRow(line) else OrcamentoRow(line)
  }

  /** `line.split()[0]` of a line either layout matches. */
  function IndexToken(line: string): Option<string> {
    if RomaneioRow(line).Some? || OrcamentoRow(line).Some? then FirstToken(line) else None
  }

  function Candidates(pages: seq<Page>): set<string> {
    Collected(JoinedLines(pages), Unless(DatedOrder, IndexToken))
  }

  /** `[produto, descricao.strip(), quantidade.replace(',', '.')]`. */
  function ItemOf(raw: RawRow): Item {
    Item(raw.code, Trim(raw.description), CommasToDots(raw.quantity))
  }

  /** The lines of one page, each with the page's number. */
  function Tagged(number: nat, lines: seq<string>): (r: seq<(nat, string)>)
    ensures |r| == |lines|
    ensures forall k :: 0 <= k < |r| ==> r[k] == (number, lines[k])
  {
    seq(|lines|, k requires 0 <= k < |lines| => (number, lines[k]))
  }

  /** The lines of all pages in page order, each with its page's number. */
  function Numbered(pages: seq<Page>): seq<(nat, string)>
    decreases |pages|
  {
    if pages == [] then [] else Numbered(pages[..|pages| - 1]) + Tagged(pages[|pages| - 1].number, pages[|pages| - 1].lines)
  }

  /** One line of the second pass: an item if `row` reads it, a report otherwise. */
  function Step(so: Extracted, e: (nat, string), row: string -> Option<RawRow>): Extracted {
    match row(e.1)
    case Some(raw) => Extracted(so.items + [ItemOf(raw)], so.unmatched)
    case None => Extracted(so.items, so.unmatched + [e])
  }

  /**
   * The second pass over numbered lines: a line `row` reads becomes an item,
   * any other line is reported; every line goes to exactly one side.
   */
  function Classify(entries: seq<(nat, string)>, row: string -> Option<RawRow>): (r: Extracted)
    ensures |r.items| + |r.unmatched| == |entries|
    decreases |entries|
  {
    if entries == [] then Extracted([], [])
    else Step(Classify(entries[..|entries| - 1], row), entries[|entries| - 1], row)
  }

  /** The outcome of two runs of lines one after the other. */
  function Join(x: Extracted, y: Extracted): Extracted {
    Extracted(x.items + y.items, x.unmatched + y.unmatched)
  }

  // ---------------------------------------------------------------- the loops

  /** Classifying one more line at the end. */
  lemma ClassifySnoc(entries: seq<(nat, string)>, e: (nat, string), row: string -> Option<RawRow>)
    ensures Classify(entries + [e], row) == Step(Classify(entries, row), e, row)
  {
    assert (entries + [e])[..|entries|] == entries;
  }

  /** One more line of a page, tagged with the page's number. */
  lemma TaggedSnoc(before: seq<(nat, string)>, number: nat, lines: seq<string>, i: nat)
    requires i < |lines|
    ensures before + Tagged(number, lines[..i + 1]) == (before + Tagged(number, lines[..i])) + [(number, lines[i])]
  {
    assert Tagged(number, lines[..i + 1]) == Tagged(number, lines[..i]) + [(number, lines[i])];
  }

  /** The loop over the lines of one page. */
  method ScanPage(number: nat, lines: seq<string>, row: string -> Option<RawRow>, before: seq<(nat, string)>,
                  items: seq<Item>, unmatched: seq<(nat, string)>)
    returns (items': seq<Item>, unmatched': seq<(nat, string)>)
    requires Classify(before, row) == Extracted(items, unmatched)
    ensures Classify(before + Tagged(number, lines), row) == Extracted(items', unmatched')
  {
    items', unmatched' := items, unmatched;
    var i := 0;
    assert before + Tagged(number, lines[..0]) == before;
    while i < |lines|
      invariant i <= |lines|
      invariant Classify(before + Tagged(number, lines[..i]), row) == Extracted(items', unmatched')
    {
      TaggedSnoc(before, number, lines, i);
      ClassifySnoc(before + Tagged(number, lines[..i]), (number, lines[i]), row);
      var m := row(lines[i]);
      if m.Some? {
        items' := items' + [ItemOf(m.value)];
      } else {
        unmatched' := unmatched' + [(number, lines[i])];
      }
      i := i + 1;
    }
    assert lines[..i] == lines;
  }

  /** The second pass: the pages in order, the lines of each in order. */
  method SecondPass(pages: seq<Page>, row: string -> Option<RawRow>) returns (r: Extracted)
    ensures r == Classify(Numbered(pages), row)
  {
    var items: seq<Item> := [];
    var unmatched: seq<(nat, string)> := [];
    var pi := 0;
    while pi < |pages|
      invariant pi <= |pages|
      invariant Classify(Numbered(pages[..pi]), row) == Extracted(items, unmatched)
    {
      assert pages[..pi + 1][..pi] == pages[..pi];
      items, unmatched := ScanPage(pages[pi].number, pages[pi].lines, row, Numbered(pages[..pi]), items, unmatched);
      pi := pi + 1;
    }
    assert pages[..pi] == pages;
    r := Extracted(items, unmatched);
  }

  /**
   * The script up to the product frame: the column check, the first pass
   * and its choice of order number, then the second pass.
   */
  method Run(pages: seq<Page>, columns: seq<string>) returns (r: Result<Report, seq<string>>)
    ensures r.Failure? <==> exists c :: c in ExcelColumns && c !in columns
    ensures r.Failure? ==> r.error == CheckExcelColumns(columns).error
    ensures r.Success? ==>
      r.value.client == LastMatch(JoinedLines(pages), ClientName) &&
      IsChosenOrder(r.value.order, LastMatch(JoinedLines(pages), DatedOrder), Candidates(pages), NoOrder) &&
      (r.value.several <==> |Candidates(pages)| > 1) &&
      r.value.rows == Classify(Numbered(pages), ExcelRow)
  {
    var check := CheckExcelColumns(columns);
    if check.Failure? {
      return Failure(check.error);
    }
    var client, stated, candidates := ScanHeader(JoinedLines(pages), DatedOrder, IndexToken);
    var several := |candidates| > 1;
    var order: string;
    if stated.Some? && stated.value != "" {
      order := stated.value;
    } else if candidates == {} {
      order := NoOrder;
    } else {
      order :| order in candidates;
    }
    var rows := SecondPass(pages, ExcelRow);
    r := Success(Report(client, order, several, rows));
  }

  // ---------------------------------------------------------------- properties

  /** A step after two runs is the step after the second one. */
  lemma StepJoin(x: Extracted, y: Extracted, e: (nat, string), row: string -> Option<RawRow>)
    ensures Step(Join(x, y), e, row) == Join(x, Step(y, e, row))
  {
    match row(e.1)
    case Some(raw) =>
      assert (x.items + y.items) + [ItemOf(raw)] == x.items + (y.items + [ItemOf(raw)]);
    case None =>
      assert (x.unmatched + y.unmatched) + [e] == x.unmatched + (y.unmatched + [e]);
  }

  /** Classifying two runs of lines one after the other: items and reports keep page-then-line order. */
  lemma {:induction false} ClassifyAppend(a: seq<(nat, string)>, b: seq<(nat, string)>, row: string -> Option<RawRow>)
    ensures Classify(a + b, row) == Join(Classify(a, row), Classify(b, row))
    decreases |b|
  {
    if b == [] {
      assert a + b == a;
    } else {
      var init, e := b[..|b| - 1], b[|b| - 1];
      var x, y := Classify(a, row), Classify(init, row);
      assert a + b == (a + init) + [e];
      calc {
        Classify(a + b, row);
      ==  { ClassifySnoc(a + init, e, row); }
        Step(Classify(a + init, row), e, row);
      ==  { ClassifyAppend(a, init, row); }
        Step(Join(x, y), e, row);
      ==  { StepJoin(x, y, e, row); }
        Join(x, Step(y, e, row));
      }
    }
  }

  /** A line is reported exactly when it is one of the lines and no layout reads it. */
  lemma {:induction false} UnmatchedIff(entries: seq<(nat, string)>, row: string -> Option<RawRow>, e: (nat, string))
    ensures e in Classify(entries, row).unmatched <==> e in entries && row(e.1).None?
    decreases |entries|
  {
    if entries != [] {
      var init := entries[..|entries| - 1];
      UnmatchedIff(init, row, e);
      assert entries == init + [entries[|entries| - 1]];
    }
  }

  /** An item is in the frame exactly when some line's row converts to it. */
  lemma {:induction false} ItemsIff(entries: seq<(nat, string)>, row: string -> Option<RawRow>, x: Item)
    ensures x in Classify(entries, row).items <==>
      exists k :: 0 <= k < |entries| && row(entries[k].1).Some? && x == ItemOf(row(entries[k].1).value)
    decreases |entries|
  {
    if entries != [] {
      var init, last := entries[..|entries| - 1], entries[|entries| - 1];
      ItemsIff(init, row, x);
      ItemsStep(Classify(init, row), last, row, x);
      assert forall k :: 0 <= k < |init| ==> init[k] == entries[k];
    }
  }

  /** An item after one more line is an earlier item or the item of that line. */
  lemma ItemsStep(so: Extracted, e: (nat, string), row: string -> Option<RawRow>, x: Item)
    ensures x in Step(so, e, row).items <==> x in so.items || (row(e.1).Some? && x == ItemOf(row(e.1).value))
  {
  }

  /** Every numbered line is a line of a page with that number, and the other way round. */
  lemma {:induction false} NumberedIff(pages: seq<Page>, n: nat, line: string)
    ensures (n, line) in Numbered(pages) <==> exists j :: 0 <= j < |pages| && pages[j].number == n && line in pages[j].lines
    decreases |pages|
  {
    if pages != [] {
      var init := pages[..|pages| - 1];
      var p := pages[|pages| - 1];
      NumberedIff(init, n, line);
      assert forall j :: 0 <= j < |init| ==> init[j] == pages[j];
      var t := Tagged(p.number, p.lines);
      assert (n, line) in t <==> p.number == n && line in p.lines by {
        if (n, line) in t {
          var k :| 0 <= k < |t| && t[k] == (n, line);
        }
        if p.number == n && line in p.lines {
          var k :| 0 <= k < |p.lines| && p.lines[k] == line;
          assert t[k] == (n, line);
        }
      }
    }
  }

  /** The second pass reads the same lines, in the same order, as the scan of all pages. */
  lemma {:induction false} NumberedLines(pages: seq<Page>)
    ensures |Numbered(pages)| == |Flatten(pages)|
    ensures forall k :: 0 <= k < |Numbered(pages)| ==> Numbered(pages)[k].1 == Flatten(pages)[k]
    decreases |pages|
  {
    if pages != [] {
      var init := pages[..|pages| - 1];
      NumberedLines(init);
    }
  }

  /** Every item of a layout whose quantities are short decimals holds a trimmed description and a quantity `float()` accepts. */
  lemma {:induction false} ItemsWellFormed(entries: seq<(nat, string)>, row: string -> Option<RawRow>)
    requires forall line :: row(line).Some? ==> IsShortDecimal(row(line).value.quantity)
    ensures forall x :: x in Classify(entries, row).items ==> IsTrimmed(x.description) && Truncated(x.quantity).Some?
    decreases |entries|
  {
    if entries != [] {
      ItemsWellFormed(entries[..|entries| - 1], row);
      var last := entries[|entries| - 1];
      if row(last.1).Some? {
        ShortDecimalConverts(row(last.1).value.quantity);
      }
    }
  }

  /** Both layouts of the second pass read a short decimal quantity, so `float()` never raises there. */
  lemma ExcelItemsWellFormed(pages: seq<Page>)
    ensures forall x :: x in Classify(Numbered(pages), ExcelRow).items ==> IsTrimmed(x.description) && Truncated(x.quantity).Some?
  {
    ItemsWellFormed(Numbered(pages), ExcelRow);
  }

  /** The last `pedido nº: … data:` line decides the order number; candidates never replace it. */
  lemma StatedOrderWins(pages: seq<Page>, k: nat, o: string)
    requires k < |JoinedLines(pages)| && DatedOrder(JoinedLines(pages)[k]).Some?
    requires forall j :: k < j < |JoinedLines(pages)| ==> DatedOrder(JoinedLines(pages)[j]).None?
    requires IsChosenOrder(o, LastMatch(JoinedLines(pages), DatedOrder), Candidates(pages), NoOrder)
    ensures o == DatedOrder(JoinedLines(pages)[k]).value
  {
    LastMatchIsLast(JoinedLines(pages), DatedOrder, k);
  }

  /** `o` is the index column of a romaneio or orcamento row `line`. */
  predicate IsIndexOf(o: string, line: string) {
    (RomaneioRow(line).Some? || OrcamentoRow(line).Some?) && o == IndexColumn(line) && IsDigits(o)
  }

  /** Without a stated number the order is the index column of some table row, else "Unknown". */
  lemma FallbackOrder(pages: seq<Page>, o: string)
    requires forall j :: 0 <= j < |JoinedLines(pages)| ==> DatedOrder(JoinedLines(pages)[j]).None?
    requires IsChosenOrder(o, LastMatch(JoinedLines(pages), DatedOrder), Candidates(pages), NoOrder)
    ensures o == NoOrder || exists k :: 0 <= k < |JoinedLines(pages)| && IsIndexOf(o, JoinedLines(pages)[k])
  {
    LastMatchNone(JoinedLines(pages), DatedOrder);
    if o != NoOrder {
      CandidatesAre(JoinedLines(pages), DatedOrder, IndexToken, o);
      var k :| 0 <= k < |JoinedLines(pages)| && DatedOrder(JoinedLines(pages)[k]).None? && IndexToken(JoinedLines(pages)[k]) == Some(o);
      RowFirstToken(JoinedLines(pages)[k]);
    }
  }
}
