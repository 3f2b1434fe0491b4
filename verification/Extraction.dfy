/**
 * What the three scripts share around the row layouts: the text of a
 * document as pages of lines, the conversion of a recognised row into a
 * product (`float(qtd.replace(",", "."))`, later `int(...)`), the errors that
 * end a run, and the outcome of scanning all lines for rows.
 */
module Extraction {
  import opened Results
  import opened Text
  import opened Quantity
  import opened Layouts
  import opened Packaging

  /** A page with text: its 1-based number and its lines (`page_text.split("\n")`). */
  datatype Page = Page(number: nat, lines: seq<string>)

  /** The exceptions that end a run. */
  datatype RunError =
    | BadQuantity(text: string)          // `float()` raises ValueError
    | MissingColumns(columns: seq<string>) // the capacity table lacks a column
    | ZeroCapacity(code: string)         // `//` raises ZeroDivisionError

  /** Python's `x or default` for an optional string: `None` and `""` are false. */
  function OrElse(x: Option<string>, default: string): (r: string)
    ensures r == default <==> x.None? || x.value == "" || x.value == default
    ensures r != default ==> x == Some(r)
  {
    if x.Some? && x.value != "" then x.value else default
  }

  /** The lines of all pages, in page order. */
  function Flatten(pages: seq<Page>): seq<string>
    decreases |pages|
  {
    if pages == [] then [] else Flatten(pages[..|pages| - 1]) + pages[|pages| - 1].lines
  }

  /** `all_text.split("\n")` where `all_text` joins every page's text followed by a newline. */
  function JoinedLines(pages: seq<Page>): seq<string> {
    Flatten(pages) + [""]
  }

  /** The product of a recognised row: the float conversion either raises or keeps the integer part. */
  function Converted(code: string, raw: RawRow): Result<Product, RunError> {
    match Truncated(CommasToDots(raw.quantity))
    case None => Failure(BadQuantity(CommasToDots(raw.quantity)))
    case Some(q) => Success(Product(code, Trim(raw.description), q))
  }

  /**
   * Scanning `lines` in order: every line `row` recognises becomes a product
   * (its code normalised by `code`); the first quantity `float()` refuses
   * ends the scan.
   */
  function ExtractAll(lines: seq<string>, row: string -> Option<RawRow>, code: string -> string)
    : Result<seq<Product>, RunError>
    decreases |lines|
  {
    if lines == [] then Success([])
    else
      match ExtractAll(lines[..|lines| - 1], row, code)
      case Failure(e) => Failure(e)
      case Success(ps) =>
        match row(lines[|lines| - 1])
        case None => Success(ps)
        case Some(raw) =>
          match Converted(code(raw.code), raw)
          case Failure(e) => Failure(e)
          case Success(p) => Success(ps + [p])
  }

  /** The number of lines `row` recognises. */
  function MatchCount(lines: seq<string>, row: string -> Option<RawRow>): nat
    decreases |lines|
  {
    if lines == [] then 0
    else MatchCount(lines[..|lines| - 1], row) + (if row(lines[|lines| - 1]).Some? then 1 else 0)
  }

  // ---------------------------------------------------------------- properties

  /** A recognised row becomes a product exactly when its quantity converts, to its integer part. */
  lemma ConvertedIs(code: string, raw: RawRow)
    ensures Converted(code, raw).Success? <==> IsFloatText(CommasToDots(raw.quantity))
    ensures Converted(code, raw).Success? ==>
      Converted(code, raw).value.code == code &&
      IsTrimmed(Converted(code, raw).value.description) &&
      Some(Converted(code, raw).value.quantity) == Truncated(CommasToDots(raw.quantity))
  {
    TruncatedAcceptsFloatText(CommasToDots(raw.quantity));
  }

  lemma FlattenStep(pages: seq<Page>, i: nat)
    requires i < |pages|
    ensures Flatten(pages[..i + 1]) == Flatten(pages[..i]) + pages[i].lines
  {
    assert pages[..i + 1][..i] == pages[..i];
  }

  /** One more line: the scan either keeps its products, appends one, or fails. */
  lemma ExtractAllNext(lines: seq<string>, row: string -> Option<RawRow>, code: string -> string, i: nat)
    requires i < |lines|
    ensures ExtractAll(lines[..i + 1], row, code) ==
      match ExtractAll(lines[..i], row, code)
      case Failure(e) => Failure(e)
      case Success(ps) =>
        match row(lines[i])
        case None => Success(ps)
        case Some(raw) =>
          match Converted(code(raw.code), raw)
          case Failure(e) => Failure(e)
          case Success(p) => Success(ps + [p])
  {
    assert lines[..i + 1][..i] == lines[..i];
  }

  /** Once the scan has failed, later lines do not change the outcome. */
  lemma {:induction false} ExtractAllFailureStays(lines: seq<string>, row: string -> Option<RawRow>,
                                                  code: string -> string, k: nat)
    requires k <= |lines| && ExtractAll(lines[..k], row, code).Failure?
    ensures ExtractAll(lines, row, code) == ExtractAll(lines[..k], row, code)
    decreases |lines| - k
  {
    if k < |lines| {
      ExtractAllNext(lines, row, code, k);
      ExtractAllFailureStays(lines, row, code, k + 1);
    } else {
      assert lines[..k] == lines;
    }
  }

  /** Rows keep line order: scanning two runs of lines is scanning each. */
  lemma {:induction false} ExtractAllAppend(a: seq<string>, b: seq<string>, row: string -> Option<RawRow>,
                                            code: string -> string)
    ensures ExtractAll(a + b, row, code) ==
      match ExtractAll(a, row, code)
      case Failure(e) => Failure(e)
      case Success(ps) =>
        match ExtractAll(b, row, code)
        case Failure(e) => Failure(e)
        case Success(qs) => Success(ps + qs)
    decreases |b|
  {
    if b == [] {
      assert a + b == a;
      match ExtractAll(a, row, code)
      case Failure(e) =>
      case Success(ps) => assert ps + [] == ps;
    } else {
      var init := b[..|b| - 1];
      assert (a + b)[..|a + b| - 1] == a + init;
      assert (a + b)[|a + b| - 1] == b[|b| - 1];
      ExtractAllAppend(a, init, row, code);
      match ExtractAll(a, row, code)
      case Failure(e) =>
      case Success(ps) =>
        match ExtractAll(init, row, code)
        case Failure(e) =>
        case Success(qs) =>
          match row(b[|b| - 1])
          case None =>
          case Some(raw) =>
            match Converted(code(raw.code), raw)
            case Failure(e) =>
            case Success(p) => assert ps + qs + [p] == ps + (qs + [p]);
    }
  }

  /**
   * The scan succeeds exactly when every recognised quantity converts, and
   * then yields one product per recognised line.
   */
  lemma {:induction false} ExtractAllSucceedsIff(lines: seq<string>, row: string -> Option<RawRow>,
                                                 code: string -> string)
    ensures ExtractAll(lines, row, code).Success? <==>
      forall k :: 0 <= k < |lines| && row(lines[k]).Some? ==>
        IsFloatText(CommasToDots(row(lines[k]).value.quantity))
    ensures ExtractAll(lines, row, code).Success? ==> |ExtractAll(lines, row, code).value| == MatchCount(lines, row)
    decreases |lines|
  {
    if lines != [] {
      var init := lines[..|lines| - 1];
      ExtractAllSucceedsIff(init, row, code);
      assert forall k :: 0 <= k < |init| ==> init[k] == lines[k];
      match row(lines[|lines| - 1])
      case None =>
      case Some(raw) => ConvertedIs(code(raw.code), raw);
    }
  }
  // ---------------------------------------------------------------- the loops

  /** The row loop over lines: append each recognised row's product, stop at the first bad quantity. */
  method ScanRows(lines: seq<string>, row: string -> Option<RawRow>, code: string -> string)
    returns (r: Result<seq<Product>, RunError>)
    ensures r == ExtractAll(lines, row, code)
  {
    var data: seq<Product> := [];
    var i := 0;
    while i < |lines|
      invariant i <= |lines|
      invariant ExtractAll(lines[..i], row, code) == Success(data)
    {
      ExtractAllNext(lines, row, code, i);
      var m := row(lines[i]);
      if m.Some? {
        var raw := m.value;
        var q := Truncated(CommasToDots(raw.quantity));
        if q.None? {
          ExtractAllFailureStays(lines, row, code, i + 1);
          return Failure(BadQuantity(CommasToDots(raw.quantity)));
        }
        data := data + [Product(code(raw.code), Trim(raw.description), q.value)];
      }
      i := i + 1;
    }
    assert lines[..i] == lines;
    return Success(data);
  }

  /** The row loop over pages and their lines. */
  method ScanPages(pages: seq<Page>, row: string -> Option<RawRow>, code: string -> string)
    returns (r: Result<seq<Product>, RunError>)
    ensures r == ExtractAll(Flatten(pages), row, code)
  {
    var data: seq<Product> := [];
    var pi := 0;
    while pi < |pages|
      invariant pi <= |pages|
      invariant ExtractAll(Flatten(pages[..pi]), row, code) == Success(data)
    {
      FlattenStep(pages, pi);
      ExtractAllAppend(Flatten(pages[..pi]), pages[pi].lines, row, code);
      var page := ScanRows(pages[pi].lines, row, code);
      if page.Failure? {
        PagesFailureStays(pages, row, code, pi + 1);
        return Failure(page.error);
      }
      data := data + page.value;
      pi := pi + 1;
    }
    assert pages[..pi] == pages;
    return Success(data);
  }

  /** Scanning one more line at the end. */
  lemma ExtractAllSnoc(lines: seq<string>, line: string, row: string -> Option<RawRow>, code: string -> string)
    ensures ExtractAll(lines + [line], row, code) ==
      match ExtractAll(lines, row, code)
      case Failure(e) => Failure(e)
      case Success(ps) =>
        match row(line)
        case None => Success(ps)
        case Some(raw) =>
          match Converted(code(raw.code), raw)
          case Failure(e) => Failure(e)
          case Success(p) => Success(ps + [p])
  {
    assert (lines + [line])[..|lines|] == lines;
    assert (lines + [line])[|lines|] == line;
  }

  /** A failure on the first pages is the outcome of all of them. */
  lemma PagesFailureStays(pages: seq<Page>, row: string -> Option<RawRow>, code: string -> string, k: nat)
    requires k <= |pages| && ExtractAll(Flatten(pages[..k]), row, code).Failure?
    ensures ExtractAll(Flatten(pages), row, code) == ExtractAll(Flatten(pages[..k]), row, code)
  {
    FlattenPrefix(pages, k);
    var all := Flatten(pages);
    assert all[..|Flatten(pages[..k])|] == Flatten(pages[..k]);
    ExtractAllFailureStays(all, row, code, |Flatten(pages[..k])|);
  }

  /** The lines of the first `k` pages are a prefix of all lines. */
  lemma {:induction false} FlattenPrefix(pages: seq<Page>, k: nat)
    requires k <= |pages|
    ensures |Flatten(pages[..k])| <= |Flatten(pages)|
    ensures Flatten(pages)[..|Flatten(pages[..k])|] == Flatten(pages[..k])
    decreases |pages| - k
  {
    if k == |pages| {
      assert pages[..k] == pages;
    } else {
      FlattenPrefix(pages, k + 1);
      FlattenStep(pages, k);
      var a, b := Flatten(pages[..k]), Flatten(pages[..k + 1]);
      assert b[..|a|] == a;
      assert Flatten(pages)[..|a|] == Flatten(pages)[..|b|][..|a|];
    }
  }

  /** A scan of a single line. */
  lemma ExtractOne(line: string, row: string -> Option<RawRow>, code: string -> string)
    ensures ExtractAll([line], row, code) ==
      match row(line)
      case None => Success([])
      case Some(raw) =>
        match Converted(code(raw.code), raw)
        case Failure(e) => Failure(e)
        case Success(p) => Success([p])
  {
    ExtractAllSnoc([], line, row, code);
    assert [] + [line] == [line];
    match row(line)
    case None =>
    case Some(raw) =>
      match Converted(code(raw.code), raw)
      case Failure(e) =>
      case Success(p) => assert [] + [p] == [p];
  }
  /** Every product's code is a normalised code. */
  lemma {:induction false} ExtractAllCodes(lines: seq<string>, row: string -> Option<RawRow>, code: string -> string,
                                           width: nat)
    requires forall s: string :: |code(s)| >= width
    requires ExtractAll(lines, row, code).Success?
    ensures forall p :: p in ExtractAll(lines, row, code).value ==> |p.code| >= width
    decreases |lines|
  {
    if lines != [] {
      ExtractAllCodes(lines[..|lines| - 1], row, code, width);
    }
  }

  /** A row whose quantity `float()` refuses ends the run with that quantity text. */
  lemma BadQuantityAborts(line: string, row: string -> Option<RawRow>, code: string -> string, raw: RawRow)
    requires row(line) == Some(raw) && Truncated(CommasToDots(raw.quantity)).None?
    ensures ExtractAll([line], row, code) == Failure(BadQuantity(CommasToDots(raw.quantity)))
  {
    ExtractOne(line, row, code);
  }
}
