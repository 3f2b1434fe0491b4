/**
 * The table-row layouts the three scripts recognise, each a hand-written
 * recogniser that follows Python's `re.match` on one line:
 *
 *   ledger     `^\d+\s+\d+\s+(\d+)\s+(.*?)\s+(\d+[\d,]*)$`
 *   romaneio   `^\d+\s+\d+\s+(\d+)\s+(.*?)\s+(\d{1,3}(?:,\d{1,4})?)$`
 *   unit       `^\s*\d+\s+(\d+)\s+(.+?)\s+(?:PC|UN|CT|JG|KG|LT|PAR|MT)\s+([\d.,]+)`
 *   orcamento  `^\d+\s+(\d+)\s+(GRAMPO.*?)\s+PC\s+(\d{1,3}(?:,\d{1,4})?)(?:\s+.*)?$`
 *
 * A greedy digit or whitespace run in front of a pattern that cannot start
 * with a character of the same class never gives anything back, so it is its
 * maximal run. The one place where backtracking changes the result is the
 * `\s+` in front of a lazy description group, and `LazyGroup` follows the
 * engine there: the description starts where that whitespace run ends and
 * is as short as possible; when no quantity follows, the whitespace gives
 * back one character at a time and the lazy group is tried again.
 * Lines are the pieces of `text.split("\n")` and hold no line break, so `.`
 * matches every character of a line.
 */
module Layouts {
  import opened Results
  import opened Text
  import opened Quantity

  /** The three groups a row pattern captures: product code, description, quantity text. */
  datatype RawRow = RawRow(code: string, description: string, quantity: string)

  predicate EndsWith(s: string, t: string) {
    |t| <= |s| && s[|s| - |t|..] == t
  }

  // ---------------------------------------------------------------- columns

  /** `\d+\s+` at `i`: where the whitespace after the digit run ends. */
  function DigitsThenSpace(line: string, i: nat): (r: Option<nat>)
    requires i <= |line|
    ensures r.Some? ==> i < RunEnd(line, i, Digit) < r.value <= |line|
    ensures r.Some? ==> Within(Space, line, RunEnd(line, i, Digit), r.value)
    ensures r.Some? ==> r.value == |line| || !IsSpace(line[r.value])
  {
    var a := RunEnd(line, i, Digit);
    var b := RunEnd(line, a, Space);
    if i < a < b then Some(b) else None
  }

  /** `\d+\s+(\d+)` at `i`: the span of the second digit run. */
  function ColumnFrom(line: string, i: nat): (r: Option<(nat, nat)>)
    requires i <= |line|
    ensures r.Some? ==> i < r.value.0 < r.value.1 <= |line| && DigitsThenSpace(line, i).Some?
    ensures r.Some? ==> Within(Digit, line, r.value.0, r.value.1)
    ensures r.Some? ==> r.value.1 == |line| || !IsDigit(line[r.value.1])
  {
    match DigitsThenSpace(line, i)
    case None => None
    case Some(j) =>
      var c := RunEnd(line, j, Digit);
      if j < c then Some((j, c)) else None
  }

  /** `^\d+\s+\d+\s+(\d+)`: the span of the third column of a line. */
  function ThirdColumn(line: string): (r: Option<(nat, nat)>)
    ensures r.Some? ==> 0 < r.value.0 < r.value.1 <= |line| && DigitsThenSpace(line, 0).Some?
    ensures r.Some? ==> Within(Digit, line, r.value.0, r.value.1)
    ensures r.Some? ==> r.value.1 == |line| || !IsDigit(line[r.value.1])
  {
    match DigitsThenSpace(line, 0)
    case None => None
    case Some(i) => ColumnFrom(line, i)
  }

  /** `^\d+\s+(\d+)`: the span of the second column of a line. */
  function SecondColumn(line: string): (r: Option<(nat, nat)>)
    ensures r.Some? ==> 0 < r.value.0 < r.value.1 <= |line|
    ensures r.Some? ==> Within(Digit, line, r.value.0, r.value.1)
  {
    ColumnFrom(line, 0)
  }

  // ---------------------------------------------------------------- quantities

  /** `\d{1,n}` as a whole text. */
  predicate IsDigitRun(s: string, most: nat) {
    0 < |s| <= most && All(Digit, s)
  }

  /** `\d{1,3}(?:,\d{1,4})?` as a whole text: 1 to 3 digits, then optionally a comma and 1 to 4 digits. */
  predicate IsShortDecimal(q: string) {
    IsDigitRun(q, 3) ||
    exists k :: 0 < k < |q| && q[k] == ',' && IsDigitRun(q[..k], 3) && IsDigitRun(q[k + 1..], 4)
  }

  /** `\d+[\d,]*` as a whole text: a digit, then digits and commas. */
  predicate IsLedgerQuantity(q: string) {
    q != [] && IsDigit(q[0]) && All(DigitOrComma, q)
  }

  /**
   * `\d{1,3}(?:,\d{1,4})?` at `f` where the end of the line or a whitespace
   * must follow: where the number ends. A longer digit run makes the bounded
   * repetition stop at a digit, which nothing after it accepts.
   */
  function ShortDecimalEnd(line: string, f: nat): (r: Option<nat>)
    requires f <= |line|
    ensures r.Some? ==> f < r.value <= |line| && IsShortDecimal(line[f..r.value])
    ensures r.Some? ==> Within(DigitOrComma, line, f, r.value)
    ensures r.Some? ==> r.value == |line| || IsSpace(line[r.value])
  {
    var d := RunEnd(line, f, Digit);
    if d == f || d - f > 3 then None
    else if d < |line| && line[d] == ',' then
      var g := RunEnd(line, d + 1, Digit);
      if g == d + 1 || g - d - 1 > 4 then None
      else if g == |line| || IsSpace(line[g]) then
        CommaDecimalAt(line, f, d, g);
        Some(g)
      else None
    else if d == |line| || IsSpace(line[d]) then
      WholeDecimalAt(line, f, d);
      Some(d)
    else None
  }

  /** 1 to 3 digits at `f..d` are a short decimal. */
  lemma WholeDecimalAt(line: string, f: nat, d: nat)
    requires f < d <= f + 3 && d <= |line| && Within(Digit, line, f, d)
    ensures IsShortDecimal(line[f..d]) && Within(DigitOrComma, line, f, d)
  {
    WithinAll(line, f, d, Digit);
  }

  /** 1 to 3 digits at `f..d`, a comma and 1 to 4 digits at `d + 1..g` are a short decimal. */
  lemma CommaDecimalAt(line: string, f: nat, d: nat, g: nat)
    requires f < d <= f + 3 && d + 1 < g <= d + 5 && g <= |line| && line[d] == ','
    requires Within(Digit, line, f, d) && Within(Digit, line, d + 1, g)
    ensures IsShortDecimal(line[f..g]) && Within(DigitOrComma, line, f, g)
  {
    var q := line[f..g];
    WithinAll(line, f, d, Digit);
    WithinAll(line, d + 1, g, Digit);
    assert q[d - f] == ',' && q[..d - f] == line[f..d] && q[d - f + 1..] == line[d + 1..g];
  }

  /** `\s+(\d+[\d,]*)$` at `e`: the quantity of a ledger row. */
  function LedgerQuantityAt(line: string, e: nat): (r: Option<string>)
    ensures r.Some? ==> IsLedgerQuantity(r.value) && EndsWith(line, r.value)
  {
    if e >= |line| || !IsSpace(line[e]) then None
    else
      var f := RunEnd(line, e, Space);
      if f < |line| && IsDigit(line[f]) && RunEnd(line, f, DigitOrComma) == |line| then Some(line[f..])
      else None
  }

  /** `\s+(\d{1,3}(?:,\d{1,4})?)$` at `e`: the quantity of a romaneio row. */
  function RomaneioQuantityAt(line: string, e: nat): (r: Option<string>)
    ensures r.Some? ==> IsShortDecimal(r.value) && EndsWith(line, r.value)
  {
    if e >= |line| || !IsSpace(line[e]) then None
    else
      var f := RunEnd(line, e, Space);
      if ShortDecimalEnd(line, f) == Some(|line|) then Some(line[f..]) else None
  }

  /** The unit alternatives, in the order the engine tries them. */
  const UnitTokens: seq<string> := ["PC", "UN", "CT", "JG", "KG", "LT", "PAR", "MT"]

  /** One of the unit tokens occurs in `s` at `f`. */
  predicate UnitStartsAt(s: string, f: nat) {
    exists k :: 0 <= k < |UnitTokens| && StartsAt(s, UnitTokens[k], f)
  }

  /** `\s+([\d.,]+)` at `u`, after the unit token. */
  function AfterUnit(line: string, u: nat): (r: Option<string>)
    ensures r.Some? ==> r.value != [] && All(DigitDotComma, r.value)
  {
    if u >= |line| || !IsSpace(line[u]) then None
    else
      var g := RunEnd(line, u, Space);
      var h := RunEnd(line, g, DigitDotComma);
      if g < h then Some(line[g..h]) else None
  }

  /** The alternatives from the `k`-th on, each followed by `AfterUnit`, tried in order at `f`. */
  function UnitFrom(line: string, f: nat, k: nat): (r: Option<string>)
    requires k <= |UnitTokens|
    ensures r.Some? ==> r.value != [] && All(DigitDotComma, r.value)
    ensures r.Some? ==> exists j :: k <= j < |UnitTokens| && StartsAt(line, UnitTokens[j], f)
    decreases |UnitTokens| - k
  {
    if k == |UnitTokens| then None
    else if StartsAt(line, UnitTokens[k], f) && AfterUnit(line, f + |UnitTokens[k]|).Some? then
      AfterUnit(line, f + |UnitTokens[k]|)
    else UnitFrom(line, f, k + 1)
  }

  /** `\s+(?:PC|UN|CT|JG|KG|LT|PAR|MT)\s+([\d.,]+)` at `e`: the quantity of a unit row. */
  function UnitQuantityAt(line: string, e: nat): (r: Option<string>)
    ensures r.Some? ==> r.value != [] && All(DigitDotComma, r.value)
    ensures r.Some? ==> e < |line| && IsSpace(line[e]) && UnitStartsAt(line, RunEnd(line, e, Space))
  {
    if e >= |line| || !IsSpace(line[e]) then None
    else UnitFrom(line, RunEnd(line, e, Space), 0)
  }

  /** `\s+PC\s+(\d{1,3}(?:,\d{1,4})?)(?:\s+.*)?$` at `e`: the quantity of an orcamento row. */
  function OrcamentoQuantityAt(line: string, e: nat): (r: Option<string>)
    ensures r.Some? ==> IsShortDecimal(r.value)
    ensures r.Some? ==> e < |line| && IsSpace(line[e]) && StartsAt(line, "PC", RunEnd(line, e, Space))
  {
    if e >= |line| || !IsSpace(line[e]) then None
    else
      var f := RunEnd(line, e, Space);
      if !StartsAt(line, "PC", f) || f + 2 == |line| || !IsSpace(line[f + 2]) then None
      else
        var g := RunEnd(line, f + 2, Space);
        match ShortDecimalEnd(line, g)
        case None => None
        case Some(h) => Some(line[g..h])
  }

  // ---------------------------------------------------------------- the lazy description group

  /**
   * A lazy group of at least `minLen` characters starting at `s`, followed by
   * the pattern `at`; when none is found, the greedy `\s+` that ends at `s`
   * gives back a character (down to one character after `q`) and the group is
   * tried again. The result is the group's span.
   */
  function LazyGroup(at: (string, nat) -> Option<string>, line: string, q: nat, s: nat, minLen: nat): (r: Option<(nat, nat)>)
    requires q < s <= |line|
    ensures r.Some? ==> q < r.value.0 <= s && r.value.0 + minLen <= r.value.1 <= |line|
    ensures r.Some? ==> at(line, r.value.1).Some?
    decreases s
  {
    var found := if s + minLen <= |line| then Leftmost(at, line, s + minLen) else None;
    match found
    case Some(e) => Some((s, e))
    case None => if s - 1 > q then LazyGroup(at, line, q, s - 1, minLen) else None
  }

  /**
   * `\s+(lazy group)` and the quantity pattern `at`, after the code column
   * `span`: the row the three groups make.
   */
  function CodeThenLazy(at: (string, nat) -> Option<string>, line: string, span: Option<(nat, nat)>, minLen: nat): (r: Option<RawRow>)
    requires span.Some? ==> span.value.0 <= span.value.1 <= |line|
    ensures r.Some? ==> span.Some? && r.value.code == line[span.value.0..span.value.1]
    ensures r.Some? ==> |r.value.description| >= minLen
    ensures r.Some? ==> exists e :: 0 <= e <= |line| && at(line, e) == Some(r.value.quantity)
  {
    match span
    case None => None
    case Some((b, c)) =>
      if c == |line| || !IsSpace(line[c]) then None
      else
        match LazyGroup(at, line, c, RunEnd(line, c, Space), minLen)
        case None => None
        case Some((s, e)) => Some(RawRow(line[b..c], line[s..e], at(line, e).value))
  }

  // ---------------------------------------------------------------- the four layouts

  /** The ledger row of tags_clean.py: index, index, code, description, quantity at the end. */
  function LedgerRow(line: string): (r: Option<RawRow>)
    ensures r.Some? ==> r.value.code != [] && All(Digit, r.value.code)
    ensures r.Some? ==> ThirdColumn(line).Some?
    ensures r.Some? ==> r.value.code == line[ThirdColumn(line).value.0..ThirdColumn(line).value.1]
    ensures r.Some? ==> IsLedgerQuantity(r.value.quantity) && EndsWith(line, r.value.quantity)
  {
    var r := CodeThenLazy(LedgerQuantityAt, line, ThirdColumn(line), 0);
    if r.Some? then
      WithinAll(line, ThirdColumn(line).value.0, ThirdColumn(line).value.1, Digit);
      LedgerQuantityFound(line, r.value.quantity);
      r
    else r
  }

  /** A quantity the ledger pattern finds somewhere in the line ends the line. */
  lemma LedgerQuantityFound(line: string, q: string)
    requires exists e :: 0 <= e <= |line| && LedgerQuantityAt(line, e) == Some(q)
    ensures IsLedgerQuantity(q) && EndsWith(line, q)
  {
    var e :| 0 <= e <= |line| && LedgerQuantityAt(line, e) == Some(q);
  }

  /** The romaneio row: like the ledger row, with a short decimal quantity at the end. */
  function RomaneioRow(line: string): (r: Option<RawRow>)
    ensures r.Some? ==> r.value.code != [] && All(Digit, r.value.code)
    ensures r.Some? ==> ThirdColumn(line).Some?
    ensures r.Some? ==> IsShortDecimal(r.value.quantity) && EndsWith(line, r.value.quantity)
  {
    CodeThenLazy(RomaneioQuantityAt, line, ThirdColumn(line), 0)
  }

  /** The unit row of tags_clean2.py: optional indentation, index, code, description, unit, quantity. */
  function UnitRow(line: string): (r: Option<RawRow>)
    ensures r.Some? ==> r.value.code != [] && All(Digit, r.value.code)
    ensures r.Some? ==> ColumnFrom(line, RunEnd(line, 0, Space)).Some?
    ensures r.Some? ==> r.value.description != []
    ensures r.Some? ==> r.value.quantity != [] && All(DigitDotComma, r.value.quantity)
  {
    var span := ColumnFrom(line, RunEnd(line, 0, Space));
    var r := CodeThenLazy(UnitQuantityAt, line, span, 1);
    if r.Some? then
      WithinAll(line, span.value.0, span.value.1, Digit);
      UnitQuantityFound(line, r.value.quantity);
      r
    else r
  }

  /** A quantity the unit pattern finds somewhere in the line is made of digits, dots and commas. */
  lemma UnitQuantityFound(line: string, q: string)
    requires exists e :: 0 <= e <= |line| && UnitQuantityAt(line, e) == Some(q)
    ensures q != [] && All(DigitDotComma, q)
  {
    var e :| 0 <= e <= |line| && UnitQuantityAt(line, e) == Some(q);
  }

  /**
   * The orcamento row of tags_excel.py: index, code, a description starting
   * with "GRAMPO", the unit "PC", a short decimal and optional trailing text.
   * The `\s+` before "GRAMPO" cannot give anything back (a whitespace is not a
   * "G"), so the description starts where that run ends.
   */
  function OrcamentoRow(line: string): (r: Option<RawRow>)
    ensures r.Some? ==> r.value.code != [] && All(Digit, r.value.code)
    ensures r.Some? ==> SecondColumn(line).Some?
    ensures r.Some? ==> StartsAt(r.value.description, "GRAMPO", 0)
    ensures r.Some? ==> IsShortDecimal(r.value.quantity)
  {
    match ColumnFrom(line, 0)
    case None => None
    case Some((b, c)) => GrampoRow(line, b, c)
  }

  /** `\s+(GRAMPO.*?)` and the orcamento quantity, after the code column `b..c`. */
  function GrampoRow(line: string, b: nat, c: nat): (r: Option<RawRow>)
    requires b <= c <= |line|
    ensures r.Some? ==> r.value.code == line[b..c]
    ensures r.Some? ==> StartsAt(r.value.description, "GRAMPO", 0)
    ensures r.Some? ==> IsShortDecimal(r.value.quantity)
  {
    if c == |line| || !IsSpace(line[c]) then None
    else
      var s := RunEnd(line, c, Space);
      if !StartsAt(line, "GRAMPO", s) then None
      else
        match Leftmost(OrcamentoQuantityAt, line, s + 6)
        case None => None
        case Some(e) =>
          StartsAtInSlice(line, s, e, s, "GRAMPO");
          Some(RawRow(line[b..c], line[s..e], OrcamentoQuantityAt(line, e).value))
  }

  // ---------------------------------------------------------------- converting quantities

  /** A ledger quantity converts exactly when it has one comma at most; two commas make `float()` raise. */
  lemma LedgerQuantityConverts(q: string)
    requires IsLedgerQuantity(q)
    ensures Truncated(CommasToDots(q)).Some? <==> Count(',', q) <= 1
  {
    assert All(DigitDotComma, q);
    CountNone('.', q);
    ReplacedConverts(q);
  }

  /** A short decimal always converts. */
  lemma ShortDecimalConverts(q: string)
    requires IsShortDecimal(q)
    ensures Truncated(CommasToDots(q)).Some?
  {
    if IsDigitRun(q, 3) {
      WholeConverts(q);
    } else {
      var k :| 0 < k < |q| && q[k] == ',' && IsDigitRun(q[..k], 3) && IsDigitRun(q[k + 1..], 4);
      assert q == q[..k] + "," + q[k + 1..];
      CommaDecimalConverts(q[..k], q[k + 1..]);
    }
  }

  /** A unit-row quantity written with a thousands dot and a decimal comma makes `float()` raise. */
  lemma ThousandsSeparatorRejected()
    ensures CommasToDots("1.234,5") == "1.234.5" && Truncated("1.234.5").None?
  {
    assert CommasToDots("1.234,5") == "1" + "." + "234" + "." + "5";
    TwoDotsRejected("1", "234", "5");
  }

  // ---------------------------------------------------------------- rows that the layouts read

  /** The three leading columns at the positions where their runs end. */
  lemma ThirdColumnIs(line: string, a1: nat, b1: nat, a2: nat, b2: nat, c: nat)
    requires 0 < a1 < b1 < a2 < b2 < c <= |line|
    requires Within(Digit, line, 0, a1) && Within(Space, line, a1, b1) && Within(Digit, line, b1, a2)
    requires Within(Space, line, a2, b2) && Within(Digit, line, b2, c)
    requires c == |line| || !IsDigit(line[c])
    ensures ThirdColumn(line) == Some((b2, c))
  {
    RunEndIs(line, 0, a1, Digit);
    RunEndIs(line, a1, b1, Space);
    RunEndIs(line, b1, a2, Digit);
    RunEndIs(line, a2, b2, Space);
    RunEndIs(line, b2, c, Digit);
  }

  /** The code column and its whitespace, then the lazy group up to the first position where `at` matches. */
  lemma CodeThenLazyIs(at: (string, nat) -> Option<string>, line: string, b: nat, c: nat, s: nat, e: nat, minLen: nat)
    requires b <= c < s && s + minLen <= e <= |line|
    requires Within(Space, line, c, s) && (s == |line| || !IsSpace(line[s]))
    requires at(line, e).Some? && forall m :: s + minLen <= m < e ==> at(line, m).None?
    ensures CodeThenLazy(at, line, Some((b, c)), minLen) == Some(RawRow(line[b..c], line[s..e], at(line, e).value))
  {
    RunEndIs(line, c, s, Space);
    LeftmostIs(at, line, s + minLen, e);
  }

  /**
   * Inside a description that ends with a non-space at `e - 1` and is followed
   * by whitespace at `e`, an end-anchored ledger quantity cannot start: the
   * text after any inner whitespace still holds the whitespace at `e`.
   */
  lemma LedgerQuantityOnlyAtGap(line: string, s: nat, e: nat)
    requires s < e < |line| && !IsSpace(line[e - 1]) && IsSpace(line[e])
    ensures forall m :: s <= m < e ==> LedgerQuantityAt(line, m).None?
  {
    forall m | s <= m < e
      ensures LedgerQuantityAt(line, m).None?
    {
      if IsSpace(line[m]) {
        var f := RunEnd(line, m, Space);
        assert !InClass(Space, line[e - 1]);
        assert f < e;
        assert !InClass(DigitOrComma, line[e]);
        assert RunEnd(line, f, DigitOrComma) <= e;
      }
    }
  }

  /** The same for the end-anchored romaneio quantity. */
  lemma RomaneioQuantityOnlyAtGap(line: string, s: nat, e: nat)
    requires s < e < |line| && !IsSpace(line[e - 1]) && IsSpace(line[e])
    ensures forall m :: s <= m < e ==> RomaneioQuantityAt(line, m).None?
  {
    forall m | s <= m < e
      ensures RomaneioQuantityAt(line, m).None?
    {
      if IsSpace(line[m]) {
        var f := RunEnd(line, m, Space);
        assert !InClass(Space, line[e - 1]);
        assert f < e;
        assert !InClass(DigitOrComma, line[e]);
        assert ShortDecimalEnd(line, f) != Some(|line|);
      }
    }
  }

  /** Positions of a ledger row whose description `s..e` is non-empty and trimmed. */
  lemma LedgerRowAt(line: string, b: nat, c: nat, s: nat, e: nat)
    requires ThirdColumn(line) == Some((b, c))
    requires c < s < e < |line| && Within(Space, line, c, s) && !IsSpace(line[s]) && !IsSpace(line[e - 1])
    requires LedgerQuantityAt(line, e).Some?
    ensures LedgerRow(line) == Some(RawRow(line[b..c], line[s..e], LedgerQuantityAt(line, e).value))
  {
    LedgerQuantityOnlyAtGap(line, s, e);
    CodeThenLazyIs(LedgerQuantityAt, line, b, c, s, e, 0);
  }

  /** Positions of a romaneio row whose description `s..e` is non-empty and trimmed. */
  lemma RomaneioRowAt(line: string, b: nat, c: nat, s: nat, e: nat)
    requires ThirdColumn(line) == Some((b, c))
    requires c < s < e < |line| && Within(Space, line, c, s) && !IsSpace(line[s]) && !IsSpace(line[e - 1])
    requires RomaneioQuantityAt(line, e).Some?
    ensures RomaneioRow(line) == Some(RawRow(line[b..c], line[s..e], RomaneioQuantityAt(line, e).value))
  {
    RomaneioQuantityOnlyAtGap(line, s, e);
    CodeThenLazyIs(RomaneioQuantityAt, line, b, c, s, e, 0);
  }
  /** A non-empty digit run and a non-empty whitespace run, as whole texts. */
  predicate IsDigits(s: string) { s != [] && All(Digit, s) }
  predicate IsSpaces(s: string) { s != [] && All(Space, s) }

  /** Index facts of a line built from the leading columns, the code and the rest. */
  lemma ColumnsShape(line: string, n1: string, w1: string, n2: string, w2: string, code: string, rest: string,
                     a1: nat, b1: nat, a2: nat, b2: nat, c: nat)
    requires line == n1 + w1 + n2 + w2 + code + rest
    requires IsDigits(n1) && IsSpaces(w1) && IsDigits(n2) && IsSpaces(w2) && IsDigits(code)
    requires a1 == |n1| && b1 == a1 + |w1| && a2 == b1 + |n2| && b2 == a2 + |w2| && c == b2 + |code|
    ensures 0 < a1 < b1 < a2 < b2 < c <= |line|
    ensures Within(Digit, line, 0, a1) && Within(Space, line, a1, b1) && Within(Digit, line, b1, a2)
    ensures Within(Space, line, a2, b2) && Within(Digit, line, b2, c)
    ensures line[b2..c] == code && line[c..] == rest
  {
    var h1, h2, h3, h4 := n1 + w1, n1 + w1 + n2, n1 + w1 + n2 + w2, n1 + w1 + n2 + w2 + code;
    assert line[..c] == h4 && line[c..] == rest;
    assert h4[..b2] == h3 && h3[..a2] == h2 && h2[..b1] == h1 && h1[..a1] == n1;
    SliceWithin(line, b2, c, code, Digit);
    SliceWithin(line, a2, b2, w2, Space);
    SliceWithin(line, b1, a2, n2, Digit);
    SliceWithin(line, a1, b1, w1, Space);
    SliceWithin(line, 0, a1, n1, Digit);
  }
  /** Index facts of `rest == w + piece + more` found at `c` in the line. */
  lemma GapShape(line: string, c: nat, rest: string, w: string, piece: string, more: string, s: nat, e: nat)
    requires c <= |line| && line[c..] == rest && rest == w + piece + more
    requires All(Space, w) && s == c + |w| && e == s + |piece|
    ensures e <= |line| && Within(Space, line, c, s)
    ensures line[s..e] == piece && line[e..] == more
  {
    assert rest[..|w|] == w && rest[|w|..] == piece + more;
    assert line[c..s] == w;
    SliceWithin(line, c, s, w, Space);
  }

  lemma LedgerQuantityIs(line: string, e: nat, f: nat)
    requires e < f < |line| && Within(Space, line, e, f) && IsLedgerQuantity(line[f..])
    ensures LedgerQuantityAt(line, e) == Some(line[f..])
  {
    assert line[f..][0] == line[f];
    RunEndIs(line, e, f, Space);
    assert forall m :: f <= m < |line| ==> line[m] == line[f..][m - f];
    RunEndIs(line, f, |line|, DigitOrComma);
  }

  /** `ShortDecimalEnd` finds every short decimal that the end of the line or a whitespace follows. */
  lemma ShortDecimalEndIs(line: string, f: nat, g: nat)
    requires f < g <= |line| && IsShortDecimal(line[f..g]) && (g == |line| || IsSpace(line[g]))
    ensures ShortDecimalEnd(line, f) == Some(g)
  {
    var q := line[f..g];
    if IsDigitRun(q, 3) {
      WholeDecimalEndIs(line, f, g);
    } else {
      var k :| 0 < k < |q| && q[k] == ',' && IsDigitRun(q[..k], 3) && IsDigitRun(q[k + 1..], 4);
      CommaDecimalEndIs(line, f, g, k);
    }
  }

  lemma WholeDecimalEndIs(line: string, f: nat, g: nat)
    requires f < g <= |line| && IsDigitRun(line[f..g], 3) && (g == |line| || IsSpace(line[g]))
    ensures ShortDecimalEnd(line, f) == Some(g)
  {
    SliceWithin(line, f, g, line[f..g], Digit);
    RunEndIs(line, f, g, Digit);
  }

  lemma CommaDecimalEndIs(line: string, f: nat, g: nat, k: nat)
    requires f < g <= |line| && 0 < k < g - f
    requires line[f..g][k] == ',' && IsDigitRun(line[f..g][..k], 3) && IsDigitRun(line[f..g][k + 1..], 4)
    requires g == |line| || IsSpace(line[g])
    ensures ShortDecimalEnd(line, f) == Some(g)
  {
    var d := f + k;
    assert line[f..g][..k] == line[f..d] && line[f..g][k + 1..] == line[d + 1..g];
    SliceWithin(line, f, d, line[f..d], Digit);
    SliceWithin(line, d + 1, g, line[d + 1..g], Digit);
    RunEndIs(line, f, d, Digit);
    RunEndIs(line, d + 1, g, Digit);
  }

  lemma RomaneioQuantityIs(line: string, e: nat, f: nat)
    requires e < f < |line| && Within(Space, line, e, f) && IsShortDecimal(line[f..])
    ensures RomaneioQuantityAt(line, e) == Some(line[f..])
  {
    RunEndIs(line, e, f, Space);
    assert line[f..|line|] == line[f..];
    ShortDecimalEndIs(line, f, |line|);
  }

  /** Index facts of a line built from two index columns, the code, a description and a quantity. */
  lemma RowShape(line: string, n1: string, w1: string, n2: string, w2: string, code: string,
                 rest: string, w3: string, desc: string, w4: string, qty: string,
                 a1: nat, b1: nat, a2: nat, b2: nat, c: nat, s: nat, e: nat, f: nat)
    requires line == n1 + w1 + n2 + w2 + code + rest && rest == w3 + desc + w4 + qty
    requires IsDigits(n1) && IsSpaces(w1) && IsDigits(n2) && IsSpaces(w2) && IsDigits(code)
    requires IsSpaces(w3) && desc != [] && IsTrimmed(desc) && IsSpaces(w4) && qty != []
    requires a1 == |n1| && b1 == a1 + |w1| && a2 == b1 + |n2| && b2 == a2 + |w2| && c == b2 + |code|
    requires s == c + |w3| && e == s + |desc| && f == e + |w4|
    ensures 0 < a1 < b1 < a2 < b2 < c < s < e < f < |line|
    ensures Within(Digit, line, 0, a1) && Within(Space, line, a1, b1) && Within(Digit, line, b1, a2)
    ensures Within(Space, line, a2, b2) && Within(Digit, line, b2, c)
    ensures Within(Space, line, c, s) && Within(Space, line, e, f)
    ensures !IsDigit(line[c]) && !IsSpace(line[s]) && !IsSpace(line[e - 1])
    ensures line[b2..c] == code && line[s..e] == desc && line[f..] == qty
  {
    ColumnsShape(line, n1, w1, n2, w2, code, rest, a1, b1, a2, b2, c);
    GapShape(line, c, rest, w3, desc, w4 + qty, s, e);
    GapShape(line, e, w4 + qty, w4, qty, [], f, f + |qty|);
    assert line[c] == w3[0] && line[s] == desc[0] && line[e - 1] == desc[|desc| - 1];
  }

  /** Positions of a ledger row, from the first column to the quantity at `f`. */
  lemma LedgerRowPositions(line: string, a1: nat, b1: nat, a2: nat, b2: nat, c: nat, s: nat, e: nat, f: nat)
    requires 0 < a1 < b1 < a2 < b2 < c < s < e < f < |line|
    requires Within(Digit, line, 0, a1) && Within(Space, line, a1, b1) && Within(Digit, line, b1, a2)
    requires Within(Space, line, a2, b2) && Within(Digit, line, b2, c)
    requires Within(Space, line, c, s) && Within(Space, line, e, f)
    requires !IsDigit(line[c]) && !IsSpace(line[s]) && !IsSpace(line[e - 1])
    requires IsLedgerQuantity(line[f..])
    ensures LedgerRow(line) == Some(RawRow(line[b2..c], line[s..e], line[f..]))
  {
    ThirdColumnIs(line, a1, b1, a2, b2, c);
    LedgerQuantityIs(line, e, f);
    LedgerRowAt(line, b2, c, s, e);
  }

  /** Positions of a romaneio row, from the first column to the quantity at `f`. */
  lemma RomaneioRowPositions(line: string, a1: nat, b1: nat, a2: nat, b2: nat, c: nat, s: nat, e: nat, f: nat)
    requires 0 < a1 < b1 < a2 < b2 < c < s < e < f < |line|
    requires Within(Digit, line, 0, a1) && Within(Space, line, a1, b1) && Within(Digit, line, b1, a2)
    requires Within(Space, line, a2, b2) && Within(Digit, line, b2, c)
    requires Within(Space, line, c, s) && Within(Space, line, e, f)
    requires !IsDigit(line[c]) && !IsSpace(line[s]) && !IsSpace(line[e - 1])
    requires IsShortDecimal(line[f..])
    ensures RomaneioRow(line) == Some(RawRow(line[b2..c], line[s..e], line[f..]))
  {
    ThirdColumnIs(line, a1, b1, a2, b2, c);
    RomaneioQuantityIs(line, e, f);
    RomaneioRowAt(line, b2, c, s, e);
  }

  /**
   * A line made of two index columns, the code, a non-empty trimmed
   * description and a ledger quantity, separated by whitespace runs, is read
   * as that row: the description comes back whole, with no whitespace around it.
   */
  lemma LedgerRowRecognised(line: string, n1: string, w1: string, n2: string, w2: string, code: string,
                            rest: string, w3: string, desc: string, w4: string, qty: string)
    requires line == n1 + w1 + n2 + w2 + code + rest && rest == w3 + desc + w4 + qty
    requires IsDigits(n1) && IsSpaces(w1) && IsDigits(n2) && IsSpaces(w2) && IsDigits(code)
    requires IsSpaces(w3) && desc != [] && IsTrimmed(desc) && IsSpaces(w4) && IsLedgerQuantity(qty)
    ensures LedgerRow(line) == Some(RawRow(code, desc, qty))
  {
    var a1, b1 := |n1|, |n1| + |w1|;
    var a2, b2 := b1 + |n2|, b1 + |n2| + |w2|;
    var c := b2 + |code|;
    var s, e := c + |w3|, c + |w3| + |desc|;
    var f := e + |w4|;
    RowShape(line, n1, w1, n2, w2, code, rest, w3, desc, w4, qty, a1, b1, a2, b2, c, s, e, f);
    LedgerRowPositions(line, a1, b1, a2, b2, c, s, e, f);
  }

  /** The same for a romaneio row and its short decimal quantity. */
  lemma RomaneioRowRecognised(line: string, n1: string, w1: string, n2: string, w2: string, code: string,
                              rest: string, w3: string, desc: string, w4: string, qty: string)
    requires line == n1 + w1 + n2 + w2 + code + rest && rest == w3 + desc + w4 + qty
    requires IsDigits(n1) && IsSpaces(w1) && IsDigits(n2) && IsSpaces(w2) && IsDigits(code)
    requires IsSpaces(w3) && desc != [] && IsTrimmed(desc) && IsSpaces(w4) && IsShortDecimal(qty)
    ensures RomaneioRow(line) == Some(RawRow(code, desc, qty))
  {
    var a1, b1 := |n1|, |n1| + |w1|;
    var a2, b2 := b1 + |n2|, b1 + |n2| + |w2|;
    var c := b2 + |code|;
    var s, e := c + |w3|, c + |w3| + |desc|;
    var f := e + |w4|;
    RowShape(line, n1, w1, n2, w2, code, rest, w3, desc, w4, qty, a1, b1, a2, b2, c, s, e, f);
    RomaneioRowPositions(line, a1, b1, a2, b2, c, s, e, f);
  }
  // ---------------------------------------------------------------- the unit and orcamento layouts

  /** No unit token right after a whitespace inside a description. */
  predicate NoUnitAfterSpace(desc: string) {
    forall i :: 0 < i < |desc| && IsSpace(desc[i - 1]) ==> !UnitStartsAt(desc, i)
  }

  /** No "PC" right after a whitespace inside a description. */
  predicate NoPcAfterSpace(desc: string) {
    forall i :: 0 < i < |desc| && IsSpace(desc[i - 1]) ==> !StartsAt(desc, "PC", i)
  }

  lemma UnitTokensAreWords(k: nat)
    requires k < |UnitTokens|
    ensures All(NonSpace, UnitTokens[k]) && |UnitTokens[k]| >= 2
  {
  }

  /** The unit tokens differ in their first two characters, so two of them never occur at one position. */
  lemma OtherUnitAbsent(line: string, f: nat, i: nat, j: nat)
    requires i < |UnitTokens| && j < |UnitTokens| && i != j
    requires StartsAt(line, UnitTokens[j], f)
    ensures !StartsAt(line, UnitTokens[i], f)
  {
    assert line[f] == UnitTokens[j][0] && line[f + 1] == UnitTokens[j][1];
  }

  lemma {:induction false} UnitFromIs(line: string, f: nat, k: nat, j: nat, u: nat)
    requires k <= j < |UnitTokens| && StartsAt(line, UnitTokens[j], f)
    requires u == f + |UnitTokens[j]| && AfterUnit(line, u).Some?
    ensures UnitFrom(line, f, k) == AfterUnit(line, u)
    decreases j - k
  {
    if k < j {
      OtherUnitAbsent(line, f, k, j);
      UnitFromIs(line, f, k + 1, j, u);
    }
  }


  /**
   * A word that does not occur at `f - s` in the description `line[s..e]`
   * does not occur at `f` in the line either, when whitespace follows the
   * description: the word holds no whitespace, so it cannot reach past `e`.
   */
  lemma WordNotInside(line: string, s: nat, e: nat, f: nat, t: string)
    requires s < f < e < |line| && IsSpace(line[e]) && All(NonSpace, t)
    requires !StartsAt(line[s..e], t, f - s)
    ensures !StartsAt(line, t, f)
  {
    if f + |t| <= e {
      StartsAtInSlice(line, s, e, f, t);
    } else if f + |t| <= |line| {
      assert line[f..f + |t|][e - f] == line[e];
      assert !IsSpace(t[e - f]);
    }
  }

  lemma UnitQuantityOnlyAtGap(line: string, s: nat, e: nat)
    requires s < e < |line| && !IsSpace(line[e - 1]) && IsSpace(line[e])
    requires NoUnitAfterSpace(line[s..e])
    ensures forall m :: s < m < e ==> UnitQuantityAt(line, m).None?
  {
    forall m | s < m < e
      ensures UnitQuantityAt(line, m).None?
    {
      if IsSpace(line[m]) {
        var f := RunEnd(line, m, Space);
        assert !InClass(Space, line[e - 1]);
        assert m < f < e && IsSpace(line[f - 1]);
        assert line[s..e][f - s - 1] == line[f - 1];
        assert !UnitStartsAt(line[s..e], f - s);
        forall k | 0 <= k < |UnitTokens|
          ensures !StartsAt(line, UnitTokens[k], f)
        {
          UnitTokensAreWords(k);
          WordNotInside(line, s, e, f, UnitTokens[k]);
        }
      }
    }
  }

  lemma PcOnlyAtGap(line: string, s: nat, e: nat)
    requires s < e < |line| && !IsSpace(line[e - 1]) && IsSpace(line[e])
    requires NoPcAfterSpace(line[s..e])
    ensures forall m :: s < m < e ==> OrcamentoQuantityAt(line, m).None?
  {
    forall m | s < m < e
      ensures OrcamentoQuantityAt(line, m).None?
    {
      if IsSpace(line[m]) {
        var f := RunEnd(line, m, Space);
        assert !InClass(Space, line[e - 1]);
        assert m < f < e && IsSpace(line[f - 1]);
        assert line[s..e][f - s - 1] == line[f - 1];
        WordNotInside(line, s, e, f, "PC");
      }
    }
  }

  lemma AfterUnitIs(line: string, u: nat, g: nat, h: nat)
    requires u < g < h <= |line| && Within(Space, line, u, g)
    requires Within(DigitDotComma, line, g, h) && (h == |line| || !InClass(DigitDotComma, line[h]))
    ensures AfterUnit(line, u) == Some(line[g..h])
  {
    RunEndIs(line, u, g, Space);
    RunEndIs(line, g, h, DigitDotComma);
  }

  lemma UnitQuantityIs(line: string, e: nat, f: nat, k: nat, u: nat, g: nat, h: nat)
    requires k < |UnitTokens| && u == f + |UnitTokens[k]| && e < f && u < g < h <= |line|
    requires Within(Space, line, e, f) && StartsAt(line, UnitTokens[k], f) && Within(Space, line, u, g)
    requires Within(DigitDotComma, line, g, h) && (h == |line| || !InClass(DigitDotComma, line[h]))
    ensures UnitQuantityAt(line, e) == Some(line[g..h])
  {
    UnitQuantityFrom(line, e, f, k);
    AfterUnitIs(line, u, g, h);
    UnitFromIs(line, f, 0, k, u);
  }

  lemma UnitQuantityFrom(line: string, e: nat, f: nat, k: nat)
    requires k < |UnitTokens| && e < f <= |line| && Within(Space, line, e, f) && StartsAt(line, UnitTokens[k], f)
    ensures UnitQuantityAt(line, e) == UnitFrom(line, f, 0)
  {
    UnitFirstLetter(line, f, k);
    RunEndIs(line, e, f, Space);
  }

  lemma UnitFirstLetter(line: string, f: nat, k: nat)
    requires k < |UnitTokens| && StartsAt(line, UnitTokens[k], f)
    ensures f < |line| && !IsSpace(line[f])
  {
    UnitTokensAreWords(k);
    assert line[f..f + |UnitTokens[k]|][0] == line[f];
  }


  lemma ShortDecimalStartsWithDigit(q: string)
    requires IsShortDecimal(q)
    ensures q != [] && IsDigit(q[0])
  {
    if !IsDigitRun(q, 3) {
      var k :| 0 < k < |q| && q[k] == ',' && IsDigitRun(q[..k], 3) && IsDigitRun(q[k + 1..], 4);
      assert q[..k][0] == q[0];
    }
  }

  lemma OrcamentoQuantityIs(line: string, e: nat, f: nat, g: nat, h: nat)
    requires e < f && f + 2 < g < h <= |line|
    requires Within(Space, line, e, f) && StartsAt(line, "PC", f) && Within(Space, line, f + 2, g)
    requires IsShortDecimal(line[g..h]) && (h == |line| || IsSpace(line[h]))
    ensures OrcamentoQuantityAt(line, e) == Some(line[g..h])
  {
    assert line[f] == "PC"[0];
    RunEndIs(line, e, f, Space);
    ShortDecimalStartsWithDigit(line[g..h]);
    assert line[g..h][0] == line[g];
    RunEndIs(line, f + 2, g, Space);
    ShortDecimalEndIs(line, g, h);
  }

  /** The indentation, index column and code column of a unit row at the positions where their runs end. */
  lemma IndentedColumnIs(line: string, i0: nat, a1: nat, b1: nat, c: nat)
    requires i0 < a1 < b1 < c <= |line|
    requires Within(Space, line, 0, i0) && Within(Digit, line, i0, a1) && Within(Space, line, a1, b1)
    requires Within(Digit, line, b1, c) && (c == |line| || !IsDigit(line[c]))
    ensures RunEnd(line, 0, Space) == i0 && ColumnFrom(line, i0) == Some((b1, c))
  {
    RunEndIs(line, 0, i0, Space);
    RunEndIs(line, i0, a1, Digit);
    RunEndIs(line, a1, b1, Space);
    RunEndIs(line, b1, c, Digit);
  }

  /** Positions of a unit row, from the indentation to the quantity `g..h`. */
  lemma UnitRowPositions(line: string, i0: nat, a1: nat, b1: nat, c: nat, s: nat, e: nat, f: nat, k: nat, g: nat, h: nat)
    requires i0 < a1 < b1 < c < s < e < f && k < |UnitTokens| && f + |UnitTokens[k]| < g < h <= |line|
    requires Within(Space, line, 0, i0) && Within(Digit, line, i0, a1) && Within(Space, line, a1, b1)
    requires Within(Digit, line, b1, c) && Within(Space, line, c, s) && Within(Space, line, e, f)
    requires !IsSpace(line[s]) && !IsSpace(line[e - 1]) && NoUnitAfterSpace(line[s..e])
    requires StartsAt(line, UnitTokens[k], f) && Within(Space, line, f + |UnitTokens[k]|, g)
    requires Within(DigitDotComma, line, g, h) && (h == |line| || !InClass(DigitDotComma, line[h]))
    ensures UnitRow(line) == Some(RawRow(line[b1..c], line[s..e], line[g..h]))
  {
    IndentedColumnIs(line, i0, a1, b1, c);
    UnitQuantityIs(line, e, f, k, f + |UnitTokens[k]|, g, h);
    UnitQuantityOnlyAtGap(line, s, e);
    CodeThenLazyIs(UnitQuantityAt, line, b1, c, s, e, 1);
  }

  lemma OrcamentoColumnsIs(line: string, a1: nat, b1: nat, c: nat, s: nat)
    requires 0 < a1 < b1 < c < s <= |line|
    requires Within(Digit, line, 0, a1) && Within(Space, line, a1, b1) && Within(Digit, line, b1, c)
    requires Within(Space, line, c, s) && StartsAt(line, "GRAMPO", s)
    ensures ColumnFrom(line, 0) == Some((b1, c)) && RunEnd(line, c, Space) == s
  {
    RunEndIs(line, 0, a1, Digit);
    RunEndIs(line, a1, b1, Space);
    RunEndIs(line, b1, c, Digit);
    assert line[s..s + 6][0] == line[s];
    RunEndIs(line, c, s, Space);
  }

  /** Positions of an orcamento row, from the index column to the quantity `g..h`. */
  lemma OrcamentoRowPositions(line: string, a1: nat, b1: nat, c: nat, s: nat, e: nat, f: nat, g: nat, h: nat)
    requires 0 < a1 < b1 < c < s && s + 6 <= e < f && f + 2 < g < h <= |line|
    requires Within(Digit, line, 0, a1) && Within(Space, line, a1, b1) && Within(Digit, line, b1, c)
    requires Within(Space, line, c, s) && StartsAt(line, "GRAMPO", s)
    requires !IsSpace(line[e - 1]) && NoPcAfterSpace(line[s..e]) && Within(Space, line, e, f)
    requires StartsAt(line, "PC", f) && Within(Space, line, f + 2, g)
    requires IsShortDecimal(line[g..h]) && (h == |line| || IsSpace(line[h]))
    ensures OrcamentoRow(line) == Some(RawRow(line[b1..c], line[s..e], line[g..h]))
  {
    OrcamentoColumnsIs(line, a1, b1, c, s);
    OrcamentoQuantityIs(line, e, f, g, h);
    PcOnlyAtGap(line, s, e);
    assert IsSpace(line[c]);
    OrcamentoRowAt(line, b1, c, s, e);
  }

  lemma OrcamentoRowAt(line: string, b: nat, c: nat, s: nat, e: nat)
    requires ColumnFrom(line, 0) == Some((b, c)) && c < |line| && IsSpace(line[c])
    requires RunEnd(line, c, Space) == s && StartsAt(line, "GRAMPO", s) && s + 6 <= e <= |line|
    requires OrcamentoQuantityAt(line, e).Some? && forall m :: s < m < e ==> OrcamentoQuantityAt(line, m).None?
    ensures OrcamentoRow(line) == Some(RawRow(line[b..c], line[s..e], OrcamentoQuantityAt(line, e).value))
  {
    GrampoRowAt(line, b, c, s, e);
  }

  lemma GrampoRowAt(line: string, b: nat, c: nat, s: nat, e: nat)
    requires b <= c < |line| && IsSpace(line[c])
    requires RunEnd(line, c, Space) == s && StartsAt(line, "GRAMPO", s) && s + 6 <= e <= |line|
    requires OrcamentoQuantityAt(line, e).Some? && forall m :: s < m < e ==> OrcamentoQuantityAt(line, m).None?
    ensures GrampoRow(line, b, c) == Some(RawRow(line[b..c], line[s..e], OrcamentoQuantityAt(line, e).value))
  {
    LeftmostIs(OrcamentoQuantityAt, line, s + 6, e);
  }

  /** Index facts of the whitespace, unit token and quantity that follow a unit row's description at `e`. */
  lemma UnitTailShape(line: string, e: nat, w4: string, more: string, unit: string, w5: string, qty: string, after: string,
                      f: nat, u: nat, g: nat, h: nat)
    requires e <= |line| && line[e..] == w4 + more && more == unit + w5 + qty + after
    requires IsSpaces(w4) && IsSpaces(w5) && All(DigitDotComma, qty)
    requires f == e + |w4| && u == f + |unit| && g == u + |w5| && h == g + |qty|
    ensures h <= |line| && Within(Space, line, e, f) && Within(Space, line, u, g) && Within(DigitDotComma, line, g, h)
    ensures line[f..u] == unit && line[g..h] == qty && line[h..] == after
    ensures h < |line| ==> line[h] == after[0]
  {
    GapShape(line, e, w4 + more, w4, unit, w5 + qty + after, f, u);
    GapShape(line, u, w5 + qty + after, w5, qty, after, g, h);
    SliceWithin(line, g, h, qty, DigitDotComma);
    assert h < |line| ==> line[h] == line[h..][0];
  }

  /** Index facts of a line built from indentation, an index column and the code. */
  lemma IndentedColumnsShape(line: string, ws0: string, n1: string, w1: string, code: string, rest: string,
                             i0: nat, a1: nat, b1: nat, c: nat)
    requires line == ws0 + n1 + w1 + code + rest
    requires All(Space, ws0) && IsDigits(n1) && IsSpaces(w1) && IsDigits(code)
    requires i0 == |ws0| && a1 == i0 + |n1| && b1 == a1 + |w1| && c == b1 + |code|
    ensures c <= |line| && line[c..] == rest && line[b1..c] == code
    ensures Within(Space, line, 0, i0) && Within(Digit, line, i0, a1) && Within(Space, line, a1, b1)
    ensures Within(Digit, line, b1, c)
  {
    var h1, h2, h3 := ws0 + n1, ws0 + n1 + w1, ws0 + n1 + w1 + code;
    assert line[..c] == h3 && line[c..] == rest;
    assert h3[..b1] == h2 && h2[..a1] == h1 && h1[..i0] == ws0;
    SliceWithin(line, b1, c, code, Digit);
    SliceWithin(line, a1, b1, w1, Space);
    SliceWithin(line, i0, a1, n1, Digit);
    SliceWithin(line, 0, i0, ws0, Space);
  }

  /** Index facts of a unit-row line built from its pieces. */
  lemma UnitRowShape(line: string, ws0: string, n1: string, w1: string, code: string, rest: string,
                     w3: string, desc: string, w4: string, more: string, unit: string, w5: string, qty: string, after: string,
                     i0: nat, a1: nat, b1: nat, c: nat, s: nat, e: nat, f: nat, u: nat, g: nat, h: nat)
    requires line == ws0 + n1 + w1 + code + rest && rest == w3 + desc + w4 + more && more == unit + w5 + qty + after
    requires All(Space, ws0) && IsDigits(n1) && IsSpaces(w1) && IsDigits(code)
    requires IsSpaces(w3) && desc != [] && IsTrimmed(desc) && IsSpaces(w4) && unit != [] && IsSpaces(w5)
    requires qty != [] && All(DigitDotComma, qty)
    requires i0 == |ws0| && a1 == i0 + |n1| && b1 == a1 + |w1| && c == b1 + |code|
    requires s == c + |w3| && e == s + |desc| && f == e + |w4| && u == f + |unit| && g == u + |w5| && h == g + |qty|
    ensures i0 < a1 < b1 < c < s < e < f < u < g < h <= |line|
    ensures Within(Space, line, 0, i0) && Within(Digit, line, i0, a1) && Within(Space, line, a1, b1)
    ensures Within(Digit, line, b1, c) && Within(Space, line, c, s) && Within(Space, line, e, f)
    ensures Within(Space, line, u, g) && Within(DigitDotComma, line, g, h)
    ensures !IsSpace(line[s]) && !IsSpace(line[e - 1])
    ensures line[b1..c] == code && line[s..e] == desc && line[f..u] == unit && line[g..h] == qty && line[h..] == after
    ensures h < |line| ==> line[h] == after[0]
  {
    IndentedColumnsShape(line, ws0, n1, w1, code, rest, i0, a1, b1, c);
    GapShape(line, c, rest, w3, desc, w4 + more, s, e);
    UnitTailShape(line, e, w4, more, unit, w5, qty, after, f, u, g, h);
    assert line[s] == desc[0] && line[e - 1] == desc[|desc| - 1];
  }

  /**
   * A line made of optional indentation, an index column, the code, a
   * non-empty trimmed description with no unit token right after one of its
   * inner whitespace runs, a unit token and a quantity of digits, dots and
   * commas is read as that row, whatever follows the quantity.
   */
  lemma UnitRowRecognised(line: string, ws0: string, n1: string, w1: string, code: string, rest: string,
                          w3: string, desc: string, w4: string, more: string, unit: string, w5: string, qty: string, after: string)
    requires line == ws0 + n1 + w1 + code + rest && rest == w3 + desc + w4 + more && more == unit + w5 + qty + after
    requires All(Space, ws0) && IsDigits(n1) && IsSpaces(w1) && IsDigits(code)
    requires IsSpaces(w3) && desc != [] && IsTrimmed(desc) && NoUnitAfterSpace(desc) && IsSpaces(w4)
    requires unit in UnitTokens && IsSpaces(w5) && qty != [] && All(DigitDotComma, qty)
    requires after == [] || !InClass(DigitDotComma, after[0])
    ensures UnitRow(line) == Some(RawRow(code, desc, qty))
  {
    var k :| 0 <= k < |UnitTokens| && UnitTokens[k] == unit;
    var i0, a1 := |ws0|, |ws0| + |n1|;
    var b1, c := a1 + |w1|, a1 + |w1| + |code|;
    var s, e := c + |w3|, c + |w3| + |desc|;
    var f, u := e + |w4|, e + |w4| + |unit|;
    var g, h := u + |w5|, u + |w5| + |qty|;
    UnitRowShape(line, ws0, n1, w1, code, rest, w3, desc, w4, more, unit, w5, qty, after, i0, a1, b1, c, s, e, f, u, g, h);
    UnitRowPositions(line, i0, a1, b1, c, s, e, f, k, g, h);
  }

  /** Index facts of an orcamento-row line built from its pieces. */
  lemma OrcamentoRowShape(line: string, n1: string, w1: string, code: string, rest: string,
                          w2: string, desc: string, w3: string, more: string, w4: string, qty: string, after: string,
                          a1: nat, b1: nat, c: nat, s: nat, e: nat, f: nat, g: nat, h: nat)
    requires line == n1 + w1 + code + rest && rest == w2 + desc + w3 + more && more == "PC" + w4 + qty + after
    requires IsDigits(n1) && IsSpaces(w1) && IsDigits(code) && IsSpaces(w2) && StartsAt(desc, "GRAMPO", 0)
    requires IsTrimmed(desc) && IsSpaces(w3) && IsSpaces(w4) && qty != []
    requires a1 == |n1| && b1 == a1 + |w1| && c == b1 + |code|
    requires s == c + |w2| && e == s + |desc| && f == e + |w3| && g == f + 2 + |w4| && h == g + |qty|
    ensures 0 < a1 < b1 < c < s && s + 6 <= e < f && f + 2 < g < h <= |line|
    ensures Within(Digit, line, 0, a1) && Within(Space, line, a1, b1) && Within(Digit, line, b1, c)
    ensures Within(Space, line, c, s) && StartsAt(line, "GRAMPO", s)
    ensures !IsSpace(line[e - 1]) && Within(Space, line, e, f)
    ensures StartsAt(line, "PC", f) && Within(Space, line, f + 2, g)
    ensures line[b1..c] == code && line[s..e] == desc && line[g..h] == qty && line[h..] == after
  {
    var h1, h2 := n1 + w1, n1 + w1 + code;
    assert line[..c] == h2 && line[c..] == rest;
    assert h2[..b1] == h1 && h1[..a1] == n1;
    SliceWithin(line, b1, c, code, Digit);
    SliceWithin(line, a1, b1, w1, Space);
    SliceWithin(line, 0, a1, n1, Digit);
    GapShape(line, c, rest, w2, desc, w3 + more, s, e);
    StartsAtInSlice(line, s, e, s, "GRAMPO");
    assert line[e - 1] == desc[|desc| - 1];
    PcTailShape(line, e, w3 + more, w3, more, w4, qty, after, f, g, h);
  }

  lemma PcTailShape(line: string, e: nat, tail: string, w3: string, more: string, w4: string, qty: string, after: string,
                    f: nat, g: nat, h: nat)
    requires e <= |line| && line[e..] == tail && tail == w3 + more && more == "PC" + w4 + qty + after
    requires IsSpaces(w3) && IsSpaces(w4) && f == e + |w3| && g == f + 2 + |w4| && h == g + |qty|
    ensures e < f && f + 2 < g <= h <= |line| && Within(Space, line, e, f)
    ensures StartsAt(line, "PC", f) && Within(Space, line, f + 2, g)
    ensures line[g..h] == qty && line[h..] == after
  {
    GapShape(line, e, tail, w3, "PC", w4 + qty + after, f, f + 2);
    GapShape(line, f + 2, w4 + qty + after, w4, qty, after, g, h);
  }

  /**
   * A line made of an index column, the code, a trimmed description that
   * starts with "GRAMPO" and has no "PC" right after one of its inner
   * whitespace runs, the unit "PC" and a short decimal, followed by the end
   * of the line or by whitespace and anything, is read as that row.
   */
  lemma OrcamentoRowRecognised(line: string, n1: string, w1: string, code: string, rest: string,
                               w2: string, desc: string, w3: string, more: string, w4: string, qty: string, after: string)
    requires line == n1 + w1 + code + rest && rest == w2 + desc + w3 + more && more == "PC" + w4 + qty + after
    requires IsDigits(n1) && IsSpaces(w1) && IsDigits(code) && IsSpaces(w2)
    requires StartsAt(desc, "GRAMPO", 0) && IsTrimmed(desc) && NoPcAfterSpace(desc) && IsSpaces(w3)
    requires IsSpaces(w4) && IsShortDecimal(qty) && (after == [] || IsSpace(after[0]))
    ensures OrcamentoRow(line) == Some(RawRow(code, desc, qty))
  {
    ShortDecimalStartsWithDigit(qty);
    var a1, b1 := |n1|, |n1| + |w1|;
    var c, s := b1 + |code|, b1 + |code| + |w2|;
    var e, f := s + |desc|, s + |desc| + |w3|;
    var g := f + 2 + |w4|;
    var h := g + |qty|;
    OrcamentoRowShape(line, n1, w1, code, rest, w2, desc, w3, more, w4, qty, after, a1, b1, c, s, e, f, g, h);
    assert h < |line| ==> line[h] == after[0];
    OrcamentoRowPositions(line, a1, b1, c, s, e, f, g, h);
  }
  // ---------------------------------------------------------------- the first token of a row

  /** The index column: the first digit run after the indentation. */
  function IndexColumn(line: string): string {
    var i0 := RunEnd(line, 0, Space);
    line[i0..RunEnd(line, i0, Digit)]
  }

  /** `line.split()[0]` of a line whose layout starts with `\s*\d+\s+` at `i0` is its index column. */
  lemma IndexIsFirstToken(line: string, i0: nat)
    requires i0 == RunEnd(line, 0, Space) && DigitsThenSpace(line, i0).Some?
    ensures FirstToken(line) == Some(IndexColumn(line)) && IsDigits(IndexColumn(line))
  {
    var a := RunEnd(line, i0, Digit);
    assert Within(NonSpace, line, i0, a);
    RunEndIs(line, i0, a, NonSpace);
  }

  /**
   * The first whitespace-separated token of a line that any of the layouts
   * reads is its index column, a digit run (not the product code).
   */
  lemma RowFirstToken(line: string)
    requires LedgerRow(line).Some? || RomaneioRow(line).Some? || UnitRow(line).Some? || OrcamentoRow(line).Some?
    ensures FirstToken(line) == Some(IndexColumn(line)) && IsDigits(IndexColumn(line))
  {
    var i0 := RunEnd(line, 0, Space);
    if !UnitRow(line).Some? {
      assert DigitsThenSpace(line, 0).Some?;
      assert IsDigit(line[0]);
      RunEndIs(line, 0, 0, Space);
    }
    IndexIsFirstToken(line, i0);
  }

  // ---------------------------------------------------------------- backtracking into the whitespace

  lemma ShortDecimalChars(q: string)
    requires IsShortDecimal(q)
    ensures All(DigitOrComma, q)
  {
    if !IsDigitRun(q, 3) {
      var k :| 0 < k < |q| && q[k] == ',' && IsDigitRun(q[..k], 3) && IsDigitRun(q[k + 1..], 4);
      var head, tail := q[..k], q[k + 1..];
      forall m | 0 <= m < |q|
        ensures InClass(DigitOrComma, q[m])
      {
        if m < k {
          assert q[m] == head[m] && InClass(Digit, head[m]);
        } else if k < m {
          assert q[m] == tail[m - k - 1] && InClass(Digit, tail[m - k - 1]);
        }
      }
    }
  }

  /**
   * A romaneio line with no description: the quantity follows the code after
   * the whitespace `c..f`. The lazy group finds no quantity after the whole
   * run, so the `\s+` gives back one character and the description is
   * empty; with a single whitespace character there is none to give back
   * and the line is no row.
   */
  lemma RomaneioEmptyDescription(line: string, b: nat, c: nat, f: nat)
    requires ThirdColumn(line) == Some((b, c)) && c < f < |line| && Within(Space, line, c, f)
    requires IsShortDecimal(line[f..])
    ensures RomaneioRow(line) == if c + 1 < f then Some(RawRow(line[b..c], "", line[f..])) else None
  {
    RomaneioEmptyAt(line, b, c, f);
  }

  lemma RomaneioEmptyAt(line: string, b: nat, c: nat, f: nat)
    requires b <= c < f < |line| && Within(Space, line, c, f)
    requires IsShortDecimal(line[f..])
    ensures CodeThenLazy(RomaneioQuantityAt, line, Some((b, c)), 0)
         == if c + 1 < f then Some(RawRow(line[b..c], "", line[f..])) else None
  {
    NoRomaneioQuantityInside(line, f);
    if c + 1 < f {
      RomaneioQuantityIs(line, f - 1, f);
      LazyGivesBackOne(RomaneioQuantityAt, line, b, c, f, line[f..]);
    } else {
      LazyNothingToGiveBack(RomaneioQuantityAt, line, b, c, f);
    }
  }


  /**
   * When no quantity starts after the whole whitespace run `c..f`, the lazy
   * group starts one character earlier, and is empty when a quantity starts
   * there.
   */
  lemma LazyGivesBackOne(at: (string, nat) -> Option<string>, line: string, b: nat, c: nat, f: nat, qty: string)
    requires b <= c && c + 1 < f <= |line| && Within(Space, line, c, f) && (f == |line| || !IsSpace(line[f]))
    requires (forall m :: f <= m <= |line| ==> at(line, m).None?) && at(line, f - 1) == Some(qty)
    ensures CodeThenLazy(at, line, Some((b, c)), 0) == Some(RawRow(line[b..c], "", qty))
  {
    RunEndIs(line, c, f, Space);
    LeftmostNone(at, line, f);
    LeftmostIs(at, line, f - 1, f - 1);
    assert LazyGroup(at, line, c, f, 0) == Some((f - 1, f - 1));
    assert line[f - 1..f - 1] == "";
  }

  /** With a single whitespace character before a position where no quantity starts, there is no row. */
  lemma LazyNothingToGiveBack(at: (string, nat) -> Option<string>, line: string, b: nat, c: nat, f: nat)
    requires b <= c && c + 1 == f <= |line| && IsSpace(line[c]) && (f == |line| || !IsSpace(line[f]))
    requires forall m :: f <= m <= |line| ==> at(line, m).None?
    ensures CodeThenLazy(at, line, Some((b, c)), 0) == None
  {
    RunEndIs(line, c, f, Space);
    LeftmostNone(at, line, f);
  }


  /** Inside a trailing short decimal no romaneio quantity starts. */
  lemma NoRomaneioQuantityInside(line: string, f: nat)
    requires f < |line| && IsShortDecimal(line[f..])
    ensures !IsSpace(line[f]) && forall m :: f <= m <= |line| ==> RomaneioQuantityAt(line, m).None?
  {
    ShortDecimalChars(line[f..]);
    forall m | f <= m <= |line|
      ensures RomaneioQuantityAt(line, m).None?
    {
      if m < |line| {
        assert line[m] == line[f..][m - f];
      }
    }
    assert line[f] == line[f..][0];
  }

}
