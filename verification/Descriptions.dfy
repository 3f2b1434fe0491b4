/**
 * `parse_description` of tags_excel.py: the four dimensions a product
 * description names (gauge, opening, length and model; `bitola`, `abertura`,
 * `comp` and `mod` in the script), read by `re.search` with
 *
 *   (M\s?\d+|\d+/\d+"?)\s*[xX]\s*(\d+)\s*[xX]\s*(\d+)\s*([A-Z]{1,2})
 *
 * At a fixed position no backtracking changes what this pattern matches:
 * every digit run is followed by a piece that cannot start with a digit,
 * every `\s*` by a piece that cannot start with whitespace, the optional
 * `\s` after "M" by a digit and the optional `"` by `\s*[xX]`. So each piece
 * takes the longest text it can and the greedy reading below succeeds
 * exactly when the engine does; the two alternatives of group 1 are tried
 * in order, as the engine tries them.
 */
module Descriptions {
  import opened Results
  import opened Text
  import opened Layouts

  /** The four groups of a match: gauge, opening, length, model. */
  datatype Dimensions = Dimensions(gauge: string, opening: string, length: string, model: string)

  /** `\d+` at `i`: where the digit run ends. */
  function DigitsEnd(s: string, i: nat): (r: Option<nat>)
    requires i <= |s|
    ensures r.Some? ==> i < r.value <= |s| && Within(Digit, s, i, r.value)
    ensures r.Some? ==> r.value == |s| || !IsDigit(s[r.value])
    ensures r.None? <==> i == |s| || !IsDigit(s[i])
  {
    var e := RunEnd(s, i, Digit);
    if i < e then Some(e) else None
  }

  /** `\s*[xX]\s*` at `i`: where the whitespace after the cross ends. */
  function CrossEnd(s: string, i: nat): (r: Option<nat>)
    requires i <= |s|
    ensures r.Some? ==> i < r.value <= |s|
  {
    var k := RunEnd(s, i, Space);
    if k < |s| && (s[k] == 'x' || s[k] == 'X') then Some(RunEnd(s, k + 1, Space)) else None
  }

  /** `[A-Z]{1,2}` at `i`: two capitals when there are two, else one. */
  function ModelEnd(s: string, i: nat): (r: Option<nat>)
    requires i <= |s|
    ensures r.Some? ==> i < r.value <= i + 2 && r.value <= |s|
  {
    if i < |s| && IsUpper(s[i]) then Some(if i + 1 < |s| && IsUpper(s[i + 1]) then i + 2 else i + 1)
    else None
  }

  /** `M\s?\d+` at `i`: where the metric gauge ends. */
  function MetricEnd(s: string, i: nat): (r: Option<nat>)
    requires i <= |s|
    ensures r.Some? ==> i < r.value <= |s|
    ensures r.Some? ==> s[i] == 'M'
  {
    if i < |s| && s[i] == 'M' then
      DigitsEnd(s, if i + 1 < |s| && IsSpace(s[i + 1]) then i + 2 else i + 1)
    else None
  }

  /** `\d+/\d+"?` at `i`: where the inch gauge ends. */
  function InchEnd(s: string, i: nat): (r: Option<nat>)
    requires i <= |s|
    ensures r.Some? ==> i < r.value <= |s|
    ensures r.Some? ==> IsDigit(s[i])
  {
    match DigitsEnd(s, i)
    case None => None
    case Some(a) =>
      if a < |s| && s[a] == '/' then
        match DigitsEnd(s, a + 1)
        case None => None
        case Some(b) => Some(if b < |s| && s[b] == '"' then b + 1 else b)
      else None
  }

  /** `\s*([A-Z]{1,2})` at `i`: group 4. */
  function ModelAt(s: string, i: nat): (r: Option<string>)
    requires i <= |s|
    ensures r.Some? ==> IsModel(r.value)
  {
    var m0 := RunEnd(s, i, Space);
    match ModelEnd(s, m0)
    case None => None
    case Some(m1) =>
      assert forall k :: 0 <= k < m1 - m0 ==> s[m0..m1][k] == s[m0 + k];
      Some(s[m0..m1])
  }

  /** `\s*[xX]\s*(\d+)\s*([A-Z]{1,2})` at `i`: groups 3 and 4. */
  function LengthAndModelAt(s: string, i: nat): (r: Option<(string, string)>)
    requires i <= |s|
    ensures r.Some? ==> IsDigits(r.value.0) && IsModel(r.value.1)
  {
    match CrossEnd(s, i)
    case None => None
    case Some(c0) =>
      match DigitsEnd(s, c0)
      case None => None
      case Some(c1) =>
        WithinAll(s, c0, c1, Digit);
        match ModelAt(s, c1)
        case None => None
        case Some(model) => Some((s[c0..c1], model))
  }

  /** Groups 2 to 4, after a gauge that ends at `g`. */
  function RestAt(s: string, gauge: string, g: nat): (r: Option<Dimensions>)
    requires g <= |s|
    ensures r.Some? ==> r.value.gauge == gauge && IsDigits(r.value.opening) && IsDigits(r.value.length) && IsModel(r.value.model)
  {
    match CrossEnd(s, g)
    case None => None
    case Some(a0) =>
      match DigitsEnd(s, a0)
      case None => None
      case Some(a1) =>
        WithinAll(s, a0, a1, Digit);
        match LengthAndModelAt(s, a1)
        case None => None
        case Some((length, model)) => Some(Dimensions(gauge, s[a0..a1], length, model))
  }

  /** The whole pattern tried at position `i`: the metric alternative first, the inch one second. */
  function DimensionsAt(s: string, i: nat): Option<Dimensions> {
    if i > |s| then None
    else
      var metric := match MetricEnd(s, i) case None => None case Some(g) => RestAt(s, s[i..g], g);
      if metric.Some? then metric
      else match InchEnd(s, i) case None => None case Some(g) => RestAt(s, s[i..g], g)
  }

  /**
   * `parse_description(desc)`: nothing for a missing or blank description
   * (`None` stands for a cell that is NaN or not a string), else the groups
   * of the leftmost match, if any.
   */
  function ParseDescription(desc: Option<string>): (r: Option<Dimensions>)
    ensures r.None? <==> desc.None? || Trim(desc.value) == [] ||
                         forall i :: 0 <= i <= |desc.value| ==> DimensionsAt(desc.value, i).None?
    ensures r.Some? ==> exists i :: 0 <= i <= |desc.value| && DimensionsAt(desc.value, i) == r &&
                                    forall m :: 0 <= m < i ==> DimensionsAt(desc.value, m).None?
  {
    match desc
    case None => None
    case Some(s) =>
      if Trim(s) == [] then None
      else
        match Leftmost(DimensionsAt, s, 0)
        case None => None
        case Some(i) => DimensionsAt(s, i)
  }

  // ---------------------------------------------------------------- what a match looks like

  predicate IsModel(m: string) {
    1 <= |m| <= 2 && forall k :: 0 <= k < |m| ==> IsUpper(m[k])
  }

  /** The gauge group: "M", an optional whitespace and digits; or digits, "/", digits and an optional `"`. */
  predicate IsGaugeText(g: string) {
    (|g| >= 2 && g[0] == 'M' && (IsDigits(g[1..]) || (IsSpace(g[1]) && IsDigits(g[2..])))) ||
    (exists a :: 0 < a < |g| && g[a] == '/' && IsDigits(g[..a]) &&
      (IsDigits(g[a + 1..]) || (g[|g| - 1] == '"' && IsDigits(g[a + 1..|g| - 1]))))
  }

  lemma MetricShape(s: string, i: nat)
    requires i <= |s| && MetricEnd(s, i).Some?
    ensures IsGaugeText(s[i..MetricEnd(s, i).value])
  {
    var g := s[i..MetricEnd(s, i).value];
    var j := if i + 1 < |s| && IsSpace(s[i + 1]) then i + 2 else i + 1;
    assert g[j - i..] == s[j..MetricEnd(s, i).value];
  }

  lemma InchShape(s: string, i: nat)
    requires i <= |s| && InchEnd(s, i).Some?
    ensures IsGaugeText(s[i..InchEnd(s, i).value])
  {
    var a := DigitsEnd(s, i).value;
    var b := DigitsEnd(s, a + 1).value;
    InchTextShape(s, i, a, b, InchEnd(s, i).value);
  }

  /** The digits `i..a`, a slash, the digits `a + 1..b` and an optional inch mark up to `e` are a gauge text. */
  lemma InchTextShape(s: string, i: nat, a: nat, b: nat, e: nat)
    requires i < a && a + 1 < b && b <= e <= b + 1 && e <= |s|
    requires Within(Digit, s, i, a) && s[a] == '/' && Within(Digit, s, a + 1, b)
    requires e == b + 1 ==> s[b] == '"'
    ensures IsGaugeText(s[i..e])
  {
    var g := s[i..e];
    WithinAll(s, i, a, Digit);
    WithinAll(s, a + 1, b, Digit);
    assert g[..a - i] == s[i..a];
    assert g[a - i] == '/';
    if e == b + 1 {
      assert g[|g| - 1] == '"';
      var t := g[..|g| - 1];
      assert t == s[i..b];
      assert t[a - i + 1..] == s[a + 1..b];
      assert g[a - i + 1..|g| - 1] == t[a - i + 1..];
    } else {
      assert g[a - i + 1..] == s[a + 1..b];
    }
  }

  /** A parsed description has a well-formed gauge, two digit runs and one or two capitals. */
  lemma ParsedShape(desc: Option<string>)
    requires ParseDescription(desc).Some?
    ensures var d := ParseDescription(desc).value;
      IsGaugeText(d.gauge) && IsDigits(d.opening) && IsDigits(d.length) && IsModel(d.model)
  {
    var s := desc.value;
    var i := Leftmost(DimensionsAt, s, 0).value;
    match MetricEnd(s, i)
    case Some(g) =>
      if RestAt(s, s[i..g], g).Some? {
        MetricShape(s, i);
      }
    case None =>
      InchShape(s, i);
  }

  // ---------------------------------------------------------------- descriptions as catalogues write them

  /** How a gauge is written: "M", an optional space and a size; or a fraction with an optional inch mark. */
  datatype Gauge = Metric(spaced: bool, size: string) | Inch(numerator: string, denominator: string, marked: bool)

  function GaugeText(g: Gauge): string {
    match g
    case Metric(spaced, size) => (if spaced then "M " else "M") + size
    case Inch(n, d, marked) => n + "/" + d + (if marked then "\"" else "")
  }

  predicate WellFormed(g: Gauge) {
    match g
    case Metric(_, size) => IsDigits(size)
    case Inch(n, d, _) => IsDigits(n) && IsDigits(d)
  }

  /** `gauge x opening x length model`, followed by `post`. */
  function Written(d: Dimensions, post: string): string {
    d.gauge + (" x " + (d.opening + (" x " + (d.length + (" " + (d.model + post))))))
  }

  /** No match of the pattern can start inside `pre`: it holds neither "M" nor a digit. */
  predicate NoPatternStart(pre: string) {
    forall m :: 0 <= m < |pre| ==> pre[m] != 'M' && !IsDigit(pre[m])
  }

  /** `M\s?\d+` read at `i`, when the size digits run from `j` to `e`. */
  lemma MetricEndIs(s: string, i: nat, j: nat, e: nat)
    requires i < j <= i + 2 && j < e < |s| && s[i] == 'M'
    requires j == i + 2 ==> IsSpace(s[i + 1])
    requires j == i + 1 ==> !IsSpace(s[i + 1])
    requires Within(Digit, s, j, e) && !IsDigit(s[e])
    ensures MetricEnd(s, i) == Some(e)
  {
    RunEndIs(s, j, e, Digit);
  }

  /** `\d+/\d+"?` read at `i`, when the digits run `i..a` and `a + 1..b` and the group ends at `e`. */
  lemma InchEndIs(s: string, i: nat, a: nat, b: nat, e: nat)
    requires i < a && a + 1 < b && b <= e <= b + 1 && e < |s|
    requires Within(Digit, s, i, a) && s[a] == '/' && Within(Digit, s, a + 1, b) && !IsDigit(s[b])
    requires if e == b then s[b] != '"' else s[b] == '"'
    ensures MetricEnd(s, i).None? && InchEnd(s, i) == Some(e)
  {
    RunEndIs(s, i, a, Digit);
    RunEndIs(s, a + 1, b, Digit);
  }

  lemma PieceAt(s: string, i: nat, t: string, k: nat, e: nat)
    requires i + |t| <= |s| && s[i..i + |t|] == t && k <= e <= |t|
    ensures s[i + k..i + e] == t[k..e]
  {
    forall m | 0 <= m < e - k
      ensures s[i + k..i + e][m] == t[k..e][m]
    {
      assert s[i + k..i + e][m] == s[i + k + m] == s[i..i + |t|][k + m];
    }
  }

  /** A metric gauge written at `i` and followed by a space is read there as group 1. */
  lemma MetricGaugeAt(s: string, i: nat, t: string, spaced: bool, size: string)
    requires IsDigits(size) && t == GaugeText(Metric(spaced, size))
    requires i + |t| < |s| && s[i..i + |t|] == t && s[i + |t|] == ' '
    ensures MetricEnd(s, i) == Some(i + |t|)
  {
    var e := i + |t|;
    var h := if spaced then "M " else "M";
    assert t == h + size;
    PieceAt(s, i, t, 0, |h|);
    PieceAt(s, i, t, |h|, |t|);
    assert t[|h|..] == size;
    SliceWithin(s, i + |h|, e, size, Digit);
    assert s[i] == t[0] == 'M';
    assert s[i + 1] == t[1];
    MetricEndIs(s, i, i + |h|, e);
  }

  /** The pieces of `n/d` followed by `q`, written at `i`. */
  lemma InchPieces(s: string, i: nat, n: string, d: string, q: string)
    requires i + |n| + 1 + |d| + |q| <= |s| && s[i..i + |n| + 1 + |d| + |q|] == n + "/" + d + q
    ensures s[i..i + |n|] == n && s[i + |n|] == '/' && s[i + |n| + 1..i + |n| + 1 + |d|] == d
    ensures |q| > 0 ==> s[i + |n| + 1 + |d|] == q[0]
  {
    var t := n + "/" + d + q;
    var a := i + |n|;
    PieceAt(s, i, t, 0, |n|);
    PieceAt(s, i, t, |n| + 1, |n| + 1 + |d|);
    assert t[..|n|] == n && t[|n| + 1..|n| + 1 + |d|] == d;
    assert s[a] == t[|n|] == '/';
    assert |q| > 0 ==> s[a + 1 + |d|] == t[|n| + 1 + |d|] == q[0];
  }

  /** An inch gauge written at `i` and followed by a space is read there as group 1, by the second alternative. */
  lemma InchGaugeAt(s: string, i: nat, t: string, n: string, d: string, marked: bool)
    requires IsDigits(n) && IsDigits(d) && t == GaugeText(Inch(n, d, marked))
    requires i + |t| < |s| && s[i..i + |t|] == t && s[i + |t|] == ' '
    ensures MetricEnd(s, i).None? && InchEnd(s, i) == Some(i + |t|)
  {
    var q := if marked then "\"" else "";
    var a := i + |n|;
    var b := a + 1 + |d|;
    var e := b + |q|;
    assert t == n + "/" + d + q;
    InchPieces(s, i, n, d, q);
    SliceWithin(s, i, a, n, Digit);
    SliceWithin(s, a + 1, b, d, Digit);
    InchEndIs(s, i, a, b, e);
  }

  /** A gauge written at `i` and followed by a space is the gauge group the engine reads there. */
  lemma GaugeAt(s: string, i: nat, g: Gauge)
    requires WellFormed(g)
    requires i + |GaugeText(g)| < |s| && s[i..i + |GaugeText(g)|] == GaugeText(g) && s[i + |GaugeText(g)|] == ' '
    ensures g.Metric? ==> MetricEnd(s, i) == Some(i + |GaugeText(g)|)
    ensures g.Inch? ==> MetricEnd(s, i).None? && InchEnd(s, i) == Some(i + |GaugeText(g)|)
  {
    var t := GaugeText(g);
    match g
    case Metric(spaced, size) => MetricGaugeAt(s, i, t, spaced, size);
    case Inch(n, d, marked) => InchGaugeAt(s, i, t, n, d, marked);
  }

  /** `\s*[xX]\s*` read at `i` over exactly " x " (or " X "). */
  lemma CrossEndIs(s: string, i: nat)
    requires i + 3 < |s| && IsSpace(s[i]) && (s[i + 1] == 'x' || s[i + 1] == 'X') && IsSpace(s[i + 2])
    requires !IsSpace(s[i + 3])
    ensures CrossEnd(s, i) == Some(i + 3)
  {
    RunEndIs(s, i, i + 1, Space);
    RunEndIs(s, i + 2, i + 3, Space);
  }

  /** Group 4 read at `i` over one whitespace and the capitals `i + 1..m1`. */
  lemma ModelAtIs(s: string, i: nat, m1: nat)
    requires i + 1 < m1 <= i + 3 && m1 <= |s| && IsSpace(s[i])
    requires forall m :: i + 1 <= m < m1 ==> IsUpper(s[m])
    requires m1 == i + 3 || m1 == |s| || !IsUpper(s[m1])
    ensures ModelAt(s, i) == Some(s[i + 1..m1])
  {
    RunEndIs(s, i, i + 1, Space);
  }

  /** Groups 3 and 4 read at `a1`, laid out as ` x length model`. */
  lemma LengthAndModelAtIs(s: string, a1: nat, c1: nat, m1: nat)
    requires a1 + 3 < c1 && c1 + 1 < m1 <= c1 + 3 && m1 <= |s|
    requires IsSpace(s[a1]) && s[a1 + 1] == 'x' && IsSpace(s[a1 + 2]) && Within(Digit, s, a1 + 3, c1)
    requires IsSpace(s[c1]) && forall m :: c1 + 1 <= m < m1 ==> IsUpper(s[m])
    requires m1 == c1 + 3 || m1 == |s| || !IsUpper(s[m1])
    ensures LengthAndModelAt(s, a1) == Some((s[a1 + 3..c1], s[c1 + 1..m1]))
  {
    assert IsDigit(s[a1 + 3]);
    CrossEndIs(s, a1);
    RunEndIs(s, a1 + 3, c1, Digit);
    assert DigitsEnd(s, a1 + 3) == Some(c1);
    ModelAtIs(s, c1, m1);
  }

  /** Groups 2 to 4 read after a gauge that ends at `g`, laid out as ` x opening x length model`. */
  lemma RestAtIs(s: string, d: Dimensions, g: nat, a1: nat, c1: nat, m1: nat)
    requires g + 3 < a1 && a1 + 3 < c1 && c1 + 1 < m1 <= c1 + 3 && m1 <= |s|
    requires IsSpace(s[g]) && s[g + 1] == 'x' && IsSpace(s[g + 2]) && Within(Digit, s, g + 3, a1)
    requires IsSpace(s[a1]) && s[a1 + 1] == 'x' && IsSpace(s[a1 + 2]) && Within(Digit, s, a1 + 3, c1)
    requires IsSpace(s[c1]) && forall m :: c1 + 1 <= m < m1 ==> IsUpper(s[m])
    requires m1 == c1 + 3 || m1 == |s| || !IsUpper(s[m1])
    requires s[g + 3..a1] == d.opening && s[a1 + 3..c1] == d.length && s[c1 + 1..m1] == d.model
    ensures RestAt(s, d.gauge, g) == Some(d)
  {
    assert IsDigit(s[g + 3]);
    CrossEndIs(s, g);
    RunEndIs(s, g + 3, a1, Digit);
    LengthAndModelAtIs(s, a1, c1, m1);
    RestAtOfParts(s, d.gauge, g, a1, (d.length, d.model));
  }

  /** Groups 2 to 4 from the cross at `g`, the opening `g + 3..a1` and groups 3 and 4 at `a1`. */
  lemma RestAtOfParts(s: string, gauge: string, g: nat, a1: nat, lm: (string, string))
    requires g + 3 < a1 <= |s| && CrossEnd(s, g) == Some(g + 3) && RunEnd(s, g + 3, Digit) == a1
    requires LengthAndModelAt(s, a1) == Some(lm)
    ensures RestAt(s, gauge, g) == Some(Dimensions(gauge, s[g + 3..a1], lm.0, lm.1))
  {
    assert DigitsEnd(s, g + 3) == Some(a1);
  }

  /** A text that starts at `i` with `a` holds `a` there and the rest after it. */
  lemma Peel(s: string, i: nat, a: string, rest: string)
    requires i <= |s| && s[i..] == a + rest
    ensures i + |a| <= |s| && s[i..i + |a|] == a && s[i + |a|..] == rest
  {
    assert s[i..i + |a|] == s[i..][..|a|];
    assert s[i + |a|..] == s[i..][|a|..];
  }

  /** A text that starts at `i` with " x " holds a space, an "x" and a space there. */
  lemma PeelCross(s: string, i: nat, rest: string)
    requires i <= |s| && s[i..] == " x " + rest
    ensures i + 3 <= |s| && s[i] == ' ' && s[i + 1] == 'x' && s[i + 2] == ' ' && s[i + 3..] == rest
  {
    assert s[i] == s[i..][0] && s[i + 1] == s[i..][1] && s[i + 2] == s[i..][2];
    assert s[i + 3..] == s[i..][3..];
  }

  /** The whole pattern at `i`, once the gauge group is known to end at `e`. */
  lemma DimensionsAtIs(s: string, i: nat, e: nat, d: Dimensions)
    requires i < e <= |s|
    requires MetricEnd(s, i) == Some(e) || (MetricEnd(s, i).None? && InchEnd(s, i) == Some(e))
    requires RestAt(s, s[i..e], e) == Some(d)
    ensures DimensionsAt(s, i) == Some(d)
  {
  }

  /** ` x digits` followed by `rest`, as characters of `s`. */
  lemma CrossPiece(s: string, i: nat, a: string, rest: string)
    requires i <= |s| && s[i..] == " x " + (a + rest) && IsDigits(a)
    ensures i + 3 + |a| <= |s| && IsSpace(s[i]) && s[i + 1] == 'x' && IsSpace(s[i + 2])
    ensures Within(Digit, s, i + 3, i + 3 + |a|) && s[i + 3..i + 3 + |a|] == a && s[i + 3 + |a|..] == rest
  {
    PeelCross(s, i, a + rest);
    Peel(s, i + 3, a, rest);
    SliceWithin(s, i + 3, i + 3 + |a|, a, Digit);
  }

  /** ` model` followed by `post`, as characters of `s`. */
  lemma ModelPiece(s: string, i: nat, model: string, post: string)
    requires i <= |s| && s[i..] == " " + (model + post)
    requires IsModel(model) && (|model| == 2 || post == [] || !IsUpper(post[0]))
    ensures var m1 := i + 1 + |model|;
      i + 1 < m1 <= i + 3 && m1 <= |s| && IsSpace(s[i]) && (forall m :: i + 1 <= m < m1 ==> IsUpper(s[m])) &&
      (m1 == i + 3 || m1 == |s| || !IsUpper(s[m1])) && s[i + 1..m1] == model
  {
    assert s[i] == s[i..][0] && s[i + 1..] == s[i..][1..];
    Peel(s, i + 1, model, post);
    var m1 := i + 1 + |model|;
    forall m | i + 1 <= m < m1
      ensures IsUpper(s[m])
    {
      assert s[m] == s[i + 1..m1][m - i - 1];
    }
    assert m1 < |s| ==> s[m1] == s[m1..][0];
  }

  /** Groups 2 to 4 read over ` x opening x length model` followed by `post`. */
  lemma RestWritten(s: string, e: nat, d: Dimensions, post: string)
    requires e <= |s| && s[e..] == " x " + (d.opening + (" x " + (d.length + (" " + (d.model + post)))))
    requires IsDigits(d.opening) && IsDigits(d.length) && IsModel(d.model)
    requires |d.model| == 2 || post == [] || !IsUpper(post[0])
    ensures RestAt(s, d.gauge, e) == Some(d)
  {
    var a1 := e + 3 + |d.opening|;
    var c1 := a1 + 3 + |d.length|;
    CrossPiece(s, e, d.opening, " x " + (d.length + (" " + (d.model + post))));
    CrossPiece(s, a1, d.length, " " + (d.model + post));
    ModelPiece(s, c1, d.model, post);
    RestAtIs(s, d, e, a1, c1, c1 + 1 + |d.model|);
  }

  /** The whole pattern read where `Written(d, post)` starts. */
  lemma WrittenAt(s: string, p: nat, g: Gauge, d: Dimensions, post: string)
    requires p <= |s| && s[p..] == Written(d, post)
    requires WellFormed(g) && d.gauge == GaugeText(g) && IsDigits(d.opening) && IsDigits(d.length) && IsModel(d.model)
    requires |d.model| == 2 || post == [] || !IsUpper(post[0])
    ensures DimensionsAt(s, p) == Some(d)
  {
    var t := " x " + (d.opening + (" x " + (d.length + (" " + (d.model + post)))));
    Peel(s, p, d.gauge, t);
    var e := p + |d.gauge|;
    RestWritten(s, e, d, post);
    assert s[e] == s[e..][0];
    GaugeAt(s, p, g);
    DimensionsAtIs(s, p, e, d);
  }

  /**
   * A description written as `gauge x opening x length model`, behind text
   * that holds no "M" and no digit, parses back to its four groups (a model of
   * one capital needs a text after it that does not go on with a capital).
   */
  lemma ParseWritten(pre: string, g: Gauge, opening: string, length: string, model: string, post: string)
    requires NoPatternStart(pre) && WellFormed(g) && IsDigits(opening) && IsDigits(length) && IsModel(model)
    requires |model| == 2 || post == [] || !IsUpper(post[0])
    ensures var d := Dimensions(GaugeText(g), opening, length, model);
      ParseDescription(Some(pre + Written(d, post))) == Some(d)
  {
    var d := Dimensions(GaugeText(g), opening, length, model);
    var s := pre + Written(d, post);
    var p := |pre|;
    assert s[p..] == Written(d, post);
    WrittenAt(s, p, g, d, post);
    forall m | 0 <= m < p
      ensures DimensionsAt(s, m).None?
    {
      assert s[m] == pre[m];
    }
    LeftmostIs(DimensionsAt, s, 0, p);
    assert s[p] == GaugeText(g)[0];
    TrimKeepsNonSpace(s, p);
  }
}
