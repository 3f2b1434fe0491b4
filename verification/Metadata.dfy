/**
 * Recognisers for the metadata lines of an order document and the two ways a
 * scan over all lines accumulates them: a variable overwritten by every
 * matching line (client name, explicit order number) and a set that grows
 * with every matching line (order-number candidates).
 */
module Metadata {
  import opened Results
  import opened Text

  // ---------------------------------------------------------------- client name

  const ClientLabel := "Cliente:"

  /** `\s*\(\d+\)` matches at `j`. */
  predicate NumberInParensAt(line: string, j: nat)
    requires j <= |line|
  {
    var a := RunEnd(line, j, Space);
    a < |line| && line[a] == '(' &&
    var b := RunEnd(line, a + 1, Digit);
    a + 1 < b < |line| && line[b] == ')'
  }

  /**
   * Where the lazy `(.+?)` stops: the first position from `j` on at which
   * `(?:\s*\(\d+\)|$)` matches.
   */
  function NameEnd(line: string, j: nat): (e: nat)
    requires j <= |line|
    ensures j <= e <= |line|
    ensures e == |line| || NumberInParensAt(line, e)
    ensures forall m :: j <= m < e ==> !NumberInParensAt(line, m)
    decreases |line| - j
  {
    if j == |line| || NumberInParensAt(line, j) then j else NameEnd(line, j + 1)
  }

  /** The lazy group that starts at `n` does not stop before `e`. */
  predicate NoStopBetween(line: string, n: nat, e: nat)
    requires e <= |line|
  {
    forall m :: n < m < e ==> !NumberInParensAt(line, m)
  }

  /** Group 1 of `Cliente:\s*(.+?)(?:\s*\(\d+\)|$)` matched at position `i`. */
  function ClientGroupAt(line: string, i: nat): Option<string>
  {
    if !StartsAt(line, ClientLabel, i) || i + |ClientLabel| == |line| then None
    else
      var w := RunEnd(line, i + |ClientLabel|, Space);
      if w < |line| then Some(line[w..NameEnd(line, w + 1)])
      // only whitespace follows the label: `\s*` gives one character back to `.+?`
      else Some(line[|line| - 1..])
  }

  /** The client name a line carries: the stripped group of the leftmost match (tags_clean.py:39-40). */
  function ClientName(line: string): (r: Option<string>)
    ensures r.Some? <==> exists i: nat :: StartsAt(line, ClientLabel, i) && i + |ClientLabel| < |line|
    ensures r.Some? ==> IsTrimmed(r.value)
  {
    match Leftmost(ClientGroupAt, line, 0)
    case None =>
      assert forall i: nat :: StartsAt(line, ClientLabel, i) ==> i + |ClientLabel| == |line| by {
        forall i: nat | StartsAt(line, ClientLabel, i) ensures i + |ClientLabel| == |line| {
          assert ClientGroupAt(line, i).None?;
        }
      }
      None
    case Some(k) => Some(Trim(ClientGroupAt(line, k).value))
  }

  /** The lazy group stops at the first place the terminator matches. */
  lemma {:induction false} NameEndIs(line: string, j: nat, e: nat)
    requires j <= e <= |line|
    requires e == |line| || NumberInParensAt(line, e)
    requires forall m :: j <= m < e ==> !NumberInParensAt(line, m)
    ensures NameEnd(line, j) == e
    decreases e - j
  {
    if j < e {
      NameEndIs(line, j + 1, e);
    }
  }

  /** Group 1 of the match at the label `p`, whitespace up to `n`, stopping at `e`. */
  lemma ClientGroupIs(line: string, p: nat, n: nat, e: nat)
    requires StartsAt(line, ClientLabel, p)
    requires p + |ClientLabel| <= n < e <= |line|
    requires Within(Space, line, p + |ClientLabel|, n) && !IsSpace(line[n])
    requires e == |line| || NumberInParensAt(line, e)
    requires NoStopBetween(line, n, e)
    ensures ClientGroupAt(line, p) == Some(line[n..e])
  {
    RunEndIs(line, p + |ClientLabel|, n, Space);
    NameEndIs(line, n + 1, e);
    ClientGroupOf(line, p, n, e);
  }

  /** Group 1 at the label `p`, once the whitespace run and the lazy group's stop are known. */
  lemma ClientGroupOf(line: string, p: nat, n: nat, e: nat)
    requires StartsAt(line, ClientLabel, p) && p + |ClientLabel| <= n < |line|
    requires RunEnd(line, p + |ClientLabel|, Space) == n && NameEnd(line, n + 1) == e
    ensures ClientGroupAt(line, p) == Some(line[n..e])
  {
  }

  /** `re.search` finds the first label followed by at least one character. */
  lemma FirstClientLabel(line: string, p: nat)
    requires StartsAt(line, ClientLabel, p) && p + |ClientLabel| < |line|
    requires forall i :: 0 <= i < p ==> !StartsAt(line, ClientLabel, i)
    ensures Leftmost(ClientGroupAt, line, 0) == Some(p)
  {
    LeftmostIs(ClientGroupAt, line, 0, p);
  }

  /**
   * The first label at `p`, whitespace up to `n`, and the lazy group's stop at `e`
   * determine the client name.
   */
  lemma ClientNameIs(line: string, p: nat, n: nat, e: nat, name: string)
    requires StartsAt(line, ClientLabel, p) && forall i :: 0 <= i < p ==> !StartsAt(line, ClientLabel, i)
    requires p + |ClientLabel| <= n < e <= |line|
    requires Within(Space, line, p + |ClientLabel|, n) && !IsSpace(line[n])
    requires e == |line| || NumberInParensAt(line, e)
    requires NoStopBetween(line, n, e)
    requires Trim(line[n..e]) == name
    ensures ClientName(line) == Some(name)
  {
    ClientGroupIs(line, p, n, e);
    FirstClientLabel(line, p);
  }

  /** A name followed by `\s*\(\d+\)` at `e` is the client name, when the lazy group does not stop inside it. */
  lemma ClientNameBeforeNumberAt(line: string, p: nat, n: nat, name: string)
    requires StartsAt(line, ClientLabel, p) && forall i :: 0 <= i < p ==> !StartsAt(line, ClientLabel, i)
    requires p + |ClientLabel| <= n && n + |name| <= |line|
    requires Within(Space, line, p + |ClientLabel|, n) && line[n..n + |name|] == name
    requires NumberInParensAt(line, n + |name|)
    requires name != [] && IsTrimmed(name) && NoStopBetween(line, n, n + |name|)
    ensures ClientName(line) == Some(name)
  {
    assert line[n] == name[0];
    TrimOfTrimmed(name);
    ClientNameIs(line, p, n, n + |name|, name);
  }

  /** A name followed only by whitespace is the client name, when the lazy group does not stop inside it. */
  lemma ClientNameAtEndAt(line: string, p: nat, n: nat, name: string)
    requires StartsAt(line, ClientLabel, p) && forall i :: 0 <= i < p ==> !StartsAt(line, ClientLabel, i)
    requires p + |ClientLabel| <= n && n + |name| <= |line|
    requires Within(Space, line, p + |ClientLabel|, n) && line[n..n + |name|] == name
    requires Within(Space, line, n + |name|, |line|)
    requires name != [] && IsTrimmed(name) && NoStopBetween(line, n, |line|)
    ensures ClientName(line) == Some(name)
  {
    assert line[n] == name[0];
    TrimBeforeSpaces(line, n, n + |name|);
    ClientNameIs(line, p, n, |line|, name);
  }

  /** Positions of `pre + "Cliente:" + ws + name` at the start of a line. */
  lemma ClientLineShape(line: string, pre: string, w: string, name: string, tail: string)
    requires line == pre + ClientLabel + w + name + tail
    requires All(Space, w)
    ensures StartsAt(line, ClientLabel, |pre|)
    ensures Within(Space, line, |pre| + |ClientLabel|, |pre| + |ClientLabel| + |w|)
    ensures line[|pre| + |ClientLabel| + |w|..|pre| + |ClientLabel| + |w| + |name|] == name
    ensures forall m :: 0 <= m < |tail| ==> line[|pre| + |ClientLabel| + |w| + |name| + m] == tail[m]
  {
    assert line[|pre|..|pre| + |ClientLabel|] == ClientLabel;
    assert forall m :: 0 <= m < |w| ==> line[|pre| + |ClientLabel| + m] == w[m];
    assert line[|pre| + |ClientLabel| + |w|..|pre| + |ClientLabel| + |w| + |name|] == name;
  }

  /** On a line `pre + "Cliente:" + ws + name + trailing-whitespace`, the client name is `name`. */
  lemma ClientNameAtEnd(line: string, pre: string, w: string, name: string, w2: string)
    requires line == pre + ClientLabel + w + name + w2
    requires forall i :: 0 <= i < |pre| ==> !StartsAt(line, ClientLabel, i)
    requires All(Space, w) && All(Space, w2)
    requires name != [] && IsTrimmed(name) && NoStopBetween(line, |pre| + |ClientLabel| + |w|, |line|)
    ensures ClientName(line) == Some(name)
  {
    ClientLineShape(line, pre, w, name, w2);
    var e := |pre| + |ClientLabel| + |w| + |name|;
    assert Within(Space, line, e, |line|);
    ClientNameAtEndAt(line, |pre|, |pre| + |ClientLabel| + |w|, name);
  }

  // ---------------------------------------------------------------- order number

  /** Group 1 of `pedido\s*nº:\s*(\d+)` (ignoring case) at `i`, and where the digits end. */
  function OrderDigitsAt(line: string, i: nat): (r: Option<(nat, nat)>)
    ensures r.Some? ==> i < r.value.0 < r.value.1 <= |line|
    ensures r.Some? ==> Within(Digit, line, r.value.0, r.value.1)
    ensures r.Some? ==> r.value.1 == |line| || !IsDigit(line[r.value.1])
  {
    if !StartsAtIgnoringCase(line, "pedido", i) then None
    else
      var a := RunEnd(line, i + 6, Space);
      if !StartsAtIgnoringCase(line, "nº:", a) then None
      else
        var b := RunEnd(line, a + 3, Space);
        var c := RunEnd(line, b, Digit);
        if c == b then None else Some((b, c))
  }

  /** `(?i)pedido\s*nº:\s*(\d+)` at `i` (tags_clean.py:41). */
  function PlainOrderAt(line: string, i: nat): Option<string>
  {
    match OrderDigitsAt(line, i)
    case None => None
    case Some((b, c)) => Some(line[b..c])
  }

  /** `pedido\s*nº:\s*(\d+)\s*data:` with `re.IGNORECASE` at `i` (tags_clean2.py:84, tags_excel.py:96). */
  function DatedOrderAt(line: string, i: nat): Option<string>
  {
    match OrderDigitsAt(line, i)
    case None => None
    case Some((b, c)) =>
      if StartsAtIgnoringCase(line, "data:", RunEnd(line, c, Space)) then Some(line[b..c]) else None
  }

  /** The order number a line states after `pedido nº:`, as `re.search(...).group(1)`. */
  function PlainOrder(line: string): (r: Option<string>)
    ensures r.Some? ==> r.value != [] && All(Digit, r.value)
  {
    match Leftmost(PlainOrderAt, line, 0)
    case None => None
    case Some(k) => PlainOrderAt(line, k)
  }

  /** The order number a line states after `pedido nº:` and before `data:`. */
  function DatedOrder(line: string): (r: Option<string>)
    ensures r.Some? ==> r.value != [] && All(Digit, r.value)
  {
    match Leftmost(DatedOrderAt, line, 0)
    case None => None
    case Some(k) => DatedOrderAt(line, k)
  }

  /** `word` reads "pedido" and `mark` reads "nº:" when case is ignored. */
  predicate IsOrderLabel(word: string, mark: string) {
    StartsAtIgnoringCase(word, "pedido", 0) && |word| == 6 &&
    StartsAtIgnoringCase(mark, "nº:", 0) && |mark| == 3
  }

  /** The pattern up to the digits matches at `p` when its pieces are at the given places. */
  lemma OrderDigitsAtIs(line: string, p: nat, a: nat, b: nat, c: nat)
    requires p + 6 <= a && a + 3 <= b < c <= |line|
    requires StartsAtIgnoringCase(line, "pedido", p) && StartsAtIgnoringCase(line, "nº:", a)
    requires Within(Space, line, p + 6, a) && Within(Space, line, a + 3, b) && Within(Digit, line, b, c)
    requires c == |line| || !IsDigit(line[c])
    ensures OrderDigitsAt(line, p) == Some((b, c))
  {
    assert MatchesIgnoringCase(line[a + 0], "nº:"[0]) && "nº:"[0] == 'n';
    RunEndIs(line, p + 6, a, Space);
    RunEndIs(line, a + 3, b, Space);
    RunEndIs(line, b, c, Digit);
  }

  /** A piece of text that reads `pat` ignoring case, copied at `i`, reads `pat` there too. */
  lemma IgnoringCaseAt(line: string, i: nat, piece: string, pat: string)
    requires i + |piece| <= |line| && forall m :: 0 <= m < |piece| ==> line[i + m] == piece[m]
    requires StartsAtIgnoringCase(piece, pat, 0) && |piece| == |pat|
    ensures StartsAtIgnoringCase(line, pat, i)
  {
    assert forall m :: 0 <= m < |pat| ==> MatchesIgnoringCase(piece[0 + m], pat[m]);
  }

  /** Where the pieces of `pre + word + ws + mark + ws' + digits + rest` lie in the line. */
  lemma OrderLineShape(line: string, pre: string, word: string, w1: string, mark: string,
                       w2: string, digits: string, rest: string)
    requires line == pre + word + w1 + mark + w2 + digits + rest
    requires IsOrderLabel(word, mark) && All(Space, w1) && All(Space, w2)
    requires digits != [] && All(Digit, digits) && (rest == [] || !IsDigit(rest[0]))
    ensures |pre| + 6 + |w1| + 3 + |w2| + |digits| <= |line|
    ensures StartsAtIgnoringCase(line, "pedido", |pre|)
    ensures StartsAtIgnoringCase(line, "nº:", |pre| + 6 + |w1|)
    ensures Within(Space, line, |pre| + 6, |pre| + 6 + |w1|)
    ensures Within(Space, line, |pre| + 6 + |w1| + 3, |pre| + 6 + |w1| + 3 + |w2|)
    ensures Within(Digit, line, |pre| + 6 + |w1| + 3 + |w2|, |pre| + 6 + |w1| + 3 + |w2| + |digits|)
    ensures var c := |pre| + 6 + |w1| + 3 + |w2| + |digits|; c == |line| || !IsDigit(line[c])
  {
    var p := |pre|;
    var a := p + 6 + |w1|;
    var b := a + 3 + |w2|;
    var c := b + |digits|;
    assert forall m :: 0 <= m < 6 ==> line[p + m] == word[m];
    assert forall m :: 0 <= m < |w1| ==> line[p + 6 + m] == w1[m];
    assert forall m :: 0 <= m < 3 ==> line[a + m] == mark[m];
    assert forall m :: 0 <= m < |w2| ==> line[a + 3 + m] == w2[m];
    assert forall m :: 0 <= m < |digits| ==> line[b + m] == digits[m];
    assert c < |line| ==> line[c] == rest[0];
    IgnoringCaseAt(line, p, word, "pedido");
    IgnoringCaseAt(line, a, mark, "nº:");
  }

  lemma OrderDigitsRecognised(line: string, pre: string, word: string, w1: string, mark: string,
                              w2: string, digits: string, rest: string)
    requires line == pre + word + w1 + mark + w2 + digits + rest
    requires IsOrderLabel(word, mark) && All(Space, w1) && All(Space, w2)
    requires digits != [] && All(Digit, digits) && (rest == [] || !IsDigit(rest[0]))
    ensures OrderDigitsAt(line, |pre|) == Some((|pre| + 6 + |w1| + 3 + |w2|, |pre| + 6 + |w1| + 3 + |w2| + |digits|))
  {
    OrderLineShape(line, pre, word, w1, mark, w2, digits, rest);
    OrderDigitsAtIs(line, |pre|, |pre| + 6 + |w1|, |pre| + 6 + |w1| + 3 + |w2|, |pre| + 6 + |w1| + 3 + |w2| + |digits|);
  }

  /**
   * No match can start where the character cannot begin "pedido": text with no
   * `p`/`P` meets the leftmost condition of the order lemmas below.
   */
  lemma NoOrderBefore(line: string, p: nat)
    requires p <= |line| && forall i :: 0 <= i < p ==> !MatchesIgnoringCase(line[i], 'p')
    ensures forall i :: 0 <= i < p ==> OrderDigitsAt(line, i).None?
    ensures forall i :: 0 <= i < p ==> PlainOrderAt(line, i).None? && DatedOrderAt(line, i).None?
  {
    forall i | 0 <= i < p ensures OrderDigitsAt(line, i).None? {
      assert !MatchesIgnoringCase(line[i + 0], "pedido"[0]);
    }
  }

  /**
   * `Pedido Nº: 123` (any case of the letters) after text in which no match
   * starts gives the order number "123", whatever follows the digits.
   */
  lemma PlainOrderRecognised(line: string, pre: string, word: string, w1: string, mark: string,
                             w2: string, digits: string, rest: string)
    requires line == pre + word + w1 + mark + w2 + digits + rest
    requires forall i :: 0 <= i < |pre| ==> PlainOrderAt(line, i).None?
    requires IsOrderLabel(word, mark) && All(Space, w1) && All(Space, w2)
    requires digits != [] && All(Digit, digits) && (rest == [] || !IsDigit(rest[0]))
    ensures PlainOrder(line) == Some(digits)
  {
    OrderDigitsRecognised(line, pre, word, w1, mark, w2, digits, rest);
    LeftmostIs(PlainOrderAt, line, 0, |pre|);
    var b := |pre| + 6 + |w1| + 3 + |w2|;
    assert line[b..b + |digits|] == digits;
  }

  /** The dated pattern at `p`, with `data:` at `d` after the digits `b..c`. */
  lemma DatedOrderIs(line: string, p: nat, b: nat, c: nat, d: nat)
    requires OrderDigitsAt(line, p) == Some((b, c))
    requires c <= d <= |line| && Within(Space, line, c, d) && StartsAtIgnoringCase(line, "data:", d)
    requires forall i :: 0 <= i < p ==> DatedOrderAt(line, i).None?
    ensures DatedOrder(line) == Some(line[b..c])
  {
    assert MatchesIgnoringCase(line[d + 0], "data:"[0]) && "data:"[0] == 'd';
    RunEndIs(line, c, d, Space);
    LeftmostIs(DatedOrderAt, line, 0, p);
  }

  /**
   * `Pedido Nº: 123 Data:` after text in which no dated match starts gives "123": the line is
   * `pre + word + ws + mark + ws' + digits + tail` with `tail` = `ws'' + date + rest`.
   */
  lemma DatedOrderRecognised(line: string, pre: string, word: string, w1: string, mark: string,
                             w2: string, digits: string, tail: string, w3: string, date: string, rest: string)
    requires line == pre + word + w1 + mark + w2 + digits + tail
    requires tail == w3 + date + rest
    requires forall i :: 0 <= i < |pre| ==> DatedOrderAt(line, i).None?
    requires IsOrderLabel(word, mark) && All(Space, w1) && All(Space, w2) && All(Space, w3)
    requires digits != [] && All(Digit, digits)
    requires StartsAtIgnoringCase(date, "data:", 0)
    ensures DatedOrder(line) == Some(digits)
  {
    assert MatchesIgnoringCase(date[0 + 0], "data:"[0]) && "data:"[0] == 'd';
    assert tail[0] == date[0] || tail[0] == w3[0];
    OrderDigitsRecognised(line, pre, word, w1, mark, w2, digits, tail);
    var b := |pre| + 6 + |w1| + 3 + |w2|;
    var c := b + |digits|;
    DateAfter(line, c, tail, w3, date, rest);
    assert line[b..c] == digits;
    DatedOrderIs(line, |pre|, b, c, c + |w3|);
  }

  /** Where `ws + date` lies when the line ends with `tail` = `ws + date + rest` from `c` on. */
  lemma DateAfter(line: string, c: nat, tail: string, w3: string, date: string, rest: string)
    requires c + |tail| == |line| && line[c..] == tail
    requires tail == w3 + date + rest
    requires All(Space, w3) && StartsAtIgnoringCase(date, "data:", 0)
    ensures c + |w3| <= |line| && Within(Space, line, c, c + |w3|)
    ensures StartsAtIgnoringCase(line, "data:", c + |w3|)
  {
    assert forall m :: 0 <= m < |w3| ==> line[c + m] == tail[m] == w3[m];
    assert forall m :: 0 <= m < 5 ==> line[c + |w3| + m] == tail[|w3| + m] == date[m];
    IgnoringCaseAt(line, c + |w3|, date[..5], "data:");
  }

  // ---------------------------------------------------------------- accumulation over lines

  /**
   * The value a scan leaves in a variable that every line matched by `f`
   * overwrites (`if m := re.search(...): x = m.group(1)`); `None` if no line matches.
   */
  function LastMatch(lines: seq<string>, f: string -> Option<string>): Option<string>
    decreases |lines|
  {
    if lines == [] then None
    else
      match f(lines[|lines| - 1])
      case Some(v) => Some(v)
      case None => LastMatch(lines[..|lines| - 1], f)
  }

  /** Last match wins: the value is that of the last line `f` matches. */
  lemma {:induction false} LastMatchIsLast(lines: seq<string>, f: string -> Option<string>, k: nat)
    requires k < |lines| && f(lines[k]).Some?
    requires forall j :: k < j < |lines| ==> f(lines[j]).None?
    ensures LastMatch(lines, f) == f(lines[k])
    decreases |lines|
  {
    if k < |lines| - 1 {
      var p := lines[..|lines| - 1];
      assert forall j :: k < j < |p| ==> p[j] == lines[j];
      LastMatchIsLast(p, f, k);
    }
  }

  /** Nothing is left in the variable exactly when no line matches. */
  lemma {:induction false} LastMatchNone(lines: seq<string>, f: string -> Option<string>)
    ensures LastMatch(lines, f).None? <==> forall j :: 0 <= j < |lines| ==> f(lines[j]).None?
    decreases |lines|
  {
    if lines != [] {
      var p := lines[..|lines| - 1];
      LastMatchNone(p, f);
      assert forall j :: 0 <= j < |p| ==> p[j] == lines[j];
    }
  }

  /** Scanning one more line: the variable changes exactly when that line matches. */
  lemma LastMatchStep(lines: seq<string>, i: nat, f: string -> Option<string>)
    requires i < |lines|
    ensures LastMatch(lines[..i + 1], f) ==
            if f(lines[i]).Some? then f(lines[i]) else LastMatch(lines[..i], f)
  {
    assert lines[..i + 1][..i] == lines[..i];
  }

  /** The set a scan builds by adding the value of every line `f` matches (`values.add(...)`). */
  function Collected(lines: seq<string>, f: string -> Option<string>): set<string>
    decreases |lines|
  {
    if lines == [] then {}
    else
      Collected(lines[..|lines| - 1], f) +
      match f(lines[|lines| - 1])
      case Some(v) => {v}
      case None => {}
  }

  /** A value is collected exactly when some line yields it. */
  lemma {:induction false} CollectedIff(lines: seq<string>, f: string -> Option<string>, x: string)
    ensures x in Collected(lines, f) <==> exists k :: 0 <= k < |lines| && f(lines[k]) == Some(x)
    decreases |lines|
  {
    if lines != [] {
      var p := lines[..|lines| - 1];
      CollectedIff(p, f, x);
      assert forall k :: 0 <= k < |p| ==> p[k] == lines[k];
      if f(lines[|lines| - 1]) == Some(x) {
        assert x in Collected(lines, f);
      }
    }
  }

  lemma CollectedStep(lines: seq<string>, i: nat, f: string -> Option<string>)
    requires i < |lines|
    ensures Collected(lines[..i + 1], f) ==
            if f(lines[i]).Some? then Collected(lines[..i], f) + {f(lines[i]).value} else Collected(lines[..i], f)
  {
    assert lines[..i + 1][..i] == lines[..i];
  }
  /** The `elif` after the explicit order match: a line stating the order adds no candidate. */
  function Unless(explicit: string -> Option<string>, fallback: string -> Option<string>): string -> Option<string> {
    line => if explicit(line).Some? then None else fallback(line)
  }

  /**
   * The metadata loop: the last client name, the last explicit order number
   * and the set of candidates of the lines without one.
   */
  method ScanHeader(lines: seq<string>, explicit: string -> Option<string>, fallback: string -> Option<string>)
    returns (client: Option<string>, order: Option<string>, candidates: set<string>)
    ensures client == LastMatch(lines, ClientName)
    ensures order == LastMatch(lines, explicit)
    ensures candidates == Collected(lines, Unless(explicit, fallback))
  {
    client, order, candidates := None, None, {};
    var i := 0;
    while i < |lines|
      invariant i <= |lines|
      invariant client == LastMatch(lines[..i], ClientName)
      invariant order == LastMatch(lines[..i], explicit)
      invariant candidates == Collected(lines[..i], Unless(explicit, fallback))
    {
      var line := lines[i];
      var name := ClientName(line);
      if name.Some? {
        client := name;
      }
      var stated := explicit(line);
      if stated.Some? {
        order := stated;
      } else {
        var c := fallback(line);
        if c.Some? {
          candidates := candidates + {c.value};
        }
      }
      LastMatchStep(lines, i, ClientName);
      LastMatchStep(lines, i, explicit);
      CollectedStep(lines, i, Unless(explicit, fallback));
      i := i + 1;
    }
    assert lines[..i] == lines;
  }

  /** The candidates are the fallback values of the lines that state no order. */
  lemma CandidatesAre(lines: seq<string>, explicit: string -> Option<string>, fallback: string -> Option<string>, x: string)
    ensures x in Collected(lines, Unless(explicit, fallback)) <==>
      exists k :: 0 <= k < |lines| && explicit(lines[k]).None? && fallback(lines[k]) == Some(x)
  {
    CollectedIff(lines, Unless(explicit, fallback), x);
  }

  /**
   * The order number a script settles on: the stated number unless it is
   * missing or empty (`if not pedido`), else some member of the candidates
   * (`next(iter(...))` and `list(...)[0]` leave which to set iteration
   * order, so any is admitted), else `default`.
   */
  predicate IsChosenOrder(o: string, stated: Option<string>, candidates: set<string>, default: string) {
    if stated.Some? && stated.value != "" then o == stated.value
    else if candidates == {} then o == default
    else o in candidates
  }
}
