/**
 * Character classes and string helpers shared by all recognisers: the
 * characters `\d` and `\s` stand for, maximal runs of a class, Python's
 * `str.strip()`, `str.zfill(width)`, `str.split()[0]`, `str.replace(",", ".")`,
 * the decimal value of a digit string, `str(n)` and Python's ordering of strings.
 */
module Text {
  import opened Results

  /** The characters `\d` matches in this model (ASCII digits). */
  predicate IsDigit(c: char) { '0' <= c <= '9' }

  /** The characters `\s` matches and `str.strip()` removes, restricted to ASCII. */
  predicate IsSpace(c: char) {
    c == ' ' || (9 <= c as int <= 13) || (28 <= c as int <= 31)
  }

  /** The characters `[A-Z]` matches. */
  predicate IsUpper(c: char) { 'A' <= c <= 'Z' }

  datatype CharClass = Digit | Space | NonSpace | DigitOrComma | DigitDotComma | DigitOrDot

  predicate InClass(k: CharClass, c: char) {
    match k
    case Digit => IsDigit(c)
    case Space => IsSpace(c)
    case NonSpace => !IsSpace(c)
    case DigitOrComma => IsDigit(c) || c == ','
    case DigitDotComma => IsDigit(c) || c == '.' || c == ','
    case DigitOrDot => IsDigit(c) || c == '.'
  }

  /** Every character of `s` is in class `k`. */
  predicate All(k: CharClass, s: string) {
    forall m :: 0 <= m < |s| ==> InClass(k, s[m])
  }

  /** Every character of `s[i..j]` is in class `k`, stated on positions of `s`. */
  predicate Within(k: CharClass, s: string, i: nat, j: nat)
    requires i <= j <= |s|
  {
    forall m :: i <= m < j ==> InClass(k, s[m])
  }

  /** The end of the maximal run of class `k` that starts at `i` (a greedy `k*`). */
  function RunEnd(s: string, i: nat, k: CharClass): (j: nat)
    requires i <= |s|
    ensures i <= j <= |s|
    ensures Within(k, s, i, j)
    ensures j == |s| || !InClass(k, s[j])
    ensures i < |s| && InClass(k, s[i]) ==> i < j
    decreases |s| - i
  {
    if i < |s| && InClass(k, s[i]) then RunEnd(s, i + 1, k) else i
  }

  /** A run that is maximal is the one `RunEnd` finds. */
  lemma RunEndIs(s: string, i: nat, j: nat, k: CharClass)
    requires i <= j <= |s|
    requires Within(k, s, i, j)
    requires j == |s| || !InClass(k, s[j])
    ensures RunEnd(s, i, k) == j
  {
  }

  /** The run of class `k` at the start of `piece`, inside `pre + piece + post`, is exactly `piece`. */
  lemma RunOfPiece(line: string, pre: string, piece: string, post: string, k: CharClass)
    requires line == pre + piece + post
    requires All(k, piece)
    requires post == [] || !InClass(k, post[0])
    ensures RunEnd(line, |pre|, k) == |pre| + |piece|
  {
    assert forall m :: |pre| <= m < |pre| + |piece| ==> line[m] == piece[m - |pre|];
    assert post != [] ==> line[|pre| + |piece|] == post[0];
    RunEndIs(line, |pre|, |pre| + |piece|, k);
  }

  /** A slice that equals a text of class `k` lies within that class. */
  lemma SliceWithin(line: string, i: nat, j: nat, piece: string, k: CharClass)
    requires i <= j <= |line| && line[i..j] == piece && All(k, piece)
    ensures Within(k, line, i, j)
  {
    assert forall m :: i <= m < j ==> line[m] == piece[m - i];
  }

  /** A stretch of `s` within class `k` is, as a slice, all of class `k`. */
  lemma WithinAll(s: string, i: nat, j: nat, k: CharClass)
    requires i <= j <= |s| && Within(k, s, i, j)
    ensures All(k, s[i..j])
  {
    assert forall m :: 0 <= m < j - i ==> s[i..j][m] == s[i + m];
  }

  /**
   * `re.search`: the leftmost position from `i` on at which `at` matches
   * (`at` is a pattern tried at one position, as the regex engine does).
   */
  function Leftmost<T>(at: (string, nat) -> Option<T>, s: string, i: nat): (r: Option<nat>)
    requires i <= |s|
    ensures r.Some? ==> i <= r.value <= |s| && at(s, r.value).Some?
    ensures forall m :: i <= m <= |s| && (r.None? || m < r.value) ==> at(s, m).None?
    decreases |s| - i
  {
    if at(s, i).Some? then Some(i)
    else if i == |s| then None
    else Leftmost(at, s, i + 1)
  }

  /** The leftmost match is the first position that matches. */
  lemma LeftmostIs<T>(at: (string, nat) -> Option<T>, s: string, i: nat, k: nat)
    requires i <= k <= |s|
    requires at(s, k).Some?
    requires forall m :: i <= m < k ==> at(s, m).None?
    ensures Leftmost(at, s, i) == Some(k)
  {
  }

  /** No position from `i` on matches: the search finds nothing. */
  lemma {:induction false} LeftmostNone<T>(at: (string, nat) -> Option<T>, s: string, i: nat)
    requires i <= |s|
    requires forall m :: i <= m <= |s| ==> at(s, m).None?
    ensures Leftmost(at, s, i).None?
    decreases |s| - i
  {
    if i < |s| {
      LeftmostNone(at, s, i + 1);
    }
  }

  /** `p` occurs in `s` at position `i`. */
  predicate StartsAt(s: string, p: string, i: nat) {
    i + |p| <= |s| && s[i..i + |p|] == p
  }

  /** An occurrence inside the slice `s[i..j]` is an occurrence in `s`, shifted by `i`. */
  lemma StartsAtInSlice(s: string, i: nat, j: nat, f: nat, p: string)
    requires i <= f && f + |p| <= j <= |s|
    ensures StartsAt(s[i..j], p, f - i) <==> StartsAt(s, p, f)
  {
    var d := s[i..j];
    var o: nat := f - i;
    var x, z := d[o..o + |p|], s[f..f + |p|];
    forall y | 0 <= y < |p|
      ensures x[y] == z[y]
    {
      assert x[y] == d[o + y] == s[i + o + y];
    }
    assert x == z;
  }

  /** One character of a pattern written in lower case, under `re.IGNORECASE` (ASCII letters). */
  predicate MatchesIgnoringCase(c: char, p: char) {
    c == p || ('a' <= p <= 'z' && c as int == p as int - 32)
  }

  /** `p` (written in lower case) occurs at `i` under `re.IGNORECASE`. */
  predicate StartsAtIgnoringCase(s: string, p: string, i: nat) {
    i + |p| <= |s| && forall m :: 0 <= m < |p| ==> MatchesIgnoringCase(s[i + m], p[m])
  }

  // ---------------------------------------------------------------- strip

  predicate IsTrimmed(s: string) {
    s == [] || (!IsSpace(s[0]) && !IsSpace(s[|s| - 1]))
  }

  /** `s` without its leading whitespace. */
  function TrimStart(s: string): (r: string)
    ensures |r| <= |s| && r == s[|s| - |r|..]
    ensures All(Space, s[..|s| - |r|])
    ensures r == [] || !IsSpace(r[0])
  {
    s[RunEnd(s, 0, Space)..]
  }

  /** `s` without its trailing whitespace. */
  function TrimEnd(s: string): (r: string)
    ensures |r| <= |s| && r == s[..|r|]
    ensures All(Space, s[|r|..])
    ensures r == [] || !IsSpace(r[|r| - 1])
  {
    if s != [] && IsSpace(s[|s| - 1]) then
      var r := TrimEnd(s[..|s| - 1]);
      assert s[|r|..] == s[..|s| - 1][|r|..] + [s[|s| - 1]];
      r
    else s
  }

  /** Python's `s.strip()`. */
  function Trim(s: string): (r: string)
    ensures IsTrimmed(r)
    ensures |r| <= |s|
  {
    TrimEnd(TrimStart(s))
  }

  /** A text with a character that is not whitespace does not strip to nothing. */
  lemma TrimKeepsNonSpace(s: string, k: nat)
    requires k < |s| && !IsSpace(s[k])
    ensures Trim(s) != []
  {
    var a := RunEnd(s, 0, Space);
    assert a <= k;
    var t := TrimStart(s);
    assert t == s[a..] && t != [] && !IsSpace(t[0]);
  }

  lemma TrimStartOf(a: string, m: string)
    requires All(Space, a)
    requires m == [] || !IsSpace(m[0])
    ensures TrimStart(a + m) == m
  {
    var s := a + m;
    assert Within(Space, s, 0, |a|);
    RunEndIs(s, 0, |a|, Space);
    assert s[|a|..] == m;
  }

  lemma {:induction false} TrimEndOf(m: string, b: string)
    requires All(Space, b)
    requires m == [] || !IsSpace(m[|m| - 1])
    ensures TrimEnd(m + b) == m
    decreases |b|
  {
    if b == [] {
      assert m + b == m;
    } else {
      var s := m + b;
      assert s[..|s| - 1] == m + b[..|b| - 1];
      TrimEndOf(m, b[..|b| - 1]);
    }
  }

  /** Stripping a trimmed text surrounded by whitespace gives the text back. */
  lemma TrimOfPadded(a: string, m: string, b: string)
    requires All(Space, a) && All(Space, b) && IsTrimmed(m)
    ensures Trim(a + m + b) == m
  {
    if m == [] {
      assert a + m + b == a + b;
      assert All(Space, a + b);
      assert TrimStart(a + b) == [];
    } else {
      assert a + m + b == a + (m + b);
      TrimStartOf(a, m + b);
      TrimEndOf(m, b);
    }
  }

  /** Stripping the rest of `s` from `n` gives the trimmed `s[n..e]` when only whitespace follows `e`. */
  lemma TrimBeforeSpaces(s: string, n: nat, e: nat)
    requires n <= e <= |s| && IsTrimmed(s[n..e]) && Within(Space, s, e, |s|)
    ensures Trim(s[n..|s|]) == s[n..e]
  {
    assert s[n..|s|] == [] + s[n..e] + s[e..|s|];
    TrimOfPadded([], s[n..e], s[e..|s|]);
  }

  /** `strip()` leaves a trimmed text unchanged. */
  lemma TrimOfTrimmed(s: string)
    requires IsTrimmed(s)
    ensures Trim(s) == s
  {
    assert [] + s + [] == s;
    TrimOfPadded([], s, []);
  }

  /** `strip()` is idempotent. */
  lemma TrimIdempotent(s: string)
    ensures Trim(Trim(s)) == Trim(s)
  {
    var t := Trim(s);
    assert [] + t + [] == t;
    TrimOfPadded([], t, []);
  }

  // ---------------------------------------------------------------- zfill

  function Zeros(n: nat): (z: string)
    ensures |z| == n && forall i :: 0 <= i < n ==> z[i] == '0'
  {
    seq(n, _ => '0')
  }

  predicate HasSign(s: string) { |s| > 0 && (s[0] == '+' || s[0] == '-') }

  /**
   * Python's `s.zfill(width)`: pad with '0' on the left to `width`,
   * keeping a leading sign in front of the zeros; never truncates.
   */
  function ZFill(s: string, width: nat): (r: string)
    ensures |r| == if |s| >= width then |s| else width
    ensures |s| >= width ==> r == s
    ensures !HasSign(s) ==> r[|r| - |s|..] == s && forall i :: 0 <= i < |r| - |s| ==> r[i] == '0'
    ensures HasSign(s) ==> r[0] == s[0] && r[|r| - |s| + 1..] == s[1..]
    ensures HasSign(s) ==> forall i :: 1 <= i <= |r| - |s| ==> r[i] == '0'
  {
    if |s| >= width then s
    else if HasSign(s) then [s[0]] + Zeros(width - |s|) + s[1..]
    else Zeros(width - |s|) + s
  }

  /** Padding twice is padding once. */
  lemma ZFillIdempotent(s: string, width: nat)
    ensures ZFill(ZFill(s, width), width) == ZFill(s, width)
  {
  }

  // ---------------------------------------------------------------- decimal numbers

  function DigitValue(c: char): (d: nat)
    requires IsDigit(c)
    ensures d < 10
  {
    c as int - '0' as int
  }

  function DigitChar(d: nat): (c: char)
    requires d < 10
    ensures IsDigit(c) && DigitValue(c) == d
  {
    ('0' as int + d) as char
  }

  /** The number a digit string denotes (`int(s)`), 0 for the empty string. */
  function Value(s: string): nat
    requires All(Digit, s)
  {
    if s == [] then 0 else Value(s[..|s| - 1]) * 10 + DigitValue(s[|s| - 1])
  }

  /** Python's `str(n)` for a natural number. */
  function Decimal(n: nat): (s: string)
    ensures |s| >= 1 && All(Digit, s)
    ensures Value(s) == n
    ensures |s| > 1 ==> s[0] != '0'
  {
    if n < 10 then [DigitChar(n)]
    else
      var p := Decimal(n / 10);
      var s := p + [DigitChar(n % 10)];
      assert s[..|s| - 1] == p;
      s
  }

  lemma {:induction false} ZerosValue(n: nat)
    ensures All(Digit, Zeros(n)) && Value(Zeros(n)) == 0
  {
    if n > 0 {
      assert Zeros(n)[..n - 1] == Zeros(n - 1);
      ZerosValue(n - 1);
    }
  }

  /** Leading zeros do not change the value of a digit string. */
  lemma {:induction false} LeadingZerosValue(n: nat, s: string)
    requires All(Digit, s)
    ensures All(Digit, Zeros(n) + s) && Value(Zeros(n) + s) == Value(s)
    decreases |s|
  {
    var t := Zeros(n) + s;
    if s == [] {
      assert t == Zeros(n);
      ZerosValue(n);
    } else {
      assert t[..|t| - 1] == Zeros(n) + s[..|s| - 1];
      LeadingZerosValue(n, s[..|s| - 1]);
    }
  }

  /** Two digit strings of the same length with the same value are equal. */
  lemma {:induction false} SameLengthSameValue(a: string, b: string)
    requires All(Digit, a) && All(Digit, b) && |a| == |b|
    requires Value(a) == Value(b)
    ensures a == b
    decreases |a|
  {
    if a != [] {
      var n := |a| - 1;
      var da, db := DigitValue(a[n]), DigitValue(b[n]);
      assert Value(a) == Value(a[..n]) * 10 + da;
      assert Value(b) == Value(b[..n]) * 10 + db;
      assert da == Value(a) % 10 && db == Value(b) % 10;
      assert Value(a[..n]) == Value(b[..n]);
      SameLengthSameValue(a[..n], b[..n]);
      assert a == a[..n] + [a[n]] && b == b[..n] + [b[n]];
      assert a[n] as int == da + '0' as int && b[n] as int == db + '0' as int;
    }
  }

  /**
   * For digit strings of at most `width` characters, zero-padding makes two
   * codes equal exactly when they denote the same number.
   */
  lemma ZFillSameNumber(a: string, b: string, width: nat)
    requires All(Digit, a) && All(Digit, b) && |a| <= width && |b| <= width
    ensures ZFill(a, width) == ZFill(b, width) <==> Value(a) == Value(b)
  {
    ZFillOfDigits(a, width);
    ZFillOfDigits(b, width);
    var za, zb := Zeros(width - |a|) + a, Zeros(width - |b|) + b;
    LeadingZerosValue(width - |a|, a);
    LeadingZerosValue(width - |b|, b);
    assert |za| == width == |zb|;
    if Value(a) == Value(b) {
      SameLengthSameValue(za, zb);
    }
  }

  lemma ZFillOfDigits(a: string, width: nat)
    requires All(Digit, a) && |a| <= width
    ensures ZFill(a, width) == Zeros(width - |a|) + a
  {
    if |a| == width {
      assert Zeros(0) + a == a;
    } else {
      assert !HasSign(a);
    }
  }

  // ---------------------------------------------------------------- split, replace

  /** Python's `line.split()[0]`: the first whitespace-delimited token, if any. */
  function FirstToken(line: string): (r: Option<string>)
    ensures r.Some? <==> exists m :: 0 <= m < |line| && !IsSpace(line[m])
    ensures r.Some? ==> r.value != [] && All(NonSpace, r.value)
    ensures r.Some? ==> exists a :: 0 <= a <= |line| - |r.value| && All(Space, line[..a]) &&
                                  line[a..a + |r.value|] == r.value &&
                                  (a + |r.value| == |line| || IsSpace(line[a + |r.value|]))
  {
    var a := RunEnd(line, 0, Space);
    if a == |line| then
      assert forall m :: 0 <= m < |line| ==> IsSpace(line[m]);
      None
    else
      var b := RunEnd(line, a, NonSpace);
      assert All(Space, line[..a]);
      Some(line[a..b])
  }

  /** Python's `s.replace(",", ".")`. */
  function CommasToDots(s: string): (r: string)
    ensures |r| == |s|
    ensures forall i :: 0 <= i < |s| ==> r[i] == (if s[i] == ',' then '.' else s[i])
  {
    seq(|s|, i requires 0 <= i < |s| => if s[i] == ',' then '.' else s[i])
  }

  // ---------------------------------------------------------------- string order

  /** Python's `a <= b` on strings: lexicographic by code point, a prefix first. */
  predicate LexLe(a: string, b: string)
    decreases |a|
  {
    a == [] || (b != [] && (a[0] < b[0] || (a[0] == b[0] && LexLe(a[1..], b[1..]))))
  }

  lemma {:induction false} LexReflexive(a: string)
    ensures LexLe(a, a)
    decreases |a|
  {
    if a != [] { LexReflexive(a[1..]); }
  }

  lemma {:induction false} LexTotal(a: string, b: string)
    ensures LexLe(a, b) || LexLe(b, a)
    decreases |a|
  {
    if a != [] && b != [] && a[0] == b[0] { LexTotal(a[1..], b[1..]); }
  }

  lemma {:induction false} LexAntisymmetric(a: string, b: string)
    requires LexLe(a, b) && LexLe(b, a)
    ensures a == b
    decreases |a|
  {
    if a != [] {
      LexAntisymmetric(a[1..], b[1..]);
      assert a == [a[0]] + a[1..] && b == [b[0]] + b[1..];
    }
  }

  lemma {:induction false} LexTransitive(a: string, b: string, c: string)
    requires LexLe(a, b) && LexLe(b, c)
    ensures LexLe(a, c)
    decreases |a|
  {
    if a != [] && a[0] == b[0] && b[0] == c[0] {
      LexTransitive(a[1..], b[1..], c[1..]);
    }
  }

  /** `m` is what `sorted(s)[0]` returns. */
  predicate IsLexMin(m: string, s: set<string>) {
    m in s && forall x :: x in s ==> LexLe(m, x)
  }

  /** The smallest element is unique, so `sorted(s)[0]` is determined by `s`. */
  lemma LexMinUnique(m: string, n: string, s: set<string>)
    requires IsLexMin(m, s) && IsLexMin(n, s)
    ensures m == n
  {
    LexAntisymmetric(m, n);
  }
  /** A non-empty set of strings has a smallest element. */
  lemma {:induction false} LexMinExists(s: set<string>)
    requires s != {}
    ensures exists m :: IsLexMin(m, s)
    ensures forall m, n :: IsLexMin(m, s) && IsLexMin(n, s) ==> m == n
    decreases |s|
  {
    forall m, n | IsLexMin(m, s) && IsLexMin(n, s) ensures m == n {
      LexMinUnique(m, n, s);
    }
    var x :| x in s;
    var rest := s - {x};
    if rest == {} {
      LexReflexive(x);
      assert s == {x};
      assert IsLexMin(x, s);
    } else {
      LexMinExists(rest);
      var m :| IsLexMin(m, rest);
      LexTotal(x, m);
      if LexLe(x, m) {
        forall y | y in s ensures LexLe(x, y) {
          if y != x { LexTransitive(x, m, y); } else { LexReflexive(x); }
        }
        assert IsLexMin(x, s);
      } else {
        assert IsLexMin(m, s);
      }
    }
  }

  /** Python's `sorted(s)[0]` for a non-empty set of strings. */
  function LexMin(s: set<string>): (m: string)
    requires s != {}
    ensures IsLexMin(m, s)
  {
    LexMinExists(s);
    var m :| IsLexMin(m, s);
    m
  }
}
