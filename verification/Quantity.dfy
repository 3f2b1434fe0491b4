/**
 * Quantities: the table rows carry decimal text with a comma separator; the
 * source replaces the comma by a dot, calls `float()` (which raises on a text
 * with two dots) and later keeps `int(...)` of it, the integer part.
 */
module Quantity {
  import opened Results
  import opened Text

  /** Number of occurrences of `c` in `s`. */
  function Count(c: char, s: string): nat
  {
    if s == [] then 0 else Count(c, s[..|s| - 1]) + (if s[|s| - 1] == c then 1 else 0)
  }

  /** Texts of digits and dots that Python's `float()` accepts: one dot at most and some digit. */
  predicate IsFloatText(t: string) {
    All(DigitOrDot, t) && Count('.', t) <= 1 && exists m :: 0 <= m < |t| && IsDigit(t[m])
  }

  /**
   * `int(float(t))` for a text `t` of digits and dots, the integer part of the
   * number; `None` where `float()` raises `ValueError`.
   */
  function Truncated(t: string): (r: Option<nat>)
  {
    var a := RunEnd(t, 0, Digit);
    if a == |t| then
      if a > 0 then Some(Value(t)) else None
    else if t[a] != '.' then None
    else
      var b := RunEnd(t, a + 1, Digit);
      if b == |t| && (a > 0 || b > a + 1) then Some(Value(t[..a])) else None
  }

  /** `Truncated` succeeds exactly on the texts `float()` accepts. */
  lemma TruncatedAcceptsFloatText(t: string)
    ensures Truncated(t).Some? <==> IsFloatText(t)
  {
    var a := RunEnd(t, 0, Digit);
    if a == |t| {
      CountNone('.', t);
      assert a > 0 ==> IsDigit(t[0]);
    } else if t[a] != '.' {
      assert !InClass(DigitOrDot, t[a]);
    } else {
      var b := RunEnd(t, a + 1, Digit);
      if b == |t| {
        DotAtEnd(t, a);
      } else {
        SecondStop(t, a, b);
      }
    }
  }

  lemma DotAtEnd(t: string, a: nat)
    requires a < |t| && Within(Digit, t, 0, a) && t[a] == '.' && Within(Digit, t, a + 1, |t|)
    ensures IsFloatText(t) <==> (a > 0 || |t| > a + 1)
  {
    assert t == t[..a] + t[a..];
    CountNone('.', t[..a]);
    CountAppend('.', t[..a], t[a..]);
    DotThenDigits(t, a, |t|);
    assert t[a..] == t[a..|t|];
    assert All(DigitOrDot, t);
    assert a == 0 && |t| == a + 1 ==> forall m :: 0 <= m < |t| ==> !IsDigit(t[m]);
    assert a > 0 ==> IsDigit(t[0]);
    assert |t| > a + 1 ==> IsDigit(t[a + 1]);
  }

  lemma SecondStop(t: string, a: nat, b: nat)
    requires a < b < |t| && Within(Digit, t, 0, a) && t[a] == '.' && Within(Digit, t, a + 1, b)
    requires !IsDigit(t[b])
    ensures !IsFloatText(t)
  {
    if t[b] == '.' {
      assert t == t[..a] + t[a..b] + t[b..];
      CountAppend('.', t[..a] + t[a..b], t[b..]);
      CountAppend('.', t[..a], t[a..b]);
      DotThenDigits(t, a, b);
      assert t[b..] == [t[b]] + t[b + 1..];
      CountAppend('.', [t[b]], t[b + 1..]);
      assert [t[b]][..0] == [];
    } else {
      assert !InClass(DigitOrDot, t[b]);
    }
  }

  lemma DotThenDigits(t: string, a: nat, b: nat)
    requires a < b <= |t| && t[a] == '.' && Within(Digit, t, a + 1, b)
    ensures Count('.', t[a..b]) == 1
  {
    assert t[a..b] == [t[a]] + t[a + 1..b];
    CountNone('.', t[a + 1..b]);
    CountAppend('.', [t[a]], t[a + 1..b]);
    assert [t[a]][..0] == [];
  }

  lemma {:induction false} CountAppend(c: char, x: string, y: string)
    ensures Count(c, x + y) == Count(c, x) + Count(c, y)
    decreases |y|
  {
    if y == [] {
      assert x + y == x;
    } else {
      assert (x + y)[..|x + y| - 1] == x + y[..|y| - 1];
      CountAppend(c, x, y[..|y| - 1]);
    }
  }

  lemma {:induction false} CountNone(c: char, s: string)
    requires forall m :: 0 <= m < |s| ==> s[m] != c
    ensures Count(c, s) == 0
    decreases |s|
  {
    if s != [] { CountNone(c, s[..|s| - 1]); }
  }

  /** `int(float("<int>.<frac>"))` is the number the integer digits denote. */
  lemma TruncatedWithFraction(ip: string, fp: string)
    requires All(Digit, ip) && All(Digit, fp) && (ip != [] || fp != [])
    ensures Truncated(ip + "." + fp) == Some(Value(ip))
  {
    var t := ip + "." + fp;
    RunOfPiece(t, [], ip, "." + fp, Digit);
    assert [] + ip + ("." + fp) == t;
    assert t[..|ip|] == ip;
    var b := RunEnd(t, |ip| + 1, Digit);
    RunOfPiece(t, ip + ".", fp, [], Digit);
    assert ip + "." + fp + [] == t;
  }

  /** `int(float("<digits>"))` is the number the digits denote. */
  lemma TruncatedWhole(ip: string)
    requires All(Digit, ip) && ip != []
    ensures Truncated(ip) == Some(Value(ip))
  {
    RunOfPiece(ip, [], ip, [], Digit);
    assert [] + ip + [] == ip;
  }

  /** A text with two dots, such as "1.234.5", makes `float()` raise. */
  lemma TwoDotsRejected(x: string, y: string, z: string)
    requires All(DigitOrDot, x) && All(DigitOrDot, y) && All(DigitOrDot, z)
    ensures Truncated(x + "." + y + "." + z).None?
  {
    var t := x + "." + y + "." + z;
    assert t == x + ("." + y) + ("." + z);
    CountAppend('.', x + ("." + y), "." + z);
    CountAppend('.', x, "." + y);
    OneDot(y);
    OneDot(z);
    TruncatedAcceptsFloatText(t);
  }

  lemma OneDot(y: string)
    ensures Count('.', "." + y) == Count('.', y) + 1
  {
    CountAppend('.', ".", y);
    assert "."[..0] == [];
  }
  // ---------------------------------------------------------------- after `replace(",", ".")`

  /** Replacing the commas by dots turns every comma into one more dot. */
  lemma {:induction false} DotsAfterReplace(q: string)
    ensures Count('.', CommasToDots(q)) == Count('.', q) + Count(',', q)
    decreases |q|
  {
    if q != [] {
      var p := q[..|q| - 1];
      assert CommasToDots(q)[..|q| - 1] == CommasToDots(p);
      DotsAfterReplace(p);
    }
  }

  /**
   * `float(q.replace(",", "."))` for a text of digits, dots and commas succeeds
   * exactly when the text holds a digit and one separator (dot or comma) at most.
   */
  lemma ReplacedConverts(q: string)
    requires All(DigitDotComma, q)
    ensures Truncated(CommasToDots(q)).Some? <==>
            (Count('.', q) + Count(',', q) <= 1 && exists m :: 0 <= m < |q| && IsDigit(q[m]))
  {
    var t := CommasToDots(q);
    DotsAfterReplace(q);
    TruncatedAcceptsFloatText(t);
    assert All(DigitOrDot, t);
    assert forall m :: 0 <= m < |q| ==> (IsDigit(q[m]) <==> IsDigit(t[m]));
  }

  /** A whole number converts to its own value. */
  lemma WholeConverts(ip: string)
    requires All(Digit, ip) && ip != []
    ensures Truncated(CommasToDots(ip)) == Some(Value(ip))
  {
    assert CommasToDots(ip) == ip;
    TruncatedWhole(ip);
  }

  /** "ip,fp" converts to the value of its integer part `ip`. */
  lemma CommaDecimalConverts(ip: string, fp: string)
    requires All(Digit, ip) && All(Digit, fp) && ip != []
    ensures Truncated(CommasToDots(ip + "," + fp)) == Some(Value(ip))
  {
    assert CommasToDots(ip + "," + fp) == ip + "." + fp;
    TruncatedWithFraction(ip, fp);
  }
}
