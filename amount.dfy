/**
 * The quantity of an amount match as the row normaliser reads it (main.py:138-144):
 * commas removed, then `float(...)`, then multiplied by the factor of the
 * optional K, M or B suffix. After comma removal the quantity holds only ASCII
 * digits and dots, and on such strings `float` accepts exactly the strings with
 * at most one dot and at least one digit; everything else raises ValueError.
 * Values are exact decimals (a mantissa and a number of places), so the scaling
 * is exact.
 */
module Amount {
  import opened Wrappers
  import opened Text

  /** `s.replace(",", "")` */
  function RemoveCommas(s: string): (r: string)
    ensures |r| <= |s|
    ensures forall k :: 0 <= k < |r| ==> r[k] != ','
    ensures (forall k :: 0 <= k < |s| ==> s[k] != ',') ==> r == s
    ensures (forall k :: 0 <= k < |s| ==> IsAmountChar(s[k])) ==> forall k :: 0 <= k < |r| ==> IsDigitOrDot(r[k])
  {
    if s == [] then []
    else if s[0] == ',' then RemoveCommas(s[1..])
    else [s[0]] + RemoveCommas(s[1..])
  }

  /** One character: a comma goes, anything else stays. */
  lemma RemoveCommasOne(c: char)
    ensures RemoveCommas([c]) == if c == ',' then [] else [c]
  {
    assert [c][1..] == [];
  }

  /** The replacement works character by character, keeping the others in order. */
  lemma {:induction false} RemoveCommasConcat(a: string, b: string)
    ensures RemoveCommas(a + b) == RemoveCommas(a) + RemoveCommas(b)
    decreases |a|
  {
    if a != [] {
      assert (a + b)[0] == a[0];
      assert (a + b)[1..] == a[1..] + b;
      RemoveCommasConcat(a[1..], b);
    } else {
      assert a + b == b;
    }
  }

  predicate IsDigitOrDot(c: char) { IsDigit(c) || c == '.' }

  predicate AllDigits(s: string) { forall k :: 0 <= k < |s| ==> IsDigit(s[k]) }

  predicate AllDigitsOrDots(s: string) { forall k :: 0 <= k < |s| ==> IsDigitOrDot(s[k]) }

  function DigitOf(c: char): nat
    requires IsDigit(c)
  {
    c as int - '0' as int
  }

  function Pow10(n: nat): (p: nat)
    ensures p >= 1
  {
    if n == 0 then 1 else 10 * Pow10(n - 1)
  }

  /** The number a string of decimal digits denotes (0 for the empty string). */
  function DigitsValue(s: string): nat
    requires AllDigits(s)
  {
    if s == [] then 0 else 10 * DigitsValue(s[..|s| - 1]) + DigitOf(s[|s| - 1])
  }

  /** The exact number `mantissa / 10^places`. */
  datatype Decimal = Decimal(mantissa: nat, places: nat)

  function Value(d: Decimal): real {
    d.mantissa as real / Pow10(d.places) as real
  }

  /**
   * The digit-by-digit reading of `s[i..]`: `m` is the mantissa so far, `p` the
   * number of digits after the dot, `dot` whether a dot was seen and `digit`
   * whether a digit was. A second dot, or no digit at all, is a ValueError.
   */
  function ScanFrom(s: string, i: nat, m: nat, p: nat, dot: bool, digit: bool): Option<Decimal>
    requires i <= |s| && AllDigitsOrDots(s)
    decreases |s| - i
  {
    if i == |s| then (if digit then Some(Decimal(m, p)) else None)
    else if s[i] == '.' then (if dot then None else ScanFrom(s, i + 1, m, p, true, digit))
    else ScanFrom(s, i + 1, 10 * m + DigitOf(s[i]), if dot then p + 1 else p, dot, true)
  }

  /** `float(s)` on a string of digits and dots, as an exact decimal; None for ValueError. */
  function ParseDecimal(s: string): Option<Decimal>
    requires AllDigitsOrDots(s)
  {
    ScanFrom(s, 0, 0, 0, false, false)
  }

  /** `float(s)` on a string of digits and dots; None for ValueError. */
  function ParseFloat(s: string): Option<real>
    requires AllDigitsOrDots(s)
  {
    match ParseDecimal(s)
    case None => None
    case Some(d) => Some(Value(d))
  }

  /** The dots in `s`. */
  function DotCount(s: string): nat {
    if s == [] then 0 else (if s[0] == '.' then 1 else 0) + DotCount(s[1..])
  }

  /** `s` holds a digit. */
  predicate HasDigit(s: string) {
    s != [] && (IsDigit(s[0]) || HasDigit(s[1..]))
  }

  // ------------------------------------------------------------ digit values

  lemma DigitsOfParts(a: string, b: string)
    requires AllDigits(a) && AllDigits(b)
    ensures AllDigits(a + b)
  {
    assert forall k :: 0 <= k < |a + b| ==> (a + b)[k] == (if k < |a| then a[k] else b[k - |a|]);
  }

  /** Appending digits shifts the value of the digits before them. */
  lemma {:induction false} DigitsValueConcat(a: string, b: string)
    requires AllDigits(a) && AllDigits(b)
    ensures AllDigits(a + b)
    ensures DigitsValue(a + b) == DigitsValue(a) * Pow10(|b|) + DigitsValue(b)
    decreases |b|
  {
    DigitsOfParts(a, b);
    if b == [] {
      assert a + b == a;
    } else {
      var b' := b[..|b| - 1];
      assert AllDigits(b');
      DigitsValueConcat(a, b');
      assert (a + b)[..|a + b| - 1] == a + b';
      var x, q, y, d := DigitsValue(a), Pow10(|b'|), DigitsValue(b'), DigitOf(b[|b| - 1]);
      assert DigitsValue(a + b) == 10 * (x * q + y) + d;
      assert DigitsValue(b) == 10 * y + d;
      AppendDigit(x, q, y, d);
    }
  }

  // ----------------------------------------------------------------- scanner

  lemma AppendDigit(x: nat, q: nat, y: nat, d: nat)
    ensures 10 * (x * q + y) + d == x * (10 * q) + (10 * y + d)
  {
  }

  /** The digits after the first of a string of digits. */
  lemma DigitsTail(w: string)
    requires AllDigits(w) && w != []
    ensures AllDigits(w[1..])
  {
    forall k | 0 <= k < |w| - 1 ensures IsDigit(w[1..][k]) {
      assert w[1..][k] == w[k + 1];
    }
  }

  /**
   * Reading a run of digits `s[i..j]`, with the digits `u` read before them
   * making up the mantissa, appends them to `u` and, after a dot, adds them
   * to the places.
   */
  lemma {:induction false} ScanDigitRun(s: string, i: nat, j: nat, u: string, p: nat, dot: bool, digit: bool)
    requires i <= j <= |s| && AllDigitsOrDots(s)
    requires AllDigits(u) && AllDigits(s[i..j])
    ensures AllDigits(u + s[i..j])
    ensures ScanFrom(s, i, DigitsValue(u), p, dot, digit)
         == ScanFrom(s, j, DigitsValue(u + s[i..j]), if dot then p + (j - i) else p, dot, digit || i < j)
    decreases j - i
  {
    DigitsOfParts(u, s[i..j]);
    if i < j {
      var u' := u + [s[i]];
      assert s[i..j][0] == s[i];
      DigitsOfParts(u, [s[i]]);
      assert u'[..|u'| - 1] == u;
      DigitsTail(s[i..j]);
      assert s[i..j][1..] == s[i + 1..j];
      ScanDigitRun(s, i + 1, j, u', if dot then p + 1 else p, dot, true);
      assert u' + s[i + 1..j] == u + s[i..j];
    } else {
      assert u + s[i..j] == u;
    }
  }

  /** A non-empty string of digits parses to its value. */
  lemma ParseInteger(a: string)
    requires AllDigits(a) && a != []
    ensures AllDigitsOrDots(a)
    ensures ParseDecimal(a) == Some(Decimal(DigitsValue(a), 0))
  {
    assert a[0..|a|] == a;
    assert "" + a == a;
    ScanDigitRun(a, 0, |a|, "", 0, false, false);
  }

  lemma DottedChars(a: string, b: string)
    requires AllDigits(a) && AllDigits(b)
    ensures AllDigitsOrDots(a + "." + b)
  {
    var s := a + "." + b;
    forall k | 0 <= k < |s| ensures IsDigitOrDot(s[k]) {
      if k < |a| {
        assert s[k] == a[k];
      } else if k > |a| {
        assert s[k] == b[k - |a| - 1];
      }
    }
  }

  /** A dot between two strings of digits, not both empty, parses to the decimal they denote. */
  lemma ParseWithDot(a: string, b: string)
    requires AllDigits(a) && AllDigits(b) && |a| + |b| > 0
    ensures AllDigitsOrDots(a + "." + b)
    ensures AllDigits(a + b)
    ensures ParseDecimal(a + "." + b) == Some(Decimal(DigitsValue(a + b), |b|))
  {
    var s := a + "." + b;
    DottedChars(a, b);
    DigitsOfParts(a, b);
    assert s[..|a|] == a && s[|a|] == '.' && s[|a| + 1..] == b;
    ScanWhole(s, a);
    ScanDot(s, |a|, DigitsValue(a), 0, |a| > 0);
    ScanFraction(s, a, b, |a| > 0);
  }

  /** The digits `a` that open `s` make up the mantissa when the scan reaches their end. */
  lemma ScanWhole(s: string, a: string)
    requires AllDigitsOrDots(s) && AllDigits(a) && |a| <= |s| && s[..|a|] == a
    ensures ParseDecimal(s) == ScanFrom(s, |a|, DigitsValue(a), 0, false, |a| > 0)
  {
    assert s[0..|a|] == a;
    assert "" + a == a;
    ScanDigitRun(s, 0, |a|, "", 0, false, false);
  }

  /** The digits `b` that close `s` after a dot complete the mantissa and give the places. */
  lemma ScanFraction(s: string, a: string, b: string, digit: bool)
    requires AllDigitsOrDots(s) && AllDigits(a) && AllDigits(b)
    requires |a| + 1 + |b| == |s| && s[|a| + 1..] == b && (digit || b != [])
    ensures AllDigits(a + b)
    ensures ScanFrom(s, |a| + 1, DigitsValue(a), 0, true, digit) == Some(Decimal(DigitsValue(a + b), |b|))
  {
    assert s[|a| + 1..|s|] == b;
    ScanDigitRun(s, |a| + 1, |s|, a, 0, true, digit);
  }

  /** A dot read before any other dot sets the flag and nothing else. */
  lemma ScanDot(s: string, i: nat, m: nat, p: nat, digit: bool)
    requires i < |s| && AllDigitsOrDots(s) && s[i] == '.'
    ensures ScanFrom(s, i, m, p, false, digit) == ScanFrom(s, i + 1, m, p, true, digit)
  {
  }

  /** The decimal of `a.b` is the whole part plus the fraction. */
  lemma DecimalValueSplit(a: string, b: string)
    requires AllDigits(a) && AllDigits(b)
    ensures AllDigits(a + b)
    ensures Value(Decimal(DigitsValue(a + b), |b|)) == DigitsValue(a) as real + DigitsValue(b) as real / Pow10(|b|) as real
  {
    DigitsValueConcat(a, b);
    var x, y, q := DigitsValue(a), DigitsValue(b), Pow10(|b|);
    SplitFraction(x, y, q);
  }

  lemma SplitFraction(x: nat, y: nat, q: nat)
    requires q >= 1
    ensures (x * q + y) as real / q as real == x as real + y as real / q as real
  {
    assert (x * q) as real == x as real * q as real;
  }

  /** The reading fails exactly on a second dot or when no digit is seen. */
  lemma {:induction false} ScanFromFails(s: string, i: nat, m: nat, p: nat, dot: bool, digit: bool)
    requires i <= |s| && AllDigitsOrDots(s)
    ensures ScanFrom(s, i, m, p, dot, digit).Some?
        <==> (if dot then 1 else 0) + DotCount(s[i..]) <= 1 && (digit || HasDigit(s[i..]))
    decreases |s| - i
  {
    if i < |s| {
      assert s[i..][1..] == s[i + 1..];
      ScanFromFails(s, i + 1, m, p, true, digit);
      ScanFromFails(s, i + 1, 10 * m + if IsDigit(s[i]) then DigitOf(s[i]) else 0, if dot then p + 1 else p, dot, true);
    }
  }

  /** `float` raises ValueError exactly on two or more dots, or on no digit at all. */
  lemma ParseFloatFails(s: string)
    requires AllDigitsOrDots(s)
    ensures ParseFloat(s).None? <==> DotCount(s) >= 2 || !HasDigit(s)
  {
    ScanFromFails(s, 0, 0, 0, false, false);
    assert s[0..] == s;
  }

  /** `float("1.2.3")`, `float(",")` after comma removal, and `float(".")` all raise. */
  lemma ParseFloatRejects()
    ensures RemoveCommas(",") == ""
    ensures ParseFloat("1.2.3").None? && ParseFloat("").None? && ParseFloat(".").None?
  {
    ParseFloatFails("1.2.3");
    ParseFloatFails("");
    ParseFloatFails(".");
  }

  // ------------------------------------------------------------------ scale

  /** The multiplier of the suffix group, upper-cased; 1 when the group did not take part. */
  function ScaleFactor(scale: Option<char>): (f: real)
    ensures f == 1000.0 <==> scale.Some? && UpperChar(scale.value) == 'K'
    ensures f == 1000000.0 <==> scale.Some? && UpperChar(scale.value) == 'M'
    ensures f == 1000000000.0 <==> scale.Some? && UpperChar(scale.value) == 'B'
    ensures f == 1.0 <==> scale.None? || UpperChar(scale.value) !in "KMB"
  {
    var u := if scale.Some? then UpperChar(scale.value) else ' ';
    if u == 'K' then 1000.0
    else if u == 'M' then 1000000.0
    else if u == 'B' then 1000000000.0
    else 1.0
  }

  /** "220.0" with the suffix "M" is 220,000,000. */
  lemma ScaledExample()
    ensures ParseFloat("220.0") == Some(220.0)
    ensures 220.0 * ScaleFactor(Some('M')) == 220000000.0
  {
    ParseWithDot("220", "0");
    assert "220" + "." + "0" == "220.0";
    assert "220" + "0" == "2200";
    assert DigitsValue("2200") == 2200 by {
      assert "2200"[..3] == "220" && "220"[..2] == "22" && "22"[..1] == "2" && "2"[..0] == "";
    }
  }
}
