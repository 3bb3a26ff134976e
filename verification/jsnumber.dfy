/** JavaScript's string-to-number conversions used by the ledger code:
    `parseFloat`, `parseInt(s, 10)` and `Number(s)`, over decimal literals.
    `None` stands for `NaN`. */
module JsNumber {
  import opened Wrappers
  import opened Text

  /** Length of the longest all-digit prefix of `s`. */
  function DigitRun(s: string): (n: nat)
    ensures n <= |s| && AllDigits(s[..n])
    ensures n < |s| ==> !IsDigit(s[n])
  {
    if |s| > 0 && IsDigit(s[0]) then
      var n := 1 + DigitRun(s[1..]);
      assert s[..n] == [s[0]] + s[1..][..n - 1];
      n
    else 0
  }

  /** A digit string followed by a non-digit (or nothing) is exactly the run. */
  lemma {:induction false} DigitRunOf(a: string, rest: string)
    requires AllDigits(a)
    requires rest == [] || !IsDigit(rest[0])
    ensures DigitRun(a + rest) == |a|
  {
    if |a| > 0 {
      assert (a + rest)[1..] == a[1..] + rest;
      DigitRunOf(a[1..], rest);
    }
  }

  /** A number read off the front of a string, with how many characters it used. */
  datatype Scanned = Scanned(value: real, length: nat)

  /** Value of the digits after a decimal point: `0.d1d2...`. */
  function Fraction(ds: string): (f: real)
    requires AllDigits(ds)
    ensures 0.0 <= f < 1.0
  {
    if |ds| == 0 then 0.0 else (DigitValue(ds[0]) as real + Fraction(ds[1..])) / 10.0
  }

  /** An unsigned decimal literal at the front of `s`: digits, optionally a
      point and more digits, with at least one digit in all (`"1."`, `".5"`
      and `"12.25"` qualify, `"."` does not). Exponents are not read. */
  function ScanUnsigned(s: string): (r: Option<Scanned>)
    ensures r.Some? ==> 0 < r.value.length <= |s| && r.value.value >= 0.0
  {
    var a := DigitRun(s);
    if a < |s| && s[a] == '.' then
      var b := DigitRun(s[a + 1..]);
      if a + b == 0 then None
      else
        Some(Scanned(DigitsValue(s[..a]) as real + Fraction(s[a + 1..][..b]), a + 1 + b))
    else if a == 0 then None
    else Some(Scanned(DigitsValue(s[..a]) as real, a))
  }

  /** An optionally signed decimal literal at the front of `s`. */
  function ScanSigned(s: string): (r: Option<Scanned>)
    ensures r.Some? ==> 0 < r.value.length <= |s|
  {
    if |s| > 0 && (s[0] == '+' || s[0] == '-') then
      match ScanUnsigned(s[1..])
      case None => None
      case Some(u) => Some(Scanned(if s[0] == '-' then -u.value else u.value, u.length + 1))
    else ScanUnsigned(s)
  }

  /** `parseFloat(s)`: leading whitespace skipped, the longest decimal
      literal read, anything after it ignored. */
  function ParseFloat(s: string): Option<real> {
    match ScanSigned(TrimStart(s))
    case None => None
    case Some(sc) => Some(sc.value)
  }

  /** `parseInt(s, 10)`: leading whitespace skipped, optional sign, the
      longest run of digits read, anything after it ignored. */
  function ParseInt(s: string): Option<int> {
    var t := TrimStart(s);
    var signed := |t| > 0 && (t[0] == '+' || t[0] == '-');
    var u := if signed then t[1..] else t;
    var n := DigitRun(u);
    if n == 0 then None
    else if signed && t[0] == '-' then Some(-(DigitsValue(u[..n]) as int))
    else Some(DigitsValue(u[..n]) as int)
  }

  /** `Number(s)`: the whole trimmed string must be one decimal literal;
      the empty (or all-whitespace) string is 0. */
  function ToNumber(s: string): Option<real> {
    var t := Trim(s);
    if t == "" then Some(0.0)
    else
      match ScanSigned(t)
      case Some(sc) => if sc.length == |t| then Some(sc.value) else None
      case None => None
  }

  /** `parseInt` reads back a digit string followed by a non-digit. */
  /** A digit-free string has an empty digit run. */
  lemma NoDigitsRun(s: string)
    requires NoDigits(s)
    ensures DigitRun(s) == 0
  {
  }

  /** `parseInt` of a string without digits is `NaN`. */
  lemma ParseIntNoDigits(s: string)
    requires NoDigits(s)
    ensures ParseInt(s).None?
  {
    TrimNoDigits(s);
    var t := TrimStart(s);
    if |t| > 0 && (t[0] == '+' || t[0] == '-') {
      assert forall i :: 0 <= i < |t[1..]| ==> t[1..][i] == t[i + 1];
      NoDigitsRun(t[1..]);
    } else {
      NoDigitsRun(t);
    }
  }

  /** No decimal literal starts a digit-free string. */
  lemma ScanUnsignedNoDigits(s: string)
    requires NoDigits(s)
    ensures ScanUnsigned(s).None?
  {
    NoDigitsRun(s);
    if 0 < |s| && s[0] == '.' {
      assert forall i :: 0 <= i < |s[1..]| ==> s[1..][i] == s[i + 1];
      NoDigitsRun(s[1..]);
    }
  }

  /** `parseFloat` of a string without digits is `NaN`. */
  lemma ParseFloatNoDigits(s: string)
    requires NoDigits(s)
    ensures ParseFloat(s).None?
  {
    TrimNoDigits(s);
    var t := TrimStart(s);
    if |t| > 0 && (t[0] == '+' || t[0] == '-') {
      assert forall i :: 0 <= i < |t[1..]| ==> t[1..][i] == t[i + 1];
      ScanUnsignedNoDigits(t[1..]);
    } else {
      ScanUnsignedNoDigits(t);
    }
  }

  lemma ParseIntDigits(a: string, rest: string)
    requires |a| > 0 && AllDigits(a)
    requires rest == [] || !IsDigit(rest[0])
    ensures ParseInt(a + rest) == Some(DigitsValue(a) as int)
  {
    var s := a + rest;
    ParseIntUnsigned(s);
    DigitRunOf(a, rest);
    assert s[..|a|] == a;
  }

  /** On a string that starts with a digit, `parseInt` is the digit run. */
  lemma ParseIntUnsigned(s: string)
    requires |s| > 0 && IsDigit(s[0])
    ensures ParseInt(s) == if DigitRun(s) == 0 then None else Some(DigitsValue(s[..DigitRun(s)]) as int)
  {
    LeadingDigit(s);
  }

  /** A string that starts with a digit has no whitespace or sign to skip. */
  lemma LeadingDigit(s: string)
    requires |s| > 0 && IsDigit(s[0])
    ensures TrimStart(s) == s && s[0] != '+' && s[0] != '-'
  {
  }

  /** `parseInt` reads back a zero-padded rendering of a natural number. */
  lemma ParseIntPad(n: nat, w: nat)
    ensures ParseInt(Pad(n, w)) == Some(n)
  {
    PadValue(n, w);
    assert Pad(n, w) + "" == Pad(n, w);
    ParseIntDigits(Pad(n, w), "");
  }

  /** The facts about `a.b` the scanner's two digit runs depend on. */
  lemma {:induction false} PointRuns(a: string, b: string)
    requires |a| > 0 && AllDigits(a) && AllDigits(b)
    ensures DigitRun(a + "." + b) == |a|
    ensures (a + "." + b)[|a|] == '.'
    ensures DigitRun((a + "." + b)[|a| + 1..]) == |b|
    ensures (a + "." + b)[..|a|] == a
    ensures (a + "." + b)[|a| + 1..][..|b|] == b
  {
    var s := a + "." + b;
    assert s == a + ("." + b);
    DigitRunOf(a, "." + b);
    assert s[|a| + 1..] == b + "";
    DigitRunOf(b, "");
  }

  /** The scanner reads `a.b` whole, with digit strings `a` (non-empty) and `b`. */
  lemma {:induction false} ScanPoint(a: string, b: string)
    requires |a| > 0 && AllDigits(a) && AllDigits(b)
    ensures ScanUnsigned(a + "." + b) == Some(Scanned(DigitsValue(a) as real + Fraction(b), |a| + 1 + |b|))
  {
    PointRuns(a, b);
  }

  /** `parseFloat` of `a.b` with digit strings `a` (non-empty) and `b`. */
  lemma ParseFloatPoint(a: string, b: string)
    requires |a| > 0 && AllDigits(a) && AllDigits(b)
    ensures ParseFloat(a + "." + b).Some?
    ensures ParseFloat(a + "." + b).value == DigitsValue(a) as real + Fraction(b)
  {
    var s := a + "." + b;
    ScanPoint(a, b);
    assert s[0] == a[0];
    ParseFloatUnsigned(s, DigitsValue(a) as real + Fraction(b));
  }

  /** On a string that starts with a digit, `parseFloat` reads what the
      unsigned scan reads. */
  lemma ParseFloatUnsigned(s: string, v: real)
    requires |s| > 0 && IsDigit(s[0])
    requires ScanUnsigned(s).Some? && ScanUnsigned(s).value.value == v
    ensures ParseFloat(s) == Some(v)
  {
    LeadingDigit(s);
  }

  /** `Number` reads back a zero-padded rendering of a natural number. */
  lemma ToNumberPad(n: nat, w: nat)
    ensures ToNumber(Pad(n, w)) == Some(n as real)
  {
    var t := Pad(n, w);
    PadValue(n, w);
    assert !IsWhitespace(t[0]) && !IsWhitespace(t[|t| - 1]);
    TrimOfTrimmed(t);
    assert t + "" == t;
    DigitRunOf(t, "");
    assert t[..|t|] == t;
  }
}
