/** JavaScript string primitives the ledger code relies on: `trim`,
    `split` on a one-character separator, `replace` of a first occurrence,
    global removal of a character, and decimal rendering of naturals. */
module Text {

  /** The characters `String.prototype.trim` removes: ECMAScript WhiteSpace
      and LineTerminator (sections 12.2 and 12.3 of ECMA-262), which include
      the byte-order mark U+FEFF. */
  predicate IsWhitespace(c: char) {
    || c == '\t' || c == '\n' || c == '\U{000B}' || c == '\U{000C}' || c == '\r'
    || c == ' ' || c == '\U{00A0}' || c == '\U{1680}'
    || ('\U{2000}' <= c <= '\U{200A}')
    || c == '\U{2028}' || c == '\U{2029}' || c == '\U{202F}' || c == '\U{205F}'
    || c == '\U{3000}' || c == '\U{FEFF}'
  }

  /** Number of whitespace characters at the front of `s`. */
  function LeadingWhitespace(s: string): (k: nat)
    ensures k <= |s|
  {
    if |s| > 0 && IsWhitespace(s[0]) then 1 + LeadingWhitespace(s[1..]) else 0
  }

  /** Number of whitespace characters at the end of `s`. */
  function TrailingWhitespace(s: string): (k: nat)
    ensures k <= |s|
  {
    if |s| > 0 && IsWhitespace(s[|s| - 1]) then 1 + TrailingWhitespace(s[..|s| - 1]) else 0
  }

  /** `trimStart`: drops the longest all-whitespace prefix. */
  function TrimStart(s: string): string {
    s[LeadingWhitespace(s)..]
  }

  /** `trimEnd`: drops the longest all-whitespace suffix. */
  function TrimEnd(s: string): string {
    s[..|s| - TrailingWhitespace(s)]
  }

  /** `trim`: the slice of `s` left after both whitespace margins are cut. */
  function Trim(s: string): (r: string)
    ensures |r| <= |s|
  {
    TrimEnd(TrimStart(s))
  }

  /** A string with no whitespace at either end is its own trim. */
  lemma TrimOfTrimmed(s: string)
    requires s == [] || (!IsWhitespace(s[0]) && !IsWhitespace(s[|s| - 1]))
    ensures Trim(s) == s
  {
  }

  /** Index of the first occurrence of `c`. */
  function FirstIndexOf(s: string, c: char): (i: nat)
    requires c in s
    ensures i < |s| && s[i] == c && c !in s[..i]
  {
    if s[0] == c then 0 else 1 + FirstIndexOf(s[1..], c)
  }

  /** `parts.join(sep)`. */
  function Join(parts: seq<string>, sep: char): string {
    if |parts| == 0 then ""
    else if |parts| == 1 then parts[0]
    else parts[0] + [sep] + Join(parts[1..], sep)
  }

  /** `s.split(sep)` for a one-character separator: the maximal
      separator-free pieces, always at least one (`"".split(";")` is `[""]`). */
  function Split(s: string, sep: char): (parts: seq<string>)
    ensures |parts| >= 1
    ensures forall k :: 0 <= k < |parts| ==> sep !in parts[k]
    ensures Join(parts, sep) == s
    decreases |s|
  {
    if sep !in s then [s]
    else
      var i := FirstIndexOf(s, sep);
      var rest := Split(s[i + 1..], sep);
      assert s == s[..i] + [sep] + s[i + 1..];
      [s[..i]] + rest
  }

  /** Splitting undoes joining pieces that do not contain the separator. */
  lemma {:induction false} SplitJoin(parts: seq<string>, sep: char)
    requires |parts| >= 1
    requires forall k :: 0 <= k < |parts| ==> sep !in parts[k]
    ensures Split(Join(parts, sep), sep) == parts
  {
    if |parts| > 1 {
      var rest := Join(parts[1..], sep);
      assert Join(parts, sep) == parts[0] + [sep] + rest;
      SplitJoin(parts[1..], sep);
      SplitFirst(parts[0], sep, rest);
      assert parts == [parts[0]] + parts[1..];
    }
  }

  /** A separator-free head and then the separator: splitting peels the head off. */
  lemma SplitFirst(head: string, sep: char, rest: string)
    requires sep !in head
    ensures Split(head + [sep] + rest, sep) == [head] + Split(rest, sep)
  {
    var s := head + [sep] + rest;
    assert s[|head|] == sep;
    var i := FirstIndexOf(s, sep);
    assert s[..|head|] == head;
    assert s[..i] == head;
    assert s[i + 1..] == rest;
  }

  /** Number of occurrences of `c` in `s`. */
  function Count(s: string, c: char): nat {
    if |s| == 0 then 0 else (if s[0] == c then 1 else 0) + Count(s[1..], c)
  }

  lemma {:induction false} CountAppend(a: string, b: string, c: char)
    ensures Count(a + b, c) == Count(a, c) + Count(b, c)
  {
    if |a| == 0 {
      assert a + b == b;
    } else {
      assert (a + b)[1..] == a[1..] + b;
      CountAppend(a[1..], b, c);
    }
  }

  lemma {:induction false} CountAbsent(s: string, c: char)
    requires c !in s
    ensures Count(s, c) == 0
  {
    if |s| > 0 {
      CountAbsent(s[1..], c);
    }
  }

  /** `split` yields one piece more than there are separators, so never
      more pieces than the string has characters plus one. */
  lemma {:induction false} SplitLength(s: string, sep: char)
    ensures |Split(s, sep)| == Count(s, sep) + 1
    ensures |Split(s, sep)| <= |s| + 1
    decreases |s|
  {
    if sep !in s {
      CountAbsent(s, sep);
    } else {
      var i := FirstIndexOf(s, sep);
      SplitLength(s[i + 1..], sep);
      assert s == s[..i] + ([sep] + s[i + 1..]);
      CountAppend(s[..i], [sep] + s[i + 1..], sep);
      CountAppend([sep], s[i + 1..], sep);
      CountAbsent(s[..i], sep);
      assert Count([sep], sep) == 1 by { assert [sep][1..] == []; }
    }
  }

  /** `s.replace(c, t)` with a string pattern: only the first occurrence. */
  function ReplaceFirst(s: string, c: char, t: string): (r: string)
    ensures c !in s ==> r == s
  {
    if c !in s then s
    else
      var i := FirstIndexOf(s, c);
      s[..i] + t + s[i + 1..]
  }

  /** `s.replace(/c/g, '')`: every occurrence removed, all else kept in order. */
  function RemoveAll(s: string, c: char): (r: string)
    ensures c !in r
    ensures c !in s ==> r == s
  {
    if |s| == 0 then ""
    else (if s[0] == c then "" else [s[0]]) + RemoveAll(s[1..], c)
  }

  lemma {:induction false} RemoveAllAppend(a: string, b: string, c: char)
    ensures RemoveAll(a + b, c) == RemoveAll(a, c) + RemoveAll(b, c)
    decreases |a|
  {
    if |a| == 0 {
      assert a + b == b;
    } else {
      RemoveAllAppend(a[1..], b, c);
      RemoveAllStep(a, b, c);
    }
  }

  lemma RemoveAllStep(a: string, b: string, c: char)
    requires |a| > 0
    requires RemoveAll(a[1..] + b, c) == RemoveAll(a[1..], c) + RemoveAll(b, c)
    ensures RemoveAll(a + b, c) == RemoveAll(a, c) + RemoveAll(b, c)
  {
    TailOfAppend(a, b);
    AppendAssoc(if a[0] == c then "" else [a[0]], RemoveAll(a[1..], c), RemoveAll(b, c));
  }

  lemma AppendAssoc(h: string, x: string, y: string)
    ensures h + (x + y) == (h + x) + y
  {
  }

  lemma TailOfAppend(a: string, b: string)
    requires |a| > 0
    ensures (a + b)[0] == a[0] && (a + b)[1..] == a[1..] + b
  {
  }

  predicate IsDigit(c: char) {
    '0' <= c <= '9'
  }

  predicate AllDigits(s: string) {
    forall i :: 0 <= i < |s| ==> IsDigit(s[i])
  }

  /** No character of `s` is a decimal digit. */
  predicate NoDigits(s: string) {
    forall i :: 0 <= i < |s| ==> !IsDigit(s[i])
  }

  /** Trimming keeps a slice of the input, so it brings in no digit. */
  lemma TrimNoDigits(s: string)
    requires NoDigits(s)
    ensures NoDigits(TrimStart(s)) && NoDigits(Trim(s))
  {
    var t := TrimStart(s);
    assert forall i :: 0 <= i < |t| ==> t[i] == s[LeadingWhitespace(s) + i];
    assert forall i :: 0 <= i < |Trim(s)| ==> Trim(s)[i] == t[i];
  }

  /** Replacing one character by digit-free text brings in no digit. */
  lemma ReplaceFirstNoDigits(s: string, c: char, t: string)
    requires NoDigits(s) && NoDigits(t)
    ensures NoDigits(ReplaceFirst(s, c, t))
  {
    if c in s {
      var i := FirstIndexOf(s, c);
      var r := s[..i] + t + s[i + 1..];
      assert forall k :: 0 <= k < |r| ==> r[k] == (if k < i then s[k] else if k < i + |t| then t[k - i] else s[k - |t| + 1]);
    }
  }

  /** Removing characters brings in no digit. */
  lemma {:induction false} RemoveAllNoDigits(s: string, c: char)
    requires NoDigits(s)
    ensures NoDigits(RemoveAll(s, c))
  {
    if |s| > 0 {
      RemoveAllNoDigits(s[1..], c);
    }
  }

  function DigitChar(d: nat): (c: char)
    requires d < 10
    ensures IsDigit(c)
  {
    ['0', '1', '2', '3', '4', '5', '6', '7', '8', '9'][d]
  }

  function DigitValue(c: char): (d: nat)
    requires IsDigit(c)
    ensures d < 10 && DigitChar(d) == c
  {
    (c as int - '0' as int) as nat
  }

  /** Value of a string of decimal digits, most significant first. */
  function DigitsValue(s: string): nat
    requires AllDigits(s)
  {
    if |s| == 0 then 0 else 10 * DigitsValue(s[..|s| - 1]) + DigitValue(s[|s| - 1])
  }

  function Pow10(k: nat): (p: nat)
    ensures p >= 1
  {
    if k == 0 then 1 else 10 * Pow10(k - 1)
  }

  /** `n.toString()` for a natural number: no leading zeros, at least one digit. */
  function Decimal(n: nat): (s: string)
    ensures |s| >= 1 && AllDigits(s)
    ensures |s| > 1 ==> s[0] != '0'
  {
    if n < 10 then [DigitChar(n)] else Decimal(n / 10) + [DigitChar(n % 10)]
  }

  /** Reading back the decimal rendering gives the number. */
  lemma {:induction false} DecimalValue(n: nat)
    ensures DigitsValue(Decimal(n)) == n
  {
    if n >= 10 {
      var s := Decimal(n);
      assert s[..|s| - 1] == Decimal(n / 10);
      DecimalValue(n / 10);
    }
  }

  /** The rendering of `n` is short enough for a field of width `w` when `n < 10^w`. */
  lemma {:induction false} DecimalLength(n: nat, w: nat)
    requires n < Pow10(w)
    ensures |Decimal(n)| <= w || (n == 0 && w == 0)
  {
    if n >= 10 {
      assert w >= 1;
      DecimalLength(n / 10, w - 1);
    }
  }

  function Zeros(k: nat): (s: string)
    ensures |s| == k && AllDigits(s)
  {
    if k == 0 then "" else "0" + Zeros(k - 1)
  }

  /** `String(n).padStart(w, '0')`. */
  function Pad(n: nat, w: nat): (s: string)
    ensures AllDigits(s)
    ensures |s| == if |Decimal(n)| >= w then |Decimal(n)| else w
  {
    var d := Decimal(n);
    if |d| >= w then d else Zeros(w - |d|) + d
  }

  /** Leading zeros do not change the value of a digit string. */
  lemma {:induction false} ZerosPrefixValue(k: nat, s: string)
    requires AllDigits(s)
    ensures AllDigits(Zeros(k) + s) && DigitsValue(Zeros(k) + s) == DigitsValue(s)
    decreases |s|
  {
    var z := Zeros(k) + s;
    if |s| == 0 {
      assert z == Zeros(k);
      ZerosValue(k);
    } else {
      assert z[..|z| - 1] == Zeros(k) + s[..|s| - 1];
      ZerosPrefixValue(k, s[..|s| - 1]);
    }
  }

  lemma {:induction false} ZerosValue(k: nat)
    ensures DigitsValue(Zeros(k)) == 0
  {
    if k > 0 {
      assert Zeros(k)[..k - 1] == Zeros(k - 1) by {
        ZerosShift(k - 1);
      }
      ZerosValue(k - 1);
    }
  }

  lemma {:induction false} ZerosShift(k: nat)
    ensures Zeros(k + 1) == Zeros(k) + "0"
  {
    if k > 0 {
      ZerosShift(k - 1);
    }
  }

  /** A padded rendering still reads back as the number. */
  lemma PadValue(n: nat, w: nat)
    ensures DigitsValue(Pad(n, w)) == n
  {
    var d := Decimal(n);
    DecimalValue(n);
    if |d| < w {
      assert Pad(n, w) == Zeros(w - |d|) + d;
      ZerosPrefixValue(w - |d|, d);
    } else {
      assert Pad(n, w) == d;
    }
  }

  /** A number below `10^w` pads to exactly `w` digits. */
  lemma PadWidth(n: nat, w: nat)
    requires w >= 1 && n < Pow10(w)
    ensures |Pad(n, w)| == w
  {
    DecimalLength(n, w);
  }

  /** `s.slice(-k)` for `k >= 1`: the last `k` characters, or all of a
      shorter string. */
  function Suffix(s: string, k: nat): (r: string)
    ensures |r| == if |s| <= k then |s| else k
  {
    if |s| <= k then s else s[|s| - k..]
  }

  lemma MulAtLeast(d: int, x: int)
    requires d > 0 && x >= 1
    ensures d * x >= d
  {
  }

  /** Euclidean division has one quotient and one remainder. */
  lemma ModUnique(n: int, d: int, a: int, m: int)
    requires d > 0 && 0 <= m < d && n == d * a + m
    ensures n / d == a && n % d == m
  {
    var q, r := n / d, n % d;
    assert n == d * q + r;
    assert 0 <= r < d;
    assert d * a - d * q == r - m;
    assert d * (a - q) == r - m;
    if a > q {
      MulAtLeast(d, a - q);
    } else if a < q {
      MulAtLeast(d, q - a);
    }
    assert a == q;
  }

  lemma ModSplit(n: nat, p: nat)
    requires p >= 1
    ensures 10 * ((n / 10) % p) + n % 10 == n % (10 * p)
  {
    var q, r := n / 10, n % 10;
    var a, b := q / p, q % p;
    assert n == 10 * q + r;
    assert q == p * a + b;
    assert n == (10 * p) * a + (10 * b + r);
    ModUnique(n, 10 * p, a, 10 * b + r);
  }

  lemma DigitsSnoc(x: string, c: char)
    requires AllDigits(x) && IsDigit(c)
    ensures AllDigits(x + [c]) && DigitsValue(x + [c]) == 10 * DigitsValue(x) + DigitValue(c)
  {
    assert (x + [c])[..|x|] == x;
  }

  lemma SuffixSnoc(d: string, c: char, k: nat)
    requires k >= 1
    ensures Suffix(d + [c], k) == Suffix(d, k - 1) + [c]
  {
  }

  /** The last `k` digits of a number's decimal rendering read back as the
      number modulo `10^k`. */
  lemma {:induction false} SuffixValue(n: nat, k: nat)
    ensures AllDigits(Suffix(Decimal(n), k)) && DigitsValue(Suffix(Decimal(n), k)) == n % Pow10(k)
  {
    if k == 0 {
      SuffixValueZero(n);
    } else if n < 10 {
      SuffixValueDigit(n, k);
    } else {
      var p := Pow10(k - 1);
      assert Pow10(k) == 10 * p;
      SuffixValue(n / 10, k - 1);
      var c := DigitChar(n % 10);
      assert Decimal(n) == Decimal(n / 10) + [c];
      SuffixValueStep(Decimal(n / 10), c, k, n, p);
    }
  }

  lemma SuffixValueZero(n: nat)
    ensures AllDigits(Suffix(Decimal(n), 0)) && DigitsValue(Suffix(Decimal(n), 0)) == n % Pow10(0)
  {
    assert Suffix(Decimal(n), 0) == "";
    assert Pow10(0) == 1;
    ModUnique(n, 1, n, 0);
  }

  lemma SuffixValueDigit(n: nat, k: nat)
    requires n < 10 && k >= 1
    ensures AllDigits(Suffix(Decimal(n), k)) && DigitsValue(Suffix(Decimal(n), k)) == n % Pow10(k)
  {
    assert Pow10(k) >= 10 by {
      assert Pow10(k) == 10 * Pow10(k - 1);
    }
    var s := Decimal(n);
    assert Suffix(s, k) == s;
    assert s[..0] == "";
    ModUnique(n, Pow10(k), 0, n);
  }

  /** One more digit on the right: the suffix value grows by that digit
      in the next decimal place. */
  lemma SuffixValueStep(d: string, c: char, k: nat, n: nat, p: nat)
    requires k >= 1 && p >= 1 && IsDigit(c) && DigitValue(c) == n % 10
    requires AllDigits(Suffix(d, k - 1)) && DigitsValue(Suffix(d, k - 1)) == (n / 10) % p
    ensures AllDigits(Suffix(d + [c], k)) && DigitsValue(Suffix(d + [c], k)) == n % (10 * p)
  {
    var x := Suffix(d, k - 1);
    SuffixSnoc(d, c, k);
    DigitsSnoc(x, c);
    ModSplit(n, p);
  }
}
