/** The ledger feed's field normalisers (`parseCurrency`, `parseDate`,
    `parseNumber` in services/erpApiService.ts). All three are total: bad
    input falls back to 0 or to the injected "now". An argument of `None`
    is a cell the row does not have (JavaScript `undefined`). */
module Normalise {
  import opened Wrappers
  import opened Text
  import opened JsNumber
  import opened Calendar

  const LIRA: char := '₺'

  /** The text `parseCurrency` hands to `parseFloat`: first `₺` removed,
      every `.` removed, first `,` turned into `.`, then trimmed. */
  function CurrencyDigits(s: string): string {
    Trim(ReplaceFirst(RemoveAll(ReplaceFirst(s, LIRA, ""), '.'), ',', "."))
  }

  /** `parseCurrency`: a Turkish-formatted amount such as `" ₺1.000,00 "`. */
  function ParseCurrency(str: Option<string>): (r: real)
    ensures str.None? || str == Some("") ==> r == 0.0
    ensures str.Some? && NoDigits(str.value) ==> r == 0.0
  {
    match str
    case None => 0.0
    case Some(s) =>
      if s == "" then 0.0
      else
        CurrencyNoDigits(s);
        ParseFloat(CurrencyDigits(s)).GetOr(0.0)
  }

  /** Without a digit in the cell there is no amount to read. */
  lemma CurrencyNoDigits(s: string)
    ensures NoDigits(s) ==> ParseFloat(CurrencyDigits(s)).None?
  {
    if NoDigits(s) {
      var a := ReplaceFirst(s, LIRA, "");
      ReplaceFirstNoDigits(s, LIRA, "");
      RemoveAllNoDigits(a, '.');
      ReplaceFirstNoDigits(RemoveAll(a, '.'), ',', ".");
      TrimNoDigits(ReplaceFirst(RemoveAll(a, '.'), ',', "."));
      ParseFloatNoDigits(CurrencyDigits(s));
    }
  }

  /** `parseDate`: `d.m.y` to a day; anything malformed gives `now`. */
  function ParseDate(str: Option<string>, now: Date): (r: Date)
    ensures str.None? || str == Some("") ==> r == now
    ensures str.Some? && '.' !in str.value ==> r == now
    ensures str.Some? && |Split(str.value, '.')| != 3 ==> r == now
    ensures str.Some? && |Split(str.value, '.')| == 3
      && (ParseInt(Split(str.value, '.')[0]).None? || ParseInt(Split(str.value, '.')[1]).None?
          || ParseInt(Split(str.value, '.')[2]).None?)
      ==> r == now
  {
    match str
    case None => now
    case Some(s) =>
      if s == "" || '.' !in s then now
      else
        var parts := Split(s, '.');
        if |parts| != 3 then now
        else
          match (ParseInt(parts[0]), ParseInt(parts[1]), ParseInt(parts[2]))
          case (Some(d), Some(m), Some(y)) => Date(y, m, d)
          case _ => now
  }

  /** `parseNumber`: a base-10 integer with surrounding whitespace; 0 otherwise. */
  function ParseNumber(str: Option<string>): (r: int)
    ensures str.None? || str == Some("") ==> r == 0
    ensures str.Some? && NoDigits(str.value) ==> r == 0
  {
    match str
    case None => 0
    case Some(s) =>
      if s == "" then 0
      else
        NumberNoDigits(s);
        ParseInt(Trim(s)).GetOr(0)
  }

  /** Without a digit in the cell there is no count to read. */
  lemma NumberNoDigits(s: string)
    ensures NoDigits(s) ==> ParseInt(Trim(s)).None?
  {
    if NoDigits(s) {
      TrimNoDigits(s);
      ParseIntNoDigits(Trim(s));
    }
  }

  /** Thousands grouping as the ledger prints amounts: `"13566"` becomes `"13.566"`. */
  function GroupThousands(ds: string): string
    decreases |ds|
  {
    if |ds| <= 3 then ds else GroupThousands(ds[..|ds| - 3]) + "." + ds[|ds| - 3..]
  }

  /** Grouping digits adds dots and nothing else: no lira sign, no comma. */
  lemma {:induction false} GroupMarks(ds: string)
    requires AllDigits(ds)
    ensures LIRA !in GroupThousands(ds) && ',' !in GroupThousands(ds)
    decreases |ds|
  {
    if |ds| > 3 {
      var head, tail := ds[..|ds| - 3], ds[|ds| - 3..];
      assert AllDigits(head) && AllDigits(tail) by {
        assert forall i :: 0 <= i < |head| ==> head[i] == ds[i];
        assert forall i :: 0 <= i < |tail| ==> tail[i] == ds[|ds| - 3 + i];
      }
      GroupMarks(head);
      NoMarksInDigits(tail);
    }
  }

  /** Removing the group separators restores the digits. */
  lemma {:induction false} UngroupThousands(ds: string)
    requires '.' !in ds
    ensures RemoveAll(GroupThousands(ds), '.') == ds
    decreases |ds|
  {
    if |ds| > 3 {
      var head, tail := ds[..|ds| - 3], ds[|ds| - 3..];
      SplitNoDot(ds, |ds| - 3);
      UngroupThousands(head);
      DropSeparator(GroupThousands(head), tail);
    }
  }

  lemma SplitNoDot(ds: string, k: nat)
    requires '.' !in ds && k <= |ds|
    ensures '.' !in ds[..k] && '.' !in ds[k..] && ds == ds[..k] + ds[k..]
  {
    assert forall c :: c in ds[..k] ==> c in ds;
    assert forall c :: c in ds[k..] ==> c in ds;
  }

  /** Removing the dots drops one separator and keeps a dot-free tail. */
  lemma DropSeparator(g: string, tail: string)
    requires '.' !in tail
    ensures RemoveAll(g + "." + tail, '.') == RemoveAll(g, '.') + tail
  {
    var r := RemoveAll(g, '.');
    RemoveAllAppend(g + ".", tail, '.');
    RemoveAllAppend(g, ".", '.');
    assert RemoveAll(".", '.') == "" by {
      assert "."[0] == '.' && "."[1..] == "";
    }
    assert r + "" == r;
  }

  /** A ledger amount cell from its grouped lira digits `g` and its two
      kuruş digits `p`, surrounding spaces included. */
  function AmountCell(g: string, p: string): string {
    " " + [LIRA] + g + "," + p + " "
  }

  /** An amount of `kurus` hundredths of a lira as a ledger cell prints it:
      `" ₺13.566,24 "`. */
  function LiraCell(kurus: nat): string {
    AmountCell(GroupThousands(Decimal(kurus / 100)), Pad(kurus % 100, 2))
  }

  lemma {:induction false} FirstIndexOfAt(s: string, c: char, i: nat)
    requires i < |s| && s[i] == c && c !in s[..i]
    ensures FirstIndexOf(s, c) == i
  {
    if i > 0 {
      assert s[0] in s[..i];
      assert s[1..][..i - 1] == s[..i][1..];
      FirstIndexOfAt(s[1..], c, i - 1);
    }
  }

  lemma {:induction false} FractionTwoDigits(ds: string)
    requires |ds| == 2 && AllDigits(ds)
    ensures Fraction(ds) == DigitsValue(ds) as real / 100.0
  {
    var hi := DigitValue(ds[0]);
    var lo := DigitValue(ds[1]);
    assert ds[..1][..0] == [];
    assert ds[..1][0] == ds[0];
    assert DigitsValue(ds[..1]) == hi;
    assert DigitsValue(ds) == 10 * hi + lo;
    var t := ds[1..];
    assert t[0] == ds[1];
    assert t[1..] == [];
    assert Fraction(t) == lo as real / 10.0;
    assert Fraction(ds) == (hi as real + lo as real / 10.0) / 10.0;
  }

  lemma {:induction false} TrimSpaced(x: string)
    requires |x| > 0 && !IsWhitespace(x[0]) && !IsWhitespace(x[|x| - 1])
    ensures Trim(" " + x + " ") == x
  {
    var s, t := " " + x + " ", x + " ";
    assert s[1..] == t;
    assert LeadingWhitespace(t) == 0 by {
      assert t[0] == x[0];
    }
    assert TrimStart(s) == t;
    assert t[..|t| - 1] == x;
    assert TrailingWhitespace(t) == 1;
    assert TrimEnd(t) == x;
  }

  lemma {:induction false} NoMarksInDigits(ds: string)
    requires AllDigits(ds)
    ensures LIRA !in ds && '.' !in ds && ',' !in ds
  {
  }

  lemma DigitNotWhitespace(c: char)
    requires IsDigit(c)
    ensures !IsWhitespace(c)
  {
  }

  lemma {:induction false} DropLira(g: string, p: string)
    requires LIRA !in g
    ensures ReplaceFirst(AmountCell(g, p), LIRA, "") == " " + g + "," + p + " "
  {
    var s := " " + [LIRA] + g + "," + p + " ";
    assert s[..1] == " ";
    FirstIndexOfAt(s, LIRA, 1);
    assert s[2..] == g + "," + p + " ";
  }

  lemma {:induction false} DropDots(d: string, p: string)
    requires '.' !in d && '.' !in p
    ensures RemoveAll(" " + GroupThousands(d) + "," + p + " ", '.') == " " + d + "," + p + " "
  {
    var g := GroupThousands(d);
    UngroupThousands(d);
    RemoveAllAppend(" " + g + "," + p, " ", '.');
    RemoveAllAppend(" " + g + ",", p, '.');
    RemoveAllAppend(" " + g, ",", '.');
    RemoveAllAppend(" ", g, '.');
  }

  lemma {:induction false} CommaToPoint(d: string, p: string)
    requires ',' !in d
    ensures ReplaceFirst(" " + d + "," + p + " ", ',', ".") == " " + (d + "." + p) + " "
  {
    var s := " " + d + "," + p + " ";
    assert s[..1 + |d|] == " " + d;
    FirstIndexOfAt(s, ',', 1 + |d|);
    assert s[..1 + |d|] + "." + s[2 + |d|..] == " " + (d + "." + p) + " ";
  }

  /** The text `parseCurrency` hands to `parseFloat` for a printed amount. */
  lemma {:induction false} CurrencyDigitsLira(kurus: nat)
    ensures CurrencyDigits(LiraCell(kurus)) == Decimal(kurus / 100) + "." + Pad(kurus % 100, 2)
  {
    var d := Decimal(kurus / 100);
    var g := GroupThousands(d);
    var p := Pad(kurus % 100, 2);
    PadWidth(kurus % 100, 2);
    NoMarksInDigits(d);
    NoMarksInDigits(p);
    GroupMarks(d);
    var s0 := LiraCell(kurus);
    assert s0 == AmountCell(g, p);
    var s1 := ReplaceFirst(s0, LIRA, "");
    assert s1 == " " + g + "," + p + " " by { DropLira(g, p); }
    var s2 := RemoveAll(s1, '.');
    assert s2 == " " + d + "," + p + " " by { DropDots(d, p); }
    var s3 := ReplaceFirst(s2, ',', ".");
    var x := d + "." + p;
    assert s3 == " " + x + " " by { CommaToPoint(d, p); }
    assert x[0] == d[0] && x[|x| - 1] == p[1];
    DigitNotWhitespace(d[0]);
    DigitNotWhitespace(p[1]);
    TrimSpaced(x);
    assert CurrencyDigits(s0) == Trim(s3);
  }

  /** `parseCurrency` reads back every amount the ledger prints. */
  lemma {:induction false} ParseCurrencyLira(kurus: nat)
    ensures ParseCurrency(Some(LiraCell(kurus))) == kurus as real / 100.0
  {
    var d := Decimal(kurus / 100);
    var p := Pad(kurus % 100, 2);
    PadWidth(kurus % 100, 2);
    CurrencyDigitsLira(kurus);
    ParseFloatPoint(d, p);
    FractionTwoDigits(p);
    DecimalValue(kurus / 100);
    PadValue(kurus % 100, 2);
  }

  /** The feed's first amount cell, `" ₺1.000,00 "`, is 1000. */
  lemma ParseCurrencyThousand()
    ensures ParseCurrency(Some(" ₺1.000,00 ")) == 1000.0
  {
    LiraCellThousand();
    ParseCurrencyLira(100000);
  }

  /** A four-digit amount takes one separator. */
  lemma GroupFour(ds: string)
    requires |ds| == 4
    ensures GroupThousands(ds) == ds[..1] + "." + ds[1..]
  {
  }

  /** A ledger cell from its lira and its kuruş. */
  lemma LiraCellOf(kurus: nat, lira: nat, cents: nat)
    requires kurus / 100 == lira && kurus % 100 == cents
    ensures LiraCell(kurus) == AmountCell(GroupThousands(Decimal(lira)), Pad(cents, 2))
  {
  }

  lemma Decimal1000()
    ensures Decimal(1000) == "1000"
  {
    assert Decimal(1) == "1";
    assert Decimal(10) == "10";
    assert Decimal(100) == "100";
  }

  lemma Decimal3288()
    ensures Decimal(3288) == "3288"
  {
    assert Decimal(3) == "3";
    assert Decimal(32) == "32";
    assert Decimal(328) == "328";
  }

  lemma Group1000()
    ensures GroupThousands(Decimal(1000)) == "1.000"
  {
    Decimal1000();
    GroupFour("1000");
    assert "1000"[..1] + "." + "1000"[1..] == "1.000";
  }

  lemma Group3288()
    ensures GroupThousands(Decimal(3288)) == "3.288"
  {
    Decimal3288();
    GroupFour("3288");
    assert "3288"[..1] + "." + "3288"[1..] == "3.288";
  }

  lemma PadZero()
    ensures Pad(0, 2) == "00"
  {
  }

  lemma LiraCellThousand()
    ensures LiraCell(100000) == " ₺1.000,00 "
  {
    Group1000();
    PadZero();
    LiraCellOf(100000, 1000, 0);
    assert AmountCell("1.000", "00") == " ₺1.000,00 ";
  }

  lemma LiraCellExample()
    ensures LiraCell(328800) == " ₺3.288,00 "
  {
    Group3288();
    PadZero();
    LiraCellOf(328800, 3288, 0);
    assert AmountCell("3.288", "00") == " ₺3.288,00 ";
  }

  /** The feed's second amount cell, `" ₺3.288,00 "`, is 3288. */
  lemma ParseCurrencyExample()
    ensures ParseCurrency(Some(" ₺3.288,00 ")) == 3288.0
  {
    LiraCellExample();
    ParseCurrencyLira(328800);
  }

  /** A day as the ledger prints it: `"7.08.2025"`. */
  function DateCell(d: Date): string
    requires d.year >= 0 && d.month >= 0 && d.day >= 0
  {
    Decimal(d.day) + "." + Pad(d.month, 2) + "." + Decimal(d.year)
  }

  /** `parseDate` reads back every day the ledger prints, whatever `now` is. */
  lemma ParseDateCell(d: Date, now: Date)
    requires d.year >= 0 && d.month >= 0 && d.day >= 0
    ensures ParseDate(Some(DateCell(d)), now) == d
  {
    var a, b, c := Decimal(d.day), Pad(d.month, 2), Decimal(d.year);
    DecimalValue(d.day);
    PadValue(d.month, 2);
    DecimalValue(d.year);
    ParseDateParts(a, b, c, now);
  }

  /** Three non-empty digit fields joined by dots read back as day, month
      and year, leading zeros and all. */
  lemma ParseDateParts(a: string, b: string, c: string, now: Date)
    requires |a| > 0 && |b| > 0 && |c| > 0
    requires AllDigits(a) && AllDigits(b) && AllDigits(c)
    ensures ParseDate(Some(a + "." + b + "." + c), now)
      == Date(DigitsValue(c), DigitsValue(b), DigitsValue(a))
  {
    NoMarksInDigits(a);
    NoMarksInDigits(b);
    NoMarksInDigits(c);
    var s := a + "." + b + "." + c;
    assert s == Join([a, b, c], '.') by {
      assert Join([b, c], '.') == b + "." + c;
    }
    assert s[|a|] == '.';
    SplitJoin([a, b, c], '.');
    assert a + "" == a && b + "" == b && c + "" == c;
    ParseIntDigits(a, "");
    ParseIntDigits(b, "");
    ParseIntDigits(c, "");
  }

  /** The feed's first invoice date is 7 August 2025. */
  lemma ParseDateExample(now: Date)
    ensures ParseDate(Some("7.08.2025"), now) == Date(2025, 8, 7)
  {
    assert DateCell(Date(2025, 8, 7)) == "7.08.2025";
    ParseDateCell(Date(2025, 8, 7), now);
  }

  /** `parseNumber` reads back a rendered count, surrounding whitespace or not. */
  lemma {:induction false} ParseNumberDecimal(n: nat)
    ensures ParseNumber(Some(Decimal(n))) == n
    ensures ParseNumber(Some(" " + Decimal(n) + " ")) == n
  {
    var t := Decimal(n);
    DigitNotWhitespace(t[0]);
    DigitNotWhitespace(t[|t| - 1]);
    TrimOfTrimmed(t);
    TrimSpaced(t);
    ParseIntPad(n, 0);
  }
}
