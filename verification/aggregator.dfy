/** The reconciliation aggregator of services/erpApiService.ts
    (`getInvoicesForReconciliation`): the cached parse is filtered to one
    customer's invoices in one calendar month, and the page adds up their
    totals. */
module Aggregator {
  import opened Wrappers
  import opened Text
  import opened JsNumber
  import opened Calendar
  import opened Records
  import opened Feed

  /** `period.split('-').map(Number)` destructured as `[year, month]`. */
  datatype Period = Period(year: real, month: real)

  /** The period's year and month, or `None` when either is `NaN` or the
      month is missing (then no date compares equal to it). */
  function ParsePeriod(period: string): Option<Period> {
    var parts := Split(period, '-');
    if |parts| < 2 then None
    else
      match (ToNumber(parts[0]), ToNumber(parts[1]))
      case (Some(y), Some(m)) => Some(Period(y, m))
      case _ => None
  }

  /** `getFullYear() === year && getMonth() === month - 1`, with the
      month kept 1-based on the date side. */
  predicate InPeriod(d: Date, p: Period) {
    d.year as real == p.year && (d.month - 1) as real == p.month - 1.0
  }

  /** A ledger invoice as the aggregator hands it out: the ledger code is
      dropped and both owner fields are blank. */
  datatype StatementInvoice = StatementInvoice(
    id: Option<string>,
    customerId: string,
    userId: string,
    date: Date,
    totalAmount: real,
    description: Option<string>,
    items: seq<InvoiceItem>)

  function Statement(inv: ParsedInvoice): (s: StatementInvoice)
    ensures s.customerId == "" && s.userId == ""
    ensures s.id == inv.id && s.date == inv.date && s.totalAmount == inv.totalAmount
    ensures s.description == inv.description && s.items == inv.items
  {
    StatementInvoice(inv.id, "", "", inv.date, inv.totalAmount, inv.description, inv.items)
  }

  predicate Matches(inv: ParsedInvoice, code: string, period: Option<Period>) {
    inv.customerCurrentCode == code && period.Some? && InPeriod(inv.date, period.value)
  }

  /** The filter-then-map over the parsed invoices, in their order. */
  function Select(invoices: seq<ParsedInvoice>, code: string, period: Option<Period>): (r: seq<StatementInvoice>)
    ensures |r| <= |invoices|
    ensures forall k :: 0 <= k < |r| ==> r[k].customerId == "" && r[k].userId == ""
  {
    if |invoices| == 0 then []
    else (if Matches(invoices[0], code, period) then [Statement(invoices[0])] else [])
         + Select(invoices[1..], code, period)
  }

  /** The aggregator's result and the parser cache it leaves behind. */
  datatype Lookup = Lookup(cache: Option<Parsed>, invoices: seq<StatementInvoice>)

  /** `getInvoicesForReconciliation(code, period)`: reads the cached parse
      (parsing and caching first if the cache is empty) and selects that
      customer's invoices dated in that month. */
  function InvoicesForReconciliation(cache: Option<Parsed>, source: Source, now: Date, code: string, period: string): (r: Lookup)
    ensures cache.Some? ==> r.cache == cache
    ensures r.cache.Some? ==> |r.invoices| <= |r.cache.value.invoices|
    ensures r.cache.None? ==> r.invoices == []
    ensures ParsePeriod(period).None? ==> r.invoices == []
  {
    var parse := ParseErpData(cache, source, now);
    var p := ParsePeriod(period);
    SelectNoPeriod(parse.result.invoices, code, p);
    Lookup(parse.cache, Select(parse.result.invoices, code, p))
  }

  /** `invoices.reduce((sum, inv) => sum + inv.totalAmount, 0)`. */
  function SumTotals(invoices: seq<StatementInvoice>): real {
    if |invoices| == 0 then 0.0 else SumTotals(invoices[..|invoices| - 1]) + invoices[|invoices| - 1].totalAmount
  }

  /** Reference definition: the total of the matching parsed invoices. */
  function MatchingTotal(invoices: seq<ParsedInvoice>, code: string, period: Option<Period>): real {
    if |invoices| == 0 then 0.0
    else (if Matches(invoices[0], code, period) then invoices[0].totalAmount else 0.0)
         + MatchingTotal(invoices[1..], code, period)
  }

  // ---------------------------------------------------------------------
  // Properties

  /** A period that does not parse selects nothing. */
  lemma {:induction false} SelectNoPeriod(invoices: seq<ParsedInvoice>, code: string, period: Option<Period>)
    ensures period.None? ==> Select(invoices, code, period) == []
    decreases |invoices|
  {
    if |invoices| > 0 {
      SelectNoPeriod(invoices[1..], code, period);
    }
  }

  /** A statement invoice is returned exactly when it stands for a matching
      parsed invoice. */
  lemma {:induction false} SelectMembers(invoices: seq<ParsedInvoice>, code: string, period: Option<Period>, s: StatementInvoice)
    ensures s in Select(invoices, code, period)
            <==> exists j :: 0 <= j < |invoices| && Matches(invoices[j], code, period) && s == Statement(invoices[j])
    decreases |invoices|
  {
    if |invoices| > 0 {
      var tail := invoices[1..];
      SelectMembers(tail, code, period, s);
      if exists j :: 0 <= j < |tail| && Matches(tail[j], code, period) && s == Statement(tail[j]) {
        var j :| 0 <= j < |tail| && Matches(tail[j], code, period) && s == Statement(tail[j]);
        assert invoices[j + 1] == tail[j];
      }
      if exists j :: 0 <= j < |invoices| && Matches(invoices[j], code, period) && s == Statement(invoices[j]) {
        var j :| 0 <= j < |invoices| && Matches(invoices[j], code, period) && s == Statement(invoices[j]);
        if j > 0 {
          assert tail[j - 1] == invoices[j];
        }
      }
    }
  }

  /** Selection keeps the ledger's order: it distributes over concatenation. */
  lemma {:induction false} SelectAppend(a: seq<ParsedInvoice>, b: seq<ParsedInvoice>, code: string, period: Option<Period>)
    ensures Select(a + b, code, period) == Select(a, code, period) + Select(b, code, period)
    decreases |a|
  {
    if |a| == 0 {
      assert a + b == b;
    } else {
      assert (a + b)[0] == a[0];
      assert (a + b)[1..] == a[1..] + b;
      SelectAppend(a[1..], b, code, period);
    }
  }

  lemma {:induction false} SumTotalsAppend(a: seq<StatementInvoice>, b: seq<StatementInvoice>)
    ensures SumTotals(a + b) == SumTotals(a) + SumTotals(b)
    decreases |b|
  {
    if |b| == 0 {
      assert a + b == a;
    } else {
      assert (a + b)[..|a + b| - 1] == a + b[..|b| - 1];
      SumTotalsAppend(a, b[..|b| - 1]);
    }
  }

  /** The page's amount, the sum over the selected invoices, is the total
      of exactly the matching parsed invoices. */
  lemma {:induction false} SumOfSelection(invoices: seq<ParsedInvoice>, code: string, period: Option<Period>)
    ensures SumTotals(Select(invoices, code, period)) == MatchingTotal(invoices, code, period)
    decreases |invoices|
  {
    if |invoices| > 0 {
      var head := if Matches(invoices[0], code, period) then [Statement(invoices[0])] else [];
      SumTotalsAppend(head, Select(invoices[1..], code, period));
      SumOfSelection(invoices[1..], code, period);
      if Matches(invoices[0], code, period) {
        assert SumTotals(head) == invoices[0].totalAmount by {
          assert head[..0] == [];
        }
      }
    }
  }

  /** The month the form defaults to parses back to the clock's year and month. */
  lemma ParsePeriodIsoMonth(t: Instant)
    ensures ParsePeriod(IsoMonth(t)) == Some(Period(t.date.year as real, t.date.month as real))
  {
    var y, m := Pad(t.date.year, 4), Pad(t.date.month, 2);
    PadValue(t.date.year, 4);
    PadValue(t.date.month, 2);
    assert '-' !in y && '-' !in m by {
      assert forall k :: 0 <= k < |y| ==> y[k] != '-';
      assert forall k :: 0 <= k < |m| ==> m[k] != '-';
    }
    assert IsoMonth(t) == Join([y, m], '-');
    SplitJoin([y, m], '-');
    ToNumberPad(t.date.year, 4);
    ToNumberPad(t.date.month, 2);
  }

  /** Selection by a `YYYY-MM` period is by calendar month: a date is in it
      exactly when year and month agree, whatever the day. */
  lemma WholeMonth(t: Instant, d: Date)
    ensures var p := ParsePeriod(IsoMonth(t));
            p.Some? && (InPeriod(d, p.value) <==> d.year == t.date.year && d.month == t.date.month)
  {
    ParsePeriodIsoMonth(t);
  }

  /** Reading twice through the cache gives the same invoices both times. */
  lemma RepeatedLookupStable(cache: Option<Parsed>, source: Source, now: Date, later: Date, code: string, period: string)
    ensures var first := InvoicesForReconciliation(cache, source, now, code, period);
            InvoicesForReconciliation(first.cache, source, later, code, period).invoices == first.invoices
  {
    CachedParseStable(cache, source, now, later);
  }
}
