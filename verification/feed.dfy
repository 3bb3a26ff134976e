/** The ledger feed parser of services/erpApiService.ts: the semicolon
    separated export is cut into lines, the header row names the columns,
    every kept row yields one invoice and (the first time its ledger code is
    seen) one customer, and the offer catalogue is priced. The module-level
    cache is explicit state threaded through `ParseErpData`. */
module Feed {
  import opened Wrappers
  import opened Text
  import opened Calendar
  import opened Normalise
  import opened Records

  const TOTAL_HEADER: string := "Genel Toplam"
  const TYPE_HEADER: string := "Fatura Türü"
  const CANCELLED_HEADER: string := "İptal"
  const CODE_HEADER: string := "Cari Kodu"
  const TITLE_HEADER: string := "Ticari Unvanı"
  const CITY_HEADER: string := "İli"
  const DISTRICT_HEADER: string := "İlçesi"
  const COUNTRY_HEADER: string := "Ülkesi"
  const TAX_OFFICE_HEADER: string := "Vergi Dairesi"
  const TAX_NUMBER_HEADER: string := "Vergi No"
  const INVOICE_NO_HEADER: string := "Fatura No"
  const DATE_HEADER: string := "Fatura Tarihi"
  const DESCRIPTION_HEADER: string := "Açıklama"
  const QUANTITY_HEADER: string := "Miktar 1 Toplam"

  /** The invoice kind the parser keeps. */
  const PURCHASE_INVOICE: string := "Alış Faturası"
  /** The cancellation flag value that drops a row. */
  const CANCELLED: string := "Evet"
  /** The stock id of the one synthetic line every parsed invoice carries. */
  const CSV_ITEM: string := "CSV_ITEM"
  const BOM: char := '\U{FEFF}'

  // ---------------------------------------------------------------------
  // Parsed shapes

  /** A kept row's invoice, still linked to its customer by ledger code.
      `id` is `None` when the export has no invoice number column. */
  datatype ParsedInvoice = ParsedInvoice(
    id: Option<string>,
    customerCurrentCode: string,
    date: Date,
    totalAmount: real,
    description: Option<string>,
    items: seq<InvoiceItem>)

  /** An entry of the built-in offer catalogue. */
  datatype CatalogueOffer = CatalogueOffer(
    teklifNo: string,
    customerCurrentCode: string,
    firma: Firm,
    teklifVeren: Issuer,
    items: seq<OfferItem>,
    notlar: string)

  /** A catalogue entry with its totals filled in. */
  datatype ParsedOffer = ParsedOffer(
    teklifNo: string,
    customerCurrentCode: string,
    firma: Firm,
    teklifVeren: Issuer,
    items: seq<OfferItem>,
    notlar: string,
    toplam: real,
    kdv: real,
    genelToplam: real)

  /** The parse result. The customer `Map` is a key sequence in insertion
      order (`codes`) together with the entries (`customers`). */
  datatype Parsed = Parsed(
    codes: seq<string>,
    customers: map<string, LedgerFields>,
    invoices: seq<ParsedInvoice>,
    offers: seq<ParsedOffer>)

  const NothingParsed := Parsed([], map[], [], [])

  /** What the simulated ERP serves: the export text and the offer catalogue. */
  datatype Source = Source(csv: string, catalogue: seq<CatalogueOffer>)

  /** A parse result whose customer map is a proper insertion-ordered map
      keyed by ledger code, and whose invoices all link to one of its
      customers. */
  ghost predicate WellFormed(codes: seq<string>, customers: map<string, LedgerFields>, invoices: seq<ParsedInvoice>) {
    && (forall i, j :: 0 <= i < j < |codes| ==> codes[i] != codes[j])
    && (forall c :: c in customers <==> c in codes)
    && (forall c :: c in customers ==> customers[c].currentCode == Some(c))
    && (forall k :: 0 <= k < |invoices| ==> invoices[k].customerCurrentCode in customers)
  }

  // ---------------------------------------------------------------------
  // Lines, header, cells

  /** The lines kept by `filter(line => line.trim() !== '')`. */
  function NonBlank(lines: seq<string>): (r: seq<string>)
    ensures |r| <= |lines|
  {
    if |lines| == 0 then []
    else if Trim(lines[0]) == "" then NonBlank(lines[1..])
    else [lines[0]] + NonBlank(lines[1..])
  }

  /** The filter keeps exactly the lines that are not blank. */
  lemma {:induction false} NonBlankMembers(lines: seq<string>, x: string)
    ensures x in NonBlank(lines) <==> x in lines && Trim(x) != ""
    decreases |lines|
  {
    if |lines| > 0 {
      var rest := lines[1..];
      NonBlankMembers(rest, x);
      assert x in lines <==> x == lines[0] || x in rest by {
        assert lines == [lines[0]] + rest;
      }
    }
  }

  /** The non-blank lines of the trimmed export, header included. */
  function FeedLines(text: string): (lines: seq<string>)
    ensures |lines| <= |text| + 1
  {
    SplitLength(Trim(text), '\n');
    NonBlank(Split(Trim(text), '\n'))
  }

  /** Drops one leading byte-order mark, as `replace(/^\uFEFF/, '')` does. */
  function StripBom(s: string): string {
    if |s| > 0 && s[0] == BOM then s[1..] else s
  }

  /** The trimmed column names of the header line. */
  function Headers(headerLine: string): (headers: seq<string>)
    ensures |headers| == |Split(headerLine, ';')|
    ensures forall k :: 0 <= k < |headers| ==> headers[k] == Trim(Split(headerLine, ';')[k])
  {
    var parts := Split(headerLine, ';');
    seq(|parts|, k requires 0 <= k < |parts| => Trim(parts[k]))
  }

  /** `headers.indexOf(name)`: the first position of `name`, or -1. */
  function IndexOf(xs: seq<string>, x: string): (i: int)
    ensures -1 <= i < |xs|
    ensures i == -1 <==> x !in xs
    ensures 0 <= i ==> xs[i] == x && x !in xs[..i]
  {
    if |xs| == 0 then -1
    else if xs[0] == x then 0
    else
      var j := IndexOf(xs[1..], x);
      if j == -1 then -1
      else
        assert xs[..j + 1] == [xs[0]] + xs[1..][..j];
        j + 1
  }

  /** Number of columns named `x`. */
  function Occurrences(xs: seq<string>, x: string): nat {
    if |xs| == 0 then 0 else (if xs[0] == x then 1 else 0) + Occurrences(xs[1..], x)
  }

  /** `values[i]`, `undefined` (`None`) outside the row, including `i == -1`. */
  function Cell(values: seq<string>, i: int): (r: Option<string>)
    ensures r.Some? <==> 0 <= i < |values|
  {
    if 0 <= i < |values| then Some(values[i]) else None
  }

  /** `values[i]?.trim()`. */
  function TrimmedCell(values: seq<string>, i: int): (r: Option<string>)
    ensures r.Some? <==> 0 <= i < |values|
  {
    match Cell(values, i)
    case None => None
    case Some(v) => Some(Trim(v))
  }

  // ---------------------------------------------------------------------
  // Choosing the total column

  predicate HasCurrencySign(cell: Option<string>) {
    cell.Some? && cell.value != "" && (LIRA in cell.value || '$' in cell.value || '€' in cell.value)
  }

  /** Column `j` is a `Genel Toplam` column whose cell in `row` shows a currency sign. */
  predicate SignedTotal(headers: seq<string>, row: seq<string>, j: int) {
    0 <= j < |headers| && headers[j] == TOTAL_HEADER && HasCurrencySign(Cell(row, j))
  }

  /** The first signed total column at or after `from`, or -1. */
  function FirstSignedTotal(headers: seq<string>, row: seq<string>, from: nat): (j: int)
    ensures j == -1 || (from <= j && SignedTotal(headers, row, j))
    ensures j == -1 ==> forall k :: from <= k < |headers| ==> !SignedTotal(headers, row, k)
    ensures j != -1 ==> forall k :: from <= k < j ==> !SignedTotal(headers, row, k)
    decreases |headers| - from
  {
    if from >= |headers| then -1
    else if SignedTotal(headers, row, from) then from
    else FirstSignedTotal(headers, row, from + 1)
  }

  /** The column every row's total is read from. With two or more
      `Genel Toplam` columns it is the first whose cell in the first data
      row shows a currency sign; otherwise, or when none does, it is the
      first `Genel Toplam` column (or -1 when there is none). */
  function ChooseTotalColumn(headers: seq<string>, data: seq<string>): (c: int)
    ensures -1 <= c < |headers|
    ensures c == -1 <==> TOTAL_HEADER !in headers
    ensures c != -1 ==> headers[c] == TOTAL_HEADER
    ensures Occurrences(headers, TOTAL_HEADER) > 1 && |data| > 0
            && (exists j :: SignedTotal(headers, Split(data[0], ';'), j))
            ==> SignedTotal(headers, Split(data[0], ';'), c)
                && forall k :: 0 <= k < c ==> !SignedTotal(headers, Split(data[0], ';'), k)
    ensures !(Occurrences(headers, TOTAL_HEADER) > 1 && |data| > 0
              && (exists j :: SignedTotal(headers, Split(data[0], ';'), j)))
            ==> c == IndexOf(headers, TOTAL_HEADER)
  {
    var smart := if Occurrences(headers, TOTAL_HEADER) > 1 && |data| > 0
                 then FirstSignedTotal(headers, Split(data[0], ';'), 0) else -1;
    if smart == -1 then IndexOf(headers, TOTAL_HEADER) else smart
  }

  // ---------------------------------------------------------------------
  // Rows

  /** The column positions `col(name)` resolves to, decided once from the
      header (and, for the total, the first data row); -1 marks a missing
      column. `width` is the header's column count. */
  datatype Layout = Layout(
    width: nat, total: int, kind: int, cancelled: int, code: int,
    title: int, city: int, district: int, country: int, taxOffice: int, taxNumber: int,
    invoiceNo: int, date: int, description: int, quantity: int)

  function LayoutOf(headers: seq<string>, data: seq<string>): (layout: Layout)
    ensures layout.width == |headers| && layout.total == ChooseTotalColumn(headers, data)
    ensures layout.kind == IndexOf(headers, TYPE_HEADER) && layout.cancelled == IndexOf(headers, CANCELLED_HEADER)
    ensures layout.code == IndexOf(headers, CODE_HEADER) && layout.invoiceNo == IndexOf(headers, INVOICE_NO_HEADER)
  {
    Layout(
      |headers|, ChooseTotalColumn(headers, data), IndexOf(headers, TYPE_HEADER),
      IndexOf(headers, CANCELLED_HEADER), IndexOf(headers, CODE_HEADER), IndexOf(headers, TITLE_HEADER),
      IndexOf(headers, CITY_HEADER), IndexOf(headers, DISTRICT_HEADER), IndexOf(headers, COUNTRY_HEADER),
      IndexOf(headers, TAX_OFFICE_HEADER), IndexOf(headers, TAX_NUMBER_HEADER),
      IndexOf(headers, INVOICE_NO_HEADER), IndexOf(headers, DATE_HEADER),
      IndexOf(headers, DESCRIPTION_HEADER), IndexOf(headers, QUANTITY_HEADER))
  }

  /** The ledger code of a row the parser keeps, `None` for a skipped row:
      too few cells, not a purchase invoice, cancelled, or no code. The kind
      and cancellation cells are compared untrimmed; the code is trimmed. */
  function RowCode(layout: Layout, values: seq<string>): Option<string> {
    if |values| < layout.width then None
    else if Cell(values, layout.kind) != Some(PURCHASE_INVOICE)
         || Cell(values, layout.cancelled) == Some(CANCELLED) then None
    else
      match TrimmedCell(values, layout.code)
      case None => None
      case Some(code) => if code == "" then None else Some(code)
  }

  /** The customer a row introduces. A missing title column gives an empty name. */
  function CustomerOf(layout: Layout, values: seq<string>, code: string): LedgerFields {
    var title := TrimmedCell(values, layout.title);
    LedgerFields(
      Some(code), title.GetOr(""), title,
      TrimmedCell(values, layout.city), TrimmedCell(values, layout.district),
      TrimmedCell(values, layout.country), TrimmedCell(values, layout.taxOffice),
      TrimmedCell(values, layout.taxNumber), Some(Active))
  }

  /** The single line of a parsed invoice: a zero count is shown as 1, and
      the unit price divides the total only by a positive count. */
  function ItemOf(quantity: int, total: real): (item: InvoiceItem)
    ensures item.stockId == CSV_ITEM
    ensures quantity >= 0 ==> item.quantity as real * item.price == total
    ensures item.quantity != 0
    ensures quantity != 0 ==> item.quantity == quantity
    ensures quantity == 0 ==> item.quantity == 1
    ensures quantity <= 0 ==> item.price == total
  {
    InvoiceItem(CSV_ITEM, if quantity != 0 then quantity else 1,
                if quantity > 0 then total / quantity as real else total)
  }

  function InvoiceOf(layout: Layout, values: seq<string>, code: string, now: Date): ParsedInvoice {
    var total := ParseCurrency(Cell(values, layout.total));
    var quantity := ParseNumber(Cell(values, layout.quantity));
    ParsedInvoice(
      TrimmedCell(values, layout.invoiceNo), code,
      ParseDate(TrimmedCell(values, layout.date), now), total,
      TrimmedCell(values, layout.description), [ItemOf(quantity, total)])
  }

  datatype Rows = Rows(codes: seq<string>, customers: map<string, LedgerFields>, invoices: seq<ParsedInvoice>)

  /** The invoices one row contributes: one for a kept row, none otherwise. */
  function RowInvoices(layout: Layout, values: seq<string>, now: Date): seq<ParsedInvoice> {
    match RowCode(layout, values)
    case None => []
    case Some(code) => [InvoiceOf(layout, values, code, now)]
  }

  /** A kept row with code `code`: its invoice is appended, and its customer
      is added unless the code was seen before. */
  function Keep(prev: Rows, code: string, customer: LedgerFields, invoice: ParsedInvoice): (r: Rows)
    requires customer.currentCode == Some(code) && invoice.customerCurrentCode == code
    ensures r.invoices == prev.invoices + [invoice]
    ensures r.customers.Keys == prev.customers.Keys + {code}
    ensures forall c :: c in prev.customers ==> r.customers[c] == prev.customers[c]
    ensures code !in prev.customers ==> r.customers[code] == customer
    ensures WellFormed(prev.codes, prev.customers, prev.invoices) ==> WellFormed(r.codes, r.customers, r.invoices)
    ensures |prev.codes| <= |prev.invoices| ==> |r.codes| <= |r.invoices|
  {
    if code in prev.customers then Rows(prev.codes, prev.customers, prev.invoices + [invoice])
    else Rows(prev.codes + [code], prev.customers[code := customer], prev.invoices + [invoice])
  }

  /** One turn of the row loop. */
  function Step(layout: Layout, prev: Rows, values: seq<string>, now: Date): Rows {
    match RowCode(layout, values)
    case None => prev
    case Some(code) => Keep(prev, code, CustomerOf(layout, values, code), InvoiceOf(layout, values, code, now))
  }

  /** The row loop: each kept row appends its invoice, and adds its customer
      unless the code was seen before. */
  function ParseRows(layout: Layout, rows: seq<seq<string>>, now: Date): (r: Rows)
    ensures |r.codes| <= |r.invoices| <= |rows|
    decreases |rows|
  {
    if |rows| == 0 then Rows([], map[], [])
    else Step(layout, ParseRows(layout, rows[..|rows| - 1], now), rows[|rows| - 1], now)
  }

  /** The cells of each data line. */
  function Cells(lines: seq<string>): (rows: seq<seq<string>>)
    ensures |rows| == |lines|
    ensures forall k :: 0 <= k < |lines| ==> rows[k] == Split(lines[k], ';')
  {
    seq(|lines|, k requires 0 <= k < |lines| => Split(lines[k], ';'))
  }

  /** The row loop builds a proper code-keyed customer map in insertion
      order, and every invoice it emits links to one of those customers. */
  lemma {:induction false} ParseRowsWellFormed(layout: Layout, rows: seq<seq<string>>, now: Date)
    ensures var r := ParseRows(layout, rows, now); WellFormed(r.codes, r.customers, r.invoices)
    decreases |rows|
  {
    if |rows| > 0 {
      ParseRowsWellFormed(layout, rows[..|rows| - 1], now);
    }
  }

  // ---------------------------------------------------------------------
  // Offers

  /** `items.reduce((acc, item) => acc + item.tutar, 0)`. */
  function SumTutar(items: seq<OfferItem>): real {
    if |items| == 0 then 0.0 else SumTutar(items[..|items| - 1]) + items[|items| - 1].tutar
  }

  /** A catalogue entry with its net total, 20% VAT and gross total. */
  function Priced(o: CatalogueOffer): (p: ParsedOffer)
    ensures p.toplam == SumTutar(o.items)
    ensures p.genelToplam == p.toplam + p.kdv
    ensures 5.0 * p.kdv == p.toplam
    ensures p.teklifNo == o.teklifNo && p.customerCurrentCode == o.customerCurrentCode
    ensures p.items == o.items && p.firma == o.firma && p.teklifVeren == o.teklifVeren && p.notlar == o.notlar
  {
    ParsedOffer(o.teklifNo, o.customerCurrentCode, o.firma, o.teklifVeren, o.items, o.notlar,
                SumTutar(o.items), SumTutar(o.items) * 0.20, SumTutar(o.items) * 1.20)
  }

  function PricedCatalogue(catalogue: seq<CatalogueOffer>): (offers: seq<ParsedOffer>)
    ensures |offers| == |catalogue|
    ensures forall k :: 0 <= k < |offers| ==> offers[k] == Priced(catalogue[k])
  {
    seq(|catalogue|, k requires 0 <= k < |catalogue| => Priced(catalogue[k]))
  }

  // ---------------------------------------------------------------------
  // The whole parse

  /** The column layout and the data rows' cells; `None` when the export
      has no header line. Nothing here depends on the clock. */
  function FeedTable(csv: string): (r: Option<(Layout, seq<seq<string>>)>)
    ensures r.Some? ==> |r.value.1| <= |csv|
    ensures r.None? <==> |FeedLines(csv)| == 0 || StripBom(FeedLines(csv)[0]) == ""
  {
    var lines := FeedLines(csv);
    if |lines| == 0 then None
    else
      var header := StripBom(lines[0]);
      if header == "" then None
      else
        var headers := Headers(header);
        var data := lines[1..];
        Some((LayoutOf(headers, data), Cells(data)))
  }

  /** The parse proper; `None` when the export has no header line. */
  function ParseFeed(source: Source, now: Date): (r: Option<Parsed>)
    ensures r.Some? ==> WellFormed(r.value.codes, r.value.customers, r.value.invoices)
    ensures r.Some? ==> |r.value.codes| <= |r.value.invoices| <= |source.csv|
    ensures r.Some? ==> r.value.offers == PricedCatalogue(source.catalogue)
    ensures r.None? <==> |FeedLines(source.csv)| == 0 || StripBom(FeedLines(source.csv)[0]) == ""
  {
    match FeedTable(source.csv)
    case None => None
    case Some((layout, rows)) =>
      var r := ParseRows(layout, rows, now);
      ParseRowsWellFormed(layout, rows, now);
      Some(Parsed(r.codes, r.customers, r.invoices, PricedCatalogue(source.catalogue)))
  }

  /** The parser's cache and the result handed back. */
  datatype Parse = Parse(cache: Option<Parsed>, result: Parsed)

  /** `parseErpData`: a cached result is returned untouched; otherwise the
      export is parsed and the result cached, except that an export with
      no header line yields an empty result and leaves the cache empty. */
  function ParseErpData(cache: Option<Parsed>, source: Source, now: Date): (r: Parse)
    ensures cache.Some? ==> r == Parse(cache, cache.value)
    ensures cache.None? && r.cache.None? ==> r.result == NothingParsed
    ensures r.cache.Some? ==> r.cache.value == r.result
    ensures cache.None? ==> (r.cache.Some? <==> ParseFeed(source, now).Some?)
  {
    if cache.Some? then Parse(cache, cache.value)
    else
      match ParseFeed(source, now)
      case None => Parse(None, NothingParsed)
      case Some(p) => Parse(Some(p), p)
  }

  /** `fetchErpCsvData`: clears the cache, then parses. */
  function FetchErpCsvData(source: Source, now: Date): (r: Parse)
    ensures WellFormed(r.result.codes, r.result.customers, r.result.invoices)
    ensures |r.result.codes| <= |r.result.invoices| <= |source.csv|
    ensures |r.result.offers| <= |source.catalogue|
    ensures r.cache.Some? ==> r.result.offers == PricedCatalogue(source.catalogue)
  {
    ParseErpData(None, source, now)
  }

  // ---------------------------------------------------------------------
  // Properties of the row loop

  /** Reference definition: the kept rows' invoices, front to back. */
  function KeptRowInvoices(layout: Layout, rows: seq<seq<string>>, now: Date): seq<ParsedInvoice> {
    if |rows| == 0 then [] else RowInvoices(layout, rows[0], now) + KeptRowInvoices(layout, rows[1..], now)
  }

  /** Rows contribute their invoices independently and in order. */
  lemma {:induction false} ParseRowsAppend(layout: Layout, a: seq<seq<string>>, b: seq<seq<string>>, now: Date)
    ensures ParseRows(layout, a + b, now).invoices
            == ParseRows(layout, a, now).invoices + ParseRows(layout, b, now).invoices
    decreases |b|
  {
    if |b| == 0 {
      assert a + b == a;
    } else {
      var b' := b[..|b| - 1];
      assert (a + b)[..|a + b| - 1] == a + b';
      assert (a + b)[|a + b| - 1] == b[|b| - 1];
      ParseRowsAppend(layout, a, b', now);
    }
  }

  /** The invoice list is exactly one invoice per kept row, in file order. */
  lemma {:induction false} InvoicesFollowRows(layout: Layout, rows: seq<seq<string>>, now: Date)
    ensures ParseRows(layout, rows, now).invoices == KeptRowInvoices(layout, rows, now)
    decreases |rows|
  {
    if |rows| > 0 {
      assert rows == [rows[0]] + rows[1..];
      ParseRowsAppend(layout, [rows[0]], rows[1..], now);
      InvoicesFollowRows(layout, rows[1..], now);
      assert ParseRows(layout, [rows[0]], now).invoices == RowInvoices(layout, rows[0], now) by {
        assert [rows[0]][..0] == [];
      }
    }
  }

  /** An invoice line that accounts for the whole total: a positive count
      times the unit price gives it back, and a negative count leaves the
      total as the unit price. */
  predicate ItemCarries(item: InvoiceItem, total: real) {
    item.stockId == CSV_ITEM && item.quantity != 0
    && (item.quantity > 0 ==> item.quantity as real * item.price == total)
    && (item.quantity < 0 ==> item.price == total)
  }

  /** The invoice's one line accounts for its total. */
  predicate LineCarriesTotal(inv: ParsedInvoice) {
    |inv.items| == 1 && ItemCarries(inv.items[0], inv.totalAmount)
  }

  /** Whatever count the row gives, the line built from it carries the total. */
  lemma ItemOfCarries(quantity: int, total: real)
    ensures ItemCarries(ItemOf(quantity, total), total)
  {
    var item := ItemOf(quantity, total);
    if quantity == 0 {
      assert item.quantity as real * item.price == 1.0 * total;
    }
  }

  /** Every invoice the row loop emits carries its total on its one line. */
  lemma {:induction false} ParsedLinesCarryTotals(layout: Layout, rows: seq<seq<string>>, now: Date)
    ensures forall k :: 0 <= k < |ParseRows(layout, rows, now).invoices| ==>
      LineCarriesTotal(ParseRows(layout, rows, now).invoices[k])
    decreases |rows|
  {
    if |rows| > 0 {
      var prev := ParseRows(layout, rows[..|rows| - 1], now);
      ParsedLinesCarryTotals(layout, rows[..|rows| - 1], now);
      var values := rows[|rows| - 1];
      var r := ParseRows(layout, rows, now);
      assert r == Step(layout, prev, values, now);
      if RowCode(layout, values).Some? {
        var inv := InvoiceOf(layout, values, RowCode(layout, values).value, now);
        InvoiceCarriesTotal(layout, values, RowCode(layout, values).value, now);
        assert r.invoices == prev.invoices + [inv];
        forall k | 0 <= k < |r.invoices|
          ensures LineCarriesTotal(r.invoices[k])
        {
          if k < |prev.invoices| {
            assert r.invoices[k] == prev.invoices[k];
          }
        }
      }
    }
  }

  lemma InvoiceCarriesTotal(layout: Layout, values: seq<string>, code: string, now: Date)
    ensures LineCarriesTotal(InvoiceOf(layout, values, code, now))
  {
    var total := ParseCurrency(Cell(values, layout.total));
    var quantity := ParseNumber(Cell(values, layout.quantity));
    ItemOfCarries(quantity, total);
  }

  /** A skipped row (short, not a purchase invoice, cancelled, or without a
      code) changes nothing: neither customers nor invoices. */
  lemma {:induction false} SkippedRowIgnored(layout: Layout, a: seq<seq<string>>, row: seq<string>, b: seq<seq<string>>, now: Date)
    requires RowCode(layout, row).None?
    ensures ParseRows(layout, a + [row] + b, now) == ParseRows(layout, a + b, now)
    decreases |b|
  {
    if |b| == 0 {
      assert a + [row] + b == a + [row];
      assert (a + [row])[..|a|] == a;
      assert a + b == a;
    } else {
      var b' := b[..|b| - 1];
      assert (a + [row] + b)[..|a + [row] + b| - 1] == a + [row] + b';
      assert (a + b)[..|a + b| - 1] == a + b';
      assert (a + [row] + b)[|a + [row] + b| - 1] == b[|b| - 1];
      assert (a + b)[|a + b| - 1] == b[|b| - 1];
      SkippedRowIgnored(layout, a, row, b', now);
    }
  }

  /** Row `i` is kept with ledger code `c`. */
  predicate RowHasCode(layout: Layout, rows: seq<seq<string>>, i: int, c: string) {
    0 <= i < |rows| && RowCode(layout, rows[i]) == Some(c)
  }

  /** One loop turn adds the row's code to the customer keys, if it is kept. */
  lemma StepKeys(layout: Layout, prev: Rows, values: seq<string>, now: Date, c: string)
    ensures c in Step(layout, prev, values, now).customers <==> c in prev.customers || RowCode(layout, values) == Some(c)
    ensures c in prev.customers ==> Step(layout, prev, values, now).customers[c] == prev.customers[c]
    ensures c !in prev.customers && RowCode(layout, values) == Some(c)
            ==> Step(layout, prev, values, now).customers[c] == CustomerOf(layout, values, c)
  {
  }

  /** Every kept row's code is a customer key. */
  lemma {:induction false} KeptCodeIsKey(layout: Layout, rows: seq<seq<string>>, now: Date, c: string, i: int)
    ensures RowHasCode(layout, rows, i, c) ==> c in ParseRows(layout, rows, now).customers
    decreases |rows|
  {
    if RowHasCode(layout, rows, i, c) {
      var p, last := rows[..|rows| - 1], rows[|rows| - 1];
      StepKeys(layout, ParseRows(layout, p, now), last, now, c);
      if i < |p| {
        assert p[i] == rows[i];
        KeptCodeIsKey(layout, p, now, c, i);
      }
    }
  }

  /** No row of `rows[..n]` carries `c` when `c` was not yet a key after them. */
  lemma NoEarlierRow(layout: Layout, rows: seq<seq<string>>, now: Date, c: string, n: nat)
    requires n <= |rows| && c !in ParseRows(layout, rows[..n], now).customers
    ensures forall j :: 0 <= j < n ==> !RowHasCode(layout, rows, j, c)
  {
    forall j | 0 <= j < n
      ensures !RowHasCode(layout, rows, j, c)
    {
      assert rows[..n][j] == rows[j];
      KeptCodeIsKey(layout, rows[..n], now, c, j);
    }
  }

  /** The rows before the first one carrying `c` in a prefix are the same
      rows in the whole list. */
  lemma NoEarlierRowPrefix(layout: Layout, rows: seq<seq<string>>, c: string, n: nat, i: int)
    requires n <= |rows| && i <= n
    requires forall j :: 0 <= j < i ==> !RowHasCode(layout, rows[..n], j, c)
    ensures forall j :: 0 <= j < i ==> !RowHasCode(layout, rows, j, c)
  {
    forall j | 0 <= j < i
      ensures !RowHasCode(layout, rows, j, c)
    {
      assert rows[..n][j] == rows[j];
      assert !RowHasCode(layout, rows[..n], j, c);
    }
  }

  /** Every customer key comes from a kept row, and the row returned is
      the first one with that code. */
  lemma {:induction false} KeyFirstRow(layout: Layout, rows: seq<seq<string>>, now: Date, c: string) returns (i: int)
    requires c in ParseRows(layout, rows, now).customers
    ensures RowHasCode(layout, rows, i, c)
    ensures forall j :: 0 <= j < i ==> !RowHasCode(layout, rows, j, c)
    decreases |rows|
  {
    var n := |rows| - 1;
    var p, last := rows[..n], rows[n];
    var prev := ParseRows(layout, p, now);
    StepKeys(layout, prev, last, now, c);
    if c in prev.customers {
      i := KeyFirstRow(layout, p, now, c);
      assert p[i] == rows[i];
      NoEarlierRowPrefix(layout, rows, c, n, i);
    } else {
      i := n;
      NoEarlierRow(layout, rows, now, c, n);
    }
  }

  /** A code is a customer key exactly when some kept row carries it. */
  lemma CustomerKeys(layout: Layout, rows: seq<seq<string>>, now: Date, c: string)
    ensures c in ParseRows(layout, rows, now).customers <==> exists i :: RowHasCode(layout, rows, i, c)
  {
    if c in ParseRows(layout, rows, now).customers {
      var i := KeyFirstRow(layout, rows, now, c);
    }
    if exists i :: RowHasCode(layout, rows, i, c) {
      var i :| RowHasCode(layout, rows, i, c);
      KeptCodeIsKey(layout, rows, now, c, i);
    }
  }

  /** First seen wins: a customer's fields come from the first kept row
      with its code; later rows with the same code add invoices only. */
  lemma {:induction false} FirstSeenWins(layout: Layout, rows: seq<seq<string>>, now: Date, c: string, i: int)
    requires RowHasCode(layout, rows, i, c)
    requires forall j :: 0 <= j < i ==> !RowHasCode(layout, rows, j, c)
    ensures c in ParseRows(layout, rows, now).customers
    ensures ParseRows(layout, rows, now).customers[c] == CustomerOf(layout, rows[i], c)
    decreases |rows|
  {
    var p, last := rows[..|rows| - 1], rows[|rows| - 1];
    var prev := ParseRows(layout, p, now);
    assert ParseRows(layout, rows, now) == Step(layout, prev, last, now);
    StepKeys(layout, prev, last, now, c);
    if i == |rows| - 1 {
      forall j | 0 <= j < |p|
        ensures !RowHasCode(layout, p, j, c)
      {
        assert p[j] == rows[j];
        assert !RowHasCode(layout, rows, j, c);
      }
      CustomerKeys(layout, p, now, c);
    } else {
      assert p[i] == rows[i];
      forall j | 0 <= j < i
        ensures !RowHasCode(layout, p, j, c)
      {
        assert p[j] == rows[j];
        assert !RowHasCode(layout, rows, j, c);
      }
      FirstSeenWins(layout, p, now, c, i);
    }
  }

  /** A second parse through the cache returns what the first returned. */
  lemma CachedParseStable(cache: Option<Parsed>, source: Source, now: Date, later: Date)
    ensures ParseErpData(ParseErpData(cache, source, now).cache, source, later).result
            == ParseErpData(cache, source, now).result
  {
  }
  /** Two invoice lists that differ at most in their dates. */
  predicate SameButDates(a: seq<ParsedInvoice>, b: seq<ParsedInvoice>) {
    |a| == |b| && forall k :: 0 <= k < |a| ==> a[k].(date := b[k].date) == b[k]
  }

  /** The injected "now" reaches the result only through fallback invoice
      dates: the customers and the invoices' identities do not depend on it. */
  lemma {:induction false} ParseRowsDates(layout: Layout, rows: seq<seq<string>>, now: Date, later: Date)
    ensures ParseRows(layout, rows, now).codes == ParseRows(layout, rows, later).codes
    ensures ParseRows(layout, rows, now).customers == ParseRows(layout, rows, later).customers
    ensures SameButDates(ParseRows(layout, rows, now).invoices, ParseRows(layout, rows, later).invoices)
    decreases |rows|
  {
    if |rows| > 0 {
      var p := rows[..|rows| - 1];
      ParseRowsDates(layout, p, now, later);
      StepDates(layout, ParseRows(layout, p, now), ParseRows(layout, p, later), rows[|rows| - 1], now, later);
    }
  }

  lemma StepDates(layout: Layout, a: Rows, b: Rows, values: seq<string>, now: Date, later: Date)
    requires a.codes == b.codes && a.customers == b.customers && SameButDates(a.invoices, b.invoices)
    ensures Step(layout, a, values, now).codes == Step(layout, b, values, later).codes
    ensures Step(layout, a, values, now).customers == Step(layout, b, values, later).customers
    ensures SameButDates(Step(layout, a, values, now).invoices, Step(layout, b, values, later).invoices)
  {
    if RowCode(layout, values).Some? {
      KeepDates(layout, a, b, values, RowCode(layout, values).value, now, later);
    }
  }

  lemma KeepDates(layout: Layout, a: Rows, b: Rows, values: seq<string>, code: string, now: Date, later: Date)
    requires a.codes == b.codes && a.customers == b.customers && SameButDates(a.invoices, b.invoices)
    requires RowCode(layout, values) == Some(code)
    ensures Step(layout, a, values, now).codes == Step(layout, b, values, later).codes
    ensures Step(layout, a, values, now).customers == Step(layout, b, values, later).customers
    ensures SameButDates(Step(layout, a, values, now).invoices, Step(layout, b, values, later).invoices)
  {
    var x := InvoiceOf(layout, values, code, now);
    var y := InvoiceOf(layout, values, code, later);
    assert x.(date := y.date) == y;
    SameButDatesSnoc(a.invoices, b.invoices, x, y);
  }

  lemma SameButDatesSnoc(a: seq<ParsedInvoice>, b: seq<ParsedInvoice>, x: ParsedInvoice, y: ParsedInvoice)
    requires SameButDates(a, b) && x.(date := y.date) == y
    ensures SameButDates(a + [x], b + [y])
  {
    assert forall k :: 0 <= k < |a| ==> (a + [x])[k] == a[k] && (b + [y])[k] == b[k];
  }

  lemma FetchDates(source: Source, now: Date, later: Date)
    ensures FetchErpCsvData(source, now).result.codes == FetchErpCsvData(source, later).result.codes
    ensures FetchErpCsvData(source, now).result.customers == FetchErpCsvData(source, later).result.customers
    ensures SameButDates(FetchErpCsvData(source, now).result.invoices, FetchErpCsvData(source, later).result.invoices)
    ensures FetchErpCsvData(source, now).result.offers == FetchErpCsvData(source, later).result.offers
  {
    match FeedTable(source.csv)
    case None =>
    case Some((layout, rows)) => ParseRowsDates(layout, rows, now, later);
  }
}
