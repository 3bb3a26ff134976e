/** `syncInvoices` of contexts/ErpContext.tsx: after the resolver has run,
    every parsed invoice whose ledger code resolves is linked to its
    customer, classified as added or updated against the invoice keys
    stored before the write, and put by invoice number. */
module InvoiceSync {
  import opened Wrappers
  import opened Calendar
  import opened Records
  import opened Feed
  import opened Store
  import opened Seqs
  import opened ErpSync

  function ResolvedIn(cmap: map<string, string>): ParsedInvoice -> bool {
    (inv: ParsedInvoice) => Resolves(cmap, inv.customerCurrentCode)
  }

  function UnresolvedIn(cmap: map<string, string>): ParsedInvoice -> bool {
    (inv: ParsedInvoice) => !Resolves(cmap, inv.customerCurrentCode)
  }

  /** Counted as updated: the invoice number was a stored key before the
      write. A missing number never is. */
  predicate Existing(t: map<string, Invoice>, inv: ParsedInvoice) {
    inv.id.Some? && inv.id.value in t
  }

  function ExistingIn(t: map<string, Invoice>): ParsedInvoice -> bool {
    inv => Existing(t, inv)
  }

  function NewIn(t: map<string, Invoice>): ParsedInvoice -> bool {
    inv => !Existing(t, inv)
  }

  /** A surviving invoice the store can key. */
  predicate Writable(cmap: map<string, string>, inv: ParsedInvoice) {
    Resolves(cmap, inv.customerCurrentCode) && inv.id.Some?
  }

  function WritableIn(cmap: map<string, string>): ParsedInvoice -> bool {
    inv => Writable(cmap, inv)
  }

  /** `{...invoiceData, customerId, userId: 'user-cnk'}`: the ledger code
      gives way to the resolved customer id. */
  function Linked(cmap: map<string, string>, inv: ParsedInvoice): Invoice
    requires Writable(cmap, inv)
  {
    Invoice(inv.id.value, cmap[inv.customerCurrentCode], SYNC_USER, inv.date, inv.totalAmount, inv.items, inv.description)
  }

  /** The records `bulkPut` stores, in parse order; a surviving invoice
      without a number is refused by the store. */
  function Written(cmap: map<string, string>, invoices: seq<ParsedInvoice>): (rs: seq<Invoice>)
    ensures |rs| <= |invoices|
  {
    var w := Filter(invoices, WritableIn(cmap));
    seq(|w|, i requires 0 <= i < |w| => Linked(cmap, w[i]))
  }

  /** The numbers of the surviving invoices that carry one. */
  function WrittenIds(cmap: map<string, string>, invoices: seq<ParsedInvoice>): set<string> {
    set j | 0 <= j < |invoices| && Writable(cmap, invoices[j]) :: invoices[j].id.value
  }

  /** Every surviving invoice carries a number, so the put is accepted. */
  predicate Complete(cmap: map<string, string>, invoices: seq<ParsedInvoice>) {
    forall j :: 0 <= j < |invoices| && Resolves(cmap, invoices[j].customerCurrentCode) ==> invoices[j].id.Some?
  }

  /** The invoice table after the put and the two counters. */
  datatype InvoiceWrite = InvoiceWrite(invoices: map<string, Invoice>, added: nat, updated: nat)

  /** The invoice step of `syncInvoices` for a given code-to-id map. */
  function WriteInvoices(t: map<string, Invoice>, cmap: map<string, string>, invoices: seq<ParsedInvoice>): (w: InvoiceWrite)
    ensures w.added + w.updated + |Filter(invoices, UnresolvedIn(cmap))| == |invoices|
  {
    var kept := Filter(invoices, ResolvedIn(cmap));
    FilterPartition(kept, NewIn(t), ExistingIn(t));
    FilterPartition(invoices, ResolvedIn(cmap), UnresolvedIn(cmap));
    InvoiceWrite(PutAll(t, Written(cmap, invoices), InvoiceKey),
                 |Filter(kept, NewIn(t))|, |Filter(kept, ExistingIn(t))|)
  }

  // ---------------------------------------------------------------------
  // Properties of the invoice step

  /** An invoice survives exactly when its ledger code resolves. */
  lemma KeptExactlyResolved(cmap: map<string, string>, invoices: seq<ParsedInvoice>, inv: ParsedInvoice)
    ensures inv in Filter(invoices, ResolvedIn(cmap)) <==> inv in invoices && Resolves(cmap, inv.customerCurrentCode)
  {
    FilterMembers(invoices, ResolvedIn(cmap), inv);
  }

  /** The batch carries exactly the numbers of the surviving invoices. */
  lemma WrittenKeys(cmap: map<string, string>, invoices: seq<ParsedInvoice>)
    ensures KeysOf(Written(cmap, invoices), InvoiceKey) == WrittenIds(cmap, invoices)
  {
    var w := Filter(invoices, WritableIn(cmap));
    var rs := Written(cmap, invoices);
    forall x | x in KeysOf(rs, InvoiceKey) ensures x in WrittenIds(cmap, invoices) {
      var i :| 0 <= i < |rs| && InvoiceKey(rs[i]) == x;
      FilterMembers(invoices, WritableIn(cmap), w[i]);
      var j :| 0 <= j < |invoices| && invoices[j] == w[i];
    }
    forall x | x in WrittenIds(cmap, invoices) ensures x in KeysOf(rs, InvoiceKey) {
      var j :| 0 <= j < |invoices| && Writable(cmap, invoices[j]) && invoices[j].id.value == x;
      FilterMembers(invoices, WritableIn(cmap), invoices[j]);
      var i :| 0 <= i < |w| && w[i] == invoices[j];
      assert InvoiceKey(rs[i]) == x;
    }
  }

  /** Only surviving invoices are written: the table gains exactly their
      numbers, and a dropped invoice adds no key. */
  lemma InvoiceKeys(t: map<string, Invoice>, cmap: map<string, string>, invoices: seq<ParsedInvoice>)
    ensures WriteInvoices(t, cmap, invoices).invoices.Keys == t.Keys + WrittenIds(cmap, invoices)
  {
    WrittenKeys(cmap, invoices);
  }

  /** What a written number holds: the linked record of a surviving
      invoice with that number; every other stored invoice is untouched. */
  lemma InvoiceRecord(t: map<string, Invoice>, cmap: map<string, string>, invoices: seq<ParsedInvoice>, k: string)
    returns (j: int)
    requires k in WriteInvoices(t, cmap, invoices).invoices
    ensures k !in WrittenIds(cmap, invoices) ==> k in t && WriteInvoices(t, cmap, invoices).invoices[k] == t[k]
    ensures k in WrittenIds(cmap, invoices) ==>
      && 0 <= j < |invoices| && Writable(cmap, invoices[j]) && invoices[j].id == Some(k)
      && WriteInvoices(t, cmap, invoices).invoices[k] == Linked(cmap, invoices[j])
  {
    var rs := Written(cmap, invoices);
    WrittenKeys(cmap, invoices);
    j := 0;
    if k in WrittenIds(cmap, invoices) {
      var w := Filter(invoices, WritableIn(cmap));
      var i := PutAllFrom(t, rs, InvoiceKey, k);
      FilterMembers(invoices, WritableIn(cmap), w[i]);
      j :| 0 <= j < |invoices| && invoices[j] == w[i];
    } else {
      PutAllKeeps(t, rs, InvoiceKey, k);
    }
  }

  /** The put keeps the invoice table keyed by invoice number. */
  lemma InvoicesKeyed(t: map<string, Invoice>, cmap: map<string, string>, invoices: seq<ParsedInvoice>)
    requires Keyed(t, InvoiceKey)
    ensures Keyed(WriteInvoices(t, cmap, invoices).invoices, InvoiceKey)
  {
    PutAllKeyed(t, Written(cmap, invoices), InvoiceKey);
  }

  /** Nothing is counted as added exactly when every surviving invoice
      carries a number already stored. */
  lemma NothingAdded(t: map<string, Invoice>, cmap: map<string, string>, invoices: seq<ParsedInvoice>)
    ensures WriteInvoices(t, cmap, invoices).added == 0
        <==> forall j :: 0 <= j < |invoices| && Resolves(cmap, invoices[j].customerCurrentCode) ==> Existing(t, invoices[j])
  {
    var kept := Filter(invoices, ResolvedIn(cmap));
    FilterEmpty(kept, NewIn(t));
    if forall j :: 0 <= j < |invoices| && Resolves(cmap, invoices[j].customerCurrentCode) ==> Existing(t, invoices[j]) {
      forall i | 0 <= i < |kept| ensures Existing(t, kept[i]) {
        FilterMembers(invoices, ResolvedIn(cmap), kept[i]);
      }
    } else {
      var j :| 0 <= j < |invoices| && Resolves(cmap, invoices[j].customerCurrentCode) && !Existing(t, invoices[j]);
      FilterMembers(invoices, ResolvedIn(cmap), invoices[j]);
    }
  }

  /** Two parses of one export that differ at most in fallback dates. */
  predicate SameInvoices(a: seq<ParsedInvoice>, b: seq<ParsedInvoice>) {
    |a| == |b| && forall k :: 0 <= k < |a| ==> a[k].id == b[k].id && a[k].customerCurrentCode == b[k].customerCurrentCode
  }

  lemma DatesOnly(a: seq<ParsedInvoice>, b: seq<ParsedInvoice>)
    requires SameButDates(a, b)
    ensures SameInvoices(a, b)
  {
    forall k | 0 <= k < |a| ensures a[k].id == b[k].id && a[k].customerCurrentCode == b[k].customerCurrentCode {
      assert a[k].(date := b[k].date) == b[k];
    }
  }

  /** Writing the same surviving invoices again adds nothing, provided
      the first put was accepted. */
  lemma RewriteAddsNothing(t: map<string, Invoice>, cmap: map<string, string>,
                           first: seq<ParsedInvoice>, again: seq<ParsedInvoice>)
    requires Complete(cmap, first) && SameInvoices(first, again)
    ensures WriteInvoices(WriteInvoices(t, cmap, first).invoices, cmap, again).added == 0
  {
    var t' := WriteInvoices(t, cmap, first).invoices;
    InvoiceKeys(t, cmap, first);
    forall j | 0 <= j < |again| && Resolves(cmap, again[j].customerCurrentCode) ensures Existing(t', again[j]) {
      assert Writable(cmap, first[j]);
    }
    NothingAdded(t', cmap, again);
  }

  // ---------------------------------------------------------------------
  // The sync

  /** `syncInvoices`: resolve customers, then put the surviving invoices
      and stamp `lastSyncInvoices`. A surviving invoice without a number
      makes the put, and so the sync, reject after the customers and the
      numbered invoices were written. Reports every parsed invoice as
      fetched. */
  function SyncInvoices(st: Erp, feed: Parse, now: Instant, ids: seq<string>): (o: Outcome)
    requires Ready(st.db, feed, ids)
    ensures Valid(o.state.db)
    ensures o.state.cache == feed.cache
    ensures o.state.db.customers == ResolveCustomers(st.db, feed, now, ids).customers
    ensures o.state.db.invoices
            == WriteInvoices(st.db.invoices, ResolveCustomers(st.db, feed, now, ids).customerMap,
                             feed.result.invoices).invoices
    ensures o.state.db.(customers := st.db.customers, invoices := st.db.invoices, erpSettings := st.db.erpSettings) == st.db
    ensures o.result.Success?
        <==> st.db.erpSettings.Some? && Complete(ResolveCustomers(st.db, feed, now, ids).customerMap, feed.result.invoices)
    ensures o.result.Failure? ==> o.state.db.erpSettings == st.db.erpSettings
    ensures o.result.Success? ==>
      && o.result.value.kind == "Fatura"
      && o.result.value.fetched == |feed.result.invoices|
      && o.result.value.fetched == o.result.value.added + o.result.value.updated
           + |Filter(feed.result.invoices, UnresolvedIn(ResolveCustomers(st.db, feed, now, ids).customerMap))|
      && o.state.db.erpSettings == Some(Stamped(st.db.erpSettings.value, InvoicesSynced, IsoString(now)))
    ensures o.result.Success? ==>
      var w := WriteInvoices(st.db.invoices, ResolveCustomers(st.db, feed, now, ids).customerMap,
                             feed.result.invoices);
      o.result.value.added == w.added && o.result.value.updated == w.updated
  {
    var r := ResolveCustomers(st.db, feed, now, ids);
    var invoices := feed.result.invoices;
    var w := WriteInvoices(st.db.invoices, r.customerMap, invoices);
    InvoicesKeyed(st.db.invoices, r.customerMap, invoices);
    ValidWithInvoices(st.db.(customers := r.customers), w.invoices);
    var db := st.db.(customers := r.customers, invoices := w.invoices);
    if Complete(r.customerMap, invoices) then
      Finish(db, r.cache, InvoicesSynced, now, SyncResult("Fatura", |invoices|, w.added, w.updated))
    else
      Outcome(Erp(db, r.cache), Failure(KeyMissing))
  }

  /** A stored invoice written from parsed invoice `j`: attributed to the
      sync user, carrying the parsed number, date, amount, lines and
      description, and linked to the stored customer that holds the parsed
      properties of the invoice's ledger code. */
  predicate LinkedInvoice(customers: map<string, Customer>, p: Parsed, r: Invoice, j: int) {
    && 0 <= j < |p.invoices|
    && p.invoices[j].id == Some(r.id)
    && r.userId == SYNC_USER
    && r.date == p.invoices[j].date && r.totalAmount == p.invoices[j].totalAmount
    && r.items == p.invoices[j].items && r.description == p.invoices[j].description
    && r.customerId in customers
    && p.invoices[j].customerCurrentCode in p.customers
    && customers[r.customerId].ledger == p.customers[p.invoices[j].customerCurrentCode]
  }

  /** A code-to-id map that sends each parsed code to the customer holding
      its parsed properties. */
  ghost predicate LinksParsed(cmap: map<string, string>, customers: map<string, Customer>, p: Parsed) {
    forall c :: c in cmap ==> cmap[c] in customers && c in p.customers && customers[cmap[c]].ledger == p.customers[c]
  }

  lemma LinkedWrite(t: map<string, Invoice>, cmap: map<string, string>, p: Parsed,
                    customers: map<string, Customer>, k: string) returns (j: int)
    requires LinksParsed(cmap, customers, p) && k in WrittenIds(cmap, p.invoices)
    ensures 0 <= j < |p.invoices| && Resolves(cmap, p.invoices[j].customerCurrentCode)
    ensures k in WriteInvoices(t, cmap, p.invoices).invoices
    ensures LinkedInvoice(customers, p, WriteInvoices(t, cmap, p.invoices).invoices[k], j)
  {
    InvoiceKeys(t, cmap, p.invoices);
    j := InvoiceRecord(t, cmap, p.invoices, k);
  }

  /** The sync stores exactly the numbers of the surviving invoices on
      top of the stored ones. */
  lemma SyncInvoicesKeys(st: Erp, feed: Parse, now: Instant, ids: seq<string>)
    requires Ready(st.db, feed, ids)
    ensures SyncInvoices(st, feed, now, ids).state.db.invoices.Keys
      == st.db.invoices.Keys + WrittenIds(ResolveCustomers(st.db, feed, now, ids).customerMap, feed.result.invoices)
  {
    InvoiceKeys(st.db.invoices, ResolveCustomers(st.db, feed, now, ids).customerMap, feed.result.invoices);
  }

  /** A number the sync writes holds a surviving invoice linked to its
      customer. */
  lemma SyncInvoicesLinks(st: Erp, feed: Parse, now: Instant, ids: seq<string>, k: string) returns (j: int)
    requires Ready(st.db, feed, ids)
    requires k in WrittenIds(ResolveCustomers(st.db, feed, now, ids).customerMap, feed.result.invoices)
    ensures 0 <= j < |feed.result.invoices|
    ensures Resolves(ResolveCustomers(st.db, feed, now, ids).customerMap, feed.result.invoices[j].customerCurrentCode)
    ensures var db' := SyncInvoices(st, feed, now, ids).state.db;
      k in db'.invoices && LinkedInvoice(db'.customers, feed.result, db'.invoices[k], j)
  {
    var r := ResolveCustomers(st.db, feed, now, ids);
    ResolverLinks(st.db, feed, now, ids);
    assert LinksParsed(r.customerMap, r.customers, feed.result);
    j := LinkedWrite(st.db.invoices, r.customerMap, feed.result, r.customers, k);
  }

  /** A stored invoice the sync does not write is left as it was. */
  lemma SyncInvoicesKeeps(st: Erp, feed: Parse, now: Instant, ids: seq<string>, k: string)
    requires Ready(st.db, feed, ids)
    requires k in st.db.invoices
    requires k !in WrittenIds(ResolveCustomers(st.db, feed, now, ids).customerMap, feed.result.invoices)
    ensures SyncInvoices(st, feed, now, ids).state.db.invoices[k] == st.db.invoices[k]
  {
    var cmap := ResolveCustomers(st.db, feed, now, ids).customerMap;
    InvoiceKeys(st.db.invoices, cmap, feed.result.invoices);
    var _ := InvoiceRecord(st.db.invoices, cmap, feed.result.invoices, k);
  }

  lemma CompleteAgain(cmap: map<string, string>, first: seq<ParsedInvoice>, again: seq<ParsedInvoice>)
    requires Complete(cmap, first) && SameInvoices(first, again)
    ensures Complete(cmap, again)
  {
  }

  /** Running `syncInvoices` again over a fetch of the same export, after
      a run that was accepted, adds no invoice: the customers map to the
      same ids and every surviving invoice's number is stored. */
  lemma ResyncInvoicesAddsNothing(st: Erp, feed: Parse, now: Instant, ids: seq<string>,
                                  feed2: Parse, later: Instant, again: seq<string>)
    requires Ready(st.db, feed, ids)
    requires SyncInvoices(st, feed, now, ids).result.Success?
    requires Ready(SyncInvoices(st, feed, now, ids).state.db, feed2, again) && SameFeed(feed, feed2)
    ensures var o := SyncInvoices(SyncInvoices(st, feed, now, ids).state, feed2, later, again);
      o.result.Success? && o.result.value.added == 0
  {
    var st1 := SyncInvoices(st, feed, now, ids).state;
    var cmap := ResolveCustomers(st.db, feed, now, ids).customerMap;
    ResyncSameMap(st.db, feed, now, ids, st1.db, feed2, later, again);
    DatesOnly(feed.result.invoices, feed2.result.invoices);
    CompleteAgain(cmap, feed.result.invoices, feed2.result.invoices);
    RewriteAddsNothing(st.db.invoices, cmap, feed.result.invoices, feed2.result.invoices);
  }
}
