/** The sync orchestrator of contexts/ErpContext.tsx: the identity
    resolver that upserts ledger customers by code, and the customer,
    invoice, offer and stock syncs built on it. Each sync is a function of
    the store, the parser cache, what `fetchErpCsvData` returned, one clock
    reading and the ids the id generator hands out. */
module ErpSync {
  import opened Wrappers
  import opened Calendar
  import opened Records
  import opened Feed
  import opened Store
  import opened Seqs

  /** The user every synced invoice is attributed to. */
  const SYNC_USER: string := "user-cnk"

  /** `SyncResult`: what a sync reports. */
  datatype SyncResult = SyncResult(kind: string, fetched: nat, added: nat, updated: nat)

  /** What the syncs act on: the store and the parser's cache. */
  datatype Erp = Erp(db: Db, cache: Option<Parsed>)

  /** The state after a sync, and its report or the reason it rejected.
      A rejected sync keeps the writes it made before the failing one. */
  datatype Outcome = Outcome(state: Erp, result: Result<SyncResult, StoreError>)

  // ---------------------------------------------------------------------
  // Settings

  /** `updateErpSettings`: the singleton settings record is replaced. */
  function UpdateErpSettings(db: Db, settings: ErpSettings): (r: Db)
    ensures r.erpSettings == Some(settings)
    ensures r.(erpSettings := db.erpSettings) == db
  {
    db.(erpSettings := Some(settings))
  }

  /** Which `lastSync*` time stamp a sync sets. */
  datatype Stamp = CustomersSynced | InvoicesSynced | OffersSynced

  /** `{...erpSettings, lastSync*: now}`. */
  function Stamped(s: ErpSettings, which: Stamp, at: string): (r: ErpSettings)
    ensures r.lastSyncCustomers == (if which == CustomersSynced then Some(at) else s.lastSyncCustomers)
    ensures r.lastSyncInvoices == (if which == InvoicesSynced then Some(at) else s.lastSyncInvoices)
    ensures r.lastSyncOffers == (if which == OffersSynced then Some(at) else s.lastSyncOffers)
    ensures r.(lastSyncCustomers := s.lastSyncCustomers, lastSyncInvoices := s.lastSyncInvoices,
               lastSyncOffers := s.lastSyncOffers) == s
  {
    match which
    case CustomersSynced => s.(lastSyncCustomers := Some(at))
    case InvoicesSynced => s.(lastSyncInvoices := Some(at))
    case OffersSynced => s.(lastSyncOffers := Some(at))
  }

  /** The closing settings write of a sync. Without a stored settings
      record the spread has no `id`, so the write and the sync reject. */
  function Finish(db: Db, cache: Option<Parsed>, which: Stamp, now: Instant, report: SyncResult): (o: Outcome)
    ensures o.state.cache == cache
    ensures o.result.Success? <==> db.erpSettings.Some?
    ensures o.result.Success? ==> o.result.value == report
    ensures o.result.Success? ==>
              o.state.db == UpdateErpSettings(db, Stamped(db.erpSettings.value, which, IsoString(now)))
    ensures o.result.Failure? ==> o.state.db == db && o.result.error == KeyMissing
    ensures Valid(db) ==> Valid(o.state.db)
  {
    match db.erpSettings
    case None => Outcome(Erp(db, cache), Failure(KeyMissing))
    case Some(s) => Outcome(Erp(UpdateErpSettings(db, Stamped(s, which, IsoString(now))), cache), Success(report))
  }

  // ---------------------------------------------------------------------
  // Identity resolver

  /** No stored customer carries ledger code `code`. */
  predicate Unknown(t: map<string, Customer>, code: string) {
    forall k :: k in t ==> t[k].ledger.currentCode != Some(code)
  }

  function UnknownIn(t: map<string, Customer>): string -> bool {
    code => Unknown(t, code)
  }

  function KnownIn(t: map<string, Customer>): string -> bool {
    code => !Unknown(t, code)
  }

  /** How many of the first `i` codes are new, that is, how many ids the
      resolver has drawn before reaching code `i`. */
  function DrawnBefore(t: map<string, Customer>, codes: seq<string>, i: int): (n: nat)
    requires 0 <= i <= |codes|
    ensures n <= i
  {
    |Filter(codes[..i], UnknownIn(t))|
  }

  /** The record upserted for a parsed customer: `{...existing, ...parsed}`
      for a known code, a new record with a drawn id otherwise. */
  function Upsert(t: map<string, Customer>, code: string, fields: LedgerFields, id: string, stamp: string): Customer
    requires UniqueCodes(t)
  {
    match CodeOwner(t, code)
    case Some(k) => t[k].(ledger := fields)
    case None => Customer(id, stamp, fields, NoCrmFields)
  }

  /** What the resolver's inputs satisfy: a keyed customer table with
      unique codes, a parse whose codes are the keys of its customer map,
      and unused ids enough for every code. */
  ghost predicate ResolverInputs(t: map<string, Customer>, codes: seq<string>,
                                 parsed: map<string, LedgerFields>, ids: seq<string>) {
    && Keyed(t, CustomerKey) && UniqueCodes(t) && FreshIds(ids, t)
    && (forall i, j :: 0 <= i < j < |codes| ==> codes[i] != codes[j])
    && (forall c :: c in parsed <==> c in codes)
    && (forall c :: c in parsed ==> parsed[c].currentCode == Some(c))
    && |codes| <= |ids|
  }

  /** `customersToUpsert`, in the parsed map's insertion order. */
  function Upserts(t: map<string, Customer>, codes: seq<string>, parsed: map<string, LedgerFields>,
                   ids: seq<string>, stamp: string): (rs: seq<Customer>)
    requires UniqueCodes(t) && |codes| <= |ids|
    requires forall i :: 0 <= i < |codes| ==> codes[i] in parsed
    ensures |rs| == |codes|
  {
    seq(|codes|, i requires 0 <= i < |codes| =>
      Upsert(t, codes[i], parsed[codes[i]], ids[DrawnBefore(t, codes, i)], stamp))
  }

  /** A stored customer after the upsert: its ledger part replaced when
      its code was parsed. */
  function Relinked(l: LedgerFields, parsed: map<string, LedgerFields>): LedgerFields {
    if l.currentCode.Some? && l.currentCode.value in parsed then parsed[l.currentCode.value] else l
  }

  /** The id of an upsert: the owner's key for a known code, else the
      next drawn id. */
  lemma UpsertId(t: map<string, Customer>, codes: seq<string>, parsed: map<string, LedgerFields>,
                 ids: seq<string>, stamp: string, i: int)
    requires ResolverInputs(t, codes, parsed, ids) && 0 <= i < |codes|
    ensures var r := Upserts(t, codes, parsed, ids, stamp)[i];
      if Unknown(t, codes[i]) then r.id == ids[DrawnBefore(t, codes, i)] && r.id !in t
      else r.id in t && t[r.id].ledger.currentCode == Some(codes[i])
  {
    var r := Upserts(t, codes, parsed, ids, stamp)[i];
    assert r == Upsert(t, codes[i], parsed[codes[i]], ids[DrawnBefore(t, codes, i)], stamp);
  }

  lemma UpsertIdsDiffer(t: map<string, Customer>, codes: seq<string>, parsed: map<string, LedgerFields>,
                        ids: seq<string>, stamp: string, i: int, j: int)
    requires ResolverInputs(t, codes, parsed, ids) && 0 <= i < j < |codes|
    ensures Upserts(t, codes, parsed, ids, stamp)[i].id != Upserts(t, codes, parsed, ids, stamp)[j].id
  {
    UpsertId(t, codes, parsed, ids, stamp, i);
    UpsertId(t, codes, parsed, ids, stamp, j);
    if Unknown(t, codes[i]) && Unknown(t, codes[j]) {
      assert UnknownIn(t)(codes[i]);
      FilterGrows(codes, i, j, UnknownIn(t));
    }
  }

  /** Owners of distinct codes are distinct, and drawn ids are distinct
      from each other and from stored keys: no two upserts share an id. */
  lemma UpsertIdsDistinct(t: map<string, Customer>, codes: seq<string>, parsed: map<string, LedgerFields>,
                          ids: seq<string>, stamp: string)
    requires ResolverInputs(t, codes, parsed, ids)
    ensures var rs := Upserts(t, codes, parsed, ids, stamp);
      forall i, j :: 0 <= i < j < |rs| ==> rs[i].id != rs[j].id
  {
    var rs := Upserts(t, codes, parsed, ids, stamp);
    forall i, j | 0 <= i < j < |rs| ensures rs[i].id != rs[j].id {
      UpsertIdsDiffer(t, codes, parsed, ids, stamp, i, j);
    }
  }

  /** Every upsert ends up stored under its id. */
  lemma UpsertsStored(t: map<string, Customer>, codes: seq<string>, parsed: map<string, LedgerFields>,
                      ids: seq<string>, stamp: string, i: int)
    requires ResolverInputs(t, codes, parsed, ids) && 0 <= i < |codes|
    ensures var rs := Upserts(t, codes, parsed, ids, stamp);
      PutAll(t, rs, CustomerKey)[rs[i].id] == rs[i]
  {
    UpsertIdsDistinct(t, codes, parsed, ids, stamp);
    PutAllStores(t, Upserts(t, codes, parsed, ids, stamp), CustomerKey, i);
  }

  /** A stored customer keeps its id, creation time and CRM properties;
      only its ledger part follows the parse. */
  lemma StoredRelinked(t: map<string, Customer>, codes: seq<string>, parsed: map<string, LedgerFields>,
                       ids: seq<string>, stamp: string, k: string)
    requires ResolverInputs(t, codes, parsed, ids) && k in t
    ensures var t' := PutAll(t, Upserts(t, codes, parsed, ids, stamp), CustomerKey);
      k in t' && t'[k] == t[k].(ledger := Relinked(t[k].ledger, parsed))
  {
    var l := t[k].ledger;
    if l.currentCode.Some? && l.currentCode.value in parsed {
      StoredParsed(t, codes, parsed, ids, stamp, k);
    } else {
      StoredUnparsed(t, codes, parsed, ids, stamp, k);
      assert t[k].(ledger := l) == t[k];
    }
  }

  /** A stored customer whose code was parsed takes the parsed ledger part. */
  lemma StoredParsed(t: map<string, Customer>, codes: seq<string>, parsed: map<string, LedgerFields>,
                     ids: seq<string>, stamp: string, k: string)
    requires ResolverInputs(t, codes, parsed, ids) && k in t
    requires t[k].ledger.currentCode.Some? && t[k].ledger.currentCode.value in parsed
    ensures var t' := PutAll(t, Upserts(t, codes, parsed, ids, stamp), CustomerKey);
      k in t' && t'[k] == t[k].(ledger := parsed[t[k].ledger.currentCode.value])
  {
    var c := t[k].ledger.currentCode.value;
    var i :| 0 <= i < |codes| && codes[i] == c;
    assert CodeOwner(t, c) == Some(k);
    UpsertAt(t, codes, parsed, ids, stamp, i);
    UpsertsStored(t, codes, parsed, ids, stamp, i);
  }

  /** Element `i` of the upserts is the upsert of code `i`. */
  lemma UpsertAt(t: map<string, Customer>, codes: seq<string>, parsed: map<string, LedgerFields>,
                 ids: seq<string>, stamp: string, i: int)
    requires ResolverInputs(t, codes, parsed, ids) && 0 <= i < |codes|
    ensures Upserts(t, codes, parsed, ids, stamp)[i]
         == Upsert(t, codes[i], parsed[codes[i]], ids[DrawnBefore(t, codes, i)], stamp)
  {
  }

  /** A stored customer whose code was not parsed is left as it was. */
  lemma StoredUnparsed(t: map<string, Customer>, codes: seq<string>, parsed: map<string, LedgerFields>,
                       ids: seq<string>, stamp: string, k: string)
    requires ResolverInputs(t, codes, parsed, ids) && k in t
    requires t[k].ledger.currentCode.None? || t[k].ledger.currentCode.value !in parsed
    ensures var t' := PutAll(t, Upserts(t, codes, parsed, ids, stamp), CustomerKey);
      k in t' && t'[k] == t[k]
  {
    var rs := Upserts(t, codes, parsed, ids, stamp);
    forall i | 0 <= i < |rs| ensures CustomerKey(rs[i]) != k {
      UpsertId(t, codes, parsed, ids, stamp, i);
    }
    PutAllKeeps(t, rs, CustomerKey, k);
  }

  /** The upsert of an unknown code is a new customer with the next
      drawn id, created now, with no CRM properties. */
  lemma UpsertNew(t: map<string, Customer>, codes: seq<string>, parsed: map<string, LedgerFields>,
                  ids: seq<string>, stamp: string, i: int)
    requires ResolverInputs(t, codes, parsed, ids)
    requires 0 <= i < |codes| && Unknown(t, codes[i])
    ensures Upserts(t, codes, parsed, ids, stamp)[i]
            == Customer(ids[DrawnBefore(t, codes, i)], stamp, parsed[codes[i]], NoCrmFields)
  {
    assert CodeOwner(t, codes[i]).None?;
  }

  /** A key the upsert added belongs to a new customer of a code the store
      did not know, created now with a drawn id. */
  lemma AddedKeyNew(t: map<string, Customer>, codes: seq<string>, parsed: map<string, LedgerFields>,
                    ids: seq<string>, stamp: string, k: string) returns (i: int)
    requires ResolverInputs(t, codes, parsed, ids)
    requires k in PutAll(t, Upserts(t, codes, parsed, ids, stamp), CustomerKey) && k !in t
    ensures 0 <= i < |codes| && Unknown(t, codes[i]) && k == ids[DrawnBefore(t, codes, i)]
    ensures PutAll(t, Upserts(t, codes, parsed, ids, stamp), CustomerKey)[k]
            == Customer(k, stamp, parsed[codes[i]], NoCrmFields)
  {
    var rs := Upserts(t, codes, parsed, ids, stamp);
    assert k in KeysOf(rs, CustomerKey);
    i :| 0 <= i < |rs| && CustomerKey(rs[i]) == k;
    UpsertId(t, codes, parsed, ids, stamp, i);
    UpsertNew(t, codes, parsed, ids, stamp, i);
    UpsertsStored(t, codes, parsed, ids, stamp, i);
  }

  /** The ledger code a key carries after the upsert: unchanged for a
      stored key, a code the store did not know for an added one. */
  lemma CodeAfter(t: map<string, Customer>, codes: seq<string>, parsed: map<string, LedgerFields>,
                  ids: seq<string>, stamp: string, k: string) returns (i: int)
    requires ResolverInputs(t, codes, parsed, ids)
    requires k in PutAll(t, Upserts(t, codes, parsed, ids, stamp), CustomerKey)
    ensures k in t ==>
      PutAll(t, Upserts(t, codes, parsed, ids, stamp), CustomerKey)[k].ledger.currentCode == t[k].ledger.currentCode
    ensures k !in t ==>
              && 0 <= i < |codes| && Unknown(t, codes[i]) && k == ids[DrawnBefore(t, codes, i)]
              && PutAll(t, Upserts(t, codes, parsed, ids, stamp), CustomerKey)[k].ledger.currentCode == Some(codes[i])
  {
    if k in t {
      StoredRelinked(t, codes, parsed, ids, stamp, k);
      i := 0;
    } else {
      i := AddedKeyNew(t, codes, parsed, ids, stamp, k);
    }
  }

  lemma CodesDiffer(t: map<string, Customer>, codes: seq<string>, parsed: map<string, LedgerFields>,
                    ids: seq<string>, stamp: string, a: string, b: string)
    requires ResolverInputs(t, codes, parsed, ids)
    requires var t' := PutAll(t, Upserts(t, codes, parsed, ids, stamp), CustomerKey);
      a in t' && b in t' && a != b && t'[a].ledger.currentCode.Some?
    ensures var t' := PutAll(t, Upserts(t, codes, parsed, ids, stamp), CustomerKey);
      t'[a].ledger.currentCode != t'[b].ledger.currentCode
  {
    var t' := PutAll(t, Upserts(t, codes, parsed, ids, stamp), CustomerKey);
    var i := CodeAfter(t, codes, parsed, ids, stamp, a);
    var j := CodeAfter(t, codes, parsed, ids, stamp, b);
    if a in t && b in t {
      assert t[a].ledger.currentCode != t[b].ledger.currentCode;
    } else if a in t {
      assert t[a].ledger.currentCode != Some(codes[j]);
    } else if b in t {
      assert t[b].ledger.currentCode != Some(codes[i]);
    } else {
      assert i != j;
    }
  }

  /** The upsert keeps the table keyed and its codes unique, so the unique
      index accepts it. */
  lemma UpsertsValid(t: map<string, Customer>, codes: seq<string>, parsed: map<string, LedgerFields>,
                     ids: seq<string>, stamp: string)
    requires ResolverInputs(t, codes, parsed, ids)
    ensures var t' := PutAll(t, Upserts(t, codes, parsed, ids, stamp), CustomerKey);
      Keyed(t', CustomerKey) && UniqueCodes(t')
  {
    var t' := PutAll(t, Upserts(t, codes, parsed, ids, stamp), CustomerKey);
    PutAllKeyed(t, Upserts(t, codes, parsed, ids, stamp), CustomerKey);
    forall a, b | a in t' && b in t' && a != b && t'[a].ledger.currentCode.Some?
      ensures t'[a].ledger.currentCode != t'[b].ledger.currentCode
    {
      CodesDiffer(t, codes, parsed, ids, stamp, a, b);
    }
  }

  /** `where('currentCode').anyOf(codes)` read back after the write, as a
      code-to-id map. */
  function CodeMap(t: map<string, Customer>, parsed: map<string, LedgerFields>): (m: map<string, string>)
    requires UniqueCodes(t)
    ensures m.Keys <= parsed.Keys
    ensures forall c :: c in m ==> m[c] in t && t[m[c]].ledger.currentCode == Some(c)
    ensures forall c :: c in parsed && !Unknown(t, c) ==> c in m
  {
    map c | c in parsed && CodeOwner(t, c).Some? :: CodeOwner(t, c).value
  }

  /** After the upsert, each parsed code is carried by exactly one
      customer, the one holding the parsed ledger properties. */
  lemma ResolvedCode(t: map<string, Customer>, codes: seq<string>, parsed: map<string, LedgerFields>,
                     ids: seq<string>, stamp: string, c: string)
    requires ResolverInputs(t, codes, parsed, ids) && c in parsed
    ensures var t' := PutAll(t, Upserts(t, codes, parsed, ids, stamp), CustomerKey);
      UniqueCodes(t') && c in CodeMap(t', parsed) && t'[CodeMap(t', parsed)[c]].ledger == parsed[c]
  {
    var rs := Upserts(t, codes, parsed, ids, stamp);
    var t' := PutAll(t, rs, CustomerKey);
    UpsertsValid(t, codes, parsed, ids, stamp);
    var i :| 0 <= i < |codes| && codes[i] == c;
    UpsertCarries(t, codes, parsed, ids, stamp, i);
    CodeMapAt(t', parsed, c, rs[i].id);
  }

  /** Upsert `i` is stored under its id and carries the parsed ledger
      part of code `i`. */
  lemma UpsertCarries(t: map<string, Customer>, codes: seq<string>, parsed: map<string, LedgerFields>,
                      ids: seq<string>, stamp: string, i: int)
    requires ResolverInputs(t, codes, parsed, ids) && 0 <= i < |codes|
    ensures var rs := Upserts(t, codes, parsed, ids, stamp);
      var t' := PutAll(t, rs, CustomerKey);
      rs[i].id in t' && t'[rs[i].id].ledger == parsed[codes[i]]
  {
    UpsertLedger(t, codes, parsed, ids, stamp, i);
    UpsertsStored(t, codes, parsed, ids, stamp, i);
  }

  /** The code-to-id map sends a parsed code to the customer carrying it. */
  lemma CodeMapAt(t: map<string, Customer>, parsed: map<string, LedgerFields>, c: string, k: string)
    requires UniqueCodes(t) && c in parsed && parsed[c].currentCode == Some(c)
    requires k in t && t[k].ledger == parsed[c]
    ensures c in CodeMap(t, parsed) && t[CodeMap(t, parsed)[c]].ledger == parsed[c]
  {
    assert !Unknown(t, c);
  }

  lemma UpsertLedger(t: map<string, Customer>, codes: seq<string>, parsed: map<string, LedgerFields>,
                     ids: seq<string>, stamp: string, i: int)
    requires ResolverInputs(t, codes, parsed, ids) && 0 <= i < |codes|
    ensures Upserts(t, codes, parsed, ids, stamp)[i].ledger == parsed[codes[i]]
  {
    assert Upserts(t, codes, parsed, ids, stamp)[i]
        == Upsert(t, codes[i], parsed[codes[i]], ids[DrawnBefore(t, codes, i)], stamp);
  }

  /** The code-to-id map read back after the upsert covers every parsed
      code... */
  lemma CodeMapCovers(t: map<string, Customer>, codes: seq<string>, parsed: map<string, LedgerFields>,
                      ids: seq<string>, stamp: string)
    requires ResolverInputs(t, codes, parsed, ids)
    ensures var t' := PutAll(t, Upserts(t, codes, parsed, ids, stamp), CustomerKey);
      UniqueCodes(t') && CodeMap(t', parsed).Keys == parsed.Keys
  {
    var t' := PutAll(t, Upserts(t, codes, parsed, ids, stamp), CustomerKey);
    UpsertsValid(t, codes, parsed, ids, stamp);
    forall c | c in parsed ensures c in CodeMap(t', parsed) {
      ResolvedCode(t, codes, parsed, ids, stamp, c);
    }
    SameKeys(CodeMap(t', parsed), parsed);
  }

  lemma SameKeys<A, B>(m: map<string, A>, n: map<string, B>)
    requires m.Keys <= n.Keys && forall c :: c in n ==> c in m
    ensures m.Keys == n.Keys
  {
  }

  /** ... and sends it to the customer holding its parsed properties. */
  lemma CodeMapLinks(t: map<string, Customer>, codes: seq<string>, parsed: map<string, LedgerFields>,
                     ids: seq<string>, stamp: string)
    requires ResolverInputs(t, codes, parsed, ids)
    ensures var t' := PutAll(t, Upserts(t, codes, parsed, ids, stamp), CustomerKey);
      && UniqueCodes(t')
      && (forall c :: c in CodeMap(t', parsed) ==> t'[CodeMap(t', parsed)[c]].ledger == parsed[c])
  {
    var t' := PutAll(t, Upserts(t, codes, parsed, ids, stamp), CustomerKey);
    UpsertsValid(t, codes, parsed, ids, stamp);
    forall c | c in CodeMap(t', parsed) ensures t'[CodeMap(t', parsed)[c]].ledger == parsed[c] {
      ResolvedCode(t, codes, parsed, ids, stamp, c);
    }
  }

  /** Merge keeps identity: every stored customer stays, with its id,
      creation time and CRM properties; only its ledger part follows the
      parse. */
  lemma StoredAllRelinked(t: map<string, Customer>, codes: seq<string>, parsed: map<string, LedgerFields>,
                          ids: seq<string>, stamp: string)
    requires ResolverInputs(t, codes, parsed, ids)
    ensures var t' := PutAll(t, Upserts(t, codes, parsed, ids, stamp), CustomerKey);
      forall k :: k in t ==> k in t' && t'[k] == t[k].(ledger := Relinked(t[k].ledger, parsed))
  {
    forall k | k in t
      ensures var t' := PutAll(t, Upserts(t, codes, parsed, ids, stamp), CustomerKey);
        k in t' && t'[k] == t[k].(ledger := Relinked(t[k].ledger, parsed))
    {
      StoredRelinked(t, codes, parsed, ids, stamp, k);
    }
  }

  /** Every key of `after` missing from `before` is a drawn id holding a
      customer created at `stamp` with no CRM properties. */
  predicate CreatedNew(before: map<string, Customer>, after: map<string, Customer>, ids: seq<string>, stamp: string) {
    forall k :: k in after && k !in before ==> k in ids && after[k].createdAt == stamp && after[k].crm == NoCrmFields
  }

  /** Every key the upsert adds is a drawn id holding a customer created
      now with no CRM properties. */
  lemma AddedAllNew(t: map<string, Customer>, codes: seq<string>, parsed: map<string, LedgerFields>,
                    ids: seq<string>, stamp: string)
    requires ResolverInputs(t, codes, parsed, ids)
    ensures CreatedNew(t, PutAll(t, Upserts(t, codes, parsed, ids, stamp), CustomerKey), ids, stamp)
  {
    var t' := PutAll(t, Upserts(t, codes, parsed, ids, stamp), CustomerKey);
    forall k | k in t' && k !in t ensures k in ids && t'[k].createdAt == stamp && t'[k].crm == NoCrmFields {
      var i := AddedKeyNew(t, codes, parsed, ids, stamp, k);
    }
  }

  /** The resolver's counters: every parsed code is counted once, as added
      when the store did not know it and as updated otherwise. */
  lemma Counted(t: map<string, Customer>, codes: seq<string>, parsed: map<string, LedgerFields>)
    requires forall c :: c in parsed <==> c in codes
    ensures |Filter(codes, UnknownIn(t))| + |Filter(codes, KnownIn(t))| == |codes|
    ensures |Filter(codes, UnknownIn(t))| == 0 <==> forall c :: c in parsed ==> !Unknown(t, c)
  {
    FilterPartition(codes, UnknownIn(t), KnownIn(t));
    FilterEmpty(codes, UnknownIn(t));
  }

  /** `customerMap.get(code)` is truthy: the code resolves to a non-empty
      customer id. */
  predicate Resolves(cmap: map<string, string>, code: string) {
    code in cmap && cmap[code] != ""
  }

  /** What `_syncCustomersFromCSV` hands back. */
  datatype Resolution = Resolution(
    customers: map<string, Customer>, cache: Option<Parsed>,
    added: nat, updated: nat, total: nat, customerMap: map<string, string>)

  /** What a result of `fetchErpCsvData` guarantees the syncs: a proper
      code-keyed customer map whose invoices all link to its customers. */
  ghost predicate Fetched(feed: Parse) {
    WellFormed(feed.result.codes, feed.result.customers, feed.result.invoices)
  }

  /** Every fetch result is one the syncs accept, with no more customers
      than the export has characters. */
  lemma FetchedFeed(source: Source, now: Instant)
    ensures Fetched(FetchErpCsvData(source, now.date))
    ensures |FetchErpCsvData(source, now.date).result.codes| <= |source.csv|
  {
  }

  /** What the resolver runs on: a valid store, a fetch result, and unused
      ids enough for every parsed code. */
  ghost predicate Ready(db: Db, feed: Parse, ids: seq<string>) {
    Valid(db) && FreshIds(ids, db.customers) && Fetched(feed) && |feed.result.codes| <= |ids|
  }

  /** A fetch result meets the resolver's demands on the store it upserts
      into. */
  lemma FeedInputs(db: Db, feed: Parse, ids: seq<string>)
    requires Ready(db, feed, ids)
    ensures ResolverInputs(db.customers, feed.result.codes, feed.result.customers, ids)
  {
  }

  /** The resolver over a given parse: upsert by ledger code, count the
      new and the known codes, and read back the code-to-id map. */
  function Resolve(t: map<string, Customer>, p: Parsed, cache: Option<Parsed>, ids: seq<string>, stamp: string)
    : (r: Resolution)
    requires ResolverInputs(t, p.codes, p.customers, ids)
    ensures Keyed(r.customers, CustomerKey) && UniqueCodes(r.customers)
    ensures r.cache == cache
    ensures r.total == |p.codes| == r.added + r.updated
  {
    var t' := PutAll(t, Upserts(t, p.codes, p.customers, ids, stamp), CustomerKey);
    UpsertsValid(t, p.codes, p.customers, ids, stamp);
    Counted(t, p.codes, p.customers);
    Resolution(t', cache, |Filter(p.codes, UnknownIn(t))|, |Filter(p.codes, KnownIn(t))|, |p.codes|,
               CodeMap(t', p.customers))
  }

  /** `_syncCustomersFromCSV`: upsert the fetched customers by ledger code,
      and read back the code-to-id map. */
  function ResolveCustomers(db: Db, feed: Parse, now: Instant, ids: seq<string>): (r: Resolution)
    requires Ready(db, feed, ids)
    ensures Valid(db.(customers := r.customers))
    ensures r.cache == feed.cache
    ensures r.total == |feed.result.codes| == r.added + r.updated
  {
    FeedInputs(db, feed, ids);
    Resolve(db.customers, feed.result, feed.cache, ids, IsoString(now))
  }

  /** The resolver reports no additions exactly when every parsed code is
      already carried by a stored customer. */
  lemma ResolverAddsNothing(db: Db, feed: Parse, now: Instant, ids: seq<string>)
    requires Ready(db, feed, ids)
    ensures ResolveCustomers(db, feed, now, ids).added == 0
        <==> forall c :: c in feed.result.customers ==> !Unknown(db.customers, c)
  {
    FeedInputs(db, feed, ids);
    Counted(db.customers, feed.result.codes, feed.result.customers);
  }

  /** The code-to-id map covers exactly the parsed codes, and sends each
      to the customer now holding that code's parsed properties. */
  lemma ResolverLinks(db: Db, feed: Parse, now: Instant, ids: seq<string>)
    requires Ready(db, feed, ids)
    ensures var r := ResolveCustomers(db, feed, now, ids);
      && r.customerMap.Keys == feed.result.customers.Keys
      && forall c :: c in r.customerMap ==>
           r.customerMap[c] in r.customers && r.customers[r.customerMap[c]].ledger == feed.result.customers[c]
  {
    var p := feed.result;
    FeedInputs(db, feed, ids);
    CodeMapCovers(db.customers, p.codes, p.customers, ids, IsoString(now));
    CodeMapLinks(db.customers, p.codes, p.customers, ids, IsoString(now));
  }

  /** `{...existing, ...parsed}` keeps every stored customer under its id
      with its creation time and CRM properties; only the ledger part of
      a customer whose code was parsed changes, to the parsed values. */
  lemma ResolverMerges(db: Db, feed: Parse, now: Instant, ids: seq<string>)
    requires Ready(db, feed, ids)
    ensures var r := ResolveCustomers(db, feed, now, ids);
      forall k :: k in db.customers ==>
        k in r.customers && r.customers[k] == db.customers[k].(ledger := Relinked(db.customers[k].ledger, feed.result.customers))
  {
    var p := feed.result;
    FeedInputs(db, feed, ids);
    StoredAllRelinked(db.customers, p.codes, p.customers, ids, IsoString(now));
  }

  /** A customer the resolver adds has a drawn id, was created now, and
      has no CRM properties. */
  lemma ResolverCreates(db: Db, feed: Parse, now: Instant, ids: seq<string>)
    requires Ready(db, feed, ids)
    ensures CreatedNew(db.customers, ResolveCustomers(db, feed, now, ids).customers, ids, IsoString(now))
  {
    var p := feed.result;
    FeedInputs(db, feed, ids);
    AddedAllNew(db.customers, p.codes, p.customers, ids, IsoString(now));
  }

  /** The code-to-id map is read back from the table the resolver wrote. */
  lemma ResolverReadsBack(db: Db, feed: Parse, now: Instant, ids: seq<string>)
    requires Ready(db, feed, ids)
    ensures var r := ResolveCustomers(db, feed, now, ids);
      UniqueCodes(r.customers) && r.customerMap == CodeMap(r.customers, feed.result.customers)
  {
  }

  /** A code already carried before the upsert keeps its owner. */
  lemma OwnerStable(t: map<string, Customer>, codes: seq<string>, parsed: map<string, LedgerFields>,
                    ids: seq<string>, stamp: string, c: string)
    requires ResolverInputs(t, codes, parsed, ids) && c in parsed && !Unknown(t, c)
    ensures var t' := PutAll(t, Upserts(t, codes, parsed, ids, stamp), CustomerKey);
      UniqueCodes(t') && CodeOwner(t', c) == CodeOwner(t, c)
  {
    var t' := PutAll(t, Upserts(t, codes, parsed, ids, stamp), CustomerKey);
    UpsertsValid(t, codes, parsed, ids, stamp);
    var k := CodeOwner(t, c).value;
    StoredRelinked(t, codes, parsed, ids, stamp, k);
    assert t'[k].ledger.currentCode == Some(c);
  }

  /** When the store already carries every parsed code, the upsert moves
      no code: the map read back is the one the store held before. */
  lemma UpsertsKeepOwners(t: map<string, Customer>, codes: seq<string>, parsed: map<string, LedgerFields>,
                          ids: seq<string>, stamp: string)
    requires ResolverInputs(t, codes, parsed, ids)
    requires forall c :: c in parsed ==> !Unknown(t, c)
    ensures var t' := PutAll(t, Upserts(t, codes, parsed, ids, stamp), CustomerKey);
      UniqueCodes(t') && CodeMap(t', parsed) == CodeMap(t, parsed)
  {
    var t' := PutAll(t, Upserts(t, codes, parsed, ids, stamp), CustomerKey);
    UpsertsValid(t, codes, parsed, ids, stamp);
    forall c | c in parsed ensures CodeOwner(t', c) == CodeOwner(t, c) {
      OwnerStable(t, codes, parsed, ids, stamp, c);
    }
    SameOwners(t, t', parsed);
  }

  lemma SameOwners(t: map<string, Customer>, t': map<string, Customer>, parsed: map<string, LedgerFields>)
    requires UniqueCodes(t) && UniqueCodes(t')
    requires forall c :: c in parsed ==> CodeOwner(t', c) == CodeOwner(t, c)
    ensures CodeMap(t', parsed) == CodeMap(t, parsed)
  {
  }

  /** A resolver run over a store that already carries every parsed code
      reads back the code-to-id map that store held. */
  lemma ResolverKeepsMap(db: Db, feed: Parse, now: Instant, ids: seq<string>)
    requires Ready(db, feed, ids)
    requires forall c :: c in feed.result.customers ==> !Unknown(db.customers, c)
    ensures ResolveCustomers(db, feed, now, ids).customerMap == CodeMap(db.customers, feed.result.customers)
  {
    var p := feed.result;
    FeedInputs(db, feed, ids);
    UpsertsKeepOwners(db.customers, p.codes, p.customers, ids, IsoString(now));
  }

  /** After a resolver run the store carries every parsed code. */
  lemma ResolverKnowsAll(db: Db, feed: Parse, now: Instant, ids: seq<string>)
    requires Ready(db, feed, ids)
    ensures forall c :: c in feed.result.customers ==> !Unknown(ResolveCustomers(db, feed, now, ids).customers, c)
  {
    var r := ResolveCustomers(db, feed, now, ids);
    ResolverLinks(db, feed, now, ids);
    ResolverReadsBack(db, feed, now, ids);
    forall c | c in feed.result.customers ensures !Unknown(r.customers, c) {
      assert r.customers[r.customerMap[c]].ledger.currentCode == Some(c);
    }
  }

  /** Two fetches of one export: they differ at most in fallback invoice
      dates. */
  predicate SameFeed(a: Parse, b: Parse) {
    && a.result.codes == b.result.codes && a.result.customers == b.result.customers
    && SameButDates(a.result.invoices, b.result.invoices) && a.result.offers == b.result.offers
  }

  /** The parse depends on the clock only through fallback invoice dates. */
  lemma FeedStable(source: Source, now: Instant, later: Instant)
    ensures SameFeed(FetchErpCsvData(source, now.date), FetchErpCsvData(source, later.date))
  {
    FetchDates(source, now.date, later.date);
  }

  // ---------------------------------------------------------------------
  // Syncs

  /** `syncCustomers`: resolve, then stamp `lastSyncCustomers`. Reports
      every parsed customer as fetched. */
  function SyncCustomers(st: Erp, feed: Parse, now: Instant, ids: seq<string>): (o: Outcome)
    requires Ready(st.db, feed, ids)
    ensures Valid(o.state.db)
    ensures o.state.db.(customers := st.db.customers, erpSettings := st.db.erpSettings) == st.db
    ensures o.result.Success? <==> st.db.erpSettings.Some?
  {
    var r := ResolveCustomers(st.db, feed, now, ids);
    Finish(st.db.(customers := r.customers), r.cache, CustomersSynced, now,
           SyncResult("Müşteri", r.total, r.added, r.updated))
  }

  /** `syncCustomers` reports every parsed customer as fetched, each one
      either added or updated, and stamps `lastSyncCustomers` with now. */
  lemma SyncCustomersReport(st: Erp, feed: Parse, now: Instant, ids: seq<string>)
    requires Ready(st.db, feed, ids)
    ensures var o := SyncCustomers(st, feed, now, ids);
      o.result.Success? ==>
        && o.result.value.kind == "Müşteri"
        && o.result.value.fetched == |feed.result.customers|
        && o.result.value.fetched == o.result.value.added + o.result.value.updated
        && o.state.db.erpSettings == Some(Stamped(st.db.erpSettings.value, CustomersSynced, IsoString(now)))
  {
    WellFormedCount(feed.result);
  }

  /** A parse's customer map has one entry per code. */
  lemma WellFormedCount(p: Parsed)
    requires WellFormed(p.codes, p.customers, p.invoices)
    ensures |p.customers| == |p.codes|
  {
    DistinctCardinality(p.codes);
    assert p.customers.Keys == set i | 0 <= i < |p.codes| :: p.codes[i];
  }

  /** Running `syncCustomers` again over a fetch of the same export adds no
      customer: every parsed code found its customer in the first run. */
  lemma ResyncCustomersAddsNothing(st: Erp, feed: Parse, now: Instant, ids: seq<string>,
                                   feed2: Parse, later: Instant, again: seq<string>)
    requires Ready(st.db, feed, ids)
    requires SyncCustomers(st, feed, now, ids).result.Success?
    requires Ready(SyncCustomers(st, feed, now, ids).state.db, feed2, again) && SameFeed(feed, feed2)
    ensures var o := SyncCustomers(SyncCustomers(st, feed, now, ids).state, feed2, later, again);
      o.result.Success? && o.result.value.added == 0
  {
    var st' := SyncCustomers(st, feed, now, ids).state;
    ResolverKnowsAll(st.db, feed, now, ids);
    ResolverAddsNothing(st'.db, feed2, later, again);
  }

  /** A second resolver run over a fetch of the same export, on the store
      the first one left, reads back the same code-to-id map. */
  lemma ResyncSameMap(db: Db, feed: Parse, now: Instant, ids: seq<string>,
                      db1: Db, feed2: Parse, later: Instant, again: seq<string>)
    requires Ready(db, feed, ids)
    requires db1.customers == ResolveCustomers(db, feed, now, ids).customers
    requires Ready(db1, feed2, again) && SameFeed(feed, feed2)
    ensures ResolveCustomers(db1, feed2, later, again).customerMap == ResolveCustomers(db, feed, now, ids).customerMap
  {
    ResolverKnowsAll(db, feed, now, ids);
    ResolverReadsBack(db, feed, now, ids);
    ResolverKeepsMap(db1, feed2, later, again);
  }

  /** `syncStock`: not implemented; reports nothing and changes nothing. */
  function SyncStock(st: Erp): (o: Outcome)
    ensures o.state == st
    ensures o.result == Success(SyncResult("Stok", 0, 0, 0))
  {
    Outcome(st, Success(SyncResult("Stok", 0, 0, 0)))
  }
}
