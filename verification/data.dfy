/** Customer and offer records as contexts/DataContext.tsx writes them:
    single adds with a drawn id and a creation stamp, wholesale update and
    delete by key, the import that skips customers already known by e-mail
    or name, and the offer number drawn from the clock. */
module Data {
  import opened Wrappers
  import opened Text
  import opened Calendar
  import opened Records
  import opened Store
  import opened Seqs

  // ---------------------------------------------------------------------
  // Customers

  /** A customer draft stored under `id` and stamped `stamp`. */
  function CustomerOf(d: CustomerDraft, id: string, stamp: string): Customer {
    Customer(id, stamp, d.ledger, d.crm)
  }

  /** The draft part of a stored customer: everything but `id` and `createdAt`. */
  function DraftOf(c: Customer): CustomerDraft {
    CustomerDraft(c.ledger, c.crm)
  }

  /** Some stored customer already carries this present ledger code. */
  predicate CodeInUse(t: map<string, Customer>, code: Option<string>) {
    code.Some? && exists k :: k in t && t[k].ledger.currentCode == code
  }

  /** `addCustomer(data)`: the draft under the id drawn for it, created now;
      `add` rejects a taken key or a ledger code already held. Returns the
      new id. */
  function AddCustomer(t: map<string, Customer>, d: CustomerDraft, id: string, now: Instant)
    : (r: Result<(map<string, Customer>, string), StoreError>)
    ensures r.Success? <==> id !in t && !CodeInUse(t, d.ledger.currentCode)
    ensures r.Failure? ==> r.error == (if id in t then KeyTaken else UniqueViolated)
    ensures r.Success? ==> r.value.1 == id && r.value.0.Keys == t.Keys + {id}
    ensures r.Success? ==> forall k :: k in t ==> r.value.0[k] == t[k]
    ensures r.Success? ==>
              var c := r.value.0[id];
              c.id == id && c.createdAt == IsoString(now) && DraftOf(c) == d
    ensures r.Success? && UniqueCodes(t) ==> UniqueCodes(r.value.0)
  {
    var c := CustomerOf(d, id, IsoString(now));
    match AddCustomerRecord(t, c)
    case Success(t') => Success((t', id))
    case Failure(e) => Failure(e)
  }

  /** `updateCustomer(c)` (`put`): the record under `c.id` becomes `c`
      exactly, whatever it held before; rejected only when another
      customer holds `c`'s ledger code. */
  function UpdateCustomer(t: map<string, Customer>, c: Customer): (r: Result<map<string, Customer>, StoreError>)
    ensures r.Success? <==> !CodeTaken(t, c)
    ensures r.Failure? ==> r.error == UniqueViolated
    ensures r.Success? ==> r.value.Keys == t.Keys + {c.id} && r.value[c.id] == c
    ensures r.Success? ==> forall k :: k in t && k != c.id ==> r.value[k] == t[k]
    ensures r.Success? && UniqueCodes(t) ==> UniqueCodes(r.value)
    ensures r.Success? && Keyed(t, CustomerKey) ==> Keyed(r.value, CustomerKey)
  {
    PutCustomerRecord(t, c)
  }

  /** `deleteCustomer(id)`: that record is gone, every other one stays. */
  function DeleteCustomer(t: map<string, Customer>, id: string): (r: map<string, Customer>)
    ensures r.Keys == t.Keys - {id}
    ensures forall k :: k in r ==> r[k] == t[k]
    ensures UniqueCodes(t) ==> UniqueCodes(r)
    ensures Keyed(t, CustomerKey) ==> Keyed(r, CustomerKey)
  {
    t - {id}
  }

  function CustomerCreatedAt(c: Customer): string { c.createdAt }

  /** `orderBy('createdAt').reverse()`: every stored customer, newest first. */
  function CustomerListing(t: map<string, Customer>): (cs: seq<Customer>)
    ensures |cs| == |t|
    ensures forall i :: 0 <= i < |cs| ==> cs[i] in t.Values
    ensures forall i, j :: 0 <= i < j < |cs| ==> !StrLt(cs[i].createdAt, cs[j].createdAt)
  {
    ListDescending(t, CustomerCreatedAt)
  }

  // ---------------------------------------------------------------------
  // Import

  /** The lower-cased e-mails of the stored customers, without the empty
      ones (`filter(Boolean)`). */
  function KnownEmails(t: map<string, Customer>, lower: string -> string): set<string> {
    set k | k in t && t[k].crm.email.Some? && lower(t[k].crm.email.value) != "" :: lower(t[k].crm.email.value)
  }

  /** The lower-cased names of the stored customers. */
  function KnownNames(t: map<string, Customer>, lower: string -> string): set<string> {
    set k | k in t :: lower(t[k].ledger.name)
  }

  /** The import's duplicate test: a non-empty e-mail that is already known,
      or a name that is already known, both compared lower-cased. */
  predicate IsDuplicate(d: CustomerDraft, emails: set<string>, names: set<string>, lower: string -> string) {
    || (d.crm.email.Some? && d.crm.email.value != "" && lower(d.crm.email.value) in emails)
    || lower(d.ledger.name) in names
  }

  function NotDuplicateIn(emails: set<string>, names: set<string>, lower: string -> string): CustomerDraft -> bool {
    d => !IsDuplicate(d, emails, names, lower)
  }

  /** The drafts the import keeps: those that are not duplicates of the
      customers stored before the import started. */
  function Candidates(t: map<string, Customer>, drafts: seq<CustomerDraft>, lower: string -> string): seq<CustomerDraft> {
    Filter(drafts, NotDuplicateIn(KnownEmails(t, lower), KnownNames(t, lower), lower))
  }

  /** The kept drafts as records, each under the next drawn id. */
  function Numbered(kept: seq<CustomerDraft>, ids: seq<string>, stamp: string): (cs: seq<Customer>)
    requires |kept| <= |ids|
    ensures |cs| == |kept|
    ensures forall i :: 0 <= i < |cs| ==> cs[i] == CustomerOf(kept[i], ids[i], stamp)
  {
    seq(|kept|, i requires 0 <= i < |kept| => CustomerOf(kept[i], ids[i], stamp))
  }

  /** The table after an import, and what the call reports: the number of
      customers it meant to add, or the rejection `bulkAdd` raised. */
  datatype BulkOutcome = BulkOutcome(table: map<string, Customer>, result: Result<nat, StoreError>)

  /** Every customer in `t'` that `t` lacks was imported now. */
  predicate OnlyImported(t: map<string, Customer>, t': map<string, Customer>, now: Instant, lower: string -> string) {
    forall k :: k in t' && k !in t ==> t'[k].id == k && Imported(t, t'[k], now, lower)
  }

  /** A customer the import added: stamped now, and not a duplicate of any
      customer stored before the import. */
  predicate Imported(t: map<string, Customer>, c: Customer, now: Instant, lower: string -> string) {
    && c.createdAt == IsoString(now)
    && !IsDuplicate(DraftOf(c), KnownEmails(t, lower), KnownNames(t, lower), lower)
  }

  /** `bulkAddCustomers(drafts)`: the duplicate test runs against the store
      as it was before the import, not against the other drafts; the kept
      drafts are added with `bulkAdd`, which stores the ones the unique
      ledger-code index accepts and rejects the call if any was refused. */
  function BulkAddCustomers(t: map<string, Customer>, drafts: seq<CustomerDraft>, ids: seq<string>, now: Instant,
                            lower: string -> string): (r: BulkOutcome)
    requires FreshIds(ids, t) && |drafts| <= |ids|
    ensures Extends(t, r.table)
    ensures UniqueCodes(t) ==> UniqueCodes(r.table)
    ensures |r.table| <= |t| + |drafts|
    ensures r.result.Success? ==> r.result.value == |r.table| - |t|
    ensures OnlyImported(t, r.table, now, lower)
  {
    var kept := Candidates(t, drafts, lower);
    var cs := Numbered(kept, ids, IsoString(now));
    var added := AddCustomerRecords(t, cs);
    AddCustomerRecordsSound(t, cs);
    ImportedOnly(t, kept, ids, now, lower);
    BulkOutcome(added.0, if added.1 == 0 then Success(|cs|) else Failure(UniqueViolated))
  }

  lemma ImportedOnly(t: map<string, Customer>, kept: seq<CustomerDraft>, ids: seq<string>, now: Instant,
                     lower: string -> string)
    requires |kept| <= |ids|
    requires forall i :: 0 <= i < |kept| ==> !IsDuplicate(kept[i], KnownEmails(t, lower), KnownNames(t, lower), lower)
    ensures OnlyImported(t, AddCustomerRecords(t, Numbered(kept, ids, IsoString(now))).0, now, lower)
  {
    var cs := Numbered(kept, ids, IsoString(now));
    var t' := AddCustomerRecords(t, cs).0;
    forall k | k in t' && k !in t ensures t'[k].id == k && Imported(t, t'[k], now, lower) {
      var i := AddCustomerRecordsNew(t, cs, k);
      assert DraftOf(cs[i]) == kept[i];
    }
  }

  // ---------------------------------------------------------------------
  // Offers

  /** An offer draft stored under `id` with number `teklifNo`. */
  function OfferOf(d: OfferDraft, id: string, teklifNo: string, stamp: string): Offer {
    Offer(id, teklifNo, stamp, d.customerId, d.firma, d.teklifVeren, d.items, d.notlar,
          d.toplam, d.kdv, d.genelToplam, d.aiFollowUpEmail)
  }

  /** The draft part of a stored offer. */
  function OfferDraftOf(o: Offer): OfferDraft {
    OfferDraft(o.customerId, o.firma, o.teklifVeren, o.items, o.notlar, o.toplam, o.kdv, o.genelToplam,
               o.aiFollowUpEmail)
  }

  /** `'TEK-' + Date.now().toString().slice(-6)`: the prefix and the last
      six digits of the millisecond clock. */
  function OfferNumber(millis: nat): (no: string)
    ensures 5 <= |no| <= 10 && no[..4] == "TEK-"
  {
    "TEK-" + Suffix(Decimal(millis), 6)
  }

  /** `addOffer(data)`: the draft under the id drawn for it, numbered from
      the clock and created now; `add` rejects a taken key. */
  function AddOffer(t: map<string, Offer>, d: OfferDraft, id: string, now: Instant, millis: nat)
    : (r: Result<map<string, Offer>, StoreError>)
    ensures r.Success? <==> id !in t
    ensures r.Failure? ==> r.error == KeyTaken
    ensures r.Success? ==> r.value.Keys == t.Keys + {id} && forall k :: k in t ==> r.value[k] == t[k]
    ensures r.Success? ==>
              var o := r.value[id];
              && o.id == id && OfferDraftOf(o) == d && o.createdAt == IsoString(now)
              && o.teklifNo == OfferNumber(millis)
  {
    AddRecord(t, OfferKey, OfferOf(d, id, OfferNumber(millis), IsoString(now)))
  }

  /** The drafts as offers: the `i`th under the `i`th drawn id, its number
      the clock's digits followed by the `i`th random suffix. */
  function NumberedOffers(drafts: seq<OfferDraft>, ids: seq<string>, salts: seq<string>, stamp: string, millis: nat)
    : (os: seq<Offer>)
    requires |drafts| <= |ids| && |drafts| <= |salts|
    ensures |os| == |drafts|
    ensures forall i :: 0 <= i < |os| ==> os[i] == OfferOf(drafts[i], ids[i], OfferNumber(millis) + salts[i], stamp)
  {
    seq(|drafts|, i requires 0 <= i < |drafts| => OfferOf(drafts[i], ids[i], OfferNumber(millis) + salts[i], stamp))
  }

  /** `bulkAddOffers(drafts)`: every draft is added, none skipped, each
      under its own drawn id; the call reports how many drafts it was given. */
  function BulkAddOffers(t: map<string, Offer>, drafts: seq<OfferDraft>, ids: seq<string>, salts: seq<string>,
                         now: Instant, millis: nat): (r: (map<string, Offer>, nat))
    requires FreshIds(ids, t) && |drafts| <= |ids| && |drafts| <= |salts|
    ensures r.1 == |drafts|
    ensures |r.0| == |t| + |drafts|
    ensures Extends(t, r.0)
    ensures AllStored(t, r.0, drafts, ids, salts, millis)
  {
    var os := NumberedOffers(drafts, ids, salts, IsoString(now), millis);
    OffersAllStored(t, drafts, ids, salts, IsoString(now), millis);
    (PutAll(t, os, OfferKey), |drafts|)
  }

  /** The table holds, under `id`, the draft `d` numbered `no`. */
  predicate OfferStored(t: map<string, Offer>, id: string, d: OfferDraft, no: string) {
    id in t && t[id].id == id && OfferDraftOf(t[id]) == d && t[id].teklifNo == no
  }

  /** Each draft is new in `t'` under its drawn id, numbered from the clock
      and its random suffix. */
  predicate AllStored(t: map<string, Offer>, t': map<string, Offer>, drafts: seq<OfferDraft>, ids: seq<string>,
                      salts: seq<string>, millis: nat)
    requires |drafts| <= |ids| && |drafts| <= |salts|
  {
    forall i :: 0 <= i < |drafts| ==> ids[i] !in t && OfferStored(t', ids[i], drafts[i], OfferNumber(millis) + salts[i])
  }

  lemma OffersAllStored(t: map<string, Offer>, drafts: seq<OfferDraft>, ids: seq<string>, salts: seq<string>,
                        stamp: string, millis: nat)
    requires FreshIds(ids, t) && |drafts| <= |ids| && |drafts| <= |salts|
    ensures var t' := PutAll(t, NumberedOffers(drafts, ids, salts, stamp, millis), OfferKey);
            && |t'| == |t| + |drafts|
            && Extends(t, t') && AllStored(t, t', drafts, ids, salts, millis)
  {
    var os := NumberedOffers(drafts, ids, salts, stamp, millis);
    var t' := PutAll(t, os, OfferKey);
    var drawn := ids[..|os|];
    OfferKeys(os, drawn);
    OfferKeysFresh(t, ids, drawn);
    forall k | k in t ensures t'[k] == t[k] {
      PutAllKeeps(t, os, OfferKey, k);
    }
    forall i | 0 <= i < |drafts| ensures OfferStored(t', ids[i], drafts[i], OfferNumber(millis) + salts[i]) {
      assert OfferKey(os[i]) == ids[i];
      PutAllStores(t, os, OfferKey, i);
    }
  }

  /** The keys of a batch are the ids it was numbered with. */
  lemma OfferKeys(os: seq<Offer>, drawn: seq<string>)
    requires |os| == |drawn| && forall i :: 0 <= i < |os| ==> os[i].id == drawn[i]
    ensures KeysOf(os, OfferKey) == set i | 0 <= i < |drawn| :: drawn[i]
  {
    forall x | x in KeysOf(os, OfferKey) ensures x in set i | 0 <= i < |drawn| :: drawn[i] {
      var i :| 0 <= i < |os| && OfferKey(os[i]) == x;
      assert drawn[i] == x;
    }
  }

  /** Distinct fresh ids add as many keys as there are ids. */
  lemma OfferKeysFresh<R>(t: map<string, R>, ids: seq<string>, drawn: seq<string>)
    requires FreshIds(ids, t) && drawn <= ids
    ensures |t.Keys + set i | 0 <= i < |drawn| :: drawn[i]| == |t| + |drawn|
  {
    assert forall i :: 0 <= i < |drawn| ==> drawn[i] == ids[i];
    DistinctCardinality(drawn);
    var ks := set i | 0 <= i < |drawn| :: drawn[i];
    assert t.Keys !! ks;
  }

  // ---------------------------------------------------------------------
  // Properties

  /** Deleting the customer just added gives back the table as it was. */
  lemma DeleteUndoesAdd(t: map<string, Customer>, d: CustomerDraft, id: string, now: Instant)
    requires AddCustomer(t, d, id, now).Success?
    ensures DeleteCustomer(AddCustomer(t, d, id, now).value.0, id) == t
  {
  }

  /** Writing back a stored customer unchanged changes nothing. */
  lemma UpdateWithStoredIsNoop(t: map<string, Customer>, k: string)
    requires Keyed(t, CustomerKey) && UniqueCodes(t) && k in t
    ensures UpdateCustomer(t, t[k]) == Success(t)
  {
    assert !CodeTaken(t, t[k]);
    assert t[t[k].id := t[k]] == t;
  }

  /** Importing the same list again, after an import that went through,
      adds nothing: every draft is now known by name, if not by e-mail. */
  lemma {:induction false} ReimportAddsNothing(t: map<string, Customer>, drafts: seq<CustomerDraft>, ids: seq<string>,
                                               now: Instant, again: seq<string>, later: Instant, lower: string -> string)
    requires FreshIds(ids, t) && |drafts| <= |ids|
    requires BulkAddCustomers(t, drafts, ids, now, lower).result.Success?
    requires FreshIds(again, BulkAddCustomers(t, drafts, ids, now, lower).table) && |drafts| <= |again|
    ensures var t1 := BulkAddCustomers(t, drafts, ids, now, lower).table;
            BulkAddCustomers(t1, drafts, again, later, lower) == BulkOutcome(t1, Success(0))
  {
    var t1 := BulkAddCustomers(t, drafts, ids, now, lower).table;
    forall i | 0 <= i < |drafts| ensures IsDuplicate(drafts[i], KnownEmails(t1, lower), KnownNames(t1, lower), lower) {
      KnownAfterImport(t, drafts, ids, now, lower, i);
    }
    NothingKept(t1, drafts, again, later, lower);
  }

  /** After an import that went through, each of its drafts is a duplicate
      of a stored customer. */
  lemma KnownAfterImport(t: map<string, Customer>, drafts: seq<CustomerDraft>, ids: seq<string>, now: Instant,
                         lower: string -> string, i: int)
    requires FreshIds(ids, t) && |drafts| <= |ids| && 0 <= i < |drafts|
    requires BulkAddCustomers(t, drafts, ids, now, lower).result.Success?
    ensures var t1 := BulkAddCustomers(t, drafts, ids, now, lower).table;
            IsDuplicate(drafts[i], KnownEmails(t1, lower), KnownNames(t1, lower), lower)
  {
    var t1 := BulkAddCustomers(t, drafts, ids, now, lower).table;
    var kept := Candidates(t, drafts, lower);
    var cs := Numbered(kept, ids, IsoString(now));
    var d := drafts[i];
    if IsDuplicate(d, KnownEmails(t, lower), KnownNames(t, lower), lower) {
      KnownGrow(t, t1, lower);
    } else {
      FilterMembers(drafts, NotDuplicateIn(KnownEmails(t, lower), KnownNames(t, lower), lower), d);
      var j :| 0 <= j < |kept| && kept[j] == d;
      AddCustomerRecordsAll(t, cs, j);
      assert t1[ids[j]] == cs[j];
      assert lower(d.ledger.name) in KnownNames(t1, lower);
    }
  }

  /** An import of drafts that are all duplicates changes nothing. */
  lemma NothingKept(t: map<string, Customer>, drafts: seq<CustomerDraft>, ids: seq<string>, now: Instant,
                    lower: string -> string)
    requires FreshIds(ids, t) && |drafts| <= |ids|
    requires forall i :: 0 <= i < |drafts| ==> IsDuplicate(drafts[i], KnownEmails(t, lower), KnownNames(t, lower), lower)
    ensures BulkAddCustomers(t, drafts, ids, now, lower) == BulkOutcome(t, Success(0))
  {
    FilterEmpty(drafts, NotDuplicateIn(KnownEmails(t, lower), KnownNames(t, lower), lower));
    assert Candidates(t, drafts, lower) == [];
    assert Numbered([], ids, IsoString(now)) == [];
  }

  /** Customers that stay stored keep their e-mails and names known. */
  lemma KnownGrow(t: map<string, Customer>, t1: map<string, Customer>, lower: string -> string)
    requires Extends(t, t1)
    ensures KnownEmails(t, lower) <= KnownEmails(t1, lower) && KnownNames(t, lower) <= KnownNames(t1, lower)
  {
    forall x | x in KnownEmails(t, lower) ensures x in KnownEmails(t1, lower) {
      var k :| k in t && t[k].crm.email.Some? && lower(t[k].crm.email.value) != "" && x == lower(t[k].crm.email.value);
      assert k in t1;
    }
    forall x | x in KnownNames(t, lower) ensures x in KnownNames(t1, lower) {
      var k :| k in t && x == lower(t[k].ledger.name);
      assert k in t1;
    }
  }

  /** The duplicate test does not look inside the batch: two copies of a
      new draft without a ledger code are both added. */
  lemma BatchNotDeduplicated(t: map<string, Customer>, d: CustomerDraft, ids: seq<string>, now: Instant,
                             lower: string -> string)
    requires FreshIds(ids, t) && |ids| >= 2
    requires !IsDuplicate(d, KnownEmails(t, lower), KnownNames(t, lower), lower) && d.ledger.currentCode.None?
    ensures var r := BulkAddCustomers(t, [d, d], ids, now, lower);
            r.result == Success(2) && |r.table| == |t| + 2
  {
    KeptPair(d, NotDuplicateIn(KnownEmails(t, lower), KnownNames(t, lower), lower));
    PairAdded(t, d, ids, IsoString(now));
    AllKeptAdded(t, [d, d], ids, now, lower);
  }

  /** An import whose drafts are all kept and all accepted reports and adds
      every one of them. */
  lemma AllKeptAdded(t: map<string, Customer>, drafts: seq<CustomerDraft>, ids: seq<string>, now: Instant,
                     lower: string -> string)
    requires FreshIds(ids, t) && |drafts| <= |ids|
    requires Candidates(t, drafts, lower) == drafts
    requires AddCustomerRecords(t, Numbered(drafts, ids, IsoString(now))).1 == 0
    ensures var r := BulkAddCustomers(t, drafts, ids, now, lower);
            r.result == Success(|drafts|) && |r.table| == |t| + |drafts|
  {
  }

  lemma PairAdded(t: map<string, Customer>, d: CustomerDraft, ids: seq<string>, stamp: string)
    requires FreshIds(ids, t) && |ids| >= 2 && d.ledger.currentCode.None?
    ensures AddCustomerRecords(t, Numbered([d, d], ids, stamp)).1 == 0
  {
    var cs := Numbered([d, d], ids, stamp);
    assert cs == [cs[0], cs[1]];
    AddTwoUncoded(t, cs[0], cs[1]);
  }

  lemma KeptPair(d: CustomerDraft, keep: CustomerDraft -> bool)
    requires keep(d)
    ensures Filter([d, d], keep) == [d, d]
  {
    assert [d, d][..1] == [d];
    assert [d][..0] == [];
  }

  /** Two records under new distinct keys and without a ledger code are
      both accepted by `bulkAdd`. */
  lemma AddTwoUncoded(t: map<string, Customer>, c0: Customer, c1: Customer)
    requires c0.id !in t && c1.id !in t && c0.id != c1.id
    requires c0.ledger.currentCode.None? && c1.ledger.currentCode.None?
    ensures AddCustomerRecords(t, [c0, c1]).1 == 0
  {
    AddCustomerRecordsSnoc(t, [], c0);
    AddCustomerRecordsSnoc(t, [c0], c1);
    assert [] + [c0] == [c0] && [c0] + [c1] == [c0, c1];
  }

  /** The digits of an offer number are the clock's milliseconds modulo a
      million. */
  lemma OfferNumberDigits(millis: nat)
    ensures AllDigits(OfferNumber(millis)[4..]) && DigitsValue(OfferNumber(millis)[4..]) == millis % 1000000
  {
    SuffixValue(millis, 6);
    assert OfferNumber(millis)[4..] == Suffix(Decimal(millis), 6);
    assert Pow10(6) == 1000000;
  }
}
