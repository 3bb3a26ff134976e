/** The browser store (`AppDatabase` in services/dbService.ts) as a value:
    one `map` from primary key to record per table, with the schema's
    primary keys and unique indexes as predicates, Dexie's index order, and
    the write primitives the contexts use. */
module Store {
  import opened Wrappers
  import opened Records

  /** The tables this model touches. */
  datatype Db = Db(
    users: map<string, User>,
    customers: map<string, Customer>,
    appointments: map<string, Appointment>,
    offers: map<string, Offer>,
    erpSettings: Option<ErpSettings>,
    invoices: map<string, Invoice>,
    reconciliations: map<string, Reconciliation>,
    leaveRequests: map<string, LeaveRequest>,
    kmRecords: map<string, KmRecord>,
    locationHistory: map<string, LocationRecord>)

  const EmptyDb := Db(map[], map[], map[], map[], None, map[], map[], map[], map[], map[])

  /** Why a write is rejected: a key already taken by `add`, a unique index
      violated, or a record that carries no primary key. */
  datatype StoreError = KeyTaken | UniqueViolated | KeyMissing

  // ---------------------------------------------------------------------
  // Schema

  /** Every record is stored under its own primary key. */
  predicate Keyed<R>(t: map<string, R>, key: R -> string) {
    forall k :: k in t ==> key(t[k]) == k
  }

  /** `&currentCode`: no two customers share a present ledger code. */
  predicate UniqueCodes(t: map<string, Customer>) {
    forall a, b :: a in t && b in t && a != b && t[a].ledger.currentCode.Some? ==>
      t[a].ledger.currentCode != t[b].ledger.currentCode
  }

  /** `&username`: no two users share a user name. */
  predicate UniqueUsernames(t: map<string, User>) {
    forall a, b :: a in t && b in t && a != b ==> t[a].username != t[b].username
  }

  // The primary key of each table's records.
  function UserKey(u: User): string { u.id }
  function CustomerKey(c: Customer): string { c.id }
  function AppointmentKey(a: Appointment): string { a.id }
  function OfferKey(o: Offer): string { o.id }
  function InvoiceKey(i: Invoice): string { i.id }
  function ReconciliationKey(r: Reconciliation): string { r.id }
  function LeaveKey(l: LeaveRequest): string { l.id }
  function KmKey(k: KmRecord): string { k.id }
  function LocationKey(l: LocationRecord): string { l.id }

  /** The schema's guarantees: primary keys and the two unique indexes. */
  predicate Valid(db: Db) {
    && Keyed(db.users, UserKey) && UniqueUsernames(db.users)
    && Keyed(db.customers, CustomerKey) && UniqueCodes(db.customers)
    && Keyed(db.appointments, AppointmentKey)
    && Keyed(db.offers, OfferKey)
    && Keyed(db.invoices, InvoiceKey)
    && Keyed(db.reconciliations, ReconciliationKey)
    && Keyed(db.leaveRequests, LeaveKey)
    && Keyed(db.kmRecords, KmKey)
    && Keyed(db.locationHistory, LocationKey)
  }

  /** Replacing the offer table by one keyed by id keeps the store valid. */
  lemma ValidWithOffers(db: Db, offers: map<string, Offer>)
    requires Valid(db) && Keyed(offers, OfferKey)
    ensures Valid(db.(offers := offers))
  {
  }

  /** Replacing the invoice table by one keyed by number keeps the store
      valid. */
  lemma ValidWithInvoices(db: Db, invoices: map<string, Invoice>)
    requires Valid(db) && Keyed(invoices, InvoiceKey)
    ensures Valid(db.(invoices := invoices))
  {
  }

  /** The unique index on `currentCode` would reject storing `c`: another
      key already holds its present code. */
  predicate CodeTaken(t: map<string, Customer>, c: Customer) {
    c.ledger.currentCode.Some? && exists k :: k in t && k != c.id && t[k].ledger.currentCode == c.ledger.currentCode
  }

  /** The customer whose ledger code is `code`, if any
      (`where('currentCode').equals(code)`). */
  function CodeOwner(t: map<string, Customer>, code: string): (r: Option<string>)
    requires UniqueCodes(t)
    ensures r.Some? ==> r.value in t && t[r.value].ledger.currentCode == Some(code)
    ensures r.None? ==> forall k :: k in t ==> t[k].ledger.currentCode != Some(code)
  {
    if exists k :: k in t && t[k].ledger.currentCode == Some(code) then
      var k :| k in t && t[k].ledger.currentCode == Some(code); Some(k)
    else None
  }

  /** Ids handed out by the fresh-id generator: pairwise distinct and not
      yet keys of the table they are meant for. */
  predicate FreshIds<R>(ids: seq<string>, t: map<string, R>) {
    && (forall i, j :: 0 <= i < j < |ids| ==> ids[i] != ids[j])
    && (forall i :: 0 <= i < |ids| ==> ids[i] !in t)
  }

  /** `t'` holds every record of `t` unchanged. */
  predicate Extends<R(==)>(t: map<string, R>, t': map<string, R>) {
    t.Keys <= t'.Keys && forall k :: k in t ==> t'[k] == t[k]
  }

  // ---------------------------------------------------------------------
  // Index order

  /** IndexedDB's key order on strings: lexicographic by character code. */
  predicate StrLt(a: string, b: string)
    decreases |a|
  {
    if |a| == 0 then |b| > 0
    else |b| > 0 && (a[0] < b[0] || (a[0] == b[0] && StrLt(a[1..], b[1..])))
  }

  lemma {:induction false} StrLtIrreflexive(a: string)
    ensures !StrLt(a, a)
    decreases |a|
  {
    if |a| > 0 { StrLtIrreflexive(a[1..]); }
  }

  lemma {:induction false} StrLtTransitive(a: string, b: string, c: string)
    requires StrLt(a, b) && StrLt(b, c)
    ensures StrLt(a, c)
    decreases |a|
  {
    if |a| > 0 && a[0] == b[0] && b[0] == c[0] {
      StrLtTransitive(a[1..], b[1..], c[1..]);
    }
  }

  lemma {:induction false} StrLtTotal(a: string, b: string)
    ensures a == b || StrLt(a, b) || StrLt(b, a)
    decreases |a|
  {
    if |a| > 0 && |b| > 0 && a[0] == b[0] {
      StrLtTotal(a[1..], b[1..]);
      if a[1..] == b[1..] {
        assert a == [a[0]] + a[1..] && b == [b[0]] + b[1..];
      }
    }
  }

  /** An index entry: the indexed value, then the primary key. Dexie walks
      an index in this order, ties broken by primary key. */
  predicate EntryLt(a: (string, string), b: (string, string)) {
    StrLt(a.0, b.0) || (a.0 == b.0 && StrLt(a.1, b.1))
  }

  lemma EntryOrder()
    ensures forall a :: !EntryLt(a, a)
    ensures forall a, b, c :: EntryLt(a, b) && EntryLt(b, c) ==> EntryLt(a, c)
    ensures forall a, b :: a == b || EntryLt(a, b) || EntryLt(b, a)
  {
    forall a: (string, string) ensures !EntryLt(a, a) {
      StrLtIrreflexive(a.0);
      StrLtIrreflexive(a.1);
    }
    forall a: (string, string), b, c | EntryLt(a, b) && EntryLt(b, c) ensures EntryLt(a, c) {
      if StrLt(a.0, b.0) && StrLt(b.0, c.0) { StrLtTransitive(a.0, b.0, c.0); }
      if a.0 == b.0 && b.0 == c.0 {
        StrLtIrreflexive(a.0);
        StrLtTransitive(a.1, b.1, c.1);
      }
    }
    forall a: (string, string), b: (string, string) ensures a == b || EntryLt(a, b) || EntryLt(b, a) {
      StrLtTotal(a.0, b.0);
      StrLtTotal(a.1, b.1);
    }
  }

  /** The index entry of key `k` for the index `field`. */
  function Entry<R>(t: map<string, R>, field: R -> string, k: string): (string, string)
    requires k in t
  {
    (field(t[k]), k)
  }

  /** `k` holds the last entry of the index `field`. */
  predicate IsLast<R>(t: map<string, R>, field: R -> string, k: string) {
    k in t && forall k2 :: k2 in t ==> !EntryLt(Entry(t, field, k), Entry(t, field, k2))
  }

  lemma {:induction false} LastExists<R>(t: map<string, R>, field: R -> string)
    requires |t| > 0
    ensures exists k :: IsLast(t, field, k)
    decreases |t|
  {
    var x :| x in t;
    var rest := t - {x};
    assert |rest| == |t| - 1;
    if |rest| == 0 {
      assert forall k2 :: k2 in t ==> k2 == x;
      EntryOrder();
      assert IsLast(t, field, x);
    } else {
      LastExists(rest, field);
      var m :| IsLast(rest, field, m);
      EntryOrder();
      if EntryLt(Entry(t, field, m), Entry(t, field, x)) {
        forall k2 | k2 in t ensures !EntryLt(Entry(t, field, x), Entry(t, field, k2)) {
          if k2 != x {
            assert k2 in rest && !EntryLt(Entry(rest, field, m), Entry(rest, field, k2));
          }
        }
        assert IsLast(t, field, x);
      } else {
        forall k2 | k2 in t ensures !EntryLt(Entry(t, field, m), Entry(t, field, k2)) {
          if k2 != x { assert k2 in rest; }
        }
        assert IsLast(t, field, m);
      }
    }
  }

  lemma LastUnique<R>(t: map<string, R>, field: R -> string)
    ensures forall k1, k2 :: IsLast(t, field, k1) && IsLast(t, field, k2) ==> k1 == k2
  {
    EntryOrder();
    forall k1, k2 | IsLast(t, field, k1) && IsLast(t, field, k2) ensures k1 == k2 {
      assert !EntryLt(Entry(t, field, k1), Entry(t, field, k2)) && !EntryLt(Entry(t, field, k2), Entry(t, field, k1));
    }
  }

  /** The key at the end of the index `field`. */
  function Last<R>(t: map<string, R>, field: R -> string): (k: string)
    requires |t| > 0
    ensures IsLast(t, field, k)
  {
    LastExists(t, field);
    LastUnique(t, field);
    var k :| IsLast(t, field, k); k
  }

  /** `orderBy(field).reverse()`: the keys from the last index entry to the
      first. */
  function Descending<R>(t: map<string, R>, field: R -> string): (keys: seq<string>)
    ensures SortedKeys(t, field, keys)
    decreases |t|
  {
    if |t| == 0 then []
    else
      var k := Last(t, field);
      var tail := Descending(t - {k}, field);
      ConsLast(t, field, k, tail);
      [k] + tail
  }

  /** `keys` lists as many keys as `t` holds, each stored, with the index
      entries strictly decreasing along the list. */
  predicate SortedKeys<R>(t: map<string, R>, field: R -> string, keys: seq<string>) {
    && |keys| == |t|
    && (forall i :: 0 <= i < |keys| ==> keys[i] in t)
    && (forall i, j :: 0 <= i < j < |keys| ==>
          keys[j] in t && keys[i] in t && EntryLt(Entry(t, field, keys[j]), Entry(t, field, keys[i])))
  }

  lemma ConsLast<R>(t: map<string, R>, field: R -> string, k: string, tail: seq<string>)
    requires IsLast(t, field, k) && SortedKeys(t - {k}, field, tail)
    ensures SortedKeys(t, field, [k] + tail)
  {
    var rest := t - {k};
    var keys := [k] + tail;
    EntryOrder();
    assert |rest| == |t| - 1;
    assert forall i :: 0 <= i < |tail| ==> Entry(rest, field, tail[i]) == Entry(t, field, tail[i]);
    assert forall i :: 0 < i < |keys| ==> keys[i] == tail[i - 1];
  }

  /** Every stored key is listed, exactly once. */
  lemma {:induction false} DescendingComplete<R>(t: map<string, R>, field: R -> string, k: string)
    requires k in t
    ensures k in Descending(t, field)
    decreases |t|
  {
    var l := Last(t, field);
    if k != l {
      DescendingComplete(t - {l}, field, k);
    }
  }

  lemma DescendingDistinct<R>(t: map<string, R>, field: R -> string)
    ensures var keys := Descending(t, field);
      forall i, j :: 0 <= i < j < |keys| ==> keys[i] != keys[j]
  {
    EntryOrder();
  }

  /** The records of `orderBy(field).reverse().toArray()`: every stored
      record once, the indexed field never increasing along the list. */
  function ListDescending<R(==)>(t: map<string, R>, field: R -> string): (rs: seq<R>)
    ensures |rs| == |t|
    ensures forall i :: 0 <= i < |rs| ==> rs[i] in t.Values
    ensures forall i, j :: 0 <= i < j < |rs| ==> !StrLt(field(rs[i]), field(rs[j]))
  {
    var keys := Descending(t, field);
    var rs := seq(|keys|, i requires 0 <= i < |keys| => t[keys[i]]);
    forall i, j | 0 <= i < j < |rs| ensures !StrLt(field(rs[i]), field(rs[j])) {
      assert EntryLt(Entry(t, field, keys[j]), Entry(t, field, keys[i]));
      if StrLt(field(rs[i]), field(rs[j])) {
        if StrLt(field(rs[j]), field(rs[i])) {
          StrLtTransitive(field(rs[i]), field(rs[j]), field(rs[i]));
        }
        StrLtIrreflexive(field(rs[i]));
      }
    }
    rs
  }

  /** Nothing stored is missing from the list. */
  lemma ListedComplete<R>(t: map<string, R>, field: R -> string, k: string)
    requires k in t
    ensures t[k] in ListDescending(t, field)
  {
    var keys := Descending(t, field);
    DescendingComplete(t, field, k);
    var i :| 0 <= i < |keys| && keys[i] == k;
    assert ListDescending(t, field)[i] == t[k];
  }

  /** Pairwise distinct ids are as many keys as there are ids. */
  lemma {:induction false} DistinctCardinality(xs: seq<string>)
    requires forall i, j :: 0 <= i < j < |xs| ==> xs[i] != xs[j]
    ensures |set i | 0 <= i < |xs| :: xs[i]| == |xs|
    decreases |xs|
  {
    if |xs| > 0 {
      var n := |xs| - 1;
      DistinctCardinality(xs[..n]);
      var prefix := set i | 0 <= i < n :: xs[..n][i];
      assert (set i | 0 <= i < |xs| :: xs[i]) == prefix + {xs[n]};
      assert xs[n] !in prefix;
    }
  }

  // ---------------------------------------------------------------------
  // Writes

  /** The keys a batch of records carries. */
  function KeysOf<R>(rs: seq<R>, key: R -> string): set<string> {
    set i | 0 <= i < |rs| :: key(rs[i])
  }

  /** `bulkPut`: each record inserted or replacing the one under its key,
      later records winning. */
  function PutAll<R>(t: map<string, R>, rs: seq<R>, key: R -> string): (r: map<string, R>)
    ensures r.Keys == t.Keys + KeysOf(rs, key)
    decreases |rs|
  {
    if |rs| == 0 then t
    else
      var n := |rs| - 1;
      KeysOfSnoc(rs, key);
      PutAll(t, rs[..n], key)[key(rs[n]) := rs[n]]
  }

  lemma KeysOfSnoc<R>(rs: seq<R>, key: R -> string)
    requires |rs| > 0
    ensures KeysOf(rs, key) == KeysOf(rs[..|rs| - 1], key) + {key(rs[|rs| - 1])}
  {
    var n := |rs| - 1;
    forall x | x in KeysOf(rs, key) ensures x in KeysOf(rs[..n], key) + {key(rs[n])} {
      var i :| 0 <= i < |rs| && key(rs[i]) == x;
      if i < n { assert rs[..n][i] == rs[i]; }
    }
    forall x | x in KeysOf(rs[..n], key) ensures x in KeysOf(rs, key) {
      var i :| 0 <= i < n && key(rs[..n][i]) == x;
      assert rs[i] == rs[..n][i];
    }
  }

  /** Records whose key the batch does not carry are left as they were. */
  lemma {:induction false} PutAllKeeps<R>(t: map<string, R>, rs: seq<R>, key: R -> string, k: string)
    requires k in t && k !in KeysOf(rs, key)
    ensures PutAll(t, rs, key)[k] == t[k]
    decreases |rs|
  {
    if |rs| > 0 {
      var n := |rs| - 1;
      KeysOfSnoc(rs, key);
      PutAllKeeps(t, rs[..n], key, k);
    }
  }

  /** A record whose key no later record of the batch carries ends up
      stored under it. */
  lemma {:induction false} PutAllStores<R>(t: map<string, R>, rs: seq<R>, key: R -> string, i: int)
    requires 0 <= i < |rs|
    requires forall j :: i < j < |rs| ==> key(rs[j]) != key(rs[i])
    ensures PutAll(t, rs, key)[key(rs[i])] == rs[i]
    decreases |rs|
  {
    var n := |rs| - 1;
    if i < n {
      LaterKeysDiffer(rs, key, i);
      PutAllStores(t, rs[..n], key, i);
    }
  }

  lemma LaterKeysDiffer<R>(rs: seq<R>, key: R -> string, i: int)
    requires 0 <= i < |rs| - 1
    requires forall j :: i < j < |rs| ==> key(rs[j]) != key(rs[i])
    ensures var n := |rs| - 1;
            && key(rs[n]) != key(rs[i]) && rs[..n][i] == rs[i]
            && forall j :: i < j < n ==> key(rs[..n][j]) != key(rs[..n][i])
  {
  }

  /** A key the batch carries ends up holding the batch's last record
      with that key. */
  lemma {:induction false} PutAllFrom<R>(t: map<string, R>, rs: seq<R>, key: R -> string, k: string) returns (i: int)
    requires k in KeysOf(rs, key)
    ensures 0 <= i < |rs| && key(rs[i]) == k && PutAll(t, rs, key)[k] == rs[i]
    ensures forall j :: i < j < |rs| ==> key(rs[j]) != k
    decreases |rs|
  {
    var n := |rs| - 1;
    KeysOfSnoc(rs, key);
    if key(rs[n]) == k {
      i := n;
    } else {
      i := PutAllFrom(t, rs[..n], key, k);
      assert rs[..n][i] == rs[i];
      forall j | i < j < |rs| ensures key(rs[j]) != k {
        if j < n { assert rs[..n][j] == rs[j]; }
      }
    }
  }

  /** `bulkPut` keeps every record under its own key. */
  lemma {:induction false} PutAllKeyed<R>(t: map<string, R>, rs: seq<R>, key: R -> string)
    requires Keyed(t, key)
    ensures Keyed(PutAll(t, rs, key), key)
    decreases |rs|
  {
    if |rs| > 0 {
      PutAllKeyed(t, rs[..|rs| - 1], key);
    }
  }

  /** Storing `c` under its key keeps the ledger codes unique, unless the
      unique index rejects it. */
  lemma PutKeepsCodesUnique(t: map<string, Customer>, c: Customer)
    requires UniqueCodes(t) && !CodeTaken(t, c)
    ensures UniqueCodes(t[c.id := c])
  {
  }

  /** `add`: rejected when the key is taken or the record's ledger code is
      already held; nothing is stored then. */
  function AddCustomerRecord(t: map<string, Customer>, c: Customer): (r: Result<map<string, Customer>, StoreError>)
    ensures r.Success? <==> c.id !in t && !CodeTaken(t, c)
    ensures r.Success? ==> r.value == t[c.id := c]
    ensures r.Failure? ==> r.error == (if c.id in t then KeyTaken else UniqueViolated)
  {
    if c.id in t then Failure(KeyTaken)
    else if CodeTaken(t, c) then Failure(UniqueViolated)
    else Success(t[c.id := c])
  }

  /** `add` on a table without a unique index: rejected, storing nothing,
      when the record's key is already taken. */
  function AddRecord<R>(t: map<string, R>, key: R -> string, rec: R): (r: Result<map<string, R>, StoreError>)
    ensures r.Success? <==> key(rec) !in t
    ensures r.Success? ==> r.value.Keys == t.Keys + {key(rec)} && r.value[key(rec)] == rec
    ensures r.Success? ==> forall k :: k in t ==> r.value[k] == t[k]
    ensures r.Failure? ==> r.error == KeyTaken
    ensures r.Success? && Keyed(t, key) ==> Keyed(r.value, key)
  {
    if key(rec) in t then Failure(KeyTaken) else Success(t[key(rec) := rec])
  }

  /** `put`: insert or replace under the record's key, unless another key
      holds its ledger code. */
  function PutCustomerRecord(t: map<string, Customer>, c: Customer): (r: Result<map<string, Customer>, StoreError>)
    ensures r.Success? <==> !CodeTaken(t, c)
    ensures r.Success? ==> r.value == t[c.id := c]
  {
    if CodeTaken(t, c) then Failure(UniqueViolated) else Success(t[c.id := c])
  }

  /** `bulkAdd` outside a transaction: each record is tried in turn; the
      ones that fit stay stored even though the call rejects when one did
      not. Returns the table and the number of rejected records. */
  function AddCustomerRecords(t: map<string, Customer>, cs: seq<Customer>): (r: (map<string, Customer>, nat))
    ensures r.1 <= |cs|
    decreases |cs|
  {
    if |cs| == 0 then (t, 0)
    else
      var n := |cs| - 1;
      var prev := AddCustomerRecords(t, cs[..n]);
      match AddCustomerRecord(prev.0, cs[n])
      case Success(t') => (t', prev.1)
      case Failure(_) => (prev.0, prev.1 + 1)
  }

  /** `bulkAdd` keeps what was stored, adds one record per accepted one,
      and keeps the primary key and the unique ledger-code index. */
  lemma AddCustomerRecordsSound(t: map<string, Customer>, cs: seq<Customer>)
    ensures var r := AddCustomerRecords(t, cs);
            && Extends(t, r.0)
            && |r.0| == |t| + |cs| - r.1
            && (UniqueCodes(t) ==> UniqueCodes(r.0))
            && (Keyed(t, CustomerKey) ==> Keyed(r.0, CustomerKey))
  {
    AddCustomerRecordsKeep(t, cs);
    AddCustomerRecordsCount(t, cs);
    if UniqueCodes(t) {
      AddCustomerRecordsUnique(t, cs);
    }
    if Keyed(t, CustomerKey) {
      AddCustomerRecordsKeyed(t, cs);
    }
  }

  lemma {:induction false} AddCustomerRecordsKeep(t: map<string, Customer>, cs: seq<Customer>)
    ensures Extends(t, AddCustomerRecords(t, cs).0)
    decreases |cs|
  {
    if |cs| > 0 {
      AddCustomerRecordsKeep(t, cs[..|cs| - 1]);
    }
  }

  lemma {:induction false} AddCustomerRecordsCount(t: map<string, Customer>, cs: seq<Customer>)
    ensures var r := AddCustomerRecords(t, cs); |r.0| == |t| + |cs| - r.1
    decreases |cs|
  {
    if |cs| > 0 {
      AddCustomerRecordsCount(t, cs[..|cs| - 1]);
    }
  }

  lemma {:induction false} AddCustomerRecordsUnique(t: map<string, Customer>, cs: seq<Customer>)
    requires UniqueCodes(t)
    ensures UniqueCodes(AddCustomerRecords(t, cs).0)
    decreases |cs|
  {
    if |cs| > 0 {
      var n := |cs| - 1;
      AddCustomerRecordsUnique(t, cs[..n]);
      var prev := AddCustomerRecords(t, cs[..n]);
      if AddCustomerRecord(prev.0, cs[n]).Success? {
        PutKeepsCodesUnique(prev.0, cs[n]);
      }
    }
  }

  lemma {:induction false} AddCustomerRecordsKeyed(t: map<string, Customer>, cs: seq<Customer>)
    requires Keyed(t, CustomerKey)
    ensures Keyed(AddCustomerRecords(t, cs).0, CustomerKey)
    decreases |cs|
  {
    if |cs| > 0 {
      AddCustomerRecordsKeyed(t, cs[..|cs| - 1]);
    }
  }

  /** One more record of the batch is tried against the table the earlier
      ones left. */
  lemma AddCustomerRecordsSnoc(t: map<string, Customer>, cs: seq<Customer>, c: Customer)
    ensures var prev := AddCustomerRecords(t, cs);
            AddCustomerRecords(t, cs + [c])
            == match AddCustomerRecord(prev.0, c)
               case Success(t') => (t', prev.1)
               case Failure(_) => (prev.0, prev.1 + 1)
  {
    assert (cs + [c])[..|cs|] == cs;
  }

  /** A record the batch stored that was not there before is one of the
      batch's records. */
  lemma {:induction false} AddCustomerRecordsNew(t: map<string, Customer>, cs: seq<Customer>, k: string) returns (i: int)
    requires k in AddCustomerRecords(t, cs).0 && k !in t
    ensures 0 <= i < |cs| && cs[i].id == k && AddCustomerRecords(t, cs).0[k] == cs[i]
    decreases |cs|
  {
    var n := |cs| - 1;
    var prev := AddCustomerRecords(t, cs[..n]);
    if k in prev.0 && AddCustomerRecords(t, cs).0[k] == prev.0[k] {
      i := AddCustomerRecordsNew(t, cs[..n], k);
    } else {
      i := n;
    }
  }

  /** When nothing was rejected, every record of the batch is stored. */
  lemma {:induction false} AddCustomerRecordsAll(t: map<string, Customer>, cs: seq<Customer>, i: int)
    requires AddCustomerRecords(t, cs).1 == 0 && 0 <= i < |cs|
    ensures cs[i].id in AddCustomerRecords(t, cs).0 && AddCustomerRecords(t, cs).0[cs[i].id] == cs[i]
    decreases |cs|
  {
    var n := |cs| - 1;
    if i < n {
      AddCustomerRecordsAll(t, cs[..n], i);
    }
  }
}
