/** `seedDatabase` (services/dbService.ts): on a store without users it
    writes the two built-in users, the sample customers under ids "1".."n",
    the sample appointments under "mock-apt-1".."mock-apt-n", and the default
    ERP settings, all in one transaction; on a store with users it does
    nothing. The sample lists and the administrator template come from a
    constants file that is not part of this model, so they are parameters. */
module Seed {
  import opened Wrappers
  import opened Text
  import opened Calendar
  import opened Records
  import opened Store
  import opened Data

  const ADMIN_ID := "admin-default"
  const CRM_USER_ID := "user-cnk"
  const CRM_USERNAME := "cnk"
  const DEFAULT_PASSWORD := "1234"

  /** The built-in administrator: the template under its fixed id, its
      password defaulting to "1234" when missing or empty. */
  function AdminUser(admin: UserDraft): (u: User)
    ensures u.id == ADMIN_ID && u.username == admin.username
    ensures u.password.Some? && u.password.value != ""
    ensures admin.password.Some? && admin.password.value != "" ==> u.password == admin.password
  {
    var password := if admin.password.Some? && admin.password.value != "" then admin.password.value
                    else DEFAULT_PASSWORD;
    User(ADMIN_ID, admin.username, Some(password), admin.role, admin.name, admin.jobTitle, admin.avatar,
         admin.salesTarget)
  }

  /** The built-in sales user every seeded appointment belongs to. */
  const CrmUser := User(CRM_USER_ID, CRM_USERNAME, Some(DEFAULT_PASSWORD), Admin, "CNK Satış Temsilcisi",
                        Some("Satış Temsilcisi"), Some("https://randomuser.me/api/portraits/women/76.jpg"),
                        Some(75000.0))

  /** The settings row the seed writes: the sample ledger server, not
      connected, never synced. */
  const DefaultSettings := ErpSettings(SETTINGS_ID, "192.168.1.100", "C:\\WOLVOX8\\WOLVOX.FDB", "SYSDBA", false,
                                       None, None, None, None)

  /** The id of the `i`th sample customer: its 1-based position. */
  function SeedCustomerId(i: nat): string {
    Decimal(i + 1)
  }

  /** The id of the `i`th sample appointment. */
  function SeedAppointmentId(i: nat): (id: string)
    ensures |id| > 9 && id[..9] == "mock-apt-"
  {
    "mock-apt-" + Decimal(i + 1)
  }

  function SeedCustomers(drafts: seq<CustomerDraft>, stamp: string): (cs: seq<Customer>)
    ensures |cs| == |drafts|
    ensures forall i :: 0 <= i < |cs| ==> cs[i] == CustomerOf(drafts[i], SeedCustomerId(i), stamp)
  {
    seq(|drafts|, i requires 0 <= i < |drafts| => CustomerOf(drafts[i], SeedCustomerId(i), stamp))
  }

  function AppointmentOf(d: AppointmentDraft, id: string, stamp: string): Appointment {
    Appointment(id, d.customerId, CRM_USER_ID, d.title, d.start, d.end, d.allDay, d.notes, d.reminder, Some(stamp))
  }

  function SeedAppointments(drafts: seq<AppointmentDraft>, stamp: string): (as_: seq<Appointment>)
    ensures |as_| == |drafts|
    ensures forall i :: 0 <= i < |as_| ==> as_[i] == AppointmentOf(drafts[i], SeedAppointmentId(i), stamp)
  {
    seq(|drafts|, i requires 0 <= i < |drafts| => AppointmentOf(drafts[i], SeedAppointmentId(i), stamp))
  }

  // ---------------------------------------------------------------------
  // All-or-nothing batches

  /** The batch's keys are pairwise distinct and none is stored yet. */
  predicate KeysFresh<R>(t: map<string, R>, rs: seq<R>, key: R -> string) {
    && (forall i, j :: 0 <= i < j < |rs| ==> key(rs[i]) != key(rs[j]))
    && (forall i :: 0 <= i < |rs| ==> key(rs[i]) !in t)
  }

  /** `bulkAdd` inside a transaction: every record goes in, or the first
      rejection aborts the whole batch. */
  function AddEach<R>(t: map<string, R>, rs: seq<R>, key: R -> string): (r: Result<map<string, R>, StoreError>)
    ensures r.Success? <==> KeysFresh(t, rs, key)
    ensures r.Success? ==> r.value == PutAll(t, rs, key)
    ensures r.Failure? ==> r.error == KeyTaken
    decreases |rs|
  {
    if |rs| == 0 then Success(t)
    else
      var n := |rs| - 1;
      KeysFreshSnoc(t, rs, key);
      match AddEach(t, rs[..n], key)
      case Failure(e) => Failure(e)
      case Success(t') => AddRecord(t', key, rs[n])
  }

  lemma KeysFreshSnoc<R>(t: map<string, R>, rs: seq<R>, key: R -> string)
    requires |rs| > 0
    ensures var n := |rs| - 1;
            KeysFresh(t, rs, key) <==> KeysFresh(t, rs[..n], key) && key(rs[n]) !in t.Keys + KeysOf(rs[..n], key)
  {
    var n := |rs| - 1;
    var p := rs[..n];
    assert forall i :: 0 <= i < n ==> p[i] == rs[i];
    if KeysFresh(t, p, key) && key(rs[n]) !in t.Keys + KeysOf(p, key) {
      forall i | 0 <= i < n ensures key(rs[i]) != key(rs[n]) {
        assert key(p[i]) in KeysOf(p, key);
      }
    }
  }

  /** `bulkAdd` of customers inside a transaction: as `AddEach`, with the
      unique ledger-code index checked record by record. */
  function AddEachCustomer(t: map<string, Customer>, cs: seq<Customer>): (r: Result<map<string, Customer>, StoreError>)
    ensures r.Success? ==> KeysFresh(t, cs, CustomerKey) && r.value == PutAll(t, cs, CustomerKey)
    ensures r.Success? && UniqueCodes(t) ==> UniqueCodes(r.value)
    decreases |cs|
  {
    if |cs| == 0 then Success(t)
    else
      var n := |cs| - 1;
      KeysFreshSnoc(t, cs, CustomerKey);
      match AddEachCustomer(t, cs[..n])
      case Failure(e) => Failure(e)
      case Success(t') => AddCustomerRecord(t', cs[n])
  }

  // ---------------------------------------------------------------------
  // The seed

  /** `seedDatabase()`: nothing when a user exists; otherwise the users,
      sample customers, sample appointments and settings in one transaction,
      which a rejected write aborts as a whole. */
  function SeedDatabase(db: Db, admin: UserDraft, customers: seq<CustomerDraft>, appointments: seq<AppointmentDraft>,
                        now: Instant): (r: Result<Db, StoreError>)
    ensures |db.users| > 0 ==> r == Success(db)
    ensures |db.users| == 0 && admin.username == CRM_USERNAME ==> r == Failure(UniqueViolated)
    ensures |db.users| == 0 && r.Success? ==>
              && r.value.users == map[ADMIN_ID := AdminUser(admin), CRM_USER_ID := CrmUser]
              && r.value.customers == PutAll(db.customers, SeedCustomers(customers, IsoString(now)), CustomerKey)
              && r.value.appointments == PutAll(db.appointments, SeedAppointments(appointments, IsoString(now)), AppointmentKey)
              && r.value.erpSettings == Some(DefaultSettings)
              && r.value.(users := db.users, customers := db.customers, appointments := db.appointments,
                          erpSettings := db.erpSettings) == db
    ensures |db.users| == 0 && admin.username != CRM_USERNAME ==>
              (r.Success? <==> AddEachCustomer(db.customers, SeedCustomers(customers, IsoString(now))).Success?
                               && KeysFresh(db.appointments, SeedAppointments(appointments, IsoString(now)), AppointmentKey))
  {
    if |db.users| > 0 then Success(db)
    else if admin.username == CRM_USERNAME then Failure(UniqueViolated)
    else
      var stamp := IsoString(now);
      match AddEachCustomer(db.customers, SeedCustomers(customers, stamp))
      case Failure(e) => Failure(e)
      case Success(cs) =>
        match AddEach(db.appointments, SeedAppointments(appointments, stamp), AppointmentKey)
        case Failure(e) => Failure(e)
        case Success(as_) =>
          Success(db.(users := map[ADMIN_ID := AdminUser(admin), CRM_USER_ID := CrmUser],
                      customers := cs, appointments := as_, erpSettings := Some(DefaultSettings)))
  }

  // ---------------------------------------------------------------------
  // Properties

  /** Different positions get different sample customer ids. */
  lemma SeedCustomerIdsDistinct(i: nat, j: nat)
    requires i != j
    ensures SeedCustomerId(i) != SeedCustomerId(j)
  {
    DecimalValue(i + 1);
    DecimalValue(j + 1);
  }

  /** Different positions get different sample appointment ids. */
  lemma SeedAppointmentIdsDistinct(i: nat, j: nat)
    requires i != j
    ensures SeedAppointmentId(i) != SeedAppointmentId(j)
  {
    SeedCustomerIdsDistinct(i, j);
    assert SeedAppointmentId(i)[9..] == Decimal(i + 1);
    assert SeedAppointmentId(j)[9..] == Decimal(j + 1);
  }

  /** After a seed that went through, the `i`th sample customer is stored
      under id `i + 1`, created at the seed's time. */
  lemma SeededCustomer(db: Db, admin: UserDraft, customers: seq<CustomerDraft>, appointments: seq<AppointmentDraft>,
                       now: Instant, i: nat)
    requires |db.users| == 0 && i < |customers|
    requires SeedDatabase(db, admin, customers, appointments, now).Success?
    ensures var t := SeedDatabase(db, admin, customers, appointments, now).value.customers;
            && SeedCustomerId(i) in t
            && t[SeedCustomerId(i)] == CustomerOf(customers[i], SeedCustomerId(i), IsoString(now))
  {
    var cs := SeedCustomers(customers, IsoString(now));
    forall j | i < j < |cs| ensures CustomerKey(cs[j]) != CustomerKey(cs[i]) {
      SeedCustomerIdsDistinct(i, j);
    }
    PutAllStores(db.customers, cs, CustomerKey, i);
  }

  /** After a seed that went through, the `i`th sample appointment is
      stored under "mock-apt-(i+1)" and belongs to the built-in sales user. */
  lemma SeededAppointment(db: Db, admin: UserDraft, customers: seq<CustomerDraft>, appointments: seq<AppointmentDraft>,
                          now: Instant, i: nat)
    requires |db.users| == 0 && i < |appointments|
    requires SeedDatabase(db, admin, customers, appointments, now).Success?
    ensures var t := SeedDatabase(db, admin, customers, appointments, now).value.appointments;
            && SeedAppointmentId(i) in t
            && t[SeedAppointmentId(i)] == AppointmentOf(appointments[i], SeedAppointmentId(i), IsoString(now))
            && t[SeedAppointmentId(i)].userId == CRM_USER_ID
  {
    var as_ := SeedAppointments(appointments, IsoString(now));
    forall j | i < j < |as_| ensures AppointmentKey(as_[j]) != AppointmentKey(as_[i]) {
      SeedAppointmentIdsDistinct(i, j);
    }
    PutAllStores(db.appointments, as_, AppointmentKey, i);
  }

  /** Seeding twice is seeding once: the first seed leaves users behind,
      so the second does nothing. */
  lemma SeedOnce(db: Db, admin: UserDraft, customers: seq<CustomerDraft>, appointments: seq<AppointmentDraft>,
                 now: Instant, later: Instant)
    requires SeedDatabase(db, admin, customers, appointments, now).Success?
    ensures var db1 := SeedDatabase(db, admin, customers, appointments, now).value;
            SeedDatabase(db1, admin, customers, appointments, later) == Success(db1)
  {
    var db1 := SeedDatabase(db, admin, customers, appointments, now).value;
    if |db.users| == 0 {
      assert ADMIN_ID in db1.users;
    }
  }

  /** The sample appointments always fit an empty table: their ids are
      distinct. */
  lemma SeedAppointmentsFresh(appointments: seq<AppointmentDraft>, stamp: string)
    ensures KeysFresh(map[], SeedAppointments(appointments, stamp), AppointmentKey)
  {
    var as_ := SeedAppointments(appointments, stamp);
    forall i, j | 0 <= i < j < |as_| ensures AppointmentKey(as_[i]) != AppointmentKey(as_[j]) {
      SeedAppointmentIdsDistinct(i, j);
    }
  }

  /** No two sample records carry the same present ledger code. */
  predicate CodesDistinct(cs: seq<Customer>) {
    forall i, j :: 0 <= i < j < |cs| && cs[i].ledger.currentCode.Some? ==>
      cs[i].ledger.currentCode != cs[j].ledger.currentCode
  }

  /** Customers under distinct keys and with distinct ledger codes all fit
      an empty table. */
  lemma {:induction false} DistinctCustomersFit(cs: seq<Customer>)
    requires KeysFresh(map[], cs, CustomerKey) && CodesDistinct(cs)
    ensures AddEachCustomer(map[], cs).Success?
    decreases |cs|
  {
    if |cs| > 0 {
      var n := |cs| - 1;
      var p := cs[..n];
      KeysFreshSnoc(map[], cs, CustomerKey);
      assert forall i :: 0 <= i < n ==> p[i] == cs[i];
      DistinctCustomersFit(p);
      var t' := PutAll(map[], p, CustomerKey);
      forall k | k in t' && k != cs[n].id && cs[n].ledger.currentCode.Some?
        ensures t'[k].ledger.currentCode != cs[n].ledger.currentCode
      {
        var j := PutAllFrom(map[], p, CustomerKey, k);
        assert t'[k] == cs[j];
      }
      assert !CodeTaken(t', cs[n]);
    }
  }

  /** Seeding an empty store goes through whenever the administrator
      template does not take the sales user's name and the sample customers
      have distinct ledger codes. */
  lemma SeedEmptySucceeds(admin: UserDraft, customers: seq<CustomerDraft>, appointments: seq<AppointmentDraft>,
                          now: Instant)
    requires admin.username != CRM_USERNAME
    requires forall i, j :: 0 <= i < j < |customers| && customers[i].ledger.currentCode.Some? ==>
               customers[i].ledger.currentCode != customers[j].ledger.currentCode
    ensures SeedDatabase(EmptyDb, admin, customers, appointments, now).Success?
  {
    var cs := SeedCustomers(customers, IsoString(now));
    forall i, j | 0 <= i < j < |cs| ensures CustomerKey(cs[i]) != CustomerKey(cs[j]) {
      SeedCustomerIdsDistinct(i, j);
    }
    DistinctCustomersFit(cs);
    SeedAppointmentsFresh(appointments, IsoString(now));
  }

  /** A seed keeps the store's schema guarantees: primary keys, unique
      user names and unique ledger codes. */
  lemma SeedKeepsValid(db: Db, admin: UserDraft, customers: seq<CustomerDraft>, appointments: seq<AppointmentDraft>,
                       now: Instant)
    requires Valid(db)
    requires SeedDatabase(db, admin, customers, appointments, now).Success?
    ensures Valid(SeedDatabase(db, admin, customers, appointments, now).value)
  {
    if |db.users| == 0 {
      var stamp := IsoString(now);
      var db1 := SeedDatabase(db, admin, customers, appointments, now).value;
      BuiltInUsersValid(admin);
      PutAllKeyed(db.customers, SeedCustomers(customers, stamp), CustomerKey);
      PutAllKeyed(db.appointments, SeedAppointments(appointments, stamp), AppointmentKey);
      ValidFromParts(db, db1);
    }
  }

  /** The two built-in users have their own keys and distinct user names,
      unless the template takes the sales user's name. */
  lemma BuiltInUsersValid(admin: UserDraft)
    requires admin.username != CRM_USERNAME
    ensures var users := map[ADMIN_ID := AdminUser(admin), CRM_USER_ID := CrmUser];
            Keyed(users, UserKey) && UniqueUsernames(users)
  {
  }

  lemma ValidFromParts(db: Db, db1: Db)
    requires Valid(db)
    requires db1.(users := db.users, customers := db.customers, appointments := db.appointments,
                  erpSettings := db.erpSettings) == db
    requires Keyed(db1.users, UserKey) && UniqueUsernames(db1.users)
    requires Keyed(db1.customers, CustomerKey) && UniqueCodes(db1.customers)
    requires Keyed(db1.appointments, AppointmentKey)
    ensures Valid(db1)
  {
    assert db1.offers == db.offers && db1.invoices == db.invoices && db1.reconciliations == db.reconciliations;
    assert db1.leaveRequests == db.leaveRequests && db1.kmRecords == db.kmRecords;
    assert db1.locationHistory == db.locationHistory;
  }
}
