/** The persistent record shapes and enum domains of types.ts. Optional
    properties are `Option`s; timestamps the source stores as ISO strings
    stay strings; an invoice's date is a calendar day. */
module Records {
  import opened Wrappers
  import opened Calendar

  datatype CustomerStatus = Active | Passive

  /** One AI analysis slot: the text returned and when it was stored. */
  datatype Annotation = Annotation(result: string, timestamp: string)

  /** The customer properties a ledger row supplies: exactly the keys the
      feed parser emits for a customer, so a ledger merge replaces this part
      and nothing else. Forms fill the same properties by hand. */
  datatype LedgerFields = LedgerFields(
    currentCode: Option<string>,
    name: string,
    commercialTitle: Option<string>,
    city: Option<string>,
    district: Option<string>,
    country: Option<string>,
    taxOffice: Option<string>,
    taxNumber: Option<string>,
    status: Option<CustomerStatus>)

  /** The customer properties only the CRM side writes. */
  datatype CrmFields = CrmFields(
    address: Option<string>,
    postalCode: Option<string>,
    group: Option<string>,
    subgroup1: Option<string>,
    subgroup2: Option<string>,
    phone1: Option<string>,
    phone2: Option<string>,
    homePhone: Option<string>,
    mobilePhone1: Option<string>,
    fax: Option<string>,
    nationalId: Option<string>,
    specialCode1: Option<string>,
    specialCode2: Option<string>,
    specialCode3: Option<string>,
    registrationDate: Option<string>,
    specialDate: Option<string>,
    webcamImage: Option<string>,
    notes: Option<string>,
    email: Option<string>,
    aiSentimentAnalysis: Option<Annotation>,
    aiOpportunityAnalysis: Option<Annotation>,
    aiNextStepSuggestion: Option<Annotation>)

  const NoCrmFields := CrmFields(None, None, None, None, None, None, None, None, None, None, None,
                                 None, None, None, None, None, None, None, None, None, None, None)

  /** `Customer`: only `id`, `name` and `createdAt` are required. */
  datatype Customer = Customer(id: string, createdAt: string, ledger: LedgerFields, crm: CrmFields)

  /** `Omit<Customer, 'id' | 'createdAt'>`, what forms and imports hand in. */
  datatype CustomerDraft = CustomerDraft(ledger: LedgerFields, crm: CrmFields)

  /** One invoice line: `(stockId, quantity, price)`. */
  datatype InvoiceItem = InvoiceItem(stockId: string, quantity: int, price: real)

  datatype Invoice = Invoice(
    id: string,
    customerId: string,
    userId: string,
    date: Date,
    totalAmount: real,
    items: seq<InvoiceItem>,
    description: Option<string>)

  datatype OfferItem = OfferItem(
    id: string, cins: string, miktar: real, birim: string, fiyat: real, tutar: real, teslimSuresi: string)

  /** The offer's addressee block (`firma`). */
  datatype Firm = Firm(yetkili: string, telefon: string, eposta: string, vade: string, teklifTarihi: string)

  /** The offer's issuer block (`teklifVeren`). */
  datatype Issuer = Issuer(yetkili: string, telefon: string, eposta: string)

  datatype Offer = Offer(
    id: string,
    teklifNo: string,
    createdAt: string,
    customerId: string,
    firma: Firm,
    teklifVeren: Issuer,
    items: seq<OfferItem>,
    notlar: string,
    toplam: real,
    kdv: real,
    genelToplam: real,
    aiFollowUpEmail: Option<string>)

  /** `Omit<Offer, 'id' | 'createdAt' | 'teklifNo'>`. */
  datatype OfferDraft = OfferDraft(
    customerId: string,
    firma: Firm,
    teklifVeren: Issuer,
    items: seq<OfferItem>,
    notlar: string,
    toplam: real,
    kdv: real,
    genelToplam: real,
    aiFollowUpEmail: Option<string>)

  /** `ReconciliationType`: `current_account | ba | bs`. */
  datatype ReconciliationType = CurrentAccount | Ba | Bs

  /** `ReconciliationStatus`: `pending | agreed | disagreed`. */
  datatype ReconciliationStatus = Pending | Agreed | Disagreed

  datatype Reconciliation = Reconciliation(
    id: string,
    customerId: string,
    kind: ReconciliationType,
    period: string,
    amount: real,
    status: ReconciliationStatus,
    createdAt: string,
    createdBy: string,
    lastEmailSent: Option<string>,
    customerResponse: Option<string>,
    notes: Option<string>,
    aiAnalysis: Option<string>)

  /** The only key the ERP settings table ever holds. */
  const SETTINGS_ID: string := "default"

  type SettingsId = s: string | s == SETTINGS_ID witness SETTINGS_ID

  /** `ErpSettings`: a singleton whose `id` is the literal `'default'`. */
  datatype ErpSettings = ErpSettings(
    id: SettingsId,
    server: string,
    databasePath: string,
    username: string,
    isConnected: bool,
    lastSyncStock: Option<string>,
    lastSyncInvoices: Option<string>,
    lastSyncCustomers: Option<string>,
    lastSyncOffers: Option<string>)

  datatype Role = Admin | Staff

  /** `User`, with the sign-in and identity properties; the personnel
      profile properties are not part of this model. */
  datatype User = User(
    id: string, username: string, password: Option<string>, role: Role, name: string,
    jobTitle: Option<string>, avatar: Option<string>, salesTarget: Option<real>)

  /** `Omit<User, 'id'>`, the shape of the built-in administrator template. */
  datatype UserDraft = UserDraft(
    username: string, password: Option<string>, role: Role, name: string,
    jobTitle: Option<string>, avatar: Option<string>, salesTarget: Option<real>)

  datatype Appointment = Appointment(
    id: string, customerId: string, userId: string, title: string, start: string, end: string,
    allDay: Option<bool>, notes: Option<string>, reminder: Option<string>, createdAt: Option<string>)

  /** A seed appointment before it is given an id, owner and creation time. */
  datatype AppointmentDraft = AppointmentDraft(
    customerId: string, title: string, start: string, end: string,
    allDay: Option<bool>, notes: Option<string>, reminder: Option<string>)

  datatype LeaveStatus = LeavePending | LeaveApproved | LeaveRejected

  datatype LeaveRequest = LeaveRequest(
    id: string, userId: string, kind: string, startDate: string, endDate: string,
    status: LeaveStatus, requestDate: string, reason: string)

  datatype LeaveDraft = LeaveDraft(userId: string, kind: string, startDate: string, endDate: string, reason: string)

  datatype KmShift = Morning | Evening

  datatype KmRecord = KmRecord(id: string, userId: string, date: string, km: real, shift: KmShift)

  /** `Omit<KmRecord, 'id' | 'date'> & { date?: string }`. */
  datatype KmDraft = KmDraft(userId: string, date: Option<string>, km: real, shift: KmShift)

  datatype LocationRecord = LocationRecord(
    id: string, userId: string, timestamp: string, latitude: real, longitude: real,
    isVisit: Option<bool>, customerId: Option<string>)

  datatype LocationDraft = LocationDraft(
    userId: string, latitude: real, longitude: real, isVisit: Option<bool>, customerId: Option<string>)
}
