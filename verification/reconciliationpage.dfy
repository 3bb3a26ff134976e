/** The handler logic of the reconciliation dialog (pages/ReconciliationPage.tsx):
    the form's defaults, filling the amount from the ledger, submitting,
    and the agree/disagree decision that is offered only while a
    reconciliation is pending. Rendering, notifications and the AI and
    mail helpers are not modelled. */
module ReconciliationPage {
  import opened Wrappers
  import opened Calendar
  import opened Records
  import opened Feed
  import opened Store
  import opened Aggregator
  import opened Reconciliations

  /** The dialog's `formData`. */
  datatype Form = Form(customerId: string, kind: ReconciliationType, period: string, amount: real, notes: string)

  /** What the form shows for a stored reconciliation. */
  function FormOf(rec: Reconciliation): Form {
    Form(rec.customerId, rec.kind, rec.period, rec.amount, rec.notes.GetOr(""))
  }

  /** `value || fallback` on a string: the empty string is falsy. */
  function OrElse(s: string, fallback: string): (r: string)
    ensures r != "" <==> s != "" || fallback != ""
    ensures s != "" ==> r == s
  {
    if s == "" then fallback else s
  }

  /** The initial `formData`: the open reconciliation's values, an empty
      form for a new one; the period falls back to the current month
      (`toISOString().slice(0, 7)`) and is therefore never empty. */
  function OpenForm(rec: Option<Reconciliation>, now: Instant): (f: Form)
    ensures f.period != ""
    ensures rec.None? ==> f == Form("", CurrentAccount, IsoMonth(now), 0.0, "")
    ensures rec.Some? && rec.value.period != "" ==> f == FormOf(rec.value)
    ensures rec.Some? && rec.value.period == "" ==> f == FormOf(rec.value).(period := IsoMonth(now))
  {
    match rec
    case None => Form("", CurrentAccount, IsoMonth(now), 0.0, "")
    case Some(r) => Form(r.customerId, r.kind, OrElse(r.period, IsoMonth(now)), r.amount, r.notes.GetOr(""))
  }

  /** The ledger code of the customer the form names, when the customer
      is listed and has a non-empty `currentCode`. The listed customers are
      the stored ones, so `find` by id is a lookup by key. */
  function LedgerCode(customers: map<string, Customer>, customerId: string): (r: Option<string>)
    ensures r.Some? <==> customerId in customers && customers[customerId].ledger.currentCode.Some?
                         && customers[customerId].ledger.currentCode.value != ""
    ensures r.Some? ==> customers[customerId].ledger.currentCode == r && r.value != ""
  {
    if customerId in customers then
      match customers[customerId].ledger.currentCode
      case Some(code) => if code != "" then Some(code) else None
      case None => None
    else None
  }

  /** The dialog state `handleSyncFromErp` touches: the form, the invoices
      shown, the parser cache, and whether an error was notified. */
  datatype Dialog = Dialog(form: Form, synced: seq<StatementInvoice>, cache: Option<Parsed>, notified: bool)

  /** `handleSyncFromErp`: with no customer or period chosen it does nothing;
      for an unknown customer or one without a ledger code it notifies an
      error and fetches nothing; otherwise it shows the customer's invoices
      of that month and sets the amount to their total. */
  function HandleSyncFromErp(d: Dialog, customers: map<string, Customer>, source: Source, now: Date): (r: Dialog)
    ensures d.form.customerId == "" || d.form.period == "" ==> r == d
    ensures d.form.customerId != "" && d.form.period != "" && LedgerCode(customers, d.form.customerId).None?
            ==> r == d.(notified := true)
    ensures d.form.customerId != "" && d.form.period != "" && LedgerCode(customers, d.form.customerId).Some? ==>
              var code := LedgerCode(customers, d.form.customerId).value;
              var parse := ParseErpData(d.cache, source, now);
              && r.form == d.form.(amount := MatchingTotal(parse.result.invoices, code, ParsePeriod(d.form.period)))
              && r.synced == Select(parse.result.invoices, code, ParsePeriod(d.form.period))
              && r.cache == parse.cache && r.notified == d.notified
  {
    if d.form.customerId == "" || d.form.period == "" then d
    else
      match LedgerCode(customers, d.form.customerId)
      case None => d.(notified := true)
      case Some(code) =>
        var lookup := InvoicesForReconciliation(d.cache, source, now, code, d.form.period);
        SumOfSelection(ParseErpData(d.cache, source, now).result.invoices, code, ParsePeriod(d.form.period));
        Dialog(d.form.(amount := SumTotals(lookup.invoices)), lookup.invoices, lookup.cache, d.notified)
  }

  /** The decisions the dialog offers on a stored reconciliation: agree or
      disagree while it is pending, nothing once it is decided. */
  function StatusActions(rec: Reconciliation): (actions: seq<ReconciliationStatus>)
    ensures |actions| > 0 <==> rec.status == Pending
    ensures forall i :: 0 <= i < |actions| ==> actions[i] != Pending
  {
    if rec.status == Pending then [Agreed, Disagreed] else []
  }

  /** An update that sets the status and nothing else. */
  function StatusOnly(status: ReconciliationStatus): Patch {
    NoChanges.(status := Some(status))
  }

  /** `handleStatusUpdate(status)`: with no reconciliation open it does
      nothing; otherwise it writes the status of the open one and leaves
      every other property, and every other record, as it was. */
  function HandleStatusUpdate(t: map<string, Reconciliation>, open: Option<Reconciliation>, status: ReconciliationStatus)
    : (r: map<string, Reconciliation>)
    ensures open.None? ==> r == t
    ensures open.Some? && open.value.id in t ==> r == t[open.value.id := t[open.value.id].(status := status)]
    ensures open.Some? && open.value.id !in t ==> r == t
  {
    match open
    case None => t
    case Some(rec) =>
      if rec.id in t then
        assert Apply(t[rec.id], StatusOnly(status)) == t[rec.id].(status := status);
        UpdateReconciliation(t, rec.id, StatusOnly(status))
      else UpdateReconciliation(t, rec.id, StatusOnly(status))
  }

  /** The form as an update: the five properties it carries. */
  function FormPatch(f: Form): Patch {
    NoChanges.(customerId := Some(f.customerId), kind := Some(f.kind), period := Some(f.period),
               amount := Some(f.amount), notes := Some(f.notes))
  }

  /** The form as the draft of a new reconciliation. */
  function FormDraft(f: Form): ReconciliationDraft {
    ReconciliationDraft(f.customerId, f.kind, f.period, f.amount, None, None, Some(f.notes), None)
  }

  /** `handleSubmit`: with a reconciliation open, its record takes the
      form's properties; otherwise the form is added as a new pending
      reconciliation (which needs a signed-in user). */
  function HandleSubmit(t: map<string, Reconciliation>, currentUser: Option<User>, open: Option<Reconciliation>,
                        f: Form, id: string, now: Instant): (r: Result<map<string, Reconciliation>, AddFailure>)
    ensures open.Some? ==> r.Success? && r.value.Keys == t.Keys
    ensures open.Some? ==> forall k :: k in t && k != open.value.id ==> r.value[k] == t[k]
    ensures open.Some? && open.value.id in t ==>
              var (before, after) := (t[open.value.id], r.value[open.value.id]);
              && FormOf(after) == f
              && after.id == before.id && after.status == before.status
              && after.createdAt == before.createdAt && after.createdBy == before.createdBy
              && after.lastEmailSent == before.lastEmailSent && after.customerResponse == before.customerResponse
              && after.aiAnalysis == before.aiAnalysis
    ensures open.None? ==> (r.Success? <==> currentUser.Some? && id !in t)
    ensures open.None? && r.Success? ==>
              && r.value.Keys == t.Keys + {id}
              && (forall k :: k in t ==> r.value[k] == t[k])
              && FormOf(r.value[id]) == f && r.value[id].status == Pending
  {
    match open
    case Some(rec) => Success(UpdateReconciliation(t, rec.id, FormPatch(f)))
    case None =>
      match AddReconciliation(t, currentUser, FormDraft(f), id, now)
      case Success((t', _)) => Success(t')
      case Failure(e) => Failure(e)
  }

  // ---------------------------------------------------------------------
  // Properties

  /** A new reconciliation's default period is the current month, and the
      ledger lookup reads it as that calendar month, every day of it. */
  lemma DefaultPeriodIsThisMonth(now: Instant, d: Date)
    ensures var p := ParsePeriod(OpenForm(None, now).period);
            && p == Some(Period(now.date.year as real, now.date.month as real))
            && (InPeriod(d, p.value) <==> d.year == now.date.year && d.month == now.date.month)
  {
    ParsePeriodIsoMonth(now);
    WholeMonth(now, d);
  }

  /** Deciding is final: once agree or disagree has been chosen, the stored
      reconciliation offers no further decision. */
  lemma DecidedOnce(t: map<string, Reconciliation>, rec: Reconciliation, i: int)
    requires rec.id in t && 0 <= i < |StatusActions(t[rec.id])|
    ensures var t' := HandleStatusUpdate(t, Some(rec), StatusActions(t[rec.id])[i]);
            rec.id in t' && StatusActions(t'[rec.id]) == []
  {
  }

  /** Submitting and reopening shows the form that was submitted, for a
      new reconciliation and for an edited one alike. */
  lemma ReopenShowsSubmitted(t: map<string, Reconciliation>, currentUser: Option<User>, open: Option<Reconciliation>,
                             f: Form, id: string, now: Instant, later: Instant)
    requires f.period != ""
    requires open.Some? ==> open.value.id in t
    requires HandleSubmit(t, currentUser, open, f, id, now).Success?
    ensures var key := if open.Some? then open.value.id else id;
            var t' := HandleSubmit(t, currentUser, open, f, id, now).value;
            key in t' && OpenForm(Some(t'[key]), later) == f
  {
  }

  /** Filling the amount twice in a row gives the same amount and the same
      invoices: the second lookup reads the cache the first one left. */
  lemma SyncTwiceStable(d: Dialog, customers: map<string, Customer>, source: Source, now: Date, later: Date)
    ensures var once := HandleSyncFromErp(d, customers, source, now);
            var twice := HandleSyncFromErp(once, customers, source, later);
            twice.form == once.form && twice.synced == once.synced
  {
    var once := HandleSyncFromErp(d, customers, source, now);
    if d.form.customerId != "" && d.form.period != "" && LedgerCode(customers, d.form.customerId).Some? {
      CachedParseStable(d.cache, source, now, later);
    }
  }
}
