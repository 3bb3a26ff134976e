/** The reconciliation records of contexts/ReconciliationContext.tsx:
    creation on behalf of the signed-in user, partial update by key, and
    the newest-first listing. */
module Reconciliations {
  import opened Wrappers
  import opened Calendar
  import opened Records
  import opened Store

  /** `Omit<Reconciliation, 'id' | 'createdAt' | 'createdBy' | 'status'>`,
      what a caller hands to `addReconciliation`. */
  datatype ReconciliationDraft = ReconciliationDraft(
    customerId: string,
    kind: ReconciliationType,
    period: string,
    amount: real,
    lastEmailSent: Option<string>,
    customerResponse: Option<string>,
    notes: Option<string>,
    aiAnalysis: Option<string>)

  /** Why `addReconciliation` rejects: nobody is signed in, or the store
      refused the record. */
  datatype AddFailure = NotAuthenticated | Rejected(reason: StoreError)

  /** `Partial<Reconciliation>` without the primary key: `None` is a
      property the update object does not carry. */
  datatype Patch = Patch(
    customerId: Option<string>,
    kind: Option<ReconciliationType>,
    period: Option<string>,
    amount: Option<real>,
    status: Option<ReconciliationStatus>,
    createdAt: Option<string>,
    createdBy: Option<string>,
    lastEmailSent: Option<string>,
    customerResponse: Option<string>,
    notes: Option<string>,
    aiAnalysis: Option<string>)

  const NoChanges := Patch(None, None, None, None, None, None, None, None, None, None, None)

  /** The draft part of a stored reconciliation: the record without the
      properties `addReconciliation` fills in itself. */
  function DraftOf(rec: Reconciliation): ReconciliationDraft {
    ReconciliationDraft(rec.customerId, rec.kind, rec.period, rec.amount,
                        rec.lastEmailSent, rec.customerResponse, rec.notes, rec.aiAnalysis)
  }

  /** `addReconciliation(data)`: without a signed-in user it throws and
      stores nothing; otherwise it adds the draft under the id drawn for it,
      pending, created now by that user, and returns the id. `add` rejects
      a key that is already stored. */
  function AddReconciliation(t: map<string, Reconciliation>, currentUser: Option<User>, data: ReconciliationDraft,
                             id: string, now: Instant): (r: Result<(map<string, Reconciliation>, string), AddFailure>)
    ensures currentUser.None? ==> r == Failure(NotAuthenticated)
    ensures currentUser.Some? ==> (r.Success? <==> id !in t)
    ensures currentUser.Some? && id in t ==> r == Failure(Rejected(KeyTaken))
    ensures r.Success? ==> r.value.1 == id && r.value.0.Keys == t.Keys + {id}
    ensures r.Success? ==> forall k :: k in t ==> r.value.0[k] == t[k]
    ensures r.Success? ==>
              var rec := r.value.0[id];
              && rec.id == id && DraftOf(rec) == data && rec.status == Pending
              && rec.createdAt == IsoString(now) && rec.createdBy == currentUser.value.id
    ensures r.Success? && Keyed(t, ReconciliationKey) ==> Keyed(r.value.0, ReconciliationKey)
  {
    match currentUser
    case None => Failure(NotAuthenticated)
    case Some(user) =>
      if id in t then Failure(Rejected(KeyTaken))
      else
        var rec := Reconciliation(id, data.customerId, data.kind, data.period, data.amount, Pending,
                                  IsoString(now), user.id, data.lastEmailSent, data.customerResponse,
                                  data.notes, data.aiAnalysis);
        Success((t[id := rec], id))
  }

  /** The record with the properties of `u` written over it. */
  function Apply(rec: Reconciliation, u: Patch): (r: Reconciliation)
    ensures r.id == rec.id
    ensures r.customerId == (if u.customerId.Some? then u.customerId.value else rec.customerId)
    ensures r.kind == (if u.kind.Some? then u.kind.value else rec.kind)
    ensures r.period == (if u.period.Some? then u.period.value else rec.period)
    ensures r.amount == (if u.amount.Some? then u.amount.value else rec.amount)
    ensures r.status == (if u.status.Some? then u.status.value else rec.status)
    ensures r.createdAt == (if u.createdAt.Some? then u.createdAt.value else rec.createdAt)
    ensures r.createdBy == (if u.createdBy.Some? then u.createdBy.value else rec.createdBy)
    ensures r.lastEmailSent == (if u.lastEmailSent.Some? then u.lastEmailSent else rec.lastEmailSent)
    ensures r.customerResponse == (if u.customerResponse.Some? then u.customerResponse else rec.customerResponse)
    ensures r.notes == (if u.notes.Some? then u.notes else rec.notes)
    ensures r.aiAnalysis == (if u.aiAnalysis.Some? then u.aiAnalysis else rec.aiAnalysis)
  {
    Reconciliation(
      rec.id,
      u.customerId.GetOr(rec.customerId),
      u.kind.GetOr(rec.kind),
      u.period.GetOr(rec.period),
      u.amount.GetOr(rec.amount),
      u.status.GetOr(rec.status),
      u.createdAt.GetOr(rec.createdAt),
      u.createdBy.GetOr(rec.createdBy),
      if u.lastEmailSent.Some? then u.lastEmailSent else rec.lastEmailSent,
      if u.customerResponse.Some? then u.customerResponse else rec.customerResponse,
      if u.notes.Some? then u.notes else rec.notes,
      if u.aiAnalysis.Some? then u.aiAnalysis else rec.aiAnalysis)
  }

  /** `updateReconciliation(id, updates)` (`Table.update`): the stored
      record under `id` takes the properties the update carries; a key that
      is not stored makes it a no-op; no other record changes. */
  function UpdateReconciliation(t: map<string, Reconciliation>, id: string, u: Patch): (r: map<string, Reconciliation>)
    ensures r.Keys == t.Keys
    ensures forall k :: k in t && k != id ==> r[k] == t[k]
    ensures id in t ==> r[id] == Apply(t[id], u)
    ensures id !in t ==> r == t
    ensures Keyed(t, ReconciliationKey) ==> Keyed(r, ReconciliationKey)
  {
    if id in t then t[id := Apply(t[id], u)] else t
  }

  function CreatedAtOf(rec: Reconciliation): string { rec.createdAt }

  /** `orderBy('createdAt').reverse()`: every stored reconciliation, newest
      first. */
  function Listing(t: map<string, Reconciliation>): (rs: seq<Reconciliation>)
    ensures |rs| == |t|
    ensures forall i :: 0 <= i < |rs| ==> rs[i] in t.Values
    ensures forall i, j :: 0 <= i < j < |rs| ==> !StrLt(rs[i].createdAt, rs[j].createdAt)
  {
    ListDescending(t, CreatedAtOf)
  }

  // ---------------------------------------------------------------------
  // Properties

  /** An update that carries nothing changes nothing. */
  lemma NoChangesIdentity(t: map<string, Reconciliation>, id: string)
    ensures UpdateReconciliation(t, id, NoChanges) == t
  {
    if id in t {
      assert Apply(t[id], NoChanges) == t[id];
    }
  }

  /** Updating twice with the same properties is updating once. */
  lemma UpdateIdempotent(t: map<string, Reconciliation>, id: string, u: Patch)
    ensures UpdateReconciliation(UpdateReconciliation(t, id, u), id, u) == UpdateReconciliation(t, id, u)
  {
    if id in t {
      assert Apply(Apply(t[id], u), u) == Apply(t[id], u);
    }
  }

  /** Two updates to different properties of the same record commute. */
  lemma DisjointUpdatesCommute(t: map<string, Reconciliation>, id: string, u: Patch, v: Patch)
    requires u.customerId.None? || v.customerId.None?
    requires u.kind.None? || v.kind.None?
    requires u.period.None? || v.period.None?
    requires u.amount.None? || v.amount.None?
    requires u.status.None? || v.status.None?
    requires u.createdAt.None? || v.createdAt.None?
    requires u.createdBy.None? || v.createdBy.None?
    requires u.lastEmailSent.None? || v.lastEmailSent.None?
    requires u.customerResponse.None? || v.customerResponse.None?
    requires u.notes.None? || v.notes.None?
    requires u.aiAnalysis.None? || v.aiAnalysis.None?
    ensures UpdateReconciliation(UpdateReconciliation(t, id, u), id, v)
            == UpdateReconciliation(UpdateReconciliation(t, id, v), id, u)
  {
    if id in t {
      assert Apply(Apply(t[id], u), v) == Apply(Apply(t[id], v), u);
    }
  }

  /** The record `addReconciliation` stores is listed, and the caller can
      find it under the id it was given back. */
  lemma AddedIsListed(t: map<string, Reconciliation>, currentUser: Option<User>, data: ReconciliationDraft,
                      id: string, now: Instant)
    requires AddReconciliation(t, currentUser, data, id, now).Success?
    ensures var (t', key) := AddReconciliation(t, currentUser, data, id, now).value;
            key in t' && t'[key] in Listing(t') && DraftOf(t'[key]) == data
  {
    var (t', key) := AddReconciliation(t, currentUser, data, id, now).value;
    ListedComplete(t', CreatedAtOf, key);
  }
}
