/** The personnel records of contexts/PersonnelContext.tsx: leave requests,
    kilometre readings and location points, each listed per user and each
    added with a drawn id and a stamp from the clock. */
module Personnel {
  import opened Wrappers
  import opened Calendar
  import opened Records
  import opened Store
  import opened Seqs

  // ---------------------------------------------------------------------
  // Per-user lists

  /** The records of `rs` owned by `userId`, in the order `rs` has them. */
  function ForUser<R(==,!new)>(rs: seq<R>, userId: string, owner: R -> string): (r: seq<R>)
    ensures forall x :: x in r <==> x in rs && owner(x) == userId
    ensures |r| <= |rs|
  {
    var keep := (x: R) => owner(x) == userId;
    OwnedMembers(rs, keep, userId, owner);
    Filter(rs, keep)
  }

  lemma OwnedMembers<R(!new)>(rs: seq<R>, keep: R -> bool, userId: string, owner: R -> string)
    requires forall x :: keep(x) == (owner(x) == userId)
    ensures forall x :: x in Filter(rs, keep) <==> x in rs && owner(x) == userId
  {
    forall x ensures x in Filter(rs, keep) <==> x in rs && keep(x) {
      FilterMembers(rs, keep, x);
    }
  }

  function LeaveOwner(l: LeaveRequest): string { l.userId }
  function KmOwner(k: KmRecord): string { k.userId }
  function LocationOwner(l: LocationRecord): string { l.userId }

  /** `getLeaveRequestsForUser(userId)` over the live list of requests. */
  function LeaveRequestsForUser(rs: seq<LeaveRequest>, userId: string): (r: seq<LeaveRequest>)
    ensures forall x :: x in r <==> x in rs && x.userId == userId
  {
    ForUser(rs, userId, LeaveOwner)
  }

  /** `getKmRecordsForUser(userId)` over the live list of readings. */
  function KmRecordsForUser(rs: seq<KmRecord>, userId: string): (r: seq<KmRecord>)
    ensures forall x :: x in r <==> x in rs && x.userId == userId
  {
    ForUser(rs, userId, KmOwner)
  }

  /** `getLocationHistoryForUser(userId)` over the live list of points. */
  function LocationHistoryForUser(rs: seq<LocationRecord>, userId: string): (r: seq<LocationRecord>)
    ensures forall x :: x in r <==> x in rs && x.userId == userId
  {
    ForUser(rs, userId, LocationOwner)
  }

  /** Stored order is kept: a record that joins the end of the list joins
      the end of its owner's list and no other user's. */
  lemma ForUserAppend<R(!new)>(rs: seq<R>, x: R, userId: string, owner: R -> string)
    ensures ForUser(rs + [x], userId, owner) == ForUser(rs, userId, owner) + (if owner(x) == userId then [x] else [])
  {
    var keep := (y: R) => owner(y) == userId;
    FilterAppend(rs, [x], keep);
    assert [x][..0] == [];
  }

  /** Every record is listed for its owner and for no one else: one user's
      list and the rest of the records add up to the whole list. */
  lemma ForUserPartition<R(!new)>(rs: seq<R>, userId: string, owner: R -> string)
    ensures |ForUser(rs, userId, owner)| + |Filter(rs, (x: R) => owner(x) != userId)| == |rs|
  {
    FilterPartition(rs, (x: R) => owner(x) == userId, (x: R) => owner(x) != userId);
  }

  // ---------------------------------------------------------------------
  // Adding records

  /** The draft part of a stored leave request. */
  function LeaveDraftOf(l: LeaveRequest): LeaveDraft {
    LeaveDraft(l.userId, l.kind, l.startDate, l.endDate, l.reason)
  }

  /** `addLeaveRequest(data)`: the request under the id drawn for it,
      pending, requested now; `add` rejects a taken key. */
  function AddLeaveRequest(t: map<string, LeaveRequest>, d: LeaveDraft, id: string, now: Instant)
    : (r: Result<map<string, LeaveRequest>, StoreError>)
    ensures r.Success? <==> id !in t
    ensures r.Failure? ==> r.error == KeyTaken
    ensures r.Success? ==> r.value.Keys == t.Keys + {id} && forall k :: k in t ==> r.value[k] == t[k]
    ensures r.Success? ==>
              var l := r.value[id];
              && l.id == id && LeaveDraftOf(l) == d && l.status == LeavePending && l.requestDate == IsoString(now)
    ensures r.Success? && Keyed(t, LeaveKey) ==> Keyed(r.value, LeaveKey)
  {
    AddRecord(t, LeaveKey, LeaveRequest(id, d.userId, d.kind, d.startDate, d.endDate, LeavePending, IsoString(now), d.reason))
  }

  /** `recordData.date || today`: a given non-empty date, else the current
      day (`toISOString().slice(0, 10)`). */
  function KmDate(given: Option<string>, now: Instant): (date: string)
    ensures date != ""
    ensures given.Some? && given.value != "" ==> date == given.value
    ensures given.None? || given.value == "" ==> date == IsoDay(now) && date == IsoString(now)[..10]
  {
    if given.Some? && given.value != "" then given.value else IsoDay(now)
  }

  /** `addKmRecord(data)`: the reading under the id drawn for it, dated as
      given or today; `add` rejects a taken key. */
  function AddKmRecord(t: map<string, KmRecord>, d: KmDraft, id: string, now: Instant)
    : (r: Result<map<string, KmRecord>, StoreError>)
    ensures r.Success? <==> id !in t
    ensures r.Failure? ==> r.error == KeyTaken
    ensures r.Success? ==> r.value.Keys == t.Keys + {id} && forall k :: k in t ==> r.value[k] == t[k]
    ensures r.Success? ==>
              var k := r.value[id];
              && k.id == id && k.userId == d.userId && k.km == d.km && k.shift == d.shift
              && k.date == KmDate(d.date, now)
    ensures r.Success? && Keyed(t, KmKey) ==> Keyed(r.value, KmKey)
  {
    AddRecord(t, KmKey, KmRecord(id, d.userId, KmDate(d.date, now), d.km, d.shift))
  }

  /** The draft part of a stored location point. */
  function LocationDraftOf(l: LocationRecord): LocationDraft {
    LocationDraft(l.userId, l.latitude, l.longitude, l.isVisit, l.customerId)
  }

  /** `addLocationRecord(data)`: the point under the id drawn for it,
      stamped now; `add` rejects a taken key. */
  function AddLocationRecord(t: map<string, LocationRecord>, d: LocationDraft, id: string, now: Instant)
    : (r: Result<map<string, LocationRecord>, StoreError>)
    ensures r.Success? <==> id !in t
    ensures r.Failure? ==> r.error == KeyTaken
    ensures r.Success? ==> r.value.Keys == t.Keys + {id} && forall k :: k in t ==> r.value[k] == t[k]
    ensures r.Success? ==>
              var l := r.value[id];
              && l.id == id && LocationDraftOf(l) == d && l.timestamp == IsoString(now)
    ensures r.Success? && Keyed(t, LocationKey) ==> Keyed(r.value, LocationKey)
  {
    AddRecord(t, LocationKey, LocationRecord(id, d.userId, IsoString(now), d.latitude, d.longitude, d.isVisit, d.customerId))
  }

  // ---------------------------------------------------------------------
  // Properties

  /** A new leave request shows up, pending, in its owner's list once the
      live list picks it up at its end. */
  lemma AddedLeaveListed(t: map<string, LeaveRequest>, rs: seq<LeaveRequest>, d: LeaveDraft, id: string, now: Instant)
    requires AddLeaveRequest(t, d, id, now).Success?
    ensures var l := AddLeaveRequest(t, d, id, now).value[id];
            && LeaveRequestsForUser(rs + [l], d.userId) == LeaveRequestsForUser(rs, d.userId) + [l]
            && l.status == LeavePending
  {
    ForUserAppend(rs, AddLeaveRequest(t, d, id, now).value[id], d.userId, LeaveOwner);
  }

  /** A reading without a date is dated on the day of its stamp: the same
      day `addLeaveRequest` would have requested on. */
  lemma UndatedKmIsToday(t: map<string, KmRecord>, d: KmDraft, id: string, now: Instant,
                         u: map<string, LeaveRequest>, l: LeaveDraft, lid: string)
    requires d.date.None? && id !in t && lid !in u
    ensures AddKmRecord(t, d, id, now).value[id].date == AddLeaveRequest(u, l, lid, now).value[lid].requestDate[..10]
  {
  }
}
