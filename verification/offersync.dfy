/** `syncOffers` of contexts/ErpContext.tsx: after the resolver has run,
    every priced catalogue offer whose ledger code resolves is upserted by
    offer number (`teklifNo`): merged into the stored offer with that
    number, or stored as a new offer under a fresh id. */
module OfferSync {
  import opened Wrappers
  import opened Calendar
  import opened Records
  import opened Feed
  import opened Store
  import opened Seqs
  import opened ErpSync

  function OfferNo(o: Offer): string { o.teklifNo }

  /** The stored offers with number `no`. */
  function WithNo(t: map<string, Offer>, no: string): map<string, Offer> {
    map k | k in t && t[k].teklifNo == no :: t[k]
  }

  /** `existingOfferMap.get(no)`. The map is built from the `teklifNo`
      index, walked by number and then by id, so among stored offers
      sharing a number the one with the greatest id wins. */
  function OfferMatch(t: map<string, Offer>, no: string): (r: Option<string>)
    ensures r.Some? ==> r.value in t && t[r.value].teklifNo == no
    ensures r.Some? ==> forall k :: k in t && t[k].teklifNo == no ==> k == r.value || StrLt(k, r.value)
    ensures r.None? <==> forall k :: k in t ==> t[k].teklifNo != no
  {
    var sub := WithNo(t, no);
    NoneWithNo(t, no);
    if |sub| == 0 then None
    else
      var k := Last(sub, OfferNo);
      LastIsGreatest(sub, no, k);
      Some(k)
  }

  lemma NoneWithNo(t: map<string, Offer>, no: string)
    ensures |WithNo(t, no)| == 0 <==> forall k :: k in t ==> t[k].teklifNo != no
  {
    if k :| k in t && t[k].teklifNo == no {
      assert k in WithNo(t, no).Keys;
    }
  }

  lemma LastIsGreatest(sub: map<string, Offer>, no: string, m: string)
    requires forall k :: k in sub ==> sub[k].teklifNo == no
    requires IsLast(sub, OfferNo, m)
    ensures forall k :: k in sub ==> k == m || StrLt(k, m)
  {
    forall k | k in sub ensures k == m || StrLt(k, m) {
      assert !EntryLt(Entry(sub, OfferNo, m), Entry(sub, OfferNo, k));
      StrLtTotal(k, m);
    }
  }

  function ResolvedOfferIn(cmap: map<string, string>): ParsedOffer -> bool {
    (po: ParsedOffer) => Resolves(cmap, po.customerCurrentCode)
  }

  function UnresolvedOfferIn(cmap: map<string, string>): ParsedOffer -> bool {
    (po: ParsedOffer) => !Resolves(cmap, po.customerCurrentCode)
  }

  function MatchedIn(t: map<string, Offer>): ParsedOffer -> bool {
    (po: ParsedOffer) => OfferMatch(t, po.teklifNo).Some?
  }

  function UnmatchedIn(t: map<string, Offer>): ParsedOffer -> bool {
    (po: ParsedOffer) => OfferMatch(t, po.teklifNo).None?
  }

  /** `{...existing, ...offerData, customerId}`: the stored offer keeps its
      id, creation time and follow-up mail; the rest follows the parse. */
  function Merged(existing: Offer, po: ParsedOffer, customerId: string): Offer {
    existing.(teklifNo := po.teklifNo, customerId := customerId, firma := po.firma, teklifVeren := po.teklifVeren,
              items := po.items, notlar := po.notlar, toplam := po.toplam, kdv := po.kdv, genelToplam := po.genelToplam)
  }

  /** `{...offerData, id, createdAt, customerId}`. */
  function Created(po: ParsedOffer, id: string, stamp: string, customerId: string): Offer {
    Offer(id, po.teklifNo, stamp, customerId, po.firma, po.teklifVeren, po.items, po.notlar,
          po.toplam, po.kdv, po.genelToplam, None)
  }

  /** How many ids were drawn before surviving offer `i`. */
  function OfferDraws(t: map<string, Offer>, kept: seq<ParsedOffer>, i: int): (n: nat)
    requires 0 <= i <= |kept|
    ensures n <= i
  {
    |Filter(kept[..i], UnmatchedIn(t))|
  }

  function UpsertOffer(t: map<string, Offer>, po: ParsedOffer, id: string, stamp: string, customerId: string): Offer {
    match OfferMatch(t, po.teklifNo)
    case Some(k) => Merged(t[k], po, customerId)
    case None => Created(po, id, stamp, customerId)
  }

  /** `offersToUpsert`, for the surviving offers in catalogue order. */
  function Upserted(t: map<string, Offer>, cmap: map<string, string>, kept: seq<ParsedOffer>,
                    ids: seq<string>, stamp: string): (rs: seq<Offer>)
    requires forall i :: 0 <= i < |kept| ==> Resolves(cmap, kept[i].customerCurrentCode)
    requires |kept| <= |ids|
    ensures |rs| == |kept|
  {
    seq(|kept|, i requires 0 <= i < |kept| && Resolves(cmap, kept[i].customerCurrentCode) =>
      UpsertOffer(t, kept[i], ids[OfferDraws(t, kept, i)], stamp, cmap[kept[i].customerCurrentCode]))
  }

  /** The offer table after the put and the two counters. */
  datatype OfferWrite = OfferWrite(offers: map<string, Offer>, added: nat, updated: nat)

  /** The offer step of `syncOffers` for a given code-to-id map. */
  function WriteOffers(t: map<string, Offer>, cmap: map<string, string>, offers: seq<ParsedOffer>,
                       ids: seq<string>, stamp: string): (w: OfferWrite)
    requires |offers| <= |ids|
    ensures w.added + w.updated + |Filter(offers, UnresolvedOfferIn(cmap))| == |offers|
  {
    var kept := Filter(offers, ResolvedOfferIn(cmap));
    FilterPartition(kept, UnmatchedIn(t), MatchedIn(t));
    FilterPartition(offers, ResolvedOfferIn(cmap), UnresolvedOfferIn(cmap));
    OfferWrite(PutAll(t, Upserted(t, cmap, kept, ids, stamp), OfferKey),
               |Filter(kept, UnmatchedIn(t))|, |Filter(kept, MatchedIn(t))|)
  }

  // ---------------------------------------------------------------------
  // Properties of the offer step

  /** What the offer step works with: a keyed offer table, unused ids
      enough for every offer, and surviving offers that resolve. */
  predicate OfferInputs(t: map<string, Offer>, cmap: map<string, string>, kept: seq<ParsedOffer>, ids: seq<string>) {
    && Keyed(t, OfferKey) && FreshIds(ids, t) && |kept| <= |ids|
    && forall i :: 0 <= i < |kept| ==> Resolves(cmap, kept[i].customerCurrentCode)
  }

  /** The record upserted for surviving offer `i`: a merge into its match,
      kept under the match's key, or a new offer under the next drawn id. */
  lemma UpsertedOffer(t: map<string, Offer>, cmap: map<string, string>, kept: seq<ParsedOffer>,
                      ids: seq<string>, stamp: string, i: int)
    requires OfferInputs(t, cmap, kept, ids) && 0 <= i < |kept|
    ensures var r := Upserted(t, cmap, kept, ids, stamp)[i];
      var c := cmap[kept[i].customerCurrentCode];
      match OfferMatch(t, kept[i].teklifNo)
      case Some(m) => m in t && r == Merged(t[m], kept[i], c) && r.id == m
      case None => r == Created(kept[i], ids[OfferDraws(t, kept, i)], stamp, c) && r.id !in t
  {
  }

  lemma DrawsDiffer(t: map<string, Offer>, cmap: map<string, string>, kept: seq<ParsedOffer>,
                    ids: seq<string>, i: int, j: int)
    requires OfferInputs(t, cmap, kept, ids) && 0 <= i < j < |kept|
    requires OfferMatch(t, kept[i].teklifNo).None?
    ensures ids[OfferDraws(t, kept, i)] != ids[OfferDraws(t, kept, j)]
  {
    assert UnmatchedIn(t)(kept[i]);
    FilterGrows(kept, i, j, UnmatchedIn(t));
  }

  /** A new offer is stored under its drawn id: no later record of the
      batch carries that id. */
  lemma CreatedStored(t: map<string, Offer>, cmap: map<string, string>, kept: seq<ParsedOffer>,
                      ids: seq<string>, stamp: string, i: int)
    requires OfferInputs(t, cmap, kept, ids) && 0 <= i < |kept|
    requires OfferMatch(t, kept[i].teklifNo).None?
    ensures var rs := Upserted(t, cmap, kept, ids, stamp);
      PutAll(t, rs, OfferKey)[rs[i].id] == rs[i]
  {
    var rs := Upserted(t, cmap, kept, ids, stamp);
    UpsertedOffer(t, cmap, kept, ids, stamp, i);
    forall j | i < j < |rs| ensures OfferKey(rs[j]) != OfferKey(rs[i]) {
      UpsertedOffer(t, cmap, kept, ids, stamp, j);
      if OfferMatch(t, kept[j].teklifNo).None? {
        DrawsDiffer(t, cmap, kept, ids, i, j);
      }
    }
    PutAllStores(t, rs, OfferKey, i);
  }

  /** A stored offer keeps its id, number, creation time and follow-up
      mail through the upsert. */
  lemma StoredOfferKept(t: map<string, Offer>, cmap: map<string, string>, kept: seq<ParsedOffer>,
                        ids: seq<string>, stamp: string, k: string)
    requires OfferInputs(t, cmap, kept, ids) && k in t
    ensures var t' := PutAll(t, Upserted(t, cmap, kept, ids, stamp), OfferKey);
      && k in t' && t'[k].id == k && t'[k].teklifNo == t[k].teklifNo
      && t'[k].createdAt == t[k].createdAt && t'[k].aiFollowUpEmail == t[k].aiFollowUpEmail
  {
    var rs := Upserted(t, cmap, kept, ids, stamp);
    if k in KeysOf(rs, OfferKey) {
      var i := PutAllFrom(t, rs, OfferKey, k);
      UpsertedOffer(t, cmap, kept, ids, stamp, i);
    } else {
      PutAllKeeps(t, rs, OfferKey, k);
    }
  }

  /** The stored record of a written offer carries the number, contents
      and resolved customer of a surviving offer; an offer the store did
      not hold before has a drawn id, was created now and has no
      follow-up mail. */
  predicate FromParse(r: Offer, po: ParsedOffer, customerId: string) {
    && r.teklifNo == po.teklifNo && r.customerId == customerId
    && r.firma == po.firma && r.teklifVeren == po.teklifVeren && r.items == po.items && r.notlar == po.notlar
    && r.toplam == po.toplam && r.kdv == po.kdv && r.genelToplam == po.genelToplam
  }

  lemma WrittenOffer(t: map<string, Offer>, cmap: map<string, string>, kept: seq<ParsedOffer>,
                     ids: seq<string>, stamp: string, k: string) returns (i: int)
    requires OfferInputs(t, cmap, kept, ids)
    requires k in KeysOf(Upserted(t, cmap, kept, ids, stamp), OfferKey)
    ensures var t' := PutAll(t, Upserted(t, cmap, kept, ids, stamp), OfferKey);
      && 0 <= i < |kept| && k in t'
      && FromParse(t'[k], kept[i], cmap[kept[i].customerCurrentCode])
      && (k !in t ==> k in ids && t'[k].createdAt == stamp && t'[k].aiFollowUpEmail.None?)
  {
    var rs := Upserted(t, cmap, kept, ids, stamp);
    i := PutAllFrom(t, rs, OfferKey, k);
    UpsertedOffer(t, cmap, kept, ids, stamp, i);
  }

  /** After the upsert every surviving offer's number is stored. */
  lemma NumberStored(t: map<string, Offer>, cmap: map<string, string>, kept: seq<ParsedOffer>,
                     ids: seq<string>, stamp: string, i: int)
    requires OfferInputs(t, cmap, kept, ids) && 0 <= i < |kept|
    ensures OfferMatch(PutAll(t, Upserted(t, cmap, kept, ids, stamp), OfferKey), kept[i].teklifNo).Some?
  {
    var rs := Upserted(t, cmap, kept, ids, stamp);
    var t' := PutAll(t, rs, OfferKey);
    UpsertedOffer(t, cmap, kept, ids, stamp, i);
    match OfferMatch(t, kept[i].teklifNo)
    case Some(m) =>
      StoredOfferKept(t, cmap, kept, ids, stamp, m);
      assert t'[m].teklifNo == kept[i].teklifNo;
    case None =>
      CreatedStored(t, cmap, kept, ids, stamp, i);
      assert t'[rs[i].id].teklifNo == kept[i].teklifNo;
  }

  /** The upsert keeps the offer table keyed by id. */
  lemma OffersKeyed(t: map<string, Offer>, cmap: map<string, string>, offers: seq<ParsedOffer>,
                    ids: seq<string>, stamp: string)
    requires Keyed(t, OfferKey) && |offers| <= |ids|
    ensures Keyed(WriteOffers(t, cmap, offers, ids, stamp).offers, OfferKey)
  {
    var kept := Filter(offers, ResolvedOfferIn(cmap));
    PutAllKeyed(t, Upserted(t, cmap, kept, ids, stamp), OfferKey);
  }

  /** Every surviving offer's number is already stored. */
  predicate AllStored(t: map<string, Offer>, kept: seq<ParsedOffer>) {
    forall i :: 0 <= i < |kept| ==> OfferMatch(t, kept[i].teklifNo).Some?
  }

  /** Nothing is counted as added exactly when every surviving offer's
      number is already stored. */
  lemma NoOfferAdded(t: map<string, Offer>, cmap: map<string, string>, offers: seq<ParsedOffer>,
                     ids: seq<string>, stamp: string)
    requires |offers| <= |ids|
    ensures WriteOffers(t, cmap, offers, ids, stamp).added == 0
        <==> AllStored(t, Filter(offers, ResolvedOfferIn(cmap)))
  {
    var kept := Filter(offers, ResolvedOfferIn(cmap));
    OffersAdded(t, cmap, offers, ids, stamp);
    AllStoredIff(t, kept);
  }

  lemma AllStoredIff(t: map<string, Offer>, kept: seq<ParsedOffer>)
    ensures |Filter(kept, UnmatchedIn(t))| == 0 <==> AllStored(t, kept)
  {
    FilterEmpty(kept, UnmatchedIn(t));
  }

  lemma OffersAdded(t: map<string, Offer>, cmap: map<string, string>, offers: seq<ParsedOffer>,
                    ids: seq<string>, stamp: string)
    requires |offers| <= |ids|
    ensures WriteOffers(t, cmap, offers, ids, stamp).added == |Filter(Filter(offers, ResolvedOfferIn(cmap)), UnmatchedIn(t))|
  {
  }

  /** Upserting the same offers again adds nothing. */
  lemma ReupsertAddsNothing(t: map<string, Offer>, cmap: map<string, string>, offers: seq<ParsedOffer>,
                            ids: seq<string>, stamp: string, again: seq<string>, later: string)
    requires Keyed(t, OfferKey) && FreshIds(ids, t) && |offers| <= |ids|
    requires |offers| <= |again|
    ensures WriteOffers(WriteOffers(t, cmap, offers, ids, stamp).offers, cmap, offers, again, later).added == 0
  {
    var kept := Filter(offers, ResolvedOfferIn(cmap));
    var t' := WriteOffers(t, cmap, offers, ids, stamp).offers;
    forall i | 0 <= i < |kept| ensures OfferMatch(t', kept[i].teklifNo).Some? {
      NumberStored(t, cmap, kept, ids, stamp, i);
    }
    NoOfferAdded(t', cmap, offers, again, later);
  }

  // ---------------------------------------------------------------------
  // The sync

  /** `syncOffers`: resolve customers, upsert the surviving catalogue
      offers by number, and stamp `lastSyncOffers`. New offers draw from
      `offerIds`. Reports every priced offer as fetched. */
  function SyncOffers(st: Erp, feed: Parse, now: Instant, ids: seq<string>, offerIds: seq<string>): (o: Outcome)
    requires Ready(st.db, feed, ids)
    requires FreshIds(offerIds, st.db.offers) && |feed.result.offers| <= |offerIds|
    ensures Valid(o.state.db)
    ensures o.state.cache == feed.cache
    ensures o.state.db.customers == ResolveCustomers(st.db, feed, now, ids).customers
    ensures o.state.db.offers
            == WriteOffers(st.db.offers, ResolveCustomers(st.db, feed, now, ids).customerMap,
                           feed.result.offers, offerIds, IsoString(now)).offers
    ensures o.state.db.(customers := st.db.customers, offers := st.db.offers, erpSettings := st.db.erpSettings) == st.db
    ensures o.result.Success? <==> st.db.erpSettings.Some?
    ensures o.result.Failure? ==> o.state.db.erpSettings == st.db.erpSettings
  {
    var r := ResolveCustomers(st.db, feed, now, ids);
    var offers := feed.result.offers;
    var w := WriteOffers(st.db.offers, r.customerMap, offers, offerIds, IsoString(now));
    OffersKeyed(st.db.offers, r.customerMap, offers, offerIds, IsoString(now));
    ValidWithOffers(st.db.(customers := r.customers), w.offers);
    Finish(st.db.(customers := r.customers, offers := w.offers), r.cache, OffersSynced, now,
           SyncResult("Teklif", |offers|, w.added, w.updated))
  }

  /** `syncOffers` reports every priced offer as fetched, each surviving
      one as added or updated by the upsert and the rest as dropped, and
      stamps `lastSyncOffers` with now. */
  lemma SyncOffersReport(st: Erp, feed: Parse, now: Instant, ids: seq<string>, offerIds: seq<string>)
    requires Ready(st.db, feed, ids)
    requires FreshIds(offerIds, st.db.offers) && |feed.result.offers| <= |offerIds|
    ensures var o := SyncOffers(st, feed, now, ids, offerIds);
      var w := WriteOffers(st.db.offers, ResolveCustomers(st.db, feed, now, ids).customerMap,
                           feed.result.offers, offerIds, IsoString(now));
      o.result.Success? ==>
        && o.result.value.kind == "Teklif"
        && o.result.value.fetched == |feed.result.offers|
        && o.result.value.added == w.added && o.result.value.updated == w.updated
        && o.result.value.fetched == o.result.value.added + o.result.value.updated
             + |Filter(feed.result.offers, UnresolvedOfferIn(ResolveCustomers(st.db, feed, now, ids).customerMap))|
        && o.state.db.erpSettings == Some(Stamped(st.db.erpSettings.value, OffersSynced, IsoString(now)))
  {
  }

  /** The surviving offers of a sync. */
  function Kept(db: Db, feed: Parse, now: Instant, ids: seq<string>): seq<ParsedOffer>
    requires Ready(db, feed, ids)
  {
    Filter(feed.result.offers, ResolvedOfferIn(ResolveCustomers(db, feed, now, ids).customerMap))
  }

  lemma SyncOfferInputs(st: Erp, feed: Parse, now: Instant, ids: seq<string>, offerIds: seq<string>)
    requires Ready(st.db, feed, ids)
    requires FreshIds(offerIds, st.db.offers) && |feed.result.offers| <= |offerIds|
    ensures OfferInputs(st.db.offers, ResolveCustomers(st.db, feed, now, ids).customerMap, Kept(st.db, feed, now, ids), offerIds)
  {
  }

  /** Every stored offer survives the sync with its id, number, creation
      time and follow-up mail. */
  lemma SyncOffersKeepsIdentity(st: Erp, feed: Parse, now: Instant, ids: seq<string>, offerIds: seq<string>, k: string)
    requires Ready(st.db, feed, ids)
    requires FreshIds(offerIds, st.db.offers) && |feed.result.offers| <= |offerIds|
    requires k in st.db.offers
    ensures var t' := SyncOffers(st, feed, now, ids, offerIds).state.db.offers;
      && k in t' && t'[k].id == st.db.offers[k].id && t'[k].teklifNo == st.db.offers[k].teklifNo
      && t'[k].createdAt == st.db.offers[k].createdAt && t'[k].aiFollowUpEmail == st.db.offers[k].aiFollowUpEmail
  {
    SyncOfferInputs(st, feed, now, ids, offerIds);
    StoredOfferKept(st.db.offers, ResolveCustomers(st.db, feed, now, ids).customerMap, Kept(st.db, feed, now, ids),
                    offerIds, IsoString(now), k);
  }

  /** A surviving offer matched by number is merged into the matching
      stored offer: under its id, with the parse's contents and the
      resolved customer of the last surviving offer with that number. */
  lemma SyncOffersMerges(st: Erp, feed: Parse, now: Instant, ids: seq<string>, offerIds: seq<string>, i: int)
    returns (j: int)
    requires Ready(st.db, feed, ids)
    requires FreshIds(offerIds, st.db.offers) && |feed.result.offers| <= |offerIds|
    requires 0 <= i < |Kept(st.db, feed, now, ids)|
    requires OfferMatch(st.db.offers, Kept(st.db, feed, now, ids)[i].teklifNo).Some?
    ensures var kept := Kept(st.db, feed, now, ids);
      var m := OfferMatch(st.db.offers, kept[i].teklifNo).value;
      var t' := SyncOffers(st, feed, now, ids, offerIds).state.db.offers;
      && 0 <= j < |kept| && kept[j].teklifNo == kept[i].teklifNo
      && m in t' && t'[m].id == m
      && FromParse(t'[m], kept[j], ResolveCustomers(st.db, feed, now, ids).customerMap[kept[j].customerCurrentCode])
  {
    var cmap := ResolveCustomers(st.db, feed, now, ids).customerMap;
    var kept := Kept(st.db, feed, now, ids);
    var t := st.db.offers;
    var m := OfferMatch(t, kept[i].teklifNo).value;
    SyncOfferInputs(st, feed, now, ids, offerIds);
    UpsertedOffer(t, cmap, kept, offerIds, IsoString(now), i);
    StoredOfferKept(t, cmap, kept, offerIds, IsoString(now), m);
    j := WrittenOffer(t, cmap, kept, offerIds, IsoString(now), m);
  }

  /** A surviving offer no stored offer matches is stored under a fresh
      id, keeps its parsed number and contents, links to its resolved
      customer, was created now and has no follow-up mail. */
  lemma SyncOffersCreates(st: Erp, feed: Parse, now: Instant, ids: seq<string>, offerIds: seq<string>, i: int)
    returns (k: string)
    requires Ready(st.db, feed, ids)
    requires FreshIds(offerIds, st.db.offers) && |feed.result.offers| <= |offerIds|
    requires 0 <= i < |Kept(st.db, feed, now, ids)|
    requires OfferMatch(st.db.offers, Kept(st.db, feed, now, ids)[i].teklifNo).None?
    ensures var kept := Kept(st.db, feed, now, ids);
      var t' := SyncOffers(st, feed, now, ids, offerIds).state.db.offers;
      && k in offerIds && k !in st.db.offers && k in t'
      && FromParse(t'[k], kept[i], ResolveCustomers(st.db, feed, now, ids).customerMap[kept[i].customerCurrentCode])
      && t'[k].createdAt == IsoString(now) && t'[k].aiFollowUpEmail.None?
  {
    var cmap := ResolveCustomers(st.db, feed, now, ids).customerMap;
    var kept := Kept(st.db, feed, now, ids);
    SyncOfferInputs(st, feed, now, ids, offerIds);
    UpsertedOffer(st.db.offers, cmap, kept, offerIds, IsoString(now), i);
    CreatedStored(st.db.offers, cmap, kept, offerIds, IsoString(now), i);
    k := Upserted(st.db.offers, cmap, kept, offerIds, IsoString(now))[i].id;
  }

  /** The customer an upserted offer links to is the stored customer that
      holds the parsed properties of the offer's ledger code. */
  lemma SyncOffersLinks(st: Erp, feed: Parse, now: Instant, ids: seq<string>, i: int)
    requires Ready(st.db, feed, ids)
    requires 0 <= i < |Kept(st.db, feed, now, ids)|
    ensures var r := ResolveCustomers(st.db, feed, now, ids);
      var c := Kept(st.db, feed, now, ids)[i].customerCurrentCode;
      && c in r.customerMap && r.customerMap[c] in r.customers
      && c in feed.result.customers
      && r.customers[r.customerMap[c]].ledger == feed.result.customers[c]
  {
    ResolverLinks(st.db, feed, now, ids);
  }

  /** Running `syncOffers` again over a fetch of the same export adds no
      offer: every surviving offer's number is stored after the first run. */
  lemma ResyncOffersAddsNothing(st: Erp, feed: Parse, now: Instant, ids: seq<string>, offerIds: seq<string>,
                                feed2: Parse, later: Instant, again: seq<string>, moreIds: seq<string>)
    requires Ready(st.db, feed, ids)
    requires FreshIds(offerIds, st.db.offers) && |feed.result.offers| <= |offerIds|
    requires var db1 := SyncOffers(st, feed, now, ids, offerIds).state.db;
      Ready(db1, feed2, again) && SameFeed(feed, feed2) && FreshIds(moreIds, db1.offers) && |feed2.result.offers| <= |moreIds|
    ensures var o := SyncOffers(SyncOffers(st, feed, now, ids, offerIds).state, feed2, later, again, moreIds);
      o.result.Success? ==> o.result.value.added == 0
  {
    var st1 := SyncOffers(st, feed, now, ids, offerIds).state;
    var cmap := ResolveCustomers(st.db, feed, now, ids).customerMap;
    ResyncSameMap(st.db, feed, now, ids, st1.db, feed2, later, again);
    ReupsertAddsNothing(st.db.offers, cmap, feed.result.offers, offerIds, IsoString(now), moreIds, IsoString(later));
  }
}
