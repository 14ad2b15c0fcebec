/**
 * The ad service: the `ads` document collection and the per-slot cache in front
 * of it. The cache maps a slot to the ads last read for it and the time of that
 * read; an entry is served for five minutes. Writing an ad invalidates the
 * cache for some slots only, so a cached list can lag behind the collection.
 */
module AdService {
  import opened Wrappers
  import opened Lists

  /** Lifetime of a cache entry, in milliseconds. */
  const CacheDuration: int := 5 * 60 * 1000

  /** The members of the `AdSlot` union type. Nothing at run time checks a slot against it. */
  predicate IsAdSlot(s: string) {
    s == "T20" || s == "IPL" || s == "ODI" || s == "WPL" || s == "Test" || s == "Mixed" ||
    s == "Q1_Q2" || s == "Q2_Q3" || s == "Q3_Q4" || s == "Q4_Q5" || s == "AfterQuiz"
  }

  datatype AdType = Image | Video

  /** A document of the `ads` collection. Server timestamps are not modelled. */
  datatype Ad = Ad(
    id: string,
    companyName: string,
    adSlot: string,
    adType: AdType,
    mediaUrl: string,
    redirectUrl: string,
    revenue: int,
    viewCount: int,
    clickCount: int,
    isActive: bool)

  /** The fields an admin may change with `updateAd`; `None` leaves a field as it is. */
  datatype AdUpdate = AdUpdate(
    companyName: Option<string>,
    adSlot: Option<string>,
    adType: Option<AdType>,
    mediaUrl: Option<string>,
    redirectUrl: Option<string>,
    revenue: Option<int>,
    isActive: Option<bool>)

  datatype CacheEntry = CacheEntry(ads: seq<Ad>, timestamp: int)

  type Cache = map<string, CacheEntry>

  /** The guard of `getAdsBySlot`/`getAdBySlot`: the argument is a string, and not the empty one. */
  predicate IsSlotArgument(slot: Option<string>) {
    slot.Some? && |slot.value| > 0
  }

  /** The answer to the query `adSlot == slot && isActive == true`, in collection order. */
  function ActiveInSlot(docs: seq<Ad>, slot: string): (r: seq<Ad>)
    ensures |r| <= |docs|
    ensures forall a :: a in r <==> a in docs && a.adSlot == slot && a.isActive
  {
    if docs == [] then []
    else (if docs[0].adSlot == slot && docs[0].isActive then [docs[0]] else []) + ActiveInSlot(docs[1..], slot)
  }

  predicate IsActiveAd(a: Ad) { a.isActive }

  /**
   * The answer to the query `isActive == true` that feeds the subscription
   * callback: the active documents, in collection order and with their
   * multiplicity, so that it is the collection filtered on `isActive`.
   */
  function ActiveAds(docs: seq<Ad>): (r: seq<Ad>)
    ensures r == Filter(docs, IsActiveAd)
    ensures IsSubsequence(r, docs)
    ensures forall a :: a in r <==> a in docs && a.isActive
  {
    FilterIsSubsequence(docs, IsActiveAd);
    if docs == [] then []
    else
      FilterCons(docs[0], docs[1..], IsActiveAd);
      assert [docs[0]] + docs[1..] == docs;
      (if docs[0].isActive then [docs[0]] else []) + ActiveAds(docs[1..])
  }

  /** `isCacheValid`: an entry exists and is younger than five minutes. */
  predicate IsCacheValid(cache: Cache, slot: string, now: int) {
    slot in cache && now - cache[slot].timestamp < CacheDuration
  }

  /** `getCachedAds`: the cached list while the entry is valid; `null` otherwise. */
  function CachedAds(cache: Cache, slot: string, now: int): (r: Option<seq<Ad>>)
    ensures r.Some? <==> IsCacheValid(cache, slot, now)
    ensures r.Some? ==> r.value == cache[slot].ads
  {
    if IsCacheValid(cache, slot, now) then Some(cache[slot].ads) else None
  }

  /** An entry written at time `t` is served exactly while `now < t + 300000`. */
  lemma EntryLifetime(cache: Cache, slot: string, ads: seq<Ad>, t: int, now: int)
    ensures CachedAds(cache[slot := CacheEntry(ads, t)], slot, now) == (if now < t + 300000 then Some(ads) else None)
  {
  }

  /** Every cached list is what the query would answer now. */
  ghost predicate Coherent(cache: Cache, docs: seq<Ad>) {
    forall s :: s in cache ==> cache[s].ads == ActiveInSlot(docs, s)
  }

  /** A new ad outside `slot` does not change that slot's query answer. */
  lemma {:induction false} ActiveInSlotAppend(docs: seq<Ad>, ad: Ad, slot: string)
    ensures ActiveInSlot(docs + [ad], slot) ==
            ActiveInSlot(docs, slot) + (if ad.adSlot == slot && ad.isActive then [ad] else [])
  {
    if docs != [] {
      assert (docs + [ad])[1..] == docs[1..] + [ad];
      ActiveInSlotAppend(docs[1..], ad, slot);
    }
  }

  /** The record `createAd` writes. */
  function NewAd(id: string, companyName: string, adSlot: string, adType: AdType,
                 mediaUrl: string, redirectUrl: string, revenue: int): (a: Ad)
    ensures a.viewCount == 0 && a.clickCount == 0 && a.isActive
    ensures a.id == id && a.adSlot == adSlot && a.revenue == revenue
    ensures a.companyName == companyName && a.adType == adType
    ensures a.mediaUrl == mediaUrl && a.redirectUrl == redirectUrl
  {
    Ad(id, companyName, adSlot, adType, mediaUrl, redirectUrl, revenue, 0, 0, true)
  }

  /** Adding an ad and dropping its slot's entry keeps every other cached list current. */
  lemma CreateKeepsCoherent(cache: Cache, docs: seq<Ad>, ad: Ad)
    requires Coherent(cache, docs)
    ensures Coherent(cache - {ad.adSlot}, docs + [ad])
  {
    forall s | s in cache - {ad.adSlot}
      ensures (cache - {ad.adSlot})[s].ads == ActiveInSlot(docs + [ad], s)
    {
      ActiveInSlotAppend(docs, ad, s);
    }
  }

  /** `{...doc, ...updates}` for one document. */
  function Patch(a: Ad, u: AdUpdate): Ad {
    a.(companyName := u.companyName.GetOr(a.companyName),
       adSlot := u.adSlot.GetOr(a.adSlot),
       adType := u.adType.GetOr(a.adType),
       mediaUrl := u.mediaUrl.GetOr(a.mediaUrl),
       redirectUrl := u.redirectUrl.GetOr(a.redirectUrl),
       revenue := u.revenue.GetOr(a.revenue),
       isActive := u.isActive.GetOr(a.isActive))
  }

  /** The collection after `updateDoc(doc(db, 'ads', id), updates)`. */
  function UpdateDocs(docs: seq<Ad>, id: string, u: AdUpdate): (r: seq<Ad>)
    ensures |r| == |docs|
    ensures forall i :: 0 <= i < |docs| ==> r[i] == if docs[i].id == id then Patch(docs[i], u) else docs[i]
  {
    if docs == [] then []
    else [if docs[0].id == id then Patch(docs[0], u) else docs[0]] + UpdateDocs(docs[1..], id, u)
  }

  /** The test `deleteDoc` leaves a document standing by. */
  function OtherId(id: string): Ad -> bool {
    (a: Ad) => a.id != id
  }

  /**
   * The collection after `deleteDoc(doc(db, 'ads', id))`: the documents
   * without the id, in collection order.
   */
  function DeleteDocs(docs: seq<Ad>, id: string): (r: seq<Ad>)
    ensures r == Filter(docs, OtherId(id))
    ensures IsSubsequence(r, docs)
    ensures forall a :: a in r <==> a in docs && a.id != id
  {
    FilterIsSubsequence(docs, OtherId(id));
    if docs == [] then []
    else
      FilterCons(docs[0], docs[1..], OtherId(id));
      assert [docs[0]] + docs[1..] == docs;
      (if docs[0].id == id then [] else [docs[0]]) + DeleteDocs(docs[1..], id)
  }

  predicate HasId(docs: seq<Ad>, id: string) {
    exists i :: 0 <= i < |docs| && docs[i].id == id
  }

  /** `updateAd` removes the cache entry of `updates.adSlot` when that field is truthy. */
  function InvalidateForUpdate(cache: Cache, u: AdUpdate): (r: Cache)
    ensures u.adSlot.Some? && u.adSlot.value != "" ==> r == cache - {u.adSlot.value}
    ensures !(u.adSlot.Some? && u.adSlot.value != "") ==> r == cache
  {
    if u.adSlot.Some? && u.adSlot.value != "" then cache - {u.adSlot.value} else cache
  }

  /** Moving an ad to another slot invalidates only the new slot: the old slot keeps listing it. */
  lemma SlotMoveLeavesOldSlotStale()
    ensures var a := NewAd("a1", "Acme", "T20", Image, "m", "r", 100);
            var docs := [a];
            var cache := map["T20" := CacheEntry([a], 0)];
            var u := AdUpdate(None, Some("IPL"), None, None, None, None, None);
            Coherent(cache, docs) &&
            CachedAds(InvalidateForUpdate(cache, u), "T20", 1) == Some([a]) &&
            ActiveInSlot(UpdateDocs(docs, "a1", u), "T20") == []
  {
    var a := NewAd("a1", "Acme", "T20", Image, "m", "r", 100);
    var docs := [a];
    var cache := map["T20" := CacheEntry([a], 0)];
    forall s | s in cache ensures cache[s].ads == ActiveInSlot(docs, s) {
      assert s == "T20";
    }
  }

  /** Deactivating an ad leaves its slot's entry in place: the ad is served until the entry expires. */
  lemma DeactivationLeavesEntryStale()
    ensures var a := NewAd("a1", "Acme", "T20", Image, "m", "r", 100);
            var docs := [a];
            var cache := map["T20" := CacheEntry([a], 0)];
            var u := AdUpdate(None, None, None, None, None, None, Some(false));
            Coherent(cache, docs) &&
            CachedAds(InvalidateForUpdate(cache, u), "T20", CacheDuration - 1) == Some([a]) &&
            ActiveInSlot(UpdateDocs(docs, "a1", u), "T20") == []
  {
    var a := NewAd("a1", "Acme", "T20", Image, "m", "r", 100);
    var docs := [a];
    var cache := map["T20" := CacheEntry([a], 0)];
    forall s | s in cache ensures cache[s].ads == ActiveInSlot(docs, s) {
      assert s == "T20";
    }
  }

  /** `deleteAd` never invalidates: a deleted ad is served until its slot's entry expires. */
  lemma DeletionLeavesEntryStale()
    ensures var a := NewAd("a1", "Acme", "T20", Image, "m", "r", 100);
            var docs := [a];
            var cache := map["T20" := CacheEntry([a], 0)];
            Coherent(cache, docs) &&
            CachedAds(cache, "T20", CacheDuration - 1) == Some([a]) &&
            DeleteDocs(docs, "a1") == []
  {
    var a := NewAd("a1", "Acme", "T20", Image, "m", "r", 100);
    var docs := [a];
    var cache := map["T20" := CacheEntry([a], 0)];
    forall s | s in cache ensures cache[s].ads == ActiveInSlot(docs, s) {
      assert s == "T20";
    }
  }

  /** An update that keeps its ads out of `s` before and after leaves the answer for `s` as it was. */
  lemma {:induction false} UpdateOutsideSlot(docs: seq<Ad>, id: string, u: AdUpdate, s: string)
    requires forall i :: 0 <= i < |docs| && docs[i].id == id ==>
               docs[i].adSlot != s && Patch(docs[i], u).adSlot != s
    ensures ActiveInSlot(UpdateDocs(docs, id, u), s) == ActiveInSlot(docs, s)
  {
    if docs != [] {
      UpdateOutsideSlot(docs[1..], id, u, s);
      assert UpdateDocs(docs, id, u)[1..] == UpdateDocs(docs[1..], id, u);
    }
  }

  /**
   * After `updateAd`, every entry it keeps for a slot the updated ad was not
   * in still lists exactly what the query answers. (The empty slot is never
   * asked for, and `updates.adSlot == ""` drops no entry.)
   */
  lemma UpdateKeepsOtherEntries(cache: Cache, docs: seq<Ad>, id: string, u: AdUpdate, s: string)
    requires Coherent(cache, docs)
    requires s != "" && s in InvalidateForUpdate(cache, u)
    requires forall i :: 0 <= i < |docs| && docs[i].id == id ==> docs[i].adSlot != s
    ensures InvalidateForUpdate(cache, u)[s].ads == ActiveInSlot(UpdateDocs(docs, id, u), s)
  {
    UpdateOutsideSlot(docs, id, u, s);
  }

  /**
   * The stale case of `updateAd`, for every collection and cache: when the
   * update takes an active ad out of its slot's answer (a move, or a
   * deactivation) without naming that slot, the slot's entry stays and
   * still lists the ad.
   */
  lemma UpdateLeavesStaleEntry(cache: Cache, docs: seq<Ad>, id: string, u: AdUpdate, i: nat)
    requires Coherent(cache, docs)
    requires i < |docs| && docs[i].id == id && docs[i].isActive && docs[i].adSlot in cache
    requires u.adSlot != Some(docs[i].adSlot)
    requires !(Patch(docs[i], u).adSlot == docs[i].adSlot && Patch(docs[i], u).isActive)
    ensures var s := docs[i].adSlot;
            var after := InvalidateForUpdate(cache, u);
            s in after && docs[i] in after[s].ads &&
            docs[i] !in ActiveInSlot(UpdateDocs(docs, id, u), s)
  {
    var s := docs[i].adSlot;
    var r := UpdateDocs(docs, id, u);
    assert docs[i] in ActiveInSlot(docs, s);
    forall j | 0 <= j < |r| && r[j].adSlot == s && r[j].isActive
      ensures r[j] != docs[i]
    {
      if docs[j].id == id {
        assert r[j] == Patch(docs[j], u);
      }
    }
  }

  /** A delete of ads outside `s`'s answer leaves the answer for `s` as it was. */
  lemma {:induction false} DeleteOutsideSlot(docs: seq<Ad>, id: string, s: string)
    requires forall i :: 0 <= i < |docs| && docs[i].id == id ==> !(docs[i].adSlot == s && docs[i].isActive)
    ensures ActiveInSlot(DeleteDocs(docs, id), s) == ActiveInSlot(docs, s)
  {
    if docs != [] {
      DeleteOutsideSlot(docs[1..], id, s);
      var rest := DeleteDocs(docs[1..], id);
      if docs[0].id == id {
        assert DeleteDocs(docs, id) == rest;
      } else {
        assert DeleteDocs(docs, id) == [docs[0]] + rest;
        assert ([docs[0]] + rest)[1..] == rest;
      }
    }
  }

  /**
   * After `deleteAd`, which drops no entry, an entry stays current exactly
   * when the deleted ad was not in its answer: otherwise it still lists the
   * deleted ad.
   */
  lemma DeleteStaleness(cache: Cache, docs: seq<Ad>, id: string, s: string)
    requires Coherent(cache, docs) && s in cache
    ensures (forall i :: 0 <= i < |docs| && docs[i].id == id ==> !(docs[i].adSlot == s && docs[i].isActive)) ==>
              cache[s].ads == ActiveInSlot(DeleteDocs(docs, id), s)
    ensures forall i :: 0 <= i < |docs| && docs[i].id == id && docs[i].adSlot == s && docs[i].isActive ==>
              docs[i] in cache[s].ads && docs[i] !in ActiveInSlot(DeleteDocs(docs, id), s)
  {
    if forall i :: 0 <= i < |docs| && docs[i].id == id ==> !(docs[i].adSlot == s && docs[i].isActive) {
      DeleteOutsideSlot(docs, id, s);
    }
  }

  /**
   * The module state of the ad service: `adCache`, and the `ads` collection it
   * caches. Clock readings and query failures are parameters of each operation.
   */
  class AdStore {
    var cache: Cache
    var docs: seq<Ad>

    constructor(initial: seq<Ad>)
      ensures cache == map[] && docs == initial
    {
      cache := map[];
      docs := initial;
    }

    /** `setCachedAds`: stamps the list with the current time. */
    method SetCachedAds(slot: string, ads: seq<Ad>, now: int)
      modifies this
      ensures cache == old(cache)[slot := CacheEntry(ads, now)] && docs == old(docs)
    {
      cache := cache[slot := CacheEntry(ads, now)];
    }

    /**
     * `getAdsBySlot`. `now` is the clock at the cache check, `answeredAt` the
     * clock when the query answers, and `failure` says whether the query throws.
     */
    method GetAdsBySlot(slot: Option<string>, now: int, answeredAt: int, failure: bool)
      returns (ads: seq<Ad>, queried: bool)
      modifies this
      ensures docs == old(docs)
      ensures !IsSlotArgument(slot) ==> ads == [] && !queried && cache == old(cache)
      ensures IsSlotArgument(slot) && IsCacheValid(old(cache), slot.value, now) ==>
                !queried && ads == old(cache)[slot.value].ads && cache == old(cache)
      ensures IsSlotArgument(slot) && !IsCacheValid(old(cache), slot.value, now) ==> queried
      ensures queried && failure ==> ads == [] && cache == old(cache)
      ensures queried && !failure ==>
                ads == ActiveInSlot(docs, slot.value) &&
                cache == old(cache)[slot.value := CacheEntry(ads, answeredAt)]
      ensures Coherent(old(cache), docs) ==> Coherent(cache, docs)
      ensures Coherent(old(cache), docs) && IsSlotArgument(slot) && !(queried && failure) ==>
                ads == ActiveInSlot(docs, slot.value)
    {
      if !IsSlotArgument(slot) {
        return [], false;
      }
      var s := slot.value;
      var cached := CachedAds(cache, s, now);
      if cached.Some? {
        return cached.value, false;
      }
      queried := true;
      if failure {
        ads := [];
        return;
      }
      ads := ActiveInSlot(docs, s);
      SetCachedAds(s, ads, answeredAt);
    }

    /** `getAdBySlot`: the first ad `getAdsBySlot` answers, or `null`. */
    method GetAdBySlot(slot: Option<string>, now: int, answeredAt: int, failure: bool)
      returns (ad: Option<Ad>, queried: bool)
      modifies this
      ensures docs == old(docs)
      ensures !IsSlotArgument(slot) ==> ad == None && !queried && cache == old(cache)
      ensures IsSlotArgument(slot) && IsCacheValid(old(cache), slot.value, now) ==>
                !queried && cache == old(cache) &&
                ad == (if old(cache)[slot.value].ads == [] then None else Some(old(cache)[slot.value].ads[0]))
      ensures IsSlotArgument(slot) && !IsCacheValid(old(cache), slot.value, now) ==> queried
      ensures queried && failure ==> ad == None && cache == old(cache)
      ensures queried && !failure ==>
                var answer := ActiveInSlot(docs, slot.value);
                ad == (if answer == [] then None else Some(answer[0])) &&
                cache == old(cache)[slot.value := CacheEntry(answer, answeredAt)]
      ensures Coherent(old(cache), docs) ==> Coherent(cache, docs)
      ensures Coherent(old(cache), docs) && IsSlotArgument(slot) && !(queried && failure) ==>
                var answer := ActiveInSlot(docs, slot.value);
                ad == (if answer == [] then None else Some(answer[0]))
    {
      if !IsSlotArgument(slot) {
        return None, false;
      }
      var ads;
      ads, queried := GetAdsBySlot(slot, now, answeredAt, failure);
      ad := if |ads| > 0 then Some(ads[0]) else None;
    }

    /**
     * `createAd`: writes the new ad with the id the store assigns, then drops
     * the cache entry of its slot. `error` is the error `addDoc` throws, if any;
     * it is rethrown and nothing changes.
     */
    method CreateAd(companyName: string, adSlot: string, adType: AdType, mediaUrl: string,
                    redirectUrl: string, revenue: int, newId: string, error: Option<string>)
      returns (r: Result<string>)
      modifies this
      ensures error.Some? ==> r == Err(error.value) && cache == old(cache) && docs == old(docs)
      ensures error.None? ==>
                r == Ok(newId) &&
                docs == old(docs) + [NewAd(newId, companyName, adSlot, adType, mediaUrl, redirectUrl, revenue)] &&
                cache == old(cache) - {adSlot}
      ensures Coherent(old(cache), old(docs)) ==> Coherent(cache, docs)
    {
      if error.Some? {
        return Err(error.value);
      }
      var ad := NewAd(newId, companyName, adSlot, adType, mediaUrl, redirectUrl, revenue);
      if Coherent(cache, docs) {
        CreateKeepsCoherent(cache, docs, ad);
      }
      docs := docs + [ad];
      cache := cache - {adSlot};
      r := Ok(newId);
    }

    /**
     * `updateAd`: an empty id is ignored; a failed write (`failure`, or no such
     * document) is logged and swallowed; otherwise the document is patched and
     * the entry of `updates.adSlot` is dropped when that field is given.
     */
    method UpdateAd(adId: string, updates: AdUpdate, failure: bool)
      modifies this
      ensures adId == "" || failure || !HasId(old(docs), adId) ==> cache == old(cache) && docs == old(docs)
      ensures !(adId == "" || failure || !HasId(old(docs), adId)) ==>
                docs == UpdateDocs(old(docs), adId, updates) &&
                cache == InvalidateForUpdate(old(cache), updates)
    {
      if adId == "" || failure || !HasId(docs, adId) {
        return;
      }
      docs := UpdateDocs(docs, adId, updates);
      cache := InvalidateForUpdate(cache, updates);
    }

    /** `deleteAd`: removes the document and leaves the cache as it is. */
    method DeleteAd(adId: string, failure: bool)
      modifies this
      ensures cache == old(cache)
      ensures adId == "" || failure ==> docs == old(docs)
      ensures !(adId == "" || failure) ==> docs == DeleteDocs(old(docs), adId)
    {
      if adId == "" || failure {
        return;
      }
      docs := DeleteDocs(docs, adId);
    }

    /** One snapshot of `subscribeToAds`: the whole cache is cleared and the active ads are handed on. */
    method OnSnapshot() returns (ads: seq<Ad>)
      modifies this
      ensures cache == map[] && docs == old(docs)
      ensures ads == ActiveAds(docs)
      ensures Coherent(cache, docs)
    {
      cache := map[];
      ads := ActiveAds(docs);
    }

    /** `clearAdCache`. */
    method ClearAdCache()
      modifies this
      ensures cache == map[] && docs == old(docs)
      ensures Coherent(cache, docs)
    {
      cache := map[];
    }
  }
}
