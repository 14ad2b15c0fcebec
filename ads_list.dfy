/**
 * The admin list of ads: the view filter, and the list updates after a
 * delete, an activation toggle and a revenue edit.
 */
module AdsList {
  import opened Wrappers
  import opened Sorting
  import opened Lists
  import opened AdService

  /** The `filterMode` of the list, the `viewMode` of the ads page. */
  datatype ViewMode = NoMode | Total | Active | Deactivated | ByRevenue

  /** The mode as written in the source. */
  function ModeName(m: ViewMode): (name: string)
    ensures '-' !in name
  {
    match m
    case NoMode => "none"
    case Total => "total"
    case Active => "active"
    case Deactivated => "deactivated"
    case ByRevenue => "revenue"
  }

  lemma ModeNameInjective(m: ViewMode, n: ViewMode)
    requires ModeName(m) == ModeName(n)
    ensures m == n
  {
  }

  predicate IsActive(a: Ad) { a.isActive }
  predicate IsInactive(a: Ad) { !a.isActive }
  function Revenue(a: Ad): int { a.revenue }

  /** `getFilteredAds`. */
  function GetFilteredAds(ads: seq<Ad>, mode: ViewMode): seq<Ad> {
    match mode
    case Active => Filter(ads, IsActive)
    case Deactivated => Filter(ads, IsInactive)
    case ByRevenue => SortDesc(ads, Revenue)
    case _ => ads
  }

  /**
   * The active view holds the active ads, the deactivated view the others,
   * both in list order; the revenue view holds every ad, by revenue, highest
   * first; every other mode shows the list as it is.
   */
  lemma FilteredAdsSpec(ads: seq<Ad>, mode: ViewMode)
    ensures var r := GetFilteredAds(ads, mode);
            (mode == Active ==>
               (IsSubsequence(r, ads) &&
                (forall i :: 0 <= i < |r| ==> r[i].isActive) &&
                (forall i :: 0 <= i < |ads| && ads[i].isActive ==> ads[i] in r))) &&
            (mode == Deactivated ==>
               (IsSubsequence(r, ads) &&
                (forall i :: 0 <= i < |r| ==> !r[i].isActive) &&
                (forall i :: 0 <= i < |ads| && !ads[i].isActive ==> ads[i] in r))) &&
            (mode == ByRevenue ==> SortedDesc(r, Revenue) && multiset(r) == multiset(ads)) &&
            (mode in {NoMode, Total} ==> r == ads)
  {
    match mode {
      case Active => FilterIsSubsequence(ads, IsActive);
      case Deactivated => FilterIsSubsequence(ads, IsInactive);
      case ByRevenue =>
        SortDescSorted(ads, Revenue);
        SortDescPermutes(ads, Revenue);
      case _ =>
    }
  }

  /** Every ad is in exactly one of the active and deactivated views. */
  lemma ActiveAndDeactivatedSplitTheList(ads: seq<Ad>)
    ensures |GetFilteredAds(ads, Active)| + |GetFilteredAds(ads, Deactivated)| == |ads|
  {
    FilterSplits(ads, IsActive, IsInactive);
  }

  /**
   * `handleDelete`: after confirmation, and once `deleteAd` returns (it logs
   * and swallows its own errors), every ad with the id leaves the list.
   */
  function HandleDelete(ads: seq<Ad>, adId: string, confirmed: bool): (r: seq<Ad>)
    ensures !confirmed ==> r == ads
    ensures confirmed ==>
              (IsSubsequence(r, ads) &&
               (forall i :: 0 <= i < |r| ==> r[i].id != adId) &&
               (forall i :: 0 <= i < |ads| && ads[i].id != adId ==> ads[i] in r))
  {
    if !confirmed then ads
    else
      var keep := (a: Ad) => a.id != adId;
      FilterIsSubsequence(ads, keep);
      Filter(ads, keep)
  }

  function Flip(a: Ad): Ad { a.(isActive := !a.isActive) }

  /** `handleToggleActive`: the ads with the id change activation, nothing else changes. */
  function HandleToggleActive(ads: seq<Ad>, ad: Ad): (r: seq<Ad>)
    ensures |r| == |ads|
    ensures forall i :: 0 <= i < |ads| ==>
              (ads[i].id == ad.id ==> r[i] == ads[i].(isActive := !ads[i].isActive)) &&
              (ads[i].id != ad.id ==> r[i] == ads[i])
  {
    MapWhere(ads, (a: Ad) => a.id == ad.id, Flip)
  }

  /** Toggling the same ad twice restores the list. */
  lemma ToggleTwiceRestores(ads: seq<Ad>, ad: Ad)
    ensures HandleToggleActive(HandleToggleActive(ads, ad), ad) == ads
  {
    MapWhereTwiceRestores(ads, (a: Ad) => a.id == ad.id, Flip);
  }

  /** The list together with the revenue editor's state. */
  datatype ListState = ListState(ads: seq<Ad>, editingId: Option<string>, editRevenue: string)

  /**
   * `handleUpdateRevenue`. An empty or non-numeric entry changes nothing;
   * otherwise the ads with the id get the new revenue and the editor closes.
   * `number` stands for `Number(s)`, `None` for `NaN`.
   */
  function HandleUpdateRevenue(st: ListState, adId: string, number: string -> Option<int>): (r: ListState)
    ensures st.editRevenue == "" || number(st.editRevenue).None? ==> r == st
    ensures st.editRevenue != "" && number(st.editRevenue).Some? ==>
              r.editingId == None && r.editRevenue == "" && |r.ads| == |st.ads| &&
              forall i :: 0 <= i < |st.ads| ==>
                r.ads[i] == (if st.ads[i].id == adId then st.ads[i].(revenue := number(st.editRevenue).value)
                             else st.ads[i])
  {
    if st.editRevenue == "" || number(st.editRevenue).None? then st
    else
      var value := number(st.editRevenue).value;
      ListState(MapWhere(st.ads, (a: Ad) => a.id == adId, (a: Ad) => a.(revenue := value)), None, "")
  }
}
