/**
 * The admin ads page: the statistics cards over the raw ad documents, the
 * card view modes, and the refresh counter that reloads the statistics and
 * remounts the list.
 */
module AdminAdsPage {
  import opened Wrappers
  import opened Text
  import opened Lists
  import opened Ads
  import opened AdsList
  import CardFilter

  datatype AdStats = AdStats(totalAds: nat, activeAds: nat, deactivatedAds: nat, totalRevenue: int)

  /** A document counts as active when its `isActive` is truthy. */
  predicate DocActive(d: AdDocument) { d.isActive == Some(true) }
  predicate DocInactive(d: AdDocument) { !DocActive(d) }

  /** `ad.revenue || 0` summed over the documents. */
  function TotalRevenue(docs: seq<AdDocument>): int {
    if docs == [] then 0 else docs[0].revenue.GetOr(0) + TotalRevenue(docs[1..])
  }

  /** The stats cards: counts by activation and the revenue total. */
  function ComputeStats(docs: seq<AdDocument>): (st: AdStats)
    ensures st.totalAds == |docs|
    ensures st.activeAds + st.deactivatedAds == st.totalAds
    ensures st.activeAds == |Filter(docs, DocActive)|
    ensures st.totalRevenue == TotalRevenue(docs)
  {
    FilterSplits(docs, DocActive, DocInactive);
    AdStats(|docs|, |Filter(docs, DocActive)|, |Filter(docs, DocInactive)|, TotalRevenue(docs))
  }

  /** With no negative revenue, the revenue total is at least each ad's revenue. */
  lemma {:induction false} RevenueTotalBoundsEach(docs: seq<AdDocument>, k: nat)
    requires forall i :: 0 <= i < |docs| ==> docs[i].revenue.GetOr(0) >= 0
    requires k < |docs|
    ensures ComputeStats(docs).totalRevenue >= docs[k].revenue.GetOr(0)
  {
    RevenueNonNegative(docs[1..]);
    if k > 0 {
      RevenueTotalBoundsEach(docs[1..], k - 1);
    }
  }

  lemma {:induction false} RevenueNonNegative(docs: seq<AdDocument>)
    requires forall i :: 0 <= i < |docs| ==> docs[i].revenue.GetOr(0) >= 0
    ensures TotalRevenue(docs) >= 0
  {
    if docs != [] {
      RevenueNonNegative(docs[1..]);
    }
  }

  /** The page's own state. */
  datatype PageState = PageState(refreshKey: nat, viewMode: ViewMode)

  const Initial := PageState(0, NoMode)

  /** A click on the card of `mode`. */
  function ClickCard(st: PageState, mode: ViewMode): (r: PageState)
    ensures r.refreshKey == st.refreshKey
    ensures r.viewMode == (if st.viewMode == mode then NoMode else mode)
  {
    st.(viewMode := CardFilter.ClickCard(st.viewMode, mode, NoMode))
  }

  /** "Clear Filter". */
  function ClearFilter(st: PageState): (r: PageState)
    ensures r.refreshKey == st.refreshKey && r.viewMode == NoMode
  {
    st.(viewMode := NoMode)
  }

  /** A successful upload or list update: the counter moves on, which reloads the statistics. */
  function Refresh(st: PageState): (r: PageState)
    ensures r.refreshKey == st.refreshKey + 1 && r.viewMode == st.viewMode
  {
    st.(refreshKey := st.refreshKey + 1)
  }

  /** The list's React key `${refreshKey}-${viewMode}`. */
  function ListKey(st: PageState): string {
    NatToString(st.refreshKey) + "-" + ModeName(st.viewMode)
  }

  /**
   * Distinct page states give distinct list keys, so every refresh and every
   * change of mode mounts a fresh list, which loads the ads again.
   */
  lemma ListKeyInjective(a: PageState, b: PageState)
    requires ListKey(a) == ListKey(b)
    ensures a == b
  {
    var ka := NatToString(a.refreshKey);
    var kb := NatToString(b.refreshKey);
    assert '-' !in ka by { assert forall i :: 0 <= i < |ka| ==> IsAsciiDigit(ka[i]); }
    assert '-' !in kb by { assert forall i :: 0 <= i < |kb| ==> IsAsciiDigit(kb[i]); }
    DashKeySplitsAtFirst(ka, ModeName(a.viewMode), kb, ModeName(b.viewMode));
    NatToStringInjective(a.refreshKey, b.refreshKey);
    ModeNameInjective(a.viewMode, b.viewMode);
  }

  /** Clicking a card twice from the unfiltered page returns to it. */
  lemma CardTwiceRestores(st: PageState, mode: ViewMode)
    requires st.viewMode == NoMode
    ensures ClickCard(ClickCard(st, mode), mode) == st
  {
    CardFilter.ClickTwiceFromNoneRestores(mode, NoMode);
  }
}
