/**
 * Reading one ad for a slot, and deriving the interstitial player settings
 * (kind, length and skip time) from it.
 */
module Ads {
  import opened Wrappers
  import opened Text
  import opened AdService

  /**
   * The stored fields of an ad document as read. `None` is a missing or
   * falsy field (`undefined`, `''`, `0`).
   */
  datatype AdDocument = AdDocument(
    id: string,
    companyName: Option<string>,
    adSlot: string,
    adType: Option<AdType>,
    mediaUrl: Option<string>,
    redirectUrl: Option<string>,
    revenue: Option<int>,
    viewCount: Option<int>,
    clickCount: Option<int>,
    isActive: Option<bool>)

  /** The `ad` object built from a document, with the `||` defaults in place. */
  function FromDocument(d: AdDocument): (ad: Ad)
    ensures ad.id == d.id && ad.adSlot == d.adSlot
    ensures ad.companyName == d.companyName.GetOr("")
    ensures ad.adType == d.adType.GetOr(Image)
    ensures ad.mediaUrl == d.mediaUrl.GetOr("")
    ensures ad.redirectUrl == d.redirectUrl.GetOr("")
    ensures ad.revenue == d.revenue.GetOr(0)
    ensures ad.viewCount == d.viewCount.GetOr(0)
    ensures ad.clickCount == d.clickCount.GetOr(0)
    ensures ad.isActive
  {
    Ad(d.id, d.companyName.GetOr(""), d.adSlot, d.adType.GetOr(Image), d.mediaUrl.GetOr(""),
       d.redirectUrl.GetOr(""), d.revenue.GetOr(0), d.viewCount.GetOr(0), d.clickCount.GetOr(0),
       true)
  }

  /**
   * `getAdForSlot`: `null` for a missing or empty slot, a failed query or an
   * empty answer; otherwise the first document of the answer.
   */
  function GetAdForSlot(slot: Option<string>, answer: Fetch<AdDocument>): (r: Option<Ad>)
    ensures r.Some? <==> IsSlotArgument(slot) && answer.Fetched? && answer.docs != []
    ensures r.Some? ==> r.value == FromDocument(answer.docs[0]) && r.value.isActive
  {
    if !IsSlotArgument(slot) then None
    else match answer
      case Failed => None
      case Fetched(docs) => if docs == [] then None else Some(FromDocument(docs[0]))
  }

  /** Whether the ad plays as a video: typed as one, or a media URL mentioning `.mp4` in any case. */
  predicate IsVideo(ad: Ad) {
    ad.adType == Video || Contains(ToLower(ad.mediaUrl), ".mp4")
  }

  datatype PlayerKind = Static | VideoPlayer

  datatype InterstitialConfig = InterstitialConfig(
    kind: PlayerKind,
    logoUrl: Option<string>,
    logoHint: string,
    durationMs: int,
    videoUrl: Option<string>,
    videoTitle: string,
    durationSec: int,
    skippableAfterSec: int)

  /** The two slot names that get a fixed 20-second skip time. */
  predicate HasFixedSkip(slot: string) {
    slot == "Q3" || slot == "Q4"
  }

  function Max(a: int, b: int): int {
    if a >= b then a else b
  }

  /** The interstitial settings for `ad` shown in `slot`. */
  function InterstitialFor(slot: string, ad: Ad): (c: InterstitialConfig)
    ensures c.kind == VideoPlayer <==> IsVideo(ad)
    ensures c.durationSec == (if IsVideo(ad) then 40 else 10)
    ensures c.durationMs == c.durationSec * 1000
    ensures c.skippableAfterSec == (if HasFixedSkip(slot) then 20 else if IsVideo(ad) then 35 else 5)
    ensures c.logoUrl == (if IsVideo(ad) then None else Some(ad.mediaUrl))
    ensures c.videoUrl == (if IsVideo(ad) then Some(ad.mediaUrl) else None)
    ensures c.logoHint == ad.companyName && c.videoTitle == ad.companyName
  {
    var video := IsVideo(ad);
    var durationSec := if video then 40 else 10;
    var skippable := if HasFixedSkip(slot) then 20 else Max(5, durationSec - 5);
    InterstitialConfig(
      if video then VideoPlayer else Static,
      if video then None else Some(ad.mediaUrl),
      ad.companyName,
      durationSec * 1000,
      if video then Some(ad.mediaUrl) else None,
      ad.companyName,
      durationSec,
      skippable)
  }

  /** `getInterstitialAdForSlot`: `null` exactly when `getAdForSlot` finds nothing. */
  function GetInterstitialAdForSlot(slot: Option<string>, answer: Fetch<AdDocument>): (r: Option<InterstitialConfig>)
    ensures r.Some? <==> GetAdForSlot(slot, answer).Some?
    ensures r.Some? ==> r.value == InterstitialFor(slot.value, GetAdForSlot(slot, answer).value)
  {
    match GetAdForSlot(slot, answer)
    case None => None
    case Some(ad) => Some(InterstitialFor(slot.value, ad))
  }

  /** No member of the `AdSlot` union is `"Q3"` or `"Q4"`, so the fixed skip time never applies to one. */
  lemma NoAdSlotHasFixedSkip(slot: string)
    requires IsAdSlot(slot)
    ensures !HasFixedSkip(slot)
  {
  }

  /**
   * The skip button comes before the end of the ad, except for a static ad in
   * `"Q3"`/`"Q4"`: its skip time of 20 s is past its 10-second length.
   */
  lemma SkipBeforeEnd(slot: string, ad: Ad)
    ensures var c := InterstitialFor(slot, ad);
            c.skippableAfterSec < c.durationSec <==> !(HasFixedSkip(slot) && !IsVideo(ad))
  {
  }

  /** The video test ignores the case of the media URL. */
  lemma VideoIgnoresUrlCase(ad: Ad)
    ensures IsVideo(ad.(mediaUrl := ToUpper(ad.mediaUrl))) == IsVideo(ad)
  {
    ToLowerIgnoresCase(ad.mediaUrl);
  }

  /** A media URL whose file name ends in `.MP4` plays as a video even when typed as an image. */
  lemma UpperCaseMp4IsVideo()
    ensures IsVideo(Ad("a", "Acme", "T20", Image, "clip.MP4", "", 0, 0, 0, true))
  {
    var url := ToLower("clip.MP4");
    assert url == "clip.mp4";
    assert OccursAt(url, ".mp4", 4);
  }
}
