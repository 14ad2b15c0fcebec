/**
 * The admin ad-upload form: the submit guard chain, then the file upload and
 * the ad creation, then the reset of every field on success.
 */
module AdUploadForm {
  import opened Wrappers
  import opened Text
  import opened AdService

  const SlotMissing := "Please select an ad slot"
  const CompanyMissing := "Please enter company name"
  const UrlMissing := "Please enter redirect URL"
  const RevenueInvalid := "Please enter valid revenue amount"
  const FileMissing := "Please select a file to upload"

  /**
   * The first failing check of `handleSubmit`, in the order slot, company,
   * URL, revenue, file; `None` when every check passes. `number` stands for
   * `Number(s)`, `None` when it is `NaN`.
   */
  function ValidationError(selectedSlot: Option<string>, companyName: string, redirectUrl: string,
                           revenue: string, hasFile: bool, number: string -> Option<int>): (e: Option<string>)
    ensures e == Some(SlotMissing) <==> selectedSlot.None?
    ensures e == Some(CompanyMissing) <==> selectedSlot.Some? && Trim(companyName) == ""
    ensures e == Some(UrlMissing) <==>
              selectedSlot.Some? && Trim(companyName) != "" && Trim(redirectUrl) == ""
    ensures e == Some(RevenueInvalid) <==>
              selectedSlot.Some? && Trim(companyName) != "" && Trim(redirectUrl) != "" &&
              (revenue == "" || number(revenue).None?)
    ensures e == Some(FileMissing) <==>
              selectedSlot.Some? && Trim(companyName) != "" && Trim(redirectUrl) != "" &&
              revenue != "" && number(revenue).Some? && !hasFile
    ensures e.None? <==>
              selectedSlot.Some? && Trim(companyName) != "" && Trim(redirectUrl) != "" &&
              revenue != "" && number(revenue).Some? && hasFile
  {
    if selectedSlot.None? then Some(SlotMissing)
    else if Trim(companyName) == "" then Some(CompanyMissing)
    else if Trim(redirectUrl) == "" then Some(UrlMissing)
    else if revenue == "" || number(revenue).None? then Some(RevenueInvalid)
    else if !hasFile then Some(FileMissing)
    else None
  }

  /** The submit button is disabled while uploading or while no slot is chosen. */
  function SubmitDisabled(loading: bool, selectedSlot: Option<string>): (disabled: bool)
    ensures disabled <==> loading || selectedSlot.None?
  {
    loading || selectedSlot.None?
  }

  datatype SubmitOutcome =
    | Invalid(message: string)
    | UploadFailed(message: string)
    | Uploaded(adId: string)

  /** The form fields. `file` is the chosen file's name, `None` before one is chosen. */
  class UploadForm {
    var selectedSlot: Option<string>
    var companyName: string
    var redirectUrl: string
    var revenue: string
    var adType: AdType
    var file: Option<string>
    var preview: string
    var loading: bool

    /** The initial state of every field. */
    predicate IsReset()
      reads this
    {
      selectedSlot == None && companyName == "" && redirectUrl == "" && revenue == "" &&
      adType == Image && file == None && preview == ""
    }

    constructor()
      ensures IsReset() && !loading
    {
      selectedSlot := None;
      companyName := "";
      redirectUrl := "";
      revenue := "";
      adType := Image;
      file := None;
      preview := "";
      loading := false;
    }

    /**
     * `handleSubmit`. `uploaded` is what `uploadAdFile` answers (the media URL,
     * or the error it throws); `newId` and `createError` are passed on to
     * `createAd`. A failed check changes nothing.
     */
    method HandleSubmit(store: AdStore, number: string -> Option<int>, uploaded: Result<string>,
                        newId: string, createError: Option<string>)
      returns (outcome: SubmitOutcome)
      modifies this, store
      ensures var e := ValidationError(old(selectedSlot), old(companyName), old(redirectUrl),
                                       old(revenue), old(file).Some?, number);
              (e.Some? ==> outcome == Invalid(e.value) && Unchanged(store)) &&
              (e.None? ==> !outcome.Invalid?)
      ensures outcome.Invalid? ==> Unchanged(store)
      ensures !outcome.Invalid? ==> Submitted(store, number, uploaded, newId, createError, outcome)
    {
      var e := ValidationError(selectedSlot, companyName, redirectUrl, revenue, file.Some?, number);
      if e.Some? {
        return Invalid(e.value);
      }
      outcome := Submit(store, number(revenue).value, uploaded, newId, createError);
    }

    /** Nothing in the form or the store changed. */
    twostate predicate Unchanged(store: AdStore)
      reads this, store
    {
      selectedSlot == old(selectedSlot) && companyName == old(companyName) &&
      redirectUrl == old(redirectUrl) && revenue == old(revenue) && adType == old(adType) &&
      file == old(file) && preview == old(preview) && loading == old(loading) &&
      store.docs == old(store.docs) && store.cache == old(store.cache)
    }

    /**
     * The effect of the part of `handleSubmit` after the guards: `loading` ends
     * false; a failed upload or creation keeps every field and writes nothing;
     * a creation resets every field.
     */
    twostate predicate Submitted(store: AdStore, number: string -> Option<int>, uploaded: Result<string>,
                                 newId: string, createError: Option<string>, outcome: SubmitOutcome)
      reads this, store
    {
      !loading && !outcome.Invalid? &&
      (outcome.UploadFailed? ==>
         selectedSlot == old(selectedSlot) && companyName == old(companyName) &&
         redirectUrl == old(redirectUrl) && revenue == old(revenue) && adType == old(adType) &&
         file == old(file) && preview == old(preview) &&
         store.docs == old(store.docs) && store.cache == old(store.cache)) &&
      (outcome.Uploaded? <==> uploaded.Ok? && createError.None?) &&
      (outcome.Uploaded? ==>
         IsReset() && outcome.adId == newId && old(selectedSlot).Some? && number(old(revenue)).Some? &&
         store.docs == old(store.docs) +
           [NewAd(newId, old(companyName), old(selectedSlot).value, old(adType), uploaded.value,
                  old(redirectUrl), number(old(revenue)).value)] &&
         store.cache == old(store.cache) - {old(selectedSlot).value})
    }

    /** The upload, then `createAd` with the uploaded URL and the revenue as a number. */
    method Submit(store: AdStore, revenueValue: int, uploaded: Result<string>,
                  newId: string, createError: Option<string>)
      returns (outcome: SubmitOutcome)
      requires selectedSlot.Some?
      modifies this, store
      ensures !loading && !outcome.Invalid?
      ensures outcome.UploadFailed? ==>
                selectedSlot == old(selectedSlot) && companyName == old(companyName) &&
                redirectUrl == old(redirectUrl) && revenue == old(revenue) && adType == old(adType) &&
                file == old(file) && preview == old(preview) &&
                store.docs == old(store.docs) && store.cache == old(store.cache)
      ensures outcome.Uploaded? <==> uploaded.Ok? && createError.None?
      ensures outcome.Uploaded? ==>
                IsReset() && outcome.adId == newId &&
                store.docs == old(store.docs) +
                  [NewAd(newId, old(companyName), old(selectedSlot).value, old(adType), uploaded.value,
                         old(redirectUrl), revenueValue)] &&
                store.cache == old(store.cache) - {old(selectedSlot).value}
    {
      loading := true;
      if uploaded.Err? {
        loading := false;
        return UploadFailed(uploaded.message);
      }
      var r := store.CreateAd(companyName, selectedSlot.value, adType, uploaded.value, redirectUrl,
                              revenueValue, newId, createError);
      if r.Err? {
        loading := false;
        return UploadFailed(r.message);
      }
      selectedSlot := None;
      companyName := "";
      redirectUrl := "";
      revenue := "";
      file := None;
      preview := "";
      adType := Image;
      loading := false;
      outcome := Uploaded(r.value);
    }
  }
}
