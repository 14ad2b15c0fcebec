# Cricket quiz app — a Dafny model of its business logic

The app is a Next.js front end over Firestore and a generative-AI service. Players take short
cricket quizzes sponsored by brands, earn scratch-card rewards and a ₹100 payout for a perfect
score; admins manage ads, payouts, users and contributions. This project models the
deterministic logic that sits between the screens and the database, one Dafny module per
source file:

- **AdService** (`lib/ad-service.ts`): the per-slot ad cache with its strict five-minute
  lifetime, as a class `AdStore` holding the cache map and the `ads` collection, with the clock
  passed in. The queries, the per-slot invalidation of `createAd` and `updateAd`, the cache-free
  `deleteAd`, and the wholesale clears are all here. The queries, `createAd` and the clears keep
  a coherence invariant: every cache entry equals the current query answer for its slot. Lemmas
  show how `updateAd` and `deleteAd` can leave an entry stale.
- **Ads** (`lib/ads.ts`): the defaults of the single-ad lookup and the interstitial
  configuration, meaning its type, duration and skip time.
- **WeeklyRewards** and **FormatRewards**: the two reward screens
  (`app/components/rewards/RewardsContent.tsx` and `components/rewards/RewardsContent.tsx`).
  They keep two different rules. The first keeps one attempt per brand and Monday-started week.
  The second keeps the three latest distinct formats and their ads. Both use **Sorting**, a
  stable newest-first sort.
- **ProfileUtils** and **AuthForm**: profile completeness field by field, and the sign-up and
  log-in schemas. Each regular expression is modelled twice, as a scan and as the pattern's
  meaning, with an equivalence lemma between the two.
- **PaymentService**, **ApproveContribution**, **FinancesPage**: payout records and statistics,
  the admin marking guards, the CSV export, and the contribution-approval transaction.
- **AdminAdsPage**, **AdsList**, **AdUploadForm**, **CardFilter**: the admin ads screens.
- **AdminLayout**: the permission check, the side navigation, the menu toggle and the header
  title.
- **HomePage** and **Uri**: the no-ball warning, the start-quiz decision chain, and
  `encodeURIComponent`/`decodeURIComponent`. A round trip is proved for the latter pair.
- **ResultsPage**, **ResultsCard**, **Quiz**: the two results pages, covering loading, verdicts,
  what a disqualification hides, the analysis lookup and the one-shot payment request.
- **UserManagement**: the active-user buckets, the latest-attempt loop and the user table.
- **CricketFact**: the fallback facts and when they replace the AI's answer.
- **BottomNav**: when the bar shows, and which item is active.
- **Wrappers**, **Text** and **Lists** are shared helpers. They model JavaScript's `trim`, ASCII
  case mapping, `split`/`join`, `replace` with a string pattern, number printing, `filter` and
  `map`.

Database reads and writes are modelled in one of two ways. Some become parameters: the answer a
query gives, or whether a write fails. The others become fields of a class whose methods update
them, where the source keeps state: the ad cache, the payment documents, the contribution
documents, the upload form, and the results page's `paymentCreated` flag. Times are integer
milliseconds.

The model follows the code where its comments say otherwise:

- The comment at `lib/ads.ts:121` promises a 15-second skip for two slots; the code assigns 20.
- The code's exception tests the literal slot names `"Q3"` and `"Q4"`. Neither is a member of
  the `AdSlot` union (`lib/ad-service.ts:19`), so no typed slot reaches the exception
  (`Ads.NoAdSlotHasFixedSkip`). A static ad in such a slot may only be skipped after it ends
  (`Ads.SkipBeforeEnd`).

## Model

| member | source | states |
|---|---|---|
| AdService.ActiveInSlot | lib/ad-service.ts:171-181 | the query answer holds exactly the collection's active ads of the slot, no more of them than the collection has |
| AdService.ActiveAds | lib/ad-service.ts:365-377 | the subscription query is the filter of the collection by `isActive`: exactly the active ads, in collection order and with their repeats (a subsequence) |
| AdService.CachedAds | lib/ad-service.ts:59-72 | a list is answered iff the slot has an entry younger than 300000 ms (strict), and it is the cached list |
| AdService.EntryLifetime | lib/ad-service.ts:57-63 | an entry written at time t is served exactly while now < t + 300000 |
| AdService.ActiveInSlotAppend | lib/ad-service.ts:102-125 | appending an ad changes a slot's query answer only by that ad, and only when it is active and in the slot |
| AdService.NewAd | lib/ad-service.ts:111-123 | a new ad has the given id, slot, company, type, media URL, redirect URL and revenue, zero views and clicks, and is active |
| AdService.CreateKeepsCoherent | lib/ad-service.ts:102-125 | adding an ad and dropping its slot's entry keeps every other cached list equal to the current query answer |
| AdService.UpdateDocs | lib/ad-service.ts:323-338 | the documents with the id get the update's given fields; every other document and the order are unchanged |
| AdService.DeleteDocs | lib/ad-service.ts:350-356 | the documents left are the filter by a different id: exactly those without the id, in order and with their repeats (a subsequence) |
| AdService.InvalidateForUpdate | lib/ad-service.ts:339-341 | the cache `updateAd` leaves: the entry of `updates.adSlot` is dropped when that field is given and non-empty, and no other entry is touched, so the updated ad's old slot keeps its entry |
| AdService.SlotMoveLeavesOldSlotStale | lib/ad-service.ts:339-341 | moving an ad to another slot leaves the old slot's entry serving the ad that has left it |
| AdService.DeactivationLeavesEntryStale | lib/ad-service.ts:339-341 | deactivating an ad leaves its slot's entry serving it until the entry expires |
| AdService.DeletionLeavesEntryStale | lib/ad-service.ts:350-362 | a deleted ad is still served from its slot's entry until the entry expires |
| AdService.UpdateOutsideSlot | lib/ad-service.ts:323-338 | an update whose ads are in slot `s` neither before nor after leaves the query answer for `s` as it was |
| AdService.UpdateKeepsOtherEntries | lib/ad-service.ts:323-341 | for every collection and coherent cache: each non-empty slot `updateAd` keeps, other than the updated ad's old slot, still lists exactly the query answer after the update |
| AdService.UpdateLeavesStaleEntry | lib/ad-service.ts:323-341 | for every collection and coherent cache: an update that moves or deactivates an active ad without naming its old slot keeps that slot's entry, which still lists the ad the query no longer answers |
| AdService.DeleteOutsideSlot | lib/ad-service.ts:350-356 | deleting ads that are not in the answer for `s` leaves that answer as it was |
| AdService.DeleteStaleness | lib/ad-service.ts:350-362 | for every coherent cache: after `deleteAd` an entry stays current when the deleted ad was not in it, and otherwise still lists the deleted ad |
| AdService.AdStore.SetCachedAds | lib/ad-service.ts:74-77 | the slot's entry becomes the list stamped with the current time; nothing else changes |
| AdService.AdStore.GetAdsBySlot | lib/ad-service.ts:157-199 | a missing or empty slot gives `[]` with no query and no cache change; a valid entry is answered with no query; a miss queries, and the answer (even `[]`) is stored under the answer's time and returned; a failed query gives `[]` and writes nothing; a coherent cache stays coherent, and then every answer equals the query answer |
| AdService.AdStore.GetAdBySlot | lib/ad-service.ts:202-222 | an invalid slot gives none and no query; a valid cache entry gives its first ad without a query; a valid slot without one always queries; a failed query gives none and keeps the cache; an answered one gives its first ad, or none when empty, and stores the answer; with a coherent cache every non-failing call gives the first ad of the slot's query answer and coherence is kept |
| AdService.AdStore.CreateAd | lib/ad-service.ts:102-132 | a failed write changes nothing and rethrows; otherwise the new ad is appended with the assigned id and only its slot's entry is dropped; coherence is kept |
| AdService.AdStore.UpdateAd | lib/ad-service.ts:323-347 | an empty id, a failed write or a missing document changes nothing; otherwise the document is patched and only the entry of `updates.adSlot` is dropped |
| AdService.AdStore.DeleteAd | lib/ad-service.ts:350-362 | the document goes unless the id is empty or the write fails; the cache never changes |
| AdService.AdStore.OnSnapshot | lib/ad-service.ts:365-384 | every snapshot empties the whole cache and hands on the active ads |
| AdService.AdStore.ClearAdCache | lib/ad-service.ts:500-503 | the whole cache is emptied and the collection unchanged |
| Ads.FromDocument | lib/ads.ts:66-88 | the ad keeps the document's id and slot and each present field; a missing company, media URL or redirect URL is `''`, a missing type is image, a missing revenue, view count or click count is 0; `isActive` is always true |
| Ads.GetAdForSlot | lib/ads.ts:37-93 | an ad is returned iff the slot is given and non-empty and the query answers at least one document, and then it is the first document with its defaults |
| Ads.InterstitialFor | lib/ads.ts:114-153 | video iff typed video or the lower-cased URL contains `.mp4`; 40 s for video and 10 s otherwise, in ms as well; skip after 20 s for the literal slots `"Q3"`/`"Q4"`, otherwise 35 for video and 5 for static; the logo only for static ads, the video URL only for video |
| Ads.GetInterstitialAdForSlot | lib/ads.ts:96-158 | a configuration exactly when `getAdForSlot` finds an ad, and then the one derived from that ad |
| Ads.NoAdSlotHasFixedSkip | lib/ads.ts:125-130 | no member of the `AdSlot` union is `"Q3"` or `"Q4"`, so the fixed skip applies to none of them |
| Ads.SkipBeforeEnd | lib/ads.ts:119-130 | the skip time is before the end of the ad iff it is not a static ad in `"Q3"`/`"Q4"` |
| Ads.VideoIgnoresUrlCase | lib/ads.ts:114 | uppercasing the media URL never changes whether an ad plays as a video |
| Ads.UpperCaseMp4IsVideo | lib/ads.ts:114 | an image-typed ad whose URL ends in `.MP4` plays as a video |
| Sorting.SortDescSorted | app/components/rewards/RewardsContent.tsx:144-148 | the newest-first sort orders the attempts by rank, highest first |
| Sorting.SortDescPermutes | app/components/rewards/RewardsContent.tsx:144-148 | the sort is a permutation of the history |
| Sorting.SortDescStable | components/rewards/RewardsContent.tsx:157-161 | attempts of equal rank keep their input order (the sort is stable) |
| Sorting.SortDescLength | components/rewards/RewardsContent.tsx:157-161 | the sort keeps the number of attempts |
| Quiz.Classify | app/quiz/results/page.tsx:212-221 | the verdict order: disqualified iff a reason is given; perfect iff not disqualified and score equals the question count; a good effort iff neither and the score is at least 3; otherwise a tough match |
| Quiz.PageTitle | app/quiz/results/page.tsx:223 | "Disqualified" iff disqualified, "Perfect Score!" iff not disqualified and perfect, "Quiz Complete!" otherwise |
| Quiz.TitleFollowsVerdict | components/quiz/results/page.tsx:120-130 | the page title agrees with the verdict behind the motivational line |
| WeeklyRewards.MondayOfDay | app/components/rewards/RewardsContent.tsx:105-110 | stepping back 6 days from a Sunday, or weekday minus 1 otherwise, lands on the Monday midnight of the instant's week |
| WeeklyRewards.StartOfWeek | app/components/rewards/RewardsContent.tsx:102-112 | an unreadable timestamp gives 0; otherwise a Monday midnight within the seven days up to the instant |
| WeeklyRewards.WeekStartUnique | app/components/rewards/RewardsContent.tsx:105-111 | only one Monday midnight lies in the seven days up to an instant, so the week start is determined |
| WeeklyRewards.WeekKeyInjective | app/components/rewards/RewardsContent.tsx:156-157 | on week-start values the `${brand}-${week}` key determines brand and week, even for brands holding `-` and weeks before 1970 |
| WeeklyRewards.SelectWeekly | app/components/rewards/RewardsContent.tsx:150-167 | the loop's output is exactly the attempts that come first, among the eligible ones, for their brand-week key |
| WeeklyRewards.RewardableAttempts | app/components/rewards/RewardsContent.tsx:141-168 | no user gives `[]`; otherwise the selection over the newest-first sort of the history |
| WeeklyRewards.FirstsEligible | app/components/rewards/RewardsContent.tsx:154 | every selected attempt has a brand and a timestamp |
| WeeklyRewards.FirstsOnePerBrandWeek | app/components/rewards/RewardsContent.tsx:156-163 | no two selected attempts share a key, and so none share both brand and week |
| WeeklyRewards.FirstsCoverEveryBrandWeek | app/components/rewards/RewardsContent.tsx:153-164 | every brand played in a week (with a timestamp) has a selected attempt of that brand and week |
| WeeklyRewards.FirstsSubsequence | app/components/rewards/RewardsContent.tsx:153-167 | the selection is a subsequence of the sorted history, in its newest-first order |
| WeeklyRewards.RewardIsNewest | app/components/rewards/RewardsContent.tsx:144-163 | the attempt kept for a brand-week ranks at least as high as every attempt of the history with that key |
| WeeklyRewards.ScratchKeyInjective | app/components/rewards/RewardsContent.tsx:136 | distinct slots have distinct storage keys |
| WeeklyRewards.HandleScratch | app/components/rewards/RewardsContent.tsx:133-139 | the slot's flag and its storage key become true; every other flag and every other storage key is unchanged, none added and none removed |
| WeeklyRewards.RestoreScratched | app/components/rewards/RewardsContent.tsx:119-131 | with a user and a history, the flags are exactly the history's slots stored as `'true'`; otherwise they stay as they were |
| WeeklyRewards.ScratchSurvivesReload | app/components/rewards/RewardsContent.tsx:119-139 | a card scratched in the history is flagged again after the flags are rebuilt from storage |
| FormatRewards.SelectFormats | components/rewards/RewardsContent.tsx:163-173 | the loop (stopping at three) returns the first three distinct set formats of the sorted history |
| FormatRewards.LatestQuizFormats | components/rewards/RewardsContent.tsx:153-177 | no user or an empty history gives `[]`; otherwise the selection over the newest-first sort |
| FormatRewards.LatestFormatsShape | components/rewards/RewardsContent.tsx:164-173 | at most three formats, none empty, none twice, each played in the history |
| FormatRewards.FewFormatsAllListed | components/rewards/RewardsContent.tsx:167-172 | with at most three distinct formats played, every played format is listed |
| FormatRewards.FormatToAdSlot | components/rewards/RewardsContent.tsx:21-28 | a slot exactly for IPL, T20, Test, ODI, WPL and Mixed, and it is the format itself, a member of `AdSlot` |
| FormatRewards.FetchRewardAds | components/rewards/RewardsContent.tsx:180-239 | no user or no formats gives `[]`; a failed query leaves `[]`; otherwise the first answer of each mapped format's query, in format order |
| FormatRewards.GatherShape | components/rewards/RewardsContent.tsx:195-226 | at most one ad per format, each the first answer for one of the formats' slots |
| FormatRewards.CardKeyInjective | components/rewards/RewardsContent.tsx:259 | for one user, distinct ads have distinct storage keys |
| FormatRewards.HandleScratch | components/rewards/RewardsContent.tsx:256-262 | the card's flag becomes true, other flags unchanged; with a user its key is stored as `'true'`, without one storage is unchanged |
| FormatRewards.HandleDelete | components/rewards/RewardsContent.tsx:265-278 | every card with the id leaves the list; its flag is dropped; with a user its stored key is removed |
| FormatRewards.DeleteForgetsScratch | components/rewards/RewardsContent.tsx:256-278 | after scratch then delete, no trace of the card remains, and other cards' flags and keys are as before |
| FormatRewards.RestoreScratched | components/rewards/RewardsContent.tsx:242-254 | with a user and some ads, the flags are exactly the fetched ads stored as `'true'`; otherwise unchanged |
| ProfileUtils.EmailShapedIffMatches | lib/profile-utils.ts:20 | the one-scan email check holds iff the pattern `^[^\s@]+@[^\s@]+\.[^\s@]+$` has a match |
| ProfileUtils.UpiShapedIffMatches | lib/profile-utils.ts:24 | the check at the first `@` holds iff the UPI pattern (2–256 handle characters, `@`, 2–64 letters) has a match |
| ProfileUtils.IsFieldFilled | lib/profile-utils.ts:11-34 | undefined and null always fail; name, occupation and favourite cricketer need a string trimming to at least 3 characters; email, phone and UPI need the trimmed string to match their patterns; dob needs a valid Timestamp or a string the date parser accepts; gender, favourite format and team need a non-blank string |
| ProfileUtils.PhoneRule | lib/profile-utils.ts:21-22 | a string phone passes iff its trimmed form is at least ten ASCII digits |
| ProfileUtils.AllFilled | lib/profile-utils.ts:43 | `every` over a field list holds iff each listed field passes its rule |
| ProfileUtils.IsProfileConsideredComplete | lib/profile-utils.ts:41-44 | complete iff the profile is present and every one of the ten fields passes its rule |
| ProfileUtils.MandatoryIndex | lib/profile-utils.ts:4-7 | every profile field is in the mandatory list |
| ProfileUtils.BlankNameNotFilled | lib/profile-utils.ts:18 | a name of three spaces fails: it is trimmed first |
| ProfileUtils.PaddedPhoneFilled | lib/profile-utils.ts:22 | ten or more digits padded with white space pass the phone rule |
| AuthForm.SignupIssues | app/components/auth/AuthForm.tsx:32-41 | each rule reports its issue iff it fails: an untrimmed name under 3 characters, a bad email, a phone that is not exactly ten digits, a password under 8, terms not accepted; never a missing-password issue; no issue iff all pass |
| AuthForm.LoginIssues | app/components/auth/AuthForm.tsx:43-46 | only an invalid email and an empty password are reported, each iff it happens |
| AuthForm.Issues | app/components/auth/AuthForm.tsx:76 | the schema is chosen by the form type alone |
| AuthForm.RedirectTarget | app/components/auth/AuthForm.tsx:93 | the `from` parameter when present, otherwise `/` |
| AuthForm.AfterSubmit | app/components/auth/AuthForm.tsx:92-117 | only a successful log-in navigates, to the redirect target; sign-up never navigates |
| AuthForm.AfterGoogleSignIn | app/components/auth/AuthForm.tsx:119-132 | a successful Google sign-in (or a signed-in visitor) goes to the redirect target; a failure stays |
| AuthForm.EmptyFromIsKept | app/components/auth/AuthForm.tsx:93 | an empty `from` is kept, since `??` replaces only a missing value |
| AuthForm.ConfirmPasswordIgnored | app/components/auth/AuthForm.tsx:32-41 | changing the confirmation field never changes validation |
| AuthForm.LoginReadsOnlyCredentials | app/components/auth/AuthForm.tsx:43-46 | log-in validation depends on email and password only |
| AuthForm.SignupPhoneIsProfilePhone | app/components/auth/AuthForm.tsx:35 | a phone accepted at sign-up passes the profile phone rule |
| AuthForm.LongPhoneOnlyInProfile | app/components/auth/AuthForm.tsx:35 | a phone of more than ten digits is refused at sign-up but passes the profile rule |
| AuthForm.BlankNamePassesOnlySignup | app/components/auth/AuthForm.tsx:33 | a name of three spaces passes sign-up, which does not trim, but fails the profile rule |
| PaymentService.NewRequest | lib/payment-service.ts:40-52 | the record has amount 100, status pending, the given ids, score, total and clock, a missing name as `'Unknown User'` and missing email, phone and UPI as `''`, and no completion fields |
| PaymentService.Completion | lib/payment-service.ts:108-113 | status completed, completion time, the admin, `notes` or `''`; every other field as before |
| PaymentService.Failure | lib/payment-service.ts:130-135 | status failed, completion time, the admin and the reason; every other field as before |
| PaymentService.UpdateWhere | lib/payment-service.ts:108 | the documents with the id are updated, the others and the order unchanged |
| PaymentService.WithStatus | lib/payment-service.ts:72-77 | the filter of the documents by status: exactly the documents of the status, in order and with their repeats (a subsequence) |
| PaymentService.GetAllPaymentRequestsSpec | lib/payment-service.ts:66-97 | the answer is sorted by creation time, newest first, and is a permutation of the documents of the status (all documents without one) |
| PaymentService.CountIsQueryLength | lib/payment-service.ts:152-154 | the count of a status is the length of the status query |
| PaymentService.GetPaymentStats | lib/payment-service.ts:146-169 | the total is the number of payments; each status count is the number of payments with that status; the total, pending and completed amounts are the sums over all, pending and completed payments; the three counts add up to the total and the three amounts to the total amount |
| PaymentService.CountsAddUp | lib/payment-service.ts:151-154 | every payment has one of the three statuses |
| PaymentService.AmountsAddUp | lib/payment-service.ts:155-161 | the amounts per status add up to the total amount |
| PaymentService.TotalOfRewards | lib/payment-service.ts:46-155 | when every request is for the 100-rupee reward, the total is 100 times the number of payments |
| PaymentService.CompletionMovesPendingToCompleted | lib/payment-service.ts:108-161 | completing the one pending payment with an id moves one payment and its amount from the pending figures to the completed ones and keeps the totals |
| PaymentService.PendingBecomesCompleted | lib/payment-service.ts:146-161 | replacing one pending payment by a completed one of the same amount moves one count and that amount from pending to completed and keeps the totals and the failed figures |
| PaymentService.SingleChange | lib/payment-service.ts:108 | updating the only document with an id replaces it in place |
| PaymentService.ReplaceOne | lib/payment-service.ts:150-161 | how each count and amount moves when one payment is replaced |
| PaymentService.PaymentStore.CreatePaymentRequest | lib/payment-service.ts:19-61 | a score short of the total gives `null` and writes nothing; a missing user document is the "User not found" error and writes nothing; a throwing `addDoc` is rethrown and writes nothing; otherwise one new pending record is appended and its id returned |
| PaymentService.PaymentStore.MarkPaymentCompleted | lib/payment-service.ts:102-119 | succeeds iff the document exists and the write does not throw; a throwing write is rethrown with its error; on success the documents with the id get the completion fields whatever their prior status, the rest unchanged; on failure nothing is written |
| PaymentService.PaymentStore.MarkPaymentFailed | lib/payment-service.ts:124-141 | succeeds iff the document exists and the write does not throw; a throwing write is rethrown with its error; on success the documents with the id get the failure fields whatever their prior status, the rest unchanged; on failure nothing is written |
| PaymentService.NoMatchNoUpdate | lib/payment-service.ts:108 | an update of a missing id changes no document |
| PaymentService.CreationAddsPending | lib/payment-service.ts:40-161 | a new request adds one pending payment of 100 to the totals and the pending figures, and leaves the completed and failed figures |
| PaymentService.AppendStats | lib/payment-service.ts:150-161 | how each count and amount moves when one payment is appended |
| ApproveContribution.Approve | ai/flows/approve-contribution.ts:50-63 | the status becomes `verified`; `pendingSubmissions` drops by one exactly when the prior status was `under-verification` |
| ApproveContribution.ApproveIdempotent | ai/flows/approve-contribution.ts:50-56 | approving twice is approving once |
| ApproveContribution.ApproveTouchesOnlyItsDocument | ai/flows/approve-contribution.ts:56 | no other contribution's status changes |
| ApproveContribution.ContributionStore.ApproveContribution | ai/flows/approve-contribution.ts:34-77 | no database: failure, no write; a missing document: failure with the "Failed to approve contribution" message, no write; a transaction that throws on an existing document: failure with that message and the error, no write; otherwise success and the state after `Approve`; success iff the database is there, the document exists and the transaction does not throw |
| CardFilter.ClickCard | app/admin/ads/page.tsx:86 | the next mode is the clicked mode or none; it is none iff the clicked card was already selected (or is none itself) |
| CardFilter.ClickTwiceClears | app/admin/ads/page.tsx:86-131 | from any other mode, clicking a card twice ends on no filter |
| CardFilter.ClickTwiceFromNoneRestores | app/admin/finances/page.tsx:197-245 | from no filter, clicking a card twice returns to no filter |
| AdminAdsPage.ComputeStats | app/admin/ads/page.tsx:50-59 | the total is the number of documents; active and deactivated add up to it; active counts the documents whose `isActive` is true; the revenue is the sum of the documents' revenues |
| AdminAdsPage.RevenueTotalBoundsEach | app/admin/ads/page.tsx:50 | with no negative revenue, the revenue total is at least each ad's revenue (a missing one counted as 0) |
| AdminAdsPage.RevenueNonNegative | app/admin/ads/page.tsx:50 | with no negative revenue, the total is not negative |
| AdminAdsPage.ClickCard | app/admin/ads/page.tsx:86-131 | the current card's mode clears the filter, another card selects its mode; the refresh counter is kept |
| AdminAdsPage.ClearFilter | app/admin/ads/page.tsx:186 | "Clear Filter" sets no filter and keeps the counter |
| AdminAdsPage.Refresh | app/admin/ads/page.tsx:68-196 | an upload or list update increments the counter and keeps the mode |
| AdminAdsPage.ListKeyInjective | app/admin/ads/page.tsx:194 | distinct page states give distinct list keys, so every refresh or mode change remounts the list |
| AdminAdsPage.CardTwiceRestores | app/admin/ads/page.tsx:86 | two clicks on a card from no filter restore the page state |
| AdsList.ModeNameInjective | app/components/admin/AdsList.tsx:47-59 | distinct modes have distinct names |
| AdsList.FilteredAdsSpec | app/components/admin/AdsList.tsx:47-60 | active: exactly the active ads in list order; deactivated: exactly the others in order; revenue: a permutation of all ads sorted by revenue, highest first; total and none: the list unchanged |
| AdsList.ActiveAndDeactivatedSplitTheList | app/components/admin/AdsList.tsx:52-54 | every ad is in exactly one of the active and deactivated views |
| AdsList.HandleDelete | app/components/admin/AdsList.tsx:65-87 | unconfirmed: unchanged; confirmed: exactly the ads without the id, in order |
| AdsList.HandleToggleActive | app/components/admin/AdsList.tsx:90-107 | the ads with the id flip `isActive`; every other ad and field is unchanged |
| AdsList.ToggleTwiceRestores | app/components/admin/AdsList.tsx:93 | toggling the same ad twice restores the list |
| AdsList.HandleUpdateRevenue | app/components/admin/AdsList.tsx:110-125 | an empty or non-numeric entry changes nothing; otherwise only the matching ads' revenue becomes the number, and the editor closes and clears |
| AdUploadForm.ValidationError | app/components/admin/AdUploadForm.tsx:49-68 | the first failing check in the order slot, company, URL, revenue, file is reported, each iff all earlier ones pass and it fails; none iff all pass |
| AdUploadForm.SubmitDisabled | app/components/admin/AdUploadForm.tsx:226 | disabled exactly when loading or no slot is chosen |
| AdUploadForm.UploadForm.constructor | app/components/admin/AdUploadForm.tsx:20-27 | every field starts at its initial value and `loading` is false |
| AdUploadForm.UploadForm.HandleSubmit | app/components/admin/AdUploadForm.tsx:47-114 | a failed check reports its message and changes no field and no store; a passing one runs the submit sequence |
| AdUploadForm.UploadForm.Submit | app/components/admin/AdUploadForm.tsx:71-113 | `loading` ends false; a failed upload or creation keeps every field and writes nothing; a creation happens iff the upload and the write succeed, appends the ad with the uploaded URL and the numeric revenue, drops its slot's cache entry and resets every field |
| FinancesPage.FilterPayments | app/admin/finances/page.tsx:77-95 | the pending, completed and failed views hold exactly the payments of that status, in list order; the total and unfiltered views hold every payment |
| FinancesPage.ClickCard | app/admin/finances/page.tsx:197-245 | the total, pending, completed and failed cards: the next mode is the clicked one or none, and none iff the clicked card was already selected |
| FinancesPage.StatusCardShowsItsStatus | app/admin/finances/page.tsx:77-245 | a status card clicked from another mode shows only payments of its status; clicked again, every payment |
| FinancesPage.CsvRow | app/admin/finances/page.tsx:143-152 | eight cells, one per header column: name, UPI and phone as stored; the amount is `₹` and the number; the status is its lower-case name; the creation time formatted; the completion time formatted, or `-` when missing; the completing admin, or `-` when missing or empty |
| FinancesPage.CsvRows | app/admin/finances/page.tsx:141-153 | the header row, then one row per shown payment, in order |
| FinancesPage.CsvReadsBack | app/admin/finances/page.tsx:154-155 | when no cell holds a comma or a newline, splitting the file at newlines and each line at commas gives back the rows |
| FinancesPage.ExportReadsBack | app/admin/finances/page.tsx:140-155 | such an export reads back as the header and the cells of each shown payment |
| FinancesPage.CommaInNameAddsACell | app/admin/finances/page.tsx:144-154 | cells are not quoted: a name holding a comma makes that line read back with nine cells |
| FinancesPage.HandleMarkCompleted | app/admin/finances/page.tsx:97-116 | no admin email: nothing written; not confirmed: nothing written; otherwise it reports success iff the document exists and the write does not throw, in which case the documents with the id get the completion fields; any failure shows "Failed to mark payment as completed" and writes nothing |
| FinancesPage.HandleMarkFailed | app/admin/finances/page.tsx:118-138 | no admin email: nothing written; a cancelled or empty reason: nothing written; otherwise it reports success iff the document exists and the write does not throw, in which case the documents with the id get the failure fields with the reason; any failure shows "Failed to mark payment as failed" and writes nothing |
| AdminLayout.HasPermission | app/components/admin/AdminLayout.tsx:53-60 | access iff there is a session and the requirement is missing or empty, or the session holds `*`, or it holds one of the required permissions; never without a session |
| AdminLayout.MorePermissionsMoreAccess | app/components/admin/AdminLayout.tsx:53-60 | a session holding every permission of another has access wherever the other has |
| AdminLayout.FilteredNavItemsSpec | app/components/admin/AdminLayout.tsx:62-132 | the side navigation is exactly the permitted items, in their fixed order; with no session it is empty |
| AdminLayout.AdminManagementOnlyForStar | app/components/admin/AdminLayout.tsx:113-132 | "Admin Management" is shown iff the session holds `*` |
| AdminLayout.DashboardAlwaysShown | app/components/admin/AdminLayout.tsx:63-132 | every session sees "Dashboard Home", which requires nothing |
| AdminLayout.ToggleMenu | app/components/admin/AdminLayout.tsx:126-130 | the toggled menu is expanded afterwards iff it was collapsed before; no other menu changes |
| AdminLayout.ToggleTwiceRestores | app/components/admin/AdminLayout.tsx:126-130 | toggling a collapsed menu twice restores the list |
| AdminLayout.ToggleTwiceMovesToEnd | app/components/admin/AdminLayout.tsx:126-130 | toggling an expanded menu twice moves it (once) to the end of the list |
| AdminLayout.LastSegmentSpec | app/components/admin/AdminLayout.tsx:216 | `split('/').pop()` is the slash-free tail of the path, preceded by a `/` when shorter than the path |
| AdminLayout.LastSegmentAfterSlash | app/components/admin/AdminLayout.tsx:216 | the last segment of `dir/seg` is `seg` whatever `dir` holds |
| AdminLayout.HeaderTitle | app/components/admin/AdminLayout.tsx:216 | `DASHBOARD` when the last segment is empty; otherwise that segment, upper-cased, with only its first `-` made a space |
| AdminLayout.TrailingSlashIsDashboard | app/components/admin/AdminLayout.tsx:216 | a path ending in `/` is titled `DASHBOARD` |
| AdminLayout.SecondDashIsKept | app/components/admin/AdminLayout.tsx:216 | `replace('-', ' ')` replaces only the first dash: `a-b-c` is titled `A B-C` |
| HomePage.MalpracticeWarning | src/components/home/home-page-client.tsx:45-60 | shown iff there is a profile, the count (missing as 0) is 1 or 2, and the last no-ball fell on today's local day; then the warnings left are 3 minus the count, 1 or 2 |
| HomePage.ThirdNoBallHidesWarning | src/components/home/home-page-client.tsx:50 | at three no-balls the warning is not shown |
| HomePage.InitialSelection | src/components/home/home-page-client.tsx:91-95 | a selection is kept; with none, the first brand is selected when there is one |
| HomePage.InitialSelectionSettles | src/components/home/home-page-client.tsx:91-95 | running the effect again changes nothing |
| HomePage.HandleStartQuiz | src/components/home/home-page-client.tsx:97-132 | the first check that fails decides, in the order brand, user, already played, email verified, profile complete: each outcome iff all earlier checks pass and its own fails; the played attempt's results route; otherwise the quiz route of the brand to play |
| HomePage.ExplicitBrandWins | src/components/home/home-page-client.tsx:98 | with an explicit brand, the selected one never matters |
| HomePage.QuizRouteReadsBack | src/components/home/home-page-client.tsx:131 | the query splits at `&` into exactly the `brand` and `format` parameters, and each value decodes back to the brand's field |
| HomePage.StartDisabled | src/components/home/home-page-client.tsx:168 | the button is enabled iff the quiz status has loaded and a brand is selected |
| HomePage.ButtonFormat | src/components/home/home-page-client.tsx:166 | the played attempt's format, else the selected brand's, else empty |
| Uri.HexDigit | src/components/home/home-page-client.tsx:131 | a digit is written as an upper-case hexadecimal character |
| Uri.HexRoundTrip | src/components/home/home-page-client.tsx:131 | reading a written hex digit gives the digit back |
| Uri.Utf8 | src/components/home/home-page-client.tsx:131 | a code point is one to four bytes, each under 256 |
| Uri.EncodeChar | src/components/home/home-page-client.tsx:131 | an encoded character holds only unreserved characters, `%` and upper-case hex digits |
| Uri.Encode | src/components/home/home-page-client.tsx:131 | `encodeURIComponent` output holds only unreserved characters, `%` and upper-case hex digits |
| Uri.PercentBytesAlphabet | src/components/home/home-page-client.tsx:131 | `%XX` escapes hold only `%` and upper-case hex digits |
| Uri.ReadContinuation | src/components/home/home-page-client.tsx:131 | reading k continuation escapes needs at least 3k characters |
| Uri.PercentByteDecodes | src/components/home/home-page-client.tsx:131 | a `%XX` escape reads back as its byte |
| Uri.ReadsContinuation | src/components/home/home-page-client.tsx:131 | escaped continuation bytes read back into the accumulated code point, three characters each |
| Uri.Utf8Shape | src/components/home/home-page-client.tsx:131 | the UTF-8 bytes of a scalar value have a lead byte announcing their length, continuation bytes after it, accumulate to the value and are not overlong |
| Uri.DecodeSequence | src/components/home/home-page-client.tsx:131 | a well-formed escaped UTF-8 sequence decodes to its character, followed by the decoding of the rest |
| Uri.DecodeEncodedChar | src/components/home/home-page-client.tsx:131 | an encoded character decodes to itself, followed by the decoding of the rest |
| Uri.DecodeEncode | src/components/home/home-page-client.tsx:131 | `decodeURIComponent(encodeURIComponent(s))` is `s` for every string |
| Uri.EncodeHasNoDelimiters | src/components/home/home-page-client.tsx:131 | no encoding holds `&`, `=`, `?`, `#`, `/`, `+` or a space |
| Uri.AlphabetHasNoDelimiter | src/components/home/home-page-client.tsx:131 | no character of the encoding alphabet is a query delimiter |
| ResultsPage.MotivationalLine | app/quiz/results/page.tsx:212-221 | the fair-play line iff disqualified; the reward line iff not disqualified and perfect; the good-effort line iff neither and the score is at least 3; the tough-match line otherwise |
| ResultsPage.Shown | app/quiz/results/page.tsx:254-389 | a disqualified attempt shows none of the score, reward card, view-answers button and analysis cards; otherwise the score and the button show, the reward card iff perfect, the analysis card iff an analysis with feedback was loaded, and the analysis offer iff not |
| ResultsPage.OneAnalysisCard | app/quiz/results/page.tsx:292-389 | an attempt that is not disqualified gets exactly one of the two analysis cards |
| ResultsPage.HandleViewAnswers | app/quiz/results/page.tsx:174-186 | nothing without an attempt; a reviewed attempt opens the review, any other goes to the history page |
| ResultsPage.AnalysisKeyInjective | app/quiz/results/page.tsx:76 | different slots read different storage keys |
| ResultsPage.LoadAnalysis | app/quiz/results/page.tsx:73-93 | an analysis is loaded iff there is an attempt whose key holds a non-empty entry that parses, and then it is the parsed entry |
| ResultsPage.LoadResult | app/quiz/results/page.tsx:66-172 | an attempt from the link is used as is; no id: the no-data error; no user: waiting; no database: its error; otherwise the read document, or the not-found or server error |
| ResultsPage.DecodedSkipsDatabase | app/quiz/results/page.tsx:133-136 | an attempt carried in the link never depends on the database |
| ResultsPage.QuizId | app/quiz/results/page.tsx:106 | the `attemptId` parameter when non-empty, otherwise `quiz_` followed by the clock's milliseconds |
| ResultsPage.PaymentEffect.constructor | app/quiz/results/page.tsx:60 | the flag starts false |
| ResultsPage.PaymentEffect.Run | app/quiz/results/page.tsx:96-130 | without an attempt, a user, a perfect clean score, or with the flag already set, nothing changes; otherwise one pending request is appended and the flag set iff the user document exists and the write does not throw; else nothing is written and the flag stays clear |
| ResultsCard.MotivationalLine | components/quiz/results/page.tsx:120-128 | the same verdict order as the other results page, with the perfect line promising no reward |
| ResultsCard.Shown | components/quiz/results/page.tsx:159-187 | a disqualification hides the score, "View Answers" and the analysis offer; otherwise all three show |
| ResultsCard.LoadResult | components/quiz/results/page.tsx:50-90 | no id: its error; no user: the login redirect back to this result; no database: its error; otherwise the read document, or the not-found or server error |
| ResultsCard.NoIdNoRead | components/quiz/results/page.tsx:51-55 | without an attempt id the outcome never depends on the user, the database or the read |
| ResultsCard.LoadedOnlyFromTheRead | components/quiz/results/page.tsx:76-77 | an attempt is loaded only from a found document, and it is that document |
| UserManagement.BucketDate | lib/user-management-service.ts:104-116 | a timestamp gives its time, a non-zero `seconds` its value times 1000, a `Date` its time (none when invalid), a non-zero number itself; a falsy field, a string, an unknown shape and a zero `seconds` give no date |
| UserManagement.BucketSpec | lib/user-management-service.ts:100-127 | a bucket holds no user twice, and holds a user iff one of its attempts has a user id and a valid date no earlier than the cut-off |
| UserManagement.BucketsNest | lib/user-management-service.ts:119-121 | with ordered cut-offs, every user of the later bucket is in the earlier one |
| UserManagement.ActiveUsers | lib/user-management-service.ts:95-127 | the one-pass loop gives the three buckets, each without duplicates; with thirty days ago before seven days ago before today, today's users are in the week's and the week's in the month's |
| UserManagement.LatestSpec | lib/user-management-service.ts:201-217 | there is no latest time iff no attempt time decodes; otherwise the latest is one of the decoded times and none is later |
| UserManagement.LatestAttempt | lib/user-management-service.ts:198-217 | the running maximum of the loop is the latest decoded attempt time |
| UserManagement.LastLogin | lib/user-management-service.ts:145-188 | a timestamp, a non-zero `seconds` or a valid `Date` is its formatted date, as in the bucketing decoder; a non-empty string is its parsed date formatted, `N/A` when it does not parse; a falsy field, a number, an invalid `Date`, an unknown shape and a zero `seconds` give `N/A` |
| UserManagement.OrElse | lib/user-management-service.ts:236-238 | `x \|\| fallback`: a non-empty string is kept, an empty one replaced |
| UserManagement.RowDefaults | lib/user-management-service.ts:145-241 | the row keeps the user id and each non-empty name, email and phone; a missing name is `Unknown`, a missing email or phone `N/A`; the last login is the `LastLogin` cell; a failed attempt query, or attempts with no decodable time, give `N/A` as last quiz, and otherwise the latest decodable time formatted |
| UserManagement.AllUsersWithDetails | lib/user-management-service.ts:138-246 | one row per user document, in order, each the row of that user and its attempt query |
| UserManagement.UsersByIds | lib/user-management-service.ts:249-253 | no ids give `[]`; otherwise exactly the rows whose uid is among the ids |
| UserManagement.UsersByIdsKeepsOrder | lib/user-management-service.ts:252 | the selected rows keep the table's order |
| CricketFact.SliceEnd | ai/flows/generate-cricket-fact.ts:69 | `slice`'s end is clamped to the length, a negative end counting back from it; an end within range is kept |
| CricketFact.FallbackFacts | ai/flows/generate-cricket-fact.ts:59-72 | a prefix of the five-fact pool tagged `fallback`; for a count that is not negative, `min(count, 5)` facts |
| CricketFact.ValidCountGetsFacts | ai/flows/generate-cricket-fact.ts:10-69 | a count the input schema accepts gets one to five facts |
| CricketFact.NegativeCountCountsBack | ai/flows/generate-cricket-fact.ts:69 | a negative count `c` drops `-c` facts from the end of the pool, as `slice(0, c)` does, and none are left when `-c` exceeds the pool |
| CricketFact.FallbackMeetsSchema | ai/flows/generate-cricket-fact.ts:18-66 | every fallback fact meets the output schema's ten-character minimum |
| CricketFact.Flow | ai/flows/generate-cricket-fact.ts:80-95 | the facts come from the AI, tagged `ai`, iff its output passes validation; a throw or a failed validation gives the fallback for the count |
| CricketFact.GenerateCricketFacts | ai/flows/generate-cricket-fact.ts:74-105 | the AI's facts are served iff the count passes the input schema and the answer validates; a count the schema rejects makes the flow throw and the wrapper serve the fallback for that count |
| CricketFact.RejectedCountFallsBack | ai/flows/generate-cricket-fact.ts:59-105 | a rejected count above ten is served the whole pool, one below one and not negative none |
| BottomNav.Bar | components/BottomNav.tsx:9-29 | no bar on paths starting with `/auth`, `/quiz` or `/walkthrough`; otherwise the five items in order, each active iff the path equals its link |
| BottomNav.AtMostOneActive | components/BottomNav.tsx:9-29 | at most one item is active |
| BottomNav.QuizzesIsHidden | components/BottomNav.tsx:21 | every path that begins with `/quiz`, `/auth` or `/walkthrough` hides the bar, `/quizzes` included |
| BottomNav.OwnPageIsActive | components/BottomNav.tsx:9-29 | on each item's own page the bar shows and that item is active |
| Text.TrimStart | lib/profile-utils.ts:18 | the longest suffix not starting with JavaScript white space; everything dropped is white space |
| Text.TrimEnd | lib/profile-utils.ts:18 | the longest prefix not ending with white space; everything dropped is white space |
| Text.Trim | lib/profile-utils.ts:18-30 | `trim()`: a substring of the input that neither starts nor ends with white space, and everything dropped before and after it is white space |
| Text.TrimPadded | lib/profile-utils.ts:22 | white space around a middle that neither starts nor ends with it is cut off exactly |
| Text.ToLower | lib/ads.ts:114 | `toLowerCase()` maps each ASCII capital to its small letter and keeps the length; no capital is left |
| Text.ToLowerIdempotent | lib/ads.ts:114 | lowercasing twice is lowercasing once |
| Text.ToLowerIgnoresCase | lib/ads.ts:114 | lowercasing an uppercased string gives the lowercased original: the case of the input is forgotten |
| Text.ToUpper | app/components/admin/AdminLayout.tsx:216 | `toUpperCase()` maps each ASCII small letter to its capital; no small letter is left |
| Text.ReplaceFirst | app/components/admin/AdminLayout.tsx:216 | `replace(c, d)` with a string pattern changes only the first occurrence; nothing when there is none |
| Text.NatToString | app/admin/ads/page.tsx:194 | the decimal digits of a number, never empty |
| Text.ParsePrinted | app/admin/ads/page.tsx:194 | reading the printed digits gives the number back |
| Text.NatToStringInjective | app/admin/ads/page.tsx:194 | distinct numbers print differently |
| Text.DashKeySplitsAtFirst | app/admin/ads/page.tsx:194 | a `${a}-${b}` key with no dash in `a` determines both parts |
| Text.DashKeySplitsAtLast | app/components/rewards/RewardsContent.tsx:156-157 | a `${a}-${b}` key with no dash in `b` determines both parts |
| Text.FirstIndex | app/components/admin/AdminLayout.tsx:216 | the position of the first occurrence of the character |
| Text.Split | app/components/admin/AdminLayout.tsx:216 | `split(c)` gives at least one part and no part holds `c` |
| Text.SplitKeepsLast | app/components/admin/AdminLayout.tsx:216 | cutting off the text up to the first separator keeps the last part |
| Text.SplitJoin | app/admin/finances/page.tsx:154-155 | splitting a `join(c)` of parts free of `c` gives back the parts |
| Text.JoinAvoids | app/admin/finances/page.tsx:154-155 | a join of parts free of another character is free of it |
| Text.JoinLength | app/admin/finances/page.tsx:154-155 | a join is as long as its parts and one separator between each two |
| Lists.Filter | app/components/admin/AdsList.tsx:52-54 | `filter(p)` keeps exactly the elements that pass, and is no longer than the list |
| Lists.FilterIsSubsequence | app/components/admin/AdsList.tsx:52-54 | the filter keeps the list's order |
| Lists.FilterSplits | app/components/admin/AdsList.tsx:52-54 | a filter and the filter on its negation share out the list |
| Lists.FilterKeepsAll | app/components/admin/AdminLayout.tsx:128 | a filter every element passes keeps the list |
| Lists.FilterKeepsNone | app/components/admin/AdminLayout.tsx:132 | a filter no element passes gives `[]` |
| Lists.MapWhere | app/components/admin/AdsList.tsx:93-122 | `map(a => p(a) ? f(a) : a)` replaces exactly the elements that pass and keeps the length |
| Lists.MapWhereNoMatch | app/components/admin/AdsList.tsx:93-122 | when no element passes, the list is unchanged |
| Lists.MapWhereTwiceRestores | app/components/admin/AdsList.tsx:93-103 | a self-inverse replacement that keeps the test's answer, applied twice, restores the list |
| Lists.MapWhereKeepsCount | app/components/admin/AdsList.tsx:93-122 | a replacement that keeps the test's answer keeps the number of elements that pass |
| AdService.AdStore.constructor | lib/ad-service.ts:56 | the cache starts empty over the given collection |
| PaymentService.PaymentStore.constructor | lib/payment-service.ts:54-74 | the store holds the given documents of the `paymentRequests` collection |
| ApproveContribution.ContributionStore.constructor | ai/flows/approve-contribution.ts:40-41 | the store holds the given contribution documents and the `globals/stats` counter |
| AdsList.ModeName | app/components/admin/AdsList.tsx:11 | no mode name holds a `-`, so it cannot blur the list key |
| FormatRewards.WithoutId | components/rewards/RewardsContent.tsx:267 | the filter of the cards by a different id: exactly the cards whose id differs, in order and with their repeats (a subsequence) |
| Text.IntToString | app/admin/finances/page.tsx:147 | a number that is not negative prints as its decimal digits, with no `-`; a negative one as `-` and the digits of its magnitude |

## Left out

- Firestore and Storage I/O is not modelled as such. A read becomes its answer passed in (`Fetch`, `AttemptRead`, `Option`), and a write that can throw takes the thrown error as a parameter (`createAd`, `updateAd`, `deleteAd`, `createPaymentRequest`, the two payment marks and the approval transaction). Stateful stores are class fields. Transaction retries and the order of documents Firestore returns for equal sort keys are not modelled; the stable sort stands in for `orderBy`.
- Concurrency is left out: racing `getAdsBySlot` calls, snapshots arriving mid-query, `Promise.all`, and React's scheduling of effects and state updates. Each handler is modelled as one atomic step.
- The clock and the locale are parameters. This covers `Date.now()`, `setHours(0, 0, 0, 0)` in local time, `new Date(string)`, `toLocaleString` and `normalizeTimestamp` (from `lib/dates`, which is not part of this model). The Monday arithmetic of the weekly rewards assumes days of exactly 86400000 ms, with no daylight-saving shifts. The range limits of `new Date(n)` are not modelled.
- Numbers are unbounded integers. Revenue, amounts and scores are not floating point, and `Number(s)` and `isNaN` are a parameter from strings to an optional integer.
- CricketFact.FallbackFacts: a fractional `count` is not modelled, since integers stand for JavaScript numbers.
- AdService.AdUpdate: `updateAd` takes a `Partial<Ad>`; the model allows only the fields its callers pass or an admin edits (company, slot, type, media, redirect URL, revenue, active flag) and leaves out updates of `id`, `viewCount` and `clickCount`.
- AdminAdsPage.ComputeStats: only the figures computed from a fetched collection are modelled; the page's initial all-zero stats, its loading flag and the `catch` that keeps the previous stats when the fetch throws are not.
- FormatRewards.FormatToAdSlot: the lookup `FORMAT_TO_AD_SLOT[format]` on a plain object also answers inherited keys such as `constructor` or `toString` with a function, which would then be used as a slot in the query; the model maps every unlisted format to no slot.
- CricketFact.GenerateCricketFacts: the input schema's default of 1 for an omitted `count` is not modelled; the count is always passed.
- Strings are sequences of Unicode scalar values. JavaScript's `length` counts UTF-16 code units, so a length rule on a name with characters outside the Basic Multilingual Plane is off by their number. Lone surrogates cannot be represented, so the `URIError` that `encodeURIComponent` throws on one is not modelled.
- `toLowerCase` and `toUpperCase` map ASCII letters only.
- Zod's `.email()` check is the parameter `emailOk`. In the `dob` rule, a Timestamp carries whether its date is valid, and the string branch's `new Date` is the parameter `dateParses`.
- ProfileUtils.IsFieldFilled: the `default` branch of `isFieldFilled` (`!!value`) is unreachable for the ten listed field names and is not modelled.
- The AI calls, the prompts and zod's validation of the AI's output are left out. The output is the answer passed to `CricketFact.Flow`. The flow's only throw is its input-schema check of `count`, which `CricketFact.GenerateCricketFacts` decides with `ValidCount`; a throw of the AI call is the answer `AiError`. The other flows (quiz generation, question reports) and the analysis API route are not part of this model.
- Toasts, router navigation and `confirm`/`prompt` dialogs become returned action tags or boolean and optional parameters. `sessionStorage` and `localStorage` are maps from strings to strings, and `JSON.parse` is a `parse` parameter. Console logging is left out.
- In the payment marking handlers, the reload of the list after a mark (`loadPayments`) and the `processing` flag are left out, as is the `onSuccess` callback of the upload form; the `Uploaded` outcome stands for it.
- AdsList.HandleDelete: `deleteAd` catches and logs its own errors, so the handler's error branch is unreachable, and a confirmed delete always removes the ad from the list.
- The view and click counters, the event logs (`incrementAdView`, `incrementAdClick` and the log getters), `uploadAdFile`, `getAllActiveAds`, `getAllAds` and `getAdAnalytics` are I/O around the cache and are left out. The upload's answer is a parameter of `AdUploadForm.UploadForm.HandleSubmit`.
- UserManagement: `totalUsers` and the users-collection subscription, which only count documents, are left out. So is `deleteUser`, a single document delete. `formatDateToString` (`lib/user-management-service.ts:23-67`) is not called by the modelled functions and is left out.
- Pure UI and static content are left out: page layouts, static tables, animations and the guided tour. The admin session is read from `localStorage` and parsed; it is an `Option<AdminSession>` parameter.
