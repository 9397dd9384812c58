# Pool-builder CMS core, modelled in Dafny

This is a model of the logic inside a pool builder's marketing site and content management
system. Each project row carries JSON columns (`specifications`, `images`, `documents`,
`notes`), and contacts carry a `notes` document. The model covers these parts:

- **JSON document helpers** (`ProjectDataManager`, `ContactDataManager`, `ProjectQueryHelpers`,
  `ProjectValidation`).
  - The helpers append entries to the named lists, remove entries from them, update entries
    inside them and merge records. Every helper builds a new document.
  - The queries search the specifications and compute progress, active-issue and
    upcoming-milestone figures.
  - An absent (`null`) document or list is `None`. The clock is passed in as a parameter.
- **Project routes** (`ProjectSlug`, `ProjectRoutes`).
  - The URL slug is derived from a title.
  - The body of an update request is sanitised in place. It is modelled by the class
    `UpdateBody` and specified by the function `Sanitised`.
  - The pagination numbers of the project listing.
- **Front-end rules.**
  - `PoolTracking`: the budget bucket of the analytics events.
  - `PhotoGalleryModal`: the wrap-around index arithmetic of the photo gallery.
- **The cookie consent state machine.**
  - `Gtm.GtmManager` is the tag-manager singleton. Every call into the tag manager appends
    to its `dataLayer` log, and its `savedConsent` field stands for the `localStorage` entry.
  - `ConsentModal.ConsentModal` is the consent dialog. Every value it hands to `onAccept` is
    recorded in `accepted`.

Shared helpers:

- `Wrappers`: `Option`, and the "appended one element" predicate.
- `Seqs`: filtering and subsequences.
- `Text`: JavaScript `toLowerCase`, `\s` and `includes`.
- `JsValues`: JSON values and JavaScript truthiness.
- `ProjectTypes`: the document entities.

Where the code and its documentation differ, the model follows the code:

- **A sanitised update body keeps a client-supplied `slug`** when the body has no truthy
  title. So "the body has a slug exactly when it has a title" does not hold.
  `ProjectRoutes.UntitledBodyKeepsClientSlug` shows this.
- **`removeImageFromGallery` returns `null` when it empties the gallery,** which discards
  every other image list. `removeDocument` never does this.
- **An uploaded image without a category is stored as `gallery`**
  (backend/src/routes/projectJsonb.ts:90), a value the declared category type does not list.
  `ProjectTypes.ImageCategory` has a `Gallery` constructor for it.

## Model

| member | source | states |
|---|---|---|
| ProjectDataManager.UpdateSpecifications | backend/src/utils/projectData.ts:29-34 | each of the six groups comes from the update when set to a value, otherwise from the current specifications (absent counting as empty) |
| ProjectDataManager.CreateSpecifications | backend/src/utils/projectData.ts:17-27 | the six groups are copied one by one, so the result is the data itself |
| ProjectDataManager.CreateIsUpdateOfNothing | backend/src/utils/projectData.ts:17-34 | creating specifications returns the data unchanged and equals merging it into no specifications |
| ProjectDataManager.UpdateSpecificationsComposes | backend/src/utils/projectData.ts:29-34 | merging the same update twice is merging once; two merges in a row are one merge with the combined update |
| ProjectDataManager.AddImageToGallery | backend/src/utils/projectData.ts:37-46 | the gallery is the old gallery (empty if absent) plus the image at the end; the other three lists are unchanged |
| ProjectDataManager.RemoveImageFromGallery | backend/src/utils/projectData.ts:48-60 | without a gallery the input is returned as is; otherwise no kept entry has the id, every other entry is kept in order and as many times as it occurred, the other lists are unchanged, and the result is null exactly when every entry had the id |
| Seqs.FilterKeepsCounts | backend/src/utils/projectData.ts:56 | `filter` keeps every kept value as many times as it occurs |
| ProjectDataManager.AddProgressImage | backend/src/utils/projectData.ts:62-71 | the progress list gains the image at the end; the other lists are unchanged |
| ProjectDataManager.AddThenRemoveImage | backend/src/utils/projectData.ts:37-60 | adding an image with a fresh id and then removing it restores the document, or gives null when the gallery was empty or absent |
| ProjectDataManager.AddDocument | backend/src/utils/projectData.ts:74-86 | the category's list gains the document at the end; every other category is unchanged |
| ProjectDataManager.RemoveDocument | backend/src/utils/projectData.ts:88-101 | null exactly when the input is null; a missing category passes through; otherwise the id is gone, the other documents are kept in order and as many times as they occurred, the other categories are unchanged, and an emptied list stays an empty list |
| ProjectDataManager.AddInternalNote | backend/src/utils/projectData.ts:104-113 | `internal` gains the note at the end; the other lists are unchanged |
| ProjectDataManager.AddCommunicationLog | backend/src/utils/projectData.ts:115-124 | `communication` gains the entry at the end; the other lists are unchanged |
| ProjectDataManager.AddMilestone | backend/src/utils/projectData.ts:126-135 | `milestones` gains the milestone at the end; the other lists are unchanged |
| ProjectDataManager.AddIssue | backend/src/utils/projectData.ts:159-168 | `issues` gains the issue at the end; the other lists are unchanged |
| ProjectDataManager.SetMilestoneStatus | backend/src/utils/projectData.ts:147-156 | same length; non-matching milestones identical; each matching one is replaced by `Stamped` of it |
| ProjectDataManager.Stamped | backend/src/utils/projectData.ts:149-153 | the new status, the new actual date only when one is given (else the old one), every other field kept |
| ProjectDataManager.UpdateMilestoneStatus | backend/src/utils/projectData.ts:137-157 | null exactly when the notes are null; without milestones the notes pass through; otherwise length, order and ids are kept, matching milestones get the status and an actual date only when a non-empty one is given (the milestone list is `SetMilestoneStatus` of the old one, so every other field is kept), others are identical, and the other lists are unchanged |
| ProjectDataManager.UnknownMilestoneIsNoOp | backend/src/utils/projectData.ts:137-157 | an unknown milestone id returns the notes unchanged and not null, so the route does not answer "not found" |
| ProjectDataManager.ResolveMatching | backend/src/utils/projectData.ts:180-190 | same length; non-matching issues identical; every matching issue, whatever its status, becomes resolved with the given time, resolver and resolution, all other fields kept |
| ProjectDataManager.ResolveIssue | backend/src/utils/projectData.ts:170-192 | null exactly when the notes are null; without issues the notes pass through; otherwise length and ids are kept, matching issues are resolved at the clock reading by the given resolver with the given resolution, every other field kept (the issue list is `ResolveMatching` of the old one), others are identical, and the other lists are unchanged |
| ContactDataManager.AddCommunication | backend/src/utils/projectData.ts:197-206 | `communication` gains the entry at the end; qualification, follow-ups and custom fields are unchanged |
| ContactDataManager.AddFollowUp | backend/src/utils/projectData.ts:208-217 | `followUps` gains the entry at the end; the other keys are unchanged |
| ContactDataManager.UpdateQualification | backend/src/utils/projectData.ts:219-231 | a qualification always exists afterwards; each field comes from the update when set to a value, else from the stored qualification; other keys are unchanged |
| ContactDataManager.UpdateQualificationComposes | backend/src/utils/projectData.ts:219-231 | the update is idempotent; two updates are one update with the merged fields; an empty update only creates the qualification |
| Text.Lower | backend/src/utils/projectData.ts:239 | the lower-cased string has no character that lower-cases to an ASCII letter, and a string without such characters is unchanged |
| Text.Includes | backend/src/utils/projectData.ts:239 | true exactly when the term occurs at some position |
| Text.LowerIgnoresAsciiCase | backend/src/utils/projectData.ts:239 | two strings that differ only in the case of ASCII letters lower-case to the same string |
| Text.LowerCharIgnoresAsciiCase | backend/src/utils/projectData.ts:239 | an ASCII capital and its small letter lower-case alike |
| Text.LowerAppend | backend/src/utils/projectData.ts:239 | lower-casing works character by character: it distributes over concatenation |
| ProjectQueryHelpers.SearchByPoolType | backend/src/utils/projectData.ts:237-240 | false without a non-empty pool shell; otherwise true exactly when the lower-cased term occurs in the lower-cased shell |
| ProjectQueryHelpers.SearchByPoolTypeIgnoresCase | backend/src/utils/projectData.ts:237-240 | changing the case of ASCII letters in the shell or in the search term does not change the answer |
| ProjectQueryHelpers.SearchByEquipment | backend/src/utils/projectData.ts:243-251 | false without equipment; true only when some item has a type containing the term, ignoring case |
| ProjectQueryHelpers.EquipmentFound | backend/src/utils/projectData.ts:247-250 | one item whose type contains the term is enough for a true answer |
| ProjectQueryHelpers.HasWaterFeature | backend/src/utils/projectData.ts:254-261 | false without water features; true only when some key contains the feature, ignoring case, and its value is truthy |
| ProjectQueryHelpers.WaterFeatureFound | backend/src/utils/projectData.ts:258-260 | one matching key with a truthy value is enough for a true answer |
| ProjectQueryHelpers.SpaIsFound | backend/src/utils/projectData.ts:254-261 | `{spa: true, waterfalls: 0}` has a spa |
| ProjectQueryHelpers.ZeroCountDoesNotCount | backend/src/utils/projectData.ts:254-261 | in `{spa: true, <feature>: 0}` the feature (any name longer than `spa`, `waterfalls` say) is not found: a zero count is falsy |
| ProjectQueryHelpers.CompletedCount | backend/src/utils/projectData.ts:267 | the count is at most the length; it is 0 exactly when nothing is completed, and the full length exactly when everything is |
| ProjectQueryHelpers.RoundedPercent | backend/src/utils/projectData.ts:268 | a value in 0..100 within one half of 100·part/whole, the upper one on a tie (round half up) |
| ProjectQueryHelpers.GetProgressPercentage | backend/src/utils/projectData.ts:264-269 | in 0..100; 0 without milestones; otherwise the round-half-up of 100·completed/total |
| ProjectQueryHelpers.ProgressExtremes | backend/src/utils/projectData.ts:264-269 | 100 when every milestone is completed, 0 when none is |
| ProjectQueryHelpers.RoundedPercentExtremes | backend/src/utils/projectData.ts:268 | all of the total rounds to 100 percent and none of it to 0 |
| ProjectQueryHelpers.RoundedPercentMonotone | backend/src/utils/projectData.ts:268 | for a fixed total, more completed milestones never lower the percentage |
| ProjectQueryHelpers.ActiveCount | backend/src/utils/projectData.ts:274-276 | at most the length, and 0 exactly when no issue is open or in progress |
| ProjectQueryHelpers.GetActiveIssuesCount | backend/src/utils/projectData.ts:272-277 | at most the number of issues, 0 exactly when none is open or in progress (and 0 without issues) |
| ProjectQueryHelpers.ActiveCountAppend | backend/src/utils/projectData.ts:274-276 | the count of a concatenation is the sum of the counts |
| ProjectQueryHelpers.AddIssueCount | backend/src/utils/projectData.ts:159-168 | adding an issue raises the active count by one exactly when the new issue is active |
| ProjectQueryHelpers.ResolveMatchingCount | backend/src/utils/projectData.ts:180-190 | resolving lowers the active count by the number of matching issues that were active |
| ProjectQueryHelpers.ResolveIssueCount | backend/src/utils/projectData.ts:170-192 | `getActiveIssuesCount` after `resolveIssue` drops by the matching issues that were open or in progress |
| ProjectQueryHelpers.GetUpcomingMilestones | backend/src/utils/projectData.ts:280-291 | empty without milestones; an order-preserving subsequence of the milestones, all pending and planned no later than the cutoff, holding every such milestone as many times as it occurs |
| ProjectQueryHelpers.OverdueIsUpcoming | backend/src/utils/projectData.ts:286-290 | a pending milestone already past its planned date is still returned |
| ProjectQueryHelpers.AddedMilestoneIsUpcoming | backend/src/utils/projectData.ts:280-291 | a pending milestone added with a planned date within the window is returned |
| ProjectValidation.Validate | backend/src/utils/projectData.ts:296-322 | accepts exactly the non-null objects (arrays included); an accepted value is truthy |
| ProjectValidation.AcceptsAnyContents | backend/src/utils/projectData.ts:296-322 | every object and every array passes, whatever it contains |
| ProjectValidation.RejectsScalars | backend/src/utils/projectData.ts:296-322 | null, booleans, numbers and strings fail |
| ProjectSlug.StripDisallowed | backend/src/routes/projects.ts:177 | only characters of `[a-z0-9\s-]` remain, in their order and each as many times as in the input, and a string made of them is unchanged |
| ProjectSlug.DashWhitespaceRuns | backend/src/routes/projects.ts:178 | no whitespace remains, every character is a dash or comes from the input, and input without whitespace is unchanged (one dash per run: WhitespaceRunIsOneDash and DashAppend) |
| ProjectSlug.SqueezeDashes | backend/src/routes/projects.ts:179 | no two dashes in a row remain, every character comes from the input, and input without a double dash is unchanged (one dash per run: SqueezeAllDashes and SqueezeAppend) |
| ProjectSlug.Trim | backend/src/routes/projects.ts:180 | the result neither starts nor ends with whitespace, and a string without whitespace is unchanged |
| ProjectSlug.TrimIsSlice | backend/src/routes/projects.ts:180 | the result is the slice of the input between its leading and its trailing whitespace |
| ProjectSlug.TrimStartDropsLeadingWhitespace | backend/src/routes/projects.ts:180 | the result is a suffix of the input, everything dropped is whitespace, and it does not start with whitespace |
| ProjectSlug.TrimEndDropsTrailingWhitespace | backend/src/routes/projects.ts:180 | the result is a prefix of the input, everything dropped is whitespace, and it does not end with whitespace |
| ProjectSlug.Slug | backend/src/routes/projects.ts:176-180 | the slug has only `[a-z0-9-]` characters and never two dashes in a row |
| ProjectSlug.SlugKeepsLettersAndDigits | backend/src/routes/projects.ts:176-180 | the letters and digits of the slug are exactly those of the lower-cased title, in order |
| ProjectSlug.StripKeepsLettersAndDigits | backend/src/routes/projects.ts:177 | stripping keeps every `[a-z0-9]` character, in order |
| ProjectSlug.DashKeepsLettersAndDigits | backend/src/routes/projects.ts:178 | replacing whitespace runs keeps every `[a-z0-9]` character, in order |
| ProjectSlug.SqueezeKeepsLettersAndDigits | backend/src/routes/projects.ts:179 | squeezing dashes keeps every `[a-z0-9]` character, in order |
| ProjectSlug.WhitespaceRunIsOneDash | backend/src/routes/projects.ts:178 | a run of whitespace becomes exactly one dash |
| ProjectSlug.DashAppend | backend/src/routes/projects.ts:178 | the whitespace replacement works piece by piece, so each run is replaced on its own |
| ProjectSlug.SqueezeAppend | backend/src/routes/projects.ts:179 | the dash squeezing works piece by piece, so each run is squeezed on its own |
| ProjectSlug.UntrimmedSlugChars | backend/src/routes/projects.ts:176-179 | before the trim, only `[a-z0-9-]` characters are left |
| ProjectSlug.TrimIsNoOp | backend/src/routes/projects.ts:178-180 | the final trim never changes the slug |
| ProjectSlug.SlugIdempotent | backend/src/routes/projects.ts:176-180 | slugging a slug returns it unchanged |
| ProjectSlug.SurroundingSpacesBecomeDashes | backend/src/routes/projects.ts:176-180 | a non-empty `[a-z0-9]` word between two spaces becomes the word between two dashes (`" pool "` gives `"-pool-"`): the final trim finds no whitespace left |
| ProjectSlug.SqueezeAllDashes | backend/src/routes/projects.ts:179 | a run of dashes squeezes to one dash, or to none right after a dash |
| ProjectSlug.LowerKeepsNonAlnum | backend/src/routes/projects.ts:176 | lower-casing a string with no ASCII letters, digits or letters that fold to ASCII creates no ASCII letter or digit |
| ProjectSlug.NoAsciiAlnumGivesEmptySlug | backend/src/routes/projects.ts:177-179 | a title without ASCII letters or digits (a Hebrew title) has the slug `""` or `"-"`, so such titles collide on the unique slug column |
| ProjectRoutes.Sanitised | backend/src/routes/projects.ts:213-227 | fails exactly when the title is truthy but not a string (its `toLowerCase` throws); otherwise the result carries updatedAt set to the request time |
| ProjectRoutes.SanitisedDropsProtected | backend/src/routes/projects.ts:213-216 | the result has no id, createdAt or createdBy |
| ProjectRoutes.SanitisedAddsNoKey | backend/src/routes/projects.ts:213-227 | every key of the result was in the body or is slug or updatedAt |
| ProjectRoutes.SanitisedKeepsOtherKeys | backend/src/routes/projects.ts:213-227 | every other key of the body is passed through with its value |
| ProjectRoutes.SanitisedKeepsTitle | backend/src/routes/projects.ts:213-227 | the title is present exactly when it was, with the same value |
| ProjectRoutes.SanitisedSlug | backend/src/routes/projects.ts:218-225 | a truthy string title sets slug to the slug of the title; otherwise slug is present exactly when the client sent one, with the client's value |
| ProjectRoutes.AlreadySanitised | backend/src/routes/projects.ts:213-227 | a body without protected keys, with updatedAt at the request time and with the slug of its truthy string title is left as it is |
| ProjectRoutes.SanitisedIdempotent | backend/src/routes/projects.ts:213-227 | sanitising a sanitised body again at the same time changes nothing |
| ProjectRoutes.UntitledBodyKeepsClientSlug | backend/src/routes/projects.ts:219-225 | a body with only a slug keeps that slug and gains updatedAt |
| ProjectRoutes.UpdateBody.constructor | backend/src/routes/projects.ts:211 | the body holds the request's fields |
| ProjectRoutes.UpdateBody.Sanitise | backend/src/routes/projects.ts:213-227 | in place: on success the fields become `Sanitised` of the old fields; on a title that throws only the three deletions have happened |
| ProjectRoutes.Offset | backend/src/routes/projects.ts:13 | non-negative for page ≥ 1 and limit ≥ 0, and one limit short of page·limit |
| ProjectRoutes.PageCount | backend/src/routes/projects.ts:72 | null exactly for limit 0; otherwise the least page count whose pages cover the total (the ceiling of total/limit) |
| ProjectRoutes.PagesCoverTotal | backend/src/routes/projects.ts:66-73 | with a positive limit, pages 1..pages start inside the result set and later pages start past its end |
| PoolTracking.GetBudgetRange | frontend/src/utils/poolTracking.ts:198-206 | unknown exactly for a missing or zero budget; any other budget, negative included, lands in the bucket whose half-open interval holds it |
| PoolTracking.LabelsAreDistinct | frontend/src/utils/poolTracking.ts:198-206 | the label is one of the six strings, and distinct buckets have distinct labels |
| PoolTracking.BucketEdges | frontend/src/utils/poolTracking.ts:199-205 | 49999 is under 50k, 50000, 100000, 200000 and 500000 open the next buckets, and a missing or zero budget is unknown |
| PoolTracking.NegativeBudgetIsUnder50k | frontend/src/utils/poolTracking.ts:201 | a negative budget is under 50k |
| PoolTracking.BucketsAreMonotone | frontend/src/utils/poolTracking.ts:198-206 | a larger non-zero budget never lands in a lower bucket |
| PhotoGalleryModal.Previous | frontend/src/components/PhotoGalleryModal.tsx:24-27 | for an index in range, the result is in range and is the index minus one modulo the number of images |
| PhotoGalleryModal.Next | frontend/src/components/PhotoGalleryModal.tsx:29-32 | for an index in range, the result is in range and is the index plus one modulo the number of images |
| PhotoGalleryModal.Wraps | frontend/src/components/PhotoGalleryModal.tsx:24-32 | next from the last image is the first, previous from the first is the last |
| PhotoGalleryModal.NextPreviousInverse | frontend/src/components/PhotoGalleryModal.tsx:24-32 | next undoes previous and previous undoes next |
| PhotoGalleryModal.NextTimes | frontend/src/components/PhotoGalleryModal.tsx:29-32 | repeated next stays in range |
| PhotoGalleryModal.NextTimesIsRotation | frontend/src/components/PhotoGalleryModal.tsx:29-32 | pressing next k times moves k places round the ring |
| PhotoGalleryModal.FullCircle | frontend/src/components/PhotoGalleryModal.tsx:29-32 | pressing next once per image returns to the start |
| PhotoGalleryModal.EmptyGalleryLeavesRange | frontend/src/components/PhotoGalleryModal.tsx:25 | with no images, previous gives -1 and next gives 0, neither a valid index |
| Gtm.Merge | frontend/src/utils/gtm.ts:65 | each preference comes from the update when set to a value, else from the current preferences |
| Gtm.FullUpdateReplaces | frontend/src/utils/gtm.ts:65 | a complete preferences value replaces the current one |
| Gtm.NecessaryCanBeWithdrawn | frontend/src/utils/gtm.ts:65 | an update can store `necessary: false`; nothing re-enforces it |
| Gtm.Grant | frontend/src/utils/gtm.ts:71-75 | granted exactly when the flag is present and true |
| Gtm.ConsentPayload | frontend/src/utils/gtm.ts:69-77 | security storage always granted; personalisation follows advertising; each storage is granted exactly when the argument's flag is true, so an omitted flag is denied |
| Gtm.OmittedFieldIsSentDenied | frontend/src/utils/gtm.ts:64-77 | after an update that leaves analytics out, the merged preferences keep analytics on while the pushed consent denies it |
| Gtm.InitCount | frontend/src/utils/gtm.ts:55 | at most the log length, and 0 exactly when the log holds no initialisation |
| Gtm.EventFields | frontend/src/utils/gtm.ts:126-129 | the pushed object has the parameters' keys plus `event`; parameters keep their values and a parameter named `event` overrides the event name |
| Gtm.PageViewFields | frontend/src/utils/gtm.ts:149-153 | `page_view` with the path, and the page title or, when it is missing or empty, the document title |
| Gtm.ConversionFields | frontend/src/utils/gtm.ts:173-179 | `conversion` with the type, the value when given, the currency or `ILS`, and the timestamp |
| Gtm.GtmManager.constructor | frontend/src/utils/gtm.ts:18-26 | no id, not initialised, no consent, everything off except necessary, empty log; the invariant holds |
| Gtm.GtmManager.Initialize | frontend/src/utils/gtm.ts:29-61 | once initialised nothing changes; otherwise the id is recorded, and unless the tag manager throws, one initialisation with all consent denied but security is logged and the manager is initialised; the invariant that there is exactly one initialisation once initialised is kept |
| Gtm.GtmManager.UpdateConsent | frontend/src/utils/gtm.ts:64-88 | preferences become the merge; consent is given; the payload derived from the argument is logged (initialised or not); the merged preferences are stored |
| Gtm.GtmManager.GetConsentPreferences | frontend/src/utils/gtm.ts:91-93 | returns the current preferences as a value, which later changes cannot reach |
| Gtm.GtmManager.HasConsent | frontend/src/utils/gtm.ts:96-98 | returns whether consent was given |
| Gtm.GtmManager.LoadSavedConsent | frontend/src/utils/gtm.ts:101-111 | without stored consent nothing changes; otherwise the stored preferences become current through `UpdateConsent` |
| Gtm.GtmManager.PushIfAllowed | frontend/src/utils/gtm.ts:114-124 | one push is logged exactly when the manager is initialised and analytics consent is on; nothing else changes |
| Gtm.GtmManager.TrackEvent | frontend/src/utils/gtm.ts:114-134 | the event object is logged only when initialised with analytics consent; the consent state is unchanged |
| Gtm.GtmManager.TrackPageView | frontend/src/utils/gtm.ts:137-158 | the page view is logged only when initialised with analytics consent |
| Gtm.GtmManager.TrackConversion | frontend/src/utils/gtm.ts:161-184 | the conversion is logged only when initialised with analytics consent |
| Gtm.GtmManager.TrackPoolEvent | frontend/src/utils/gtm.ts:187-192 | a `pool_event` carrying the event type, overridable by the details, under the same gate |
| Gtm.GtmManager.TrackInteraction | frontend/src/utils/gtm.ts:195-201 | a `user_interaction` with the type, the element when given and the page or the current path, under the same gate |
| Gtm.GtmManager.GetStatus | frontend/src/utils/gtm.ts:204-210 | returns the initialised flag, the consent flag and the preferences |
| Gtm.InitialiseConsentTrack | frontend/src/utils/gtm.ts:29-61 | a second initialisation is ignored after a success but takes effect after a failure; afterwards, with analytics consent, an event is logged |
| ConsentModal.ChangePreference | frontend/src/components/ConsentModal.tsx:22-25 | `necessary` cannot change; any other key is set to the value and no other key changes |
| ConsentModal.ChangePreferenceOverwrites | frontend/src/components/ConsentModal.tsx:24 | changing a toggle twice keeps only the second value |
| ConsentModal.ConsentModal.constructor | frontend/src/components/ConsentModal.tsx:13-18 | all off except necessary, nothing accepted yet |
| ConsentModal.ConsentModal.HandlePreferenceChange | frontend/src/components/ConsentModal.tsx:22-25 | the state becomes the changed preferences; `necessary` stays on in every state and every accepted value |
| ConsentModal.ConsentModal.HandleAcceptAll | frontend/src/components/ConsentModal.tsx:27-36 | the state and the value sent are all on |
| ConsentModal.ConsentModal.HandleAcceptSelected | frontend/src/components/ConsentModal.tsx:38-40 | the current state is sent unchanged |
| ConsentModal.ConsentModal.HandleRejectAll | frontend/src/components/ConsentModal.tsx:42-51 | the state and the value sent are all off except necessary |
| ConsentModal.AcceptIntoManager | frontend/src/hooks/useConsent.tsx:33-38 | a value accepted in the dialog becomes the manager's preferences, with necessary on and consent given |

## Left out

- Express request handling, the Drizzle/Postgres queries, authentication (JWT, bcrypt), the raw-SQL JSON search and all React rendering are I/O, foreign code or UI. The only route logic modelled is the slug, the update-body sanitising and the pagination arithmetic.
- Concurrent requests, including the read-modify-write race on a JSON column, are not modelled. The model is sequential.
- Wall-clock time (`new Date()`, ids built from `Date.now()`) is a parameter: `now` in `ResolveIssue`, `GetUpcomingMilestones` and `Sanitised`, and `timestamp` in `TrackConversion`.
- ProjectQueryHelpers.RoundedPercent: rounds the exact quotient half up. The source rounds a floating-point product, which can differ on ties: 29 of 200 is 14 in floating point but 15 here.
- ProjectQueryHelpers.GetUpcomingMilestones: planned dates are already-parsed instants, and an unparsable date never matches. `setDate(getDate() + days)` is taken as exactly `days` × 24 hours, so daylight-saving shifts are not modelled.
- Text.Lower: lower-cases ASCII letters and the two non-ASCII letters whose lower case contains an ASCII letter (U+0130, U+212A). Other Unicode case mappings are left out because they cannot affect a slug or an ASCII search term.
- ProjectDataManager.UpdateSpecifications, ContactDataManager.UpdateQualification (through `MergeQualification`), Gtm.Merge: an update key present with the value `undefined` or `null` is read as absent, so the model keeps the current value. The source's spread `{...current, ...updates}` overwrites the field with that value instead, and the JSON column then drops it (or `hasConsent` returns a falsy `undefined`). The model therefore does not capture clearing a field through an update.
- ProjectQueryHelpers.GetUpcomingMilestones: takes the window as an explicit `days` argument. The source's default of 7 days is not modelled; its only caller passes 7 explicitly.
- JSON `null` and a missing key are both `None`, and documents hold only the keys the types declare. Extra top-level keys of a document are not modelled.
- ProjectQueryHelpers.SearchByEquipment: equipment items are typed, so an item whose `type` is not a string is not modelled. In the source that case throws.
- JsValues.Truthy: numbers are exact reals, so `NaN` is not modelled. JSON cannot carry it, but the project page computes the tracked budget with `parseInt`, which gives `NaN` for a budget string without digits (frontend/src/pages/ProjectDetail.tsx:23).
- PoolTracking.GetBudgetRange: takes a real budget, so the `NaN` budget above, which the source reports as `unknown` because `!NaN` holds, is not modelled.
- Gtm.Optional: leaves an absent `value` or `element` out of the pushed object, where the source pushes the key with the value `undefined`. The serialised object is the same.
- ProjectRoutes.Offset: takes integers, so `Number(page)` of a non-numeric query parameter, which gives `NaN`, is not modelled.
- ProjectRoutes.PageCount: requires a non-negative limit. The database rejects a negative `LIMIT` before the response is built.
- Gtm.GtmManager.UpdateConsent: the tag-manager push and the storage write are taken to succeed. Only `initialize` may throw, through the `initThrows` parameter.
- Gtm.GtmManager.LoadSavedConsent: stored consent is a typed preferences value. An unparsable `localStorage` entry is not modelled.
- Console logging, the debug `auth`/`preview` fields beyond the `debug` flag, the two-second delay before the consent dialog opens, and the `window`/`document` globals are left out. The globals become parameters (`documentTitle`, `pathname`).
