# TrueGis Media: a verified model of the video mini-app's rules

TrueGis Media is a Telegram mini-app for downloading social-network videos
and browsing them in a vertical feed. This project models, in Dafny, the
rules underneath its screens and its HTTP handlers, and proves what those
rules promise.

- **The feed** (`VideoFeed`). Fetched pages are merged into the accumulated
  list without repeating ids. A deep-linked video (`?video=<id>`) is moved or
  prepended to the front. The active item is the one whose centre is nearest
  the viewport centre. The next page is prefetched near the end of the list.
  Media URLs are resolved against the API base. Each item has like and
  favourite toggles and a view-recording machine that records once per
  activation.
- **The server's interaction handlers** (`SocialVideoController`). They
  record views, likes, dislikes, favourites and shares on the stored video
  document, compute pagination, filter the public feed and strip protected
  fields from updates.
- **The stored document** (`SocialVideoModel`). This covers the schema's
  required fields, the `source_platform` enumeration, the defaults and the
  pre-save `updated_at` stamp.
- **Download and upload** (`VideoDownload`, `VideoDownloadRoutes`). This
  covers URL-to-platform detection, request validation, the stored record's
  defaults, the error-message-to-status mapping, unique names, the upload
  mime whitelist, the size limit and the stored filename.
- **Locking** (`Keypad`, `PinCode`, `AccessPassword`, `ProtectedRoutes`).
  This covers setting a PIN, unlocking with it, the support reset and the
  route gate in front of the protected pages.
- **Gestures** (`SwipeableItem`, `BottomSheet`, `OpenFromSide`). A
  swipeable row, a sheet closed by dragging down, and a side panel closed by
  dragging right.
- **Smaller pieces.**
  - the redux video slice (`VideoSlice`);
  - URL search parameters (`UrlState`) and the Telegram back button
    (`BackButton`);
  - the profile page's thumbnail, duration, tab and link logic
    (`ProfilePage`);
  - the uploader form (`VideoUploader`);
  - the video card's buckets and colours (`VideoCard`);
  - the button's class list (`Button`).

**How the model is built.** Each component or handler whose source updates
fields step by step is a `class` whose methods change those fields. Each such
method is specified by a pure step function of the old state
(`State() == MoveStep(old(State()), x, hasEdit)`), and the properties are
proved as lemmas about the step functions. Pure helpers are functions with
named results. `Wrappers` holds `Option`. `Strings` holds the string
operations the source takes from JavaScript (`startsWith`, `includes`,
`trim`, `split`, `join`, `padStart`, decimal and hexadecimal text).

**Inputs.** Clocks, random bytes, pointer positions, element centres, the
window width, the external downloader's outcome, file-existence checks and
the answers of asynchronous callbacks are all parameters. Database lookups
are parameters too: a handler receives the looked-up document, or is told
the lookup found nothing.

**Where the code and the descriptive documentation differ.** The model
follows the code in these three places:
- Deep-link reconciliation moves the copy already in the paginated list to
  the front, not the freshly fetched copy.
- Reconciliation removes every element carrying the id, so the length is
  unchanged only when the id occurred exactly once.
- `shareVideo` saves, and so stamps `updated_at`, only when the share is
  new.

The two defects listed under "## Findings" are each modelled twice: once as
written, and once corrected with the intended property proved. The
download and upload handlers exist in both forms. `DownloadVideo` and
`UploadVideo` run against the declared schema; `DownloadVideoIntended` and
`UploadVideoIntended` run against the widened one.

## Model

| member | source | states |
|---|---|---|
| VideoFeed.NewItems | client/src/components/VideoFeed/VideoFeed.tsx:312 | an item is kept exactly when it is in the page and its id is not in the old list, and nothing is added |
| VideoFeed.NewItemsMultiplicity | client/src/components/VideoFeed/VideoFeed.tsx:312 | each page item is kept as often as it occurs in the page when its id is new, and never otherwise |
| VideoFeed.NewItemsAppend | client/src/components/VideoFeed/VideoFeed.tsx:312 | the filter distributes over concatenation of pages, so page order is kept |
| VideoFeed.NewItemsSingle | client/src/components/VideoFeed/VideoFeed.tsx:312 | a one-item page keeps its item exactly when the id is new |
| VideoFeed.MergePage | client/src/components/VideoFeed/VideoFeed.tsx:308-317 | the old list is an unchanged prefix of the merge, and the new items of the page follow it |
| VideoFeed.MergeCoversPage | client/src/components/VideoFeed/VideoFeed.tsx:312-313 | after a merge every id of the page is present in the list |
| VideoFeed.MergeIdempotent | client/src/components/VideoFeed/VideoFeed.tsx:312-313 | merging the same page a second time changes nothing |
| VideoFeed.NewItemsUnique | client/src/components/VideoFeed/VideoFeed.tsx:312 | a duplicate-free page yields duplicate-free new items |
| VideoFeed.MergeUnique | client/src/components/VideoFeed/VideoFeed.tsx:312-313 | ids stay unique when both the old list and the page are duplicate-free |
| VideoFeed.MergeKeepsDuplicateWithinPage | client/src/components/VideoFeed/VideoFeed.tsx:312 | a page with the same video twice puts it twice into an empty list, because the check is only against the old list |
| VideoFeed.AccumulateUnique | client/src/components/VideoFeed/VideoFeed.tsx:308-317 | merging any run of duplicate-free pages from an empty list keeps ids unique and holds every id seen |
| VideoFeed.FindIndex | client/src/components/VideoFeed/VideoFeed.tsx:323 | `findIndex` by id: -1 exactly when absent, otherwise the first position with that id |
| VideoFeed.RemoveId | client/src/components/VideoFeed/VideoFeed.tsx:328-330 | no element with the id remains, every remaining element comes from the list, every element with another id remains, and the length drops by the number of occurrences |
| VideoFeed.RemoveIdMultiplicity | client/src/components/VideoFeed/VideoFeed.tsx:328-330 | each element with another id keeps its multiplicity, and elements with the id have none |
| VideoFeed.RemoveIdAppend | client/src/components/VideoFeed/VideoFeed.tsx:328-330 | the filter distributes over concatenation, so the order of the others is kept |
| VideoFeed.RemoveIdSingle | client/src/components/VideoFeed/VideoFeed.tsx:328-330 | a one-element list keeps its element exactly when its id differs |
| VideoFeed.Reconcile | client/src/components/VideoFeed/VideoFeed.tsx:320-334 | without fetched data, without a truthy target or once the initial scroll is done, the list is left alone |
| VideoFeed.ReconcileEffect | client/src/components/VideoFeed/VideoFeed.tsx:323-330 | the id is first and occurs once; an absent id gets the fetched video prepended to the unchanged list; a present id puts the first paginated element with it at index 0, followed by the list with the id removed in its original order |
| VideoFeed.ReconcileIdempotent | client/src/components/VideoFeed/VideoFeed.tsx:323-330 | reconciling a second time with the same video returns the same list |
| VideoFeed.ReconcileMovesToFront | client/src/components/VideoFeed/VideoFeed.tsx:328-330 | [a, b, c] with b linked becomes [b, a, c] |
| VideoFeed.ClosestIndex | client/src/components/VideoFeed/VideoFeed.tsx:375-392 | the scan returns the index of minimal distance to the container centre, the lowest such index on ties, and 0 when no element is measured |
| VideoFeed.ClosestIsUnique | client/src/components/VideoFeed/VideoFeed.tsx:383-389 | the strict comparison makes the closest index unique |
| VideoFeed.PrefetchThreshold | client/src/components/VideoFeed/VideoFeed.tsx:395-400 | with 10 items index 7 prefetches and index 6 does not; a set load-more flag blocks every prefetch |
| VideoFeed.ApiBase | client/src/components/VideoFeed/VideoFeed.tsx:53 | the base is never empty; it is `http://localhost:3000` when `VITE_API_URL` is unset or empty, the variable itself when it has no `/api`, and otherwise the variable with its first `/api` removed, falling back to `http://localhost:3000` when nothing is left |
| VideoFeed.VideoUrl | client/src/components/VideoFeed/VideoFeed.tsx:46-55 | absolute URLs come back unchanged; any other URL is the API base, then `/downloads/`, then the URL itself |
| VideoFeed.VideoUrlIdempotent | client/src/components/VideoFeed/VideoFeed.tsx:46-55 | with an absolute base, resolving a resolved URL changes nothing |
| VideoFeed.FormatCount | client/src/components/VideoFeed/VideoFeed.tsx:36-40 | plain below 1000, thousands from 1000 below a million, millions from a million, each with the scaled value |
| VideoFeed.Toggle | client/src/components/VideoFeed/VideoFeed.tsx:143-155 | the flag flips and the counter moves +1 from off and -1 from on |
| VideoFeed.TogglesStayWithinOne | client/src/components/VideoFeed/VideoFeed.tsx:143-155 | after any number of presses the counter is the original or one more, and an even number of presses restores it |
| VideoFeed.PlaybackStep | client/src/components/VideoFeed/VideoFeed.tsx:85-119 | the playback machine stays well formed, and a view is recorded only when an armed timer fires |
| VideoFeed.ViewsAtMostActivations | client/src/components/VideoFeed/VideoFeed.tsx:91-119 | over any event sequence, at most one view is recorded per activation |
| VideoFeed.ViewOncePerActivation | client/src/components/VideoFeed/VideoFeed.tsx:97-119 | concrete runs: two activations record two views, a second timer records none, deactivation before the timer records none |
| VideoFeed.VideoItem.constructor | client/src/components/VideoFeed/VideoFeed.tsx:76-79 | an item starts unliked and unfavourited with the video's counts and no timer |
| VideoFeed.VideoItem.Like | client/src/components/VideoFeed/VideoFeed.tsx:143-148 | like toggles the flag and local count and reports the video id |
| VideoFeed.VideoItem.Favorite | client/src/components/VideoFeed/VideoFeed.tsx:150-155 | favourite toggles the flag and local count and reports the video id |
| VideoFeed.VideoItem.SetActive | client/src/components/VideoFeed/VideoFeed.tsx:85-119 | activation and deactivation follow the playback machine |
| VideoFeed.VideoItem.FireTimer | client/src/components/VideoFeed/VideoFeed.tsx:101-107 | a firing timer makes the view call, with watch time 3, exactly when the machine records a view |
| VideoFeed.Feed.constructor | client/src/components/VideoFeed/VideoFeed.tsx:282-287 | an empty list on page 1, index 0, muted, no initial scroll, no load in flight |
| VideoFeed.Feed.ActiveFlags | client/src/components/VideoFeed/VideoFeed.tsx:543 | one flag per video, and a flag is set exactly at the active index, so none is set when the index is past the list |
| VideoFeed.Feed.ReceivePage | client/src/components/VideoFeed/VideoFeed.tsx:308-317 | the list becomes the merge of the page and the load-more flag is cleared |
| VideoFeed.Feed.ReceiveLinkedVideo | client/src/components/VideoFeed/VideoFeed.tsx:320-334 | the list becomes its reconciliation with the fetched linked video |
| VideoFeed.Feed.ScrollToLinked | client/src/components/VideoFeed/VideoFeed.tsx:337-362 | the auto-scroll runs only before the initial scroll is done, for a truthy target found in a non-empty list whose element is rendered; then that index becomes active, the scroll is marked done and the parameters are cleared |
| VideoFeed.Feed.Scroll | client/src/components/VideoFeed/VideoFeed.tsx:365-419 | the closest item becomes active; the page advances by one exactly when a prefetch fires, and the load-more flag records it |
| VideoFeed.Feed.Intersect | client/src/components/VideoFeed/VideoFeed.tsx:421-446 | an entry intersecting above the threshold becomes active, any other leaves the index alone |
| VideoFeed.Feed.ToggleMute | client/src/components/VideoFeed/VideoFeed.tsx:491-495 | mute flips |
| VideoFeed.ScrollTwice | client/src/components/VideoFeed/VideoFeed.tsx:395-400 | two scroll evaluations before a merge advance the page at most once |
| SocialVideoController.IndexOfItem | server/src/controllers/socialVideoController.ts:204-205 | `indexOf`: -1 exactly when absent, otherwise the first occurrence |
| SocialVideoController.RemoveFirst | server/src/controllers/socialVideoController.ts:209 | `splice(indexOf(x), 1)`: removes one occurrence when present, nothing otherwise |
| SocialVideoController.RemoveFirstDistinct | server/src/controllers/socialVideoController.ts:209 | on a duplicate-free list the removal leaves a duplicate-free list without the item and with every other item |
| SocialVideoController.AddOnce | server/src/controllers/socialVideoController.ts:131-134 | appending when absent: the item is then present, nothing else is added, and the length grows by one only when it was absent |
| SocialVideoController.AddOnceIdempotent | server/src/controllers/socialVideoController.ts:385-389 | a repeat add changes nothing and a duplicate-free list stays duplicate-free |
| SocialVideoController.ToggleMember | server/src/controllers/socialVideoController.ts:330-340 | membership of the user flips, other members stay, the length moves by one, and a duplicate-free list stays so |
| SocialVideoController.ToggleMemberTwice | server/src/controllers/socialVideoController.ts:330-340 | toggling an absent user twice restores the list |
| SocialVideoController.DislikeIsMirroredLike | server/src/controllers/socialVideoController.ts:267-284 | dislike is like with the two lists swapped |
| SocialVideoController.LikeEffect | server/src/controllers/socialVideoController.ts:207-221 | like removes an existing like, or adds the like and removes the dislike; a user is never in both lists afterwards |
| SocialVideoController.DislikeEffect | server/src/controllers/socialVideoController.ts:267-284 | the mirror of the like effect |
| SocialVideoController.LikeTwiceRestores | server/src/controllers/socialVideoController.ts:207-221 | like then unlike by a user with no reaction restores both lists |
| SocialVideoController.Like | server/src/controllers/socialVideoController.ts:207-221 | the like toggle; specified by LikeEffect, DislikeIsMirroredLike, LikeTwiceRestores and LikeVideo |
| SocialVideoController.Dislike | server/src/controllers/socialVideoController.ts:267-284 | the dislike toggle; specified by DislikeEffect, DislikeIsMirroredLike and DislikeVideo |
| SocialVideoController.Precheck | server/src/controllers/socialVideoController.ts:187-201 | a missing user id is 400 before the lookup, an unknown video is 404, and only a found video with a user passes |
| SocialVideoController.CountViewer | server/src/controllers/socialVideoController.ts:131-134 | the viewer is appended and counted only the first time, keeping the count equal to the number of distinct viewers |
| SocialVideoController.RecordView | server/src/controllers/socialVideoController.ts:116-170 | views counted once per user, watch time added with default 0, last view and peak updated, saved, replied with 200, consistency kept |
| SocialVideoController.LikeVideo | server/src/controllers/socialVideoController.ts:182-235 | the reactions become the like effect, the counters move with the lists, the reply carries `is_liked` = not previously liked, consistency kept |
| SocialVideoController.DislikeVideo | server/src/controllers/socialVideoController.ts:245-300 | the reactions become the dislike effect, the counters move with the lists, the reply carries `is_disliked`, consistency kept |
| SocialVideoController.ToggleFavorite | server/src/controllers/socialVideoController.ts:308-355 | favourites toggle with a matching +-1, the reply carries `is_favorite` = not previously favourite, consistency kept |
| SocialVideoController.ShareVideo | server/src/controllers/socialVideoController.ts:363-400 | a share counts once per user; a repeat share changes nothing and does not save |
| SocialVideoController.LikeTwice | server/src/controllers/socialVideoController.ts:207-221 | two likes by a user with no reaction leave the document's lists and counters as they were |
| SocialVideoController.PagesTile | server/src/controllers/socialVideoController.ts:11 | page 1 skips nothing and each page starts where the previous one ended |
| SocialVideoController.Skip | server/src/controllers/socialVideoController.ts:11 | documents skipped before a page; specified by PagesTile |
| SocialVideoController.TotalPages | server/src/controllers/socialVideoController.ts:38 | `ceil(total / limit)`: the least page count that covers the total |
| SocialVideoController.Pagination | server/src/controllers/socialVideoController.ts:35-41 | the reply echoes the page and total, and `has_more` holds exactly when the next page would start before the total |
| SocialVideoController.HasMoreBeforeLastPage | server/src/controllers/socialVideoController.ts:35-41 | `has_more` holds exactly when the current page is before the last |
| SocialVideoController.FeedAdmits | server/src/controllers/socialVideoController.ts:14-22 | a video passes exactly when it is public, undeleted and unblocked and matches each given filter; without filters the three flags alone decide |
| SocialVideoController.FeedQuery | server/src/controllers/socialVideoController.ts:14-22 | the query holds the three fixed flags plus one equality for each given filter, and no other path |
| SocialVideoController.FeedAdmitsIffQuery | server/src/controllers/socialVideoController.ts:14-25 | the filter admits exactly the documents the built equality query matches |
| SocialVideoController.StripUpdates | server/src/controllers/socialVideoController.ts:564-572 | `_id`, `user`, `file_id`, `url` and `created_at` never pass, `updated_at` is the time given, and every other field passes unchanged |
| SocialVideoController.StripUpdatesIdempotent | server/src/controllers/socialVideoController.ts:564-572 | stripping again at a later time is stripping once at that time |
| SocialVideoModel.RequiredText | server/src/models/socialVideoModel.ts:58-63 | a required string fails exactly when absent or empty |
| SocialVideoModel.RequiredNumber | server/src/models/socialVideoModel.ts:74-77 | a required number fails exactly when absent |
| SocialVideoModel.PlatformErrors | server/src/models/socialVideoModel.ts:66-71 | the platform fails when absent, empty or outside the enumeration |
| SocialVideoModel.SchemaErrors | server/src/models/socialVideoModel.ts:55-112 | a document is valid exactly when every required field is present and the platform is enumerated |
| SocialVideoModel.AcceptedAsWrittenIsStricter | server/src/models/socialVideoModel.ts:66-71 | whatever the declared enumeration accepts, the widened one accepts |
| SocialVideoModel.RejectionMessage | server/src/models/socialVideoModel.ts:55-112 | a refusal starts with "SocialVideo validation failed: ", is just that prefix without errors and the prefix and the error's text for one error, and contains the text of every failed path |
| SocialVideoModel.SocialVideo.constructor | server/src/models/socialVideoModel.ts:55-112 | a document the declared schema accepts stores the given fields and the schema's defaults: counters 0, lists empty, public unless given, not deleted or blocked, analytics zero or null |
| SocialVideoModel.SocialVideo.Save | server/src/models/socialVideoModel.ts:122-125 | every save stamps `updated_at` and changes nothing else |
| VideoDownload.DetectPlatform | server/src/controllers/videoDownloadController.ts:20-30 | each platform is returned exactly when its test hits and every earlier test misses, in the order youtube (youtube.com or youtu.be), instagram, tiktok, facebook (facebook.com or fb.com), twitter (twitter.com or x.com), vk, pinterest, reddit; "other" exactly when every test misses |
| VideoDownload.DetectVk | server/src/controllers/videoDownloadController.ts:20-30 | a VK address is detected as "vk" |
| VideoDownload.NetflixReadAsTwitter | server/src/controllers/videoDownloadController.ts:20-30 | "netflix.com" contains "x.com" and is detected as "twitter" |
| VideoDownload.UniqueFilename | server/src/controllers/videoDownloadController.ts:13-17 | the name is the timestamp, "_" and 16 lowercase hex digits |
| VideoDownload.UniqueFilenameTimestamp | server/src/controllers/videoDownloadController.ts:13-17 | the timestamp can be read back from the front of the name |
| VideoDownload.Classification | server/src/controllers/videoDownloadController.ts:134-149 | timeout 408, bad URL 400, missing 404, private 403, tested in that order, otherwise 500 "Failed to download video" |
| VideoDownload.ClassifyError | server/src/controllers/videoDownloadController.ts:134-149 | the handler's reassigned status and message are the classification |
| VideoDownload.MissingFileIsNotFound | server/src/controllers/videoDownloadController.ts:72-76 | the handler's own "file not found" error maps to 404 |
| VideoDownload.OrNull | server/src/controllers/videoDownloadController.ts:99-104 | `x \|\| null`: a non-empty string is kept, anything else becomes null |
| VideoDownload.OrZero | server/src/controllers/videoDownloadController.ts:105-108 | `n \|\| 0`: a given number is kept, an absent one becomes 0 |
| VideoDownload.DownloadRecordAccepted | server/src/controllers/videoDownloadController.ts:91-111 | once URL and user are valid, the stored record satisfies the schema with the widened enumeration |
| VideoDownload.RecordErrorsAsWritten | server/src/controllers/videoDownloadController.ts:91-114 | under the declared schema the record of a valid request is accepted exactly when its platform is listed, and otherwise fails only the enumeration |
| VideoDownload.UnlistedPlatformRefusalIs500 | server/src/controllers/videoDownloadController.ts:130-155 | the database's refusal of facebook, twitter, vk, pinterest or reddit matches no keyword of the catch block and is answered 500 "Failed to download video" |
| VideoDownload.RefusalMentionsNoWord | server/src/controllers/videoDownloadController.ts:137-146 | that refusal contains neither "timeout", "private" nor "not found" |
| VideoDownload.RefusalMentionsNoCode | server/src/controllers/videoDownloadController.ts:140-146 | nor "Invalid URL", "Unsupported URL", "HTTP Error 404" or "login" |
| VideoDownload.EarlyDownloadReply | server/src/controllers/videoDownloadController.ts:37-76 | 400 without an http URL, then 400 without a user, the classified error when the tool fails, 404 when the file is missing, and no early reply exactly when all of these pass |
| VideoDownload.VkDownloadRejectedAsWritten | server/src/models/socialVideoModel.ts:66-70 | with the enumeration as declared, a valid VK download can never be stored |
| VideoDownload.DownloadVideo | server/src/controllers/videoDownloadController.ts:33-157 | the early replies first; then 201 with the record exactly when the declared schema accepts it; a refused save is classified like any other failure, so an unlisted platform gets 500 "Failed to download video" |
| VideoDownload.DownloadVideoIntended | server/src/controllers/videoDownloadController.ts:33-157 | with the widened enumeration, 201 with an accepted record exactly when no early reply applies |
| VideoDownload.UploadPlatform | server/src/controllers/videoDownloadController.ts:180 | the source URL's platform, or "other" when there is none |
| VideoDownload.UploadRecordAcceptedIff | server/src/controllers/videoDownloadController.ts:180-203 | under the declared schema an upload record is valid exactly when the file has a name, a source URL is given and its platform is instagram, tiktok, youtube or other |
| VideoDownload.UploadRecordAcceptedIntended | server/src/controllers/videoDownloadController.ts:180-203 | under the widened schema, exactly when the file has a name and a source URL is given |
| VideoDownload.UploadVideo | server/src/controllers/videoDownloadController.ts:160-228 | 400 with no file, checked before the user; then 400 without a user; 201 with the record when the declared schema accepts it, 500 "Failed to upload video" otherwise |
| VideoDownload.UploadVideoIntended | server/src/controllers/videoDownloadController.ts:160-228 | the same replies with the widened schema deciding the save |
| VideoDownload.DownloadAudio | server/src/controllers/videoDownloadController.ts:231-272 | 400 without an http URL, 500 when the tool fails or the file is missing, otherwise 200 with the audio file |
| VideoDownload.UrlValid | server/src/controllers/videoDownloadController.ts:38 | the URL check; specified by EarlyDownloadReply |
| VideoDownload.UserValid | server/src/controllers/videoDownloadController.ts:45 | the user check; specified by EarlyDownloadReply |
| VideoDownload.DownloadRecord | server/src/controllers/videoDownloadController.ts:91-111 | the stored document of a download; specified by DownloadRecordAccepted, VkDownloadRejectedAsWritten, RecordErrorsAsWritten and DownloadVideo |
| VideoDownload.UploadRecord | server/src/controllers/videoDownloadController.ts:183-203 | the stored document of an upload; specified by UploadRecordAcceptedIff, UploadRecordAcceptedIntended and UploadVideo |
| VideoDownloadRoutes.Admit | server/src/routes/videoDownloadRoutes.ts:30-48 | a file is stored exactly when its mime type is whitelisted and it is within 500 MiB; the mime test decides first |
| VideoDownloadRoutes.AllowedMimesAreVideo | server/src/routes/videoDownloadRoutes.ts:35-42 | every whitelisted type is a video type |
| VideoDownloadRoutes.Extname | server/src/routes/videoDownloadRoutes.ts:23 | the extension is empty or a dot with no further dot or separator, and it ends the last path component |
| VideoDownloadRoutes.ExtnameOfName | server/src/routes/videoDownloadRoutes.ts:23 | a last component `stem.ext` under any directory has extension `.ext` |
| VideoDownloadRoutes.ExtnameWithoutDot | server/src/routes/videoDownloadRoutes.ts:23 | a name without a dot has no extension |
| VideoDownloadRoutes.ExtnameOfBareName | server/src/routes/videoDownloadRoutes.ts:23 | a bare name `stem.ext` has extension `.ext` |
| VideoDownloadRoutes.StoredFilename | server/src/routes/videoDownloadRoutes.ts:20-25 | the stored name is timestamp, "_", the random text, then the original's extension |
| VideoDownloadRoutes.StoredFilenameKeepsExtension | server/src/routes/videoDownloadRoutes.ts:20-25 | the stored file has the same extension as the uploaded one |
| Keypad.KeyText | client/src/pages/Auth/SetPassword/PinCode.tsx:17 | a number key appends its decimal text, a labelled key its label |
| Keypad.KeysAppendOneChar | client/src/pages/Auth/SetPassword/PinCode.tsx:71 | every grid key appends exactly one character, and digit keys append a digit |
| Keypad.Letters | client/src/pages/Auth/SetPassword/PinCode.tsx:90-104 | 2 to 9 carry three letters, four for 7 and 9; 0, 1 and others carry none |
| Keypad.LettersSpellAlphabet | client/src/pages/Auth/SetPassword/PinCode.tsx:90-104 | read from 2 to 9 the letters are the alphabet in order |
| Keypad.DropLast | client/src/pages/Auth/SetPassword/PinCode.tsx:44 | `slice(0, -1)` drops the last character and leaves an empty code alone |
| PinCode.PressKeepsPinOk | client/src/pages/Auth/SetPassword/PinCode.tsx:14-40 | a press keeps the buffers within four characters, with the confirmation empty while setting |
| PinCode.DeleteKeepsPinOk | client/src/pages/Auth/SetPassword/PinCode.tsx:42-48 | a delete keeps the state well formed |
| PinCode.CompletesIffConfirmed | client/src/pages/Auth/SetPassword/PinCode.tsx:23-31 | the code is handed over exactly when a confirmation completes equal to it |
| PinCode.FourthConfirmCharRestarts | client/src/pages/Auth/SetPassword/PinCode.tsx:25-36 | a fourth confirmation character clears both buffers and returns to "set"; only a mismatch raises the error |
| PinCode.ErrorIsSticky | client/src/pages/Auth/SetPassword/PinCode.tsx:32 | the error flag is never cleared |
| PinCode.DeleteTouchesCurrentOnly | client/src/pages/Auth/SetPassword/PinCode.tsx:42-48 | delete shortens only the current step's buffer and is a no-op on an empty one |
| PinCode.RunAppend | client/src/pages/Auth/SetPassword/PinCode.tsx:14-40 | running two key sequences in turn is running their concatenation |
| PinCode.TypingSetsCode | client/src/pages/Auth/SetPassword/PinCode.tsx:16-22 | four keys in "set" fill the code and switch to "confirm" |
| PinCode.TypingConfirms | client/src/pages/Auth/SetPassword/PinCode.tsx:23-36 | four keys in "confirm" hand the code over on a match and raise the error otherwise |
| PinCode.TypingTwiceCompletes | client/src/pages/Auth/SetPassword/PinCode.tsx:14-40 | typing a code twice from the start hands it over and returns to the start |
| PinCode.MismatchRaisesError | client/src/pages/Auth/SetPassword/PinCode.tsx:32-36 | a different confirmation hands nothing over and raises the error |
| PinCode.PinCodeScreen.constructor | client/src/pages/Auth/SetPassword/PinCode.tsx:9-12 | the screen starts empty in "set" without an error |
| PinCode.PinCodeScreen.Press | client/src/pages/Auth/SetPassword/PinCode.tsx:14-40 | a press follows the set-then-confirm machine |
| PinCode.PinCodeScreen.Delete | client/src/pages/Auth/SetPassword/PinCode.tsx:42-48 | a delete follows the machine's delete |
| PinCode.PinCodeScreen.Click | client/src/pages/Auth/SetPassword/PinCode.tsx:75 | the erase key deletes, every other key presses |
| PinCode.PressStep | client/src/pages/Auth/SetPassword/PinCode.tsx:14-40 | a press on the set-and-confirm screen; specified by PressKeepsPinOk, CompletesIffConfirmed, FourthConfirmCharRestarts, ErrorIsSticky, TypingConfirms, MismatchRaisesError and PinCodeScreen.Press |
| PinCode.DeleteStep | client/src/pages/Auth/SetPassword/PinCode.tsx:42-48 | erasing drops the last digit of the code being typed; specified by DeleteKeepsPinOk, DeleteTouchesCurrentOnly and PinCodeScreen.Delete |
| AccessPassword.PressKeepsAccessOk | client/src/pages/Auth/AccessPassword.tsx:41-59 | the entered code never exceeds four characters |
| AccessPassword.SubmitsOnFourth | client/src/pages/Auth/AccessPassword.tsx:45-55 | the code is handed over exactly on the fourth character; a refusal clears it and shows "wrong code", an acceptance keeps it |
| AccessPassword.FullCodeIgnoresPresses | client/src/pages/Auth/AccessPassword.tsx:43 | presses change nothing once four characters stand |
| AccessPassword.EraseKeyTypesAsWritten | client/src/pages/Auth/AccessPassword.tsx:101-107 | as written, the erase key types its label instead of erasing |
| AccessPassword.EraseKeyErases | client/src/pages/Auth/AccessPassword.tsx:101-107 | with the label compared correctly, the erase key erases and never submits, and every digit key presses |
| AccessPassword.ResetPassword | client/src/pages/Auth/AccessPassword.tsx:119-131 | only "1999" hands over the reset code; the password is cleared exactly when that is confirmed; every other outcome shows "wrong code" |
| AccessPassword.AccessPasswordScreen.constructor | client/src/pages/Auth/AccessPassword.tsx:30-31 | the screen starts with an empty code and no error |
| AccessPassword.AccessPasswordScreen.Press | client/src/pages/Auth/AccessPassword.tsx:41-59 | a press follows the unlock step |
| AccessPassword.AccessPasswordScreen.Delete | client/src/pages/Auth/AccessPassword.tsx:61-64 | a delete drops the last character |
| AccessPassword.AccessPasswordScreen.Click | client/src/pages/Auth/AccessPassword.tsx:101-107 | a key click follows the corrected dispatch |
| AccessPassword.PressStep | client/src/pages/Auth/AccessPassword.tsx:41-59 | a press on the access screen; specified by PressKeepsAccessOk, SubmitsOnFourth, FullCodeIgnoresPresses and AccessPasswordScreen.Press |
| AccessPassword.DeleteStep | client/src/pages/Auth/AccessPassword.tsx:61-64 | erasing drops the last digit; specified by EraseKeyErases and AccessPasswordScreen.Delete |
| AccessPassword.ClickStepAsWritten | client/src/pages/Auth/AccessPassword.tsx:101-107 | the key dispatch as written; specified by EraseKeyTypesAsWritten |
| AccessPassword.ClickStep | client/src/pages/Auth/AccessPassword.tsx:101-107 | the key dispatch with the erase key recognised; specified by EraseKeyErases and AccessPasswordScreen.Click |
| ProtectedRoutes.CheckAccess | client/src/routes/ProtectedRoutes.tsx:29-35 | access is granted exactly when no password is stored, it is the text "null", or the session flag is "true" |
| ProtectedRoutes.Gate.constructor | client/src/routes/ProtectedRoutes.tsx:25-26 | the gate starts not ready, with the status that has no value (granted) |
| ProtectedRoutes.Gate.Initialize | client/src/routes/ProtectedRoutes.tsx:38-43 | once storage has loaded, the status is the access check and the gate is ready; while loading nothing changes |
| ProtectedRoutes.Gate.HandleComplete | client/src/routes/ProtectedRoutes.tsx:46-69 | a code is valid exactly when a password is stored and the code is it, the biometric code or the reset code; a valid code grants the session, an invalid one changes nothing |
| ProtectedRoutes.Gate.Render | client/src/routes/ProtectedRoutes.tsx:72-87 | loading while not ready, the PIN screen exactly when ready and pending, the pages otherwise |
| ProtectedRoutes.PinScreenOnlyForPassword | client/src/routes/ProtectedRoutes.tsx:29-35 | a pending status implies a real stored password and an ungranted session |
| ProtectedRoutes.GrantLastsForSession | client/src/routes/ProtectedRoutes.tsx:30-34 | after a grant, every later check in the session lets the user in |
| ProtectedRoutes.NoPasswordRejectsAll | client/src/routes/ProtectedRoutes.tsx:48-51 | without a stored password no code is accepted, not even the reset code |
| ProtectedRoutes.TypingStoredPasswordUnlocks | client/src/routes/ProtectedRoutes.tsx:53-56 | typing the stored password hands it over on the fourth key, it is accepted and the entry stays |
| ProtectedRoutes.SupportResetClears | client/src/routes/ProtectedRoutes.tsx:53-56 | with a password stored, the support reset is always accepted and clears it |
| SwipeableItem.Clamp | client/src/components/common/SwipeableItem/SwipeableItem.tsx:35-36 | `min(max(v, lo), hi)` lies in the range, equals v inside it and the nearer bound outside it |
| SwipeableItem.StepsStayInRange | client/src/components/common/SwipeableItem/SwipeableItem.tsx:23-90 | every handler keeps the offset in [-100, 100], or [-100, 0] without an edit action |
| SwipeableItem.MoveClamps | client/src/components/common/SwipeableItem/SwipeableItem.tsx:28-40 | a taken move lands in range from any state and restarts the reference point |
| SwipeableItem.MovesAddUp | client/src/components/common/SwipeableItem/SwipeableItem.tsx:28-40 | within range, two moves shift the row by the whole distance |
| SwipeableItem.ReleaseSnaps | client/src/components/common/SwipeableItem/SwipeableItem.tsx:43-61 | a release snaps to -90 exactly past -80, to 0 otherwise, calls edit exactly for a drag past 80 with an action, and ends the gesture |
| SwipeableItem.NoEditWithoutAction | client/src/components/common/SwipeableItem/SwipeableItem.tsx:46-48 | without an edit action no gesture calls it |
| SwipeableItem.DeleteOpacity | client/src/components/common/SwipeableItem/SwipeableItem.tsx:93 | the delete button is at most fully visible, fully so from -80, proportional above it |
| SwipeableItem.EditOpacity | client/src/components/common/SwipeableItem/SwipeableItem.tsx:94 | the edit button is invisible without an action, fully visible from 80, proportional below it |
| SwipeableItem.SwipeableRow.constructor | client/src/components/common/SwipeableItem/SwipeableItem.tsx:16-18 | a row starts undragged at offset 0 |
| SwipeableItem.SwipeableRow.Start | client/src/components/common/SwipeableItem/SwipeableItem.tsx:23-26 | a press records the point and starts dragging |
| SwipeableItem.SwipeableRow.Move | client/src/components/common/SwipeableItem/SwipeableItem.tsx:28-40 | a move follows the clamped move step |
| SwipeableItem.SwipeableRow.End | client/src/components/common/SwipeableItem/SwipeableItem.tsx:42-61 | a release follows the release step and reports whether edit was called |
| SwipeableItem.SwipeableRow.MouseLeave | client/src/components/common/SwipeableItem/SwipeableItem.tsx:86-90 | leaving ends the gesture only while dragging |
| SwipeableItem.StartStep | client/src/components/common/SwipeableItem/SwipeableItem.tsx:23-26 | a press starts dragging from its point; specified by StepsStayInRange and SwipeableRow.Start |
| SwipeableItem.MoveStep | client/src/components/common/SwipeableItem/SwipeableItem.tsx:28-40 | a move shifts the row by the distance moved, clamped; specified by StepsStayInRange, MoveClamps, MovesAddUp and SwipeableRow.Move |
| SwipeableItem.EndStep | client/src/components/common/SwipeableItem/SwipeableItem.tsx:42-61 | a release snaps the row and may call the edit action; specified by ReleaseSnaps, NoEditWithoutAction and SwipeableRow.End |
| SwipeableItem.LeaveStep | client/src/components/common/SwipeableItem/SwipeableItem.tsx:86-90 | leaving releases only while dragging; specified by StepsStayInRange and SwipeableRow.MouseLeave |
| BottomSheet.EndClosesIff | client/src/components/common/BottomSheet/BottomSheet.tsx:31-39 | a release closes exactly when both points are set and the drag exceeds 100, and always resets the sheet |
| BottomSheet.TapNeverCloses | client/src/components/common/BottomSheet/BottomSheet.tsx:17-34 | a touch without a move never closes |
| BottomSheet.LongDragCloses | client/src/components/common/BottomSheet/BottomSheet.tsx:17-34 | a single drag down by more than 100 closes |
| BottomSheet.DraggingOnlyTurnsOn | client/src/components/common/BottomSheet/BottomSheet.tsx:22-29 | a move never clears dragging, is ignored without a start and otherwise records the point |
| BottomSheet.Sheet.constructor | client/src/components/common/BottomSheet/BottomSheet.tsx:13-15 | the sheet starts with no points and not dragging |
| BottomSheet.Sheet.TouchStart | client/src/components/common/BottomSheet/BottomSheet.tsx:17-20 | a touch records the start and clears dragging |
| BottomSheet.Sheet.TouchMove | client/src/components/common/BottomSheet/BottomSheet.tsx:22-29 | a move follows the move step |
| BottomSheet.Sheet.TouchEnd | client/src/components/common/BottomSheet/BottomSheet.tsx:31-39 | a release follows the end step and reports whether it closed |
| BottomSheet.StartStep | client/src/components/common/BottomSheet/BottomSheet.tsx:17-20 | a touch records its start; specified by TapNeverCloses and Sheet.TouchStart |
| BottomSheet.MoveStep | client/src/components/common/BottomSheet/BottomSheet.tsx:22-29 | a move records its point and a downward one turns dragging on; specified by DraggingOnlyTurnsOn, LongDragCloses and Sheet.TouchMove |
| BottomSheet.EndStep | client/src/components/common/BottomSheet/BottomSheet.tsx:31-39 | the end closes on a long drag and forgets the gesture; specified by EndClosesIff, TapNeverCloses, LongDragCloses and Sheet.TouchEnd |
| OpenFromSide.StepsKeepPanelOk | client/src/components/common/OpenFromSide/OpenFromSide.tsx:20-61 | the position never goes negative under any handler |
| OpenFromSide.ClosedIgnoresTouches | client/src/components/common/OpenFromSide/OpenFromSide.tsx:29-50 | a closed panel ignores every touch |
| OpenFromSide.LeftwardMoveKeepsPosition | client/src/components/common/OpenFromSide/OpenFromSide.tsx:39-46 | a leftward move leaves the position alone |
| OpenFromSide.ReleaseClosesIff | client/src/components/common/OpenFromSide/OpenFromSide.tsx:49-61 | a release asks to close exactly past 30% of the width, else resets the position, and ends dragging either way |
| OpenFromSide.SingleDragCloses | client/src/components/common/OpenFromSide/OpenFromSide.tsx:29-61 | one drag from rest closes exactly when it goes right by more than 30% of the width |
| OpenFromSide.Panel.constructor | client/src/components/common/OpenFromSide/OpenFromSide.tsx:16-18 | a panel starts undragged at position 0 |
| OpenFromSide.Panel.SetOpen | client/src/components/common/OpenFromSide/OpenFromSide.tsx:20-27 | opening resets the position |
| OpenFromSide.Panel.TouchStart | client/src/components/common/OpenFromSide/OpenFromSide.tsx:29-34 | a touch on an open panel records the point and starts dragging |
| OpenFromSide.Panel.TouchMove | client/src/components/common/OpenFromSide/OpenFromSide.tsx:36-47 | a move follows the move step |
| OpenFromSide.Panel.TouchEnd | client/src/components/common/OpenFromSide/OpenFromSide.tsx:49-61 | a release follows the end step and reports the close request |
| OpenFromSide.OpenStep | client/src/components/common/OpenFromSide/OpenFromSide.tsx:20-27 | opening resets the offset; specified by StepsKeepPanelOk and Panel.SetOpen |
| OpenFromSide.StartStep | client/src/components/common/OpenFromSide/OpenFromSide.tsx:29-34 | a touch on the open panel starts dragging; specified by ClosedIgnoresTouches and Panel.TouchStart |
| OpenFromSide.MoveStep | client/src/components/common/OpenFromSide/OpenFromSide.tsx:36-47 | only rightward offsets are followed; specified by StepsKeepPanelOk, LeftwardMoveKeepsPosition and Panel.TouchMove |
| OpenFromSide.EndStep | client/src/components/common/OpenFromSide/OpenFromSide.tsx:49-61 | a release past the fraction of the width closes, otherwise snaps back; specified by ReleaseClosesIff, SingleDragCloses and Panel.TouchEnd |
| VideoSlice.Without | client/src/store/slices/videoSlice.ts:26-28 | the filter keeps exactly the videos with another id |
| VideoSlice.WithoutAppend | client/src/store/slices/videoSlice.ts:26-28 | filtering distributes over concatenation, so order is kept |
| VideoSlice.WithoutAbsent | client/src/store/slices/videoSlice.ts:26-28 | removing an absent id changes nothing |
| VideoSlice.WithoutIdempotent | client/src/store/slices/videoSlice.ts:25-29 | removing twice is removing once |
| VideoSlice.AddPutsFirst | client/src/store/slices/videoSlice.ts:22-24 | an added video is first, the list grows by one and the old list follows unchanged |
| VideoSlice.AddThenRemove | client/src/store/slices/videoSlice.ts:22-29 | adding then removing a video's id is removing it |
| VideoSlice.RemoveOtherCommutes | client/src/store/slices/videoSlice.ts:22-29 | removing another id commutes with an add |
| VideoSlice.ClearKeepsTheRest | client/src/store/slices/videoSlice.ts:39-41 | clearing empties the list and keeps every other field |
| VideoSlice.Slice.constructor | client/src/store/slices/videoSlice.ts:11-16 | the slice starts empty, with no current video, progress 0, not downloading |
| VideoSlice.Slice.AddDownloadedVideo | client/src/store/slices/videoSlice.ts:22-24 | the reducer follows the add step |
| VideoSlice.Slice.RemoveDownloadedVideo | client/src/store/slices/videoSlice.ts:25-29 | the reducer follows the remove step |
| VideoSlice.Slice.SetCurrentVideo | client/src/store/slices/videoSlice.ts:30-32 | only the current video changes |
| VideoSlice.Slice.SetDownloadProgress | client/src/store/slices/videoSlice.ts:33-35 | only the progress changes |
| VideoSlice.Slice.SetIsDownloading | client/src/store/slices/videoSlice.ts:36-38 | only the downloading flag changes |
| VideoSlice.Slice.ClearDownloadedVideos | client/src/store/slices/videoSlice.ts:39-41 | the reducer follows the clear step |
| VideoSlice.AddStep | client/src/store/slices/videoSlice.ts:22-24 | the video goes first; specified by AddPutsFirst, AddThenRemove and Slice.AddDownloadedVideo |
| VideoSlice.RemoveStep | client/src/store/slices/videoSlice.ts:25-29 | the videos with that id are dropped; specified by AddThenRemove, RemoveOtherCommutes and Slice.RemoveDownloadedVideo |
| VideoSlice.SetCurrentStep | client/src/store/slices/videoSlice.ts:30-32 | specified by Slice.SetCurrentVideo |
| VideoSlice.SetProgressStep | client/src/store/slices/videoSlice.ts:33-35 | specified by Slice.SetDownloadProgress |
| VideoSlice.SetDownloadingStep | client/src/store/slices/videoSlice.ts:36-38 | specified by Slice.SetIsDownloading |
| VideoSlice.ClearStep | client/src/store/slices/videoSlice.ts:39-41 | the list is emptied; specified by ClearKeepsTheRest and Slice.ClearDownloadedVideos |
| UrlState.Delete | client/src/hooks/useURLState.ts:16-20 | `delete(k)` keeps exactly the pairs with another name |
| UrlState.FirstIndex | client/src/hooks/useURLState.ts:22 | the position of a pair named k with no earlier pair so named |
| UrlState.Get | client/src/hooks/useURLState.ts:22 | `get(k)` is present exactly when a pair is named k, and is then the value of the first such pair |
| UrlState.GetAfterSet | client/src/hooks/useURLState.ts:6-9 | after `set(k, v)`, `get(k)` is v |
| UrlState.GetAfterDelete | client/src/hooks/useURLState.ts:16-22 | after `delete(k)`, k reads null and every other name reads as before |
| UrlState.SetKeepsOthers | client/src/hooks/useURLState.ts:6-9 | `set(k, v)` leaves every other name's value alone |
| UrlState.SetOnlyTouchesName | client/src/hooks/useURLState.ts:6-9 | `set(k, v)` differs from the original only in k, which appears once |
| UrlState.Set | client/src/hooks/useURLState.ts:9 | `set(k, v)` leaves one pair named k, at `FirstIndex(ps, k)` when k is present and last otherwise, with no later pair so named; specified by SetReplacesFirst, SetAppendsNew, GetAfterSet, SetKeepsOthers and SetOnlyTouchesName |
| UrlState.SetAppendsNew | client/src/hooks/useURLState.ts:9 | setting an absent name appends its pair after all existing pairs |
| UrlState.SetReplacesFirst | client/src/hooks/useURLState.ts:9 | setting a present name keeps the pairs before its first pair, puts the new pair in that place, and keeps the later pairs except the ones so named |
| UrlState.DeleteTwice | client/src/hooks/useURLState.ts:16-20 | deleting twice is deleting once |
| UrlState.DeleteAppend | client/src/hooks/useURLState.ts:16-20 | deletion distributes over concatenation, so order is kept |
| UrlState.LastIndex | client/src/hooks/useURLState.ts:23 | the position of a pair named k with no later pair so named |
| UrlState.AllParams | client/src/hooks/useURLState.ts:23 | the object has exactly the names present, each holding the value of its last pair |
| UrlState.Keys | client/src/hooks/useTelegramBackButton.tsx:22 | the object's keys are exactly the names present, each once |
| UrlState.KeysInFirstOrder | client/src/hooks/useTelegramBackButton.tsx:22 | the keys come in the order of each name's first pair |
| UrlState.KeysAfterDelete | client/src/hooks/useURLState.ts:16-20 | deleting a name removes exactly that key from the key order |
| UrlState.DeleteLastKey | client/src/hooks/useTelegramBackButton.tsx:26-29 | deleting the last key leaves the other keys in their order |
| UrlState.ParsePieces | client/src/hooks/useURLState.ts:4 | each piece of a query becomes one pair |
| UrlState.ParseSinglePair | client/src/hooks/useURLState.ts:4 | `name=value` parses to that one pair |
| UrlState.ParseQuery | client/src/hooks/useURLState.ts:4 | the query is cut at `&`, empty pieces are dropped and each piece becomes one pair; specified by ParsePieces and ParseSinglePair |
| UrlState.UrlParams.constructor | client/src/hooks/useURLState.ts:4 | the parameters are the given pairs |
| UrlState.UrlParams.SetParam | client/src/hooks/useURLState.ts:6-14 | a truthy value is set as its text, a falsy one deletes the name |
| UrlState.UrlParams.DeleteParam | client/src/hooks/useURLState.ts:16-20 | the parameters lose exactly that name |
| UrlState.SetParamReadsBack | client/src/hooks/useURLState.ts:6-14 | after `setParam` k reads the text of a truthy value or null, other names read as before, and `true` reads "true" |
| BackButton.HandleBack | client/src/hooks/useTelegramBackButton.tsx:25-38 | back removes a parameter exactly when there is one, and the key it removes is present |
| BackButton.SegmentsAreNames | client/src/hooks/useTelegramBackButton.tsx:23 | segments are non-empty and contain no "/" |
| BackButton.SegmentsOfParent | client/src/hooks/useTelegramBackButton.tsx:32 | the parent path built from segments splits back into those segments |
| BackButton.BackClimbsOneSegment | client/src/hooks/useTelegramBackButton.tsx:30-34 | without parameters and with more than one segment, back navigates to a path whose segments are the current ones minus the last |
| BackButton.BackRemovesLastParam | client/src/hooks/useTelegramBackButton.tsx:22-29 | with parameters, back deletes the last key and the other keys keep their order |
| BackButton.EmptyPiecesSkipped | client/src/hooks/useTelegramBackButton.tsx:23 | "/a//b/" has the segments a and b |
| BackButton.HomeHasNoSegments | client/src/hooks/useTelegramBackButton.tsx:23 | "/" has no segments |
| BackButton.Segments | client/src/hooks/useTelegramBackButton.tsx:23 | the non-empty pieces of the path between slashes; specified by SegmentsAreNames, SegmentsOfParent, EmptyPiecesSkipped and HomeHasNoSegments |
| BackButton.BackWithoutParamsGetsHome | client/src/hooks/useTelegramBackButton.tsx:35-37 | without parameters and with one segment or none, back navigates to "/" |
| BackButton.Location.constructor | client/src/hooks/useTelegramBackButton.tsx:9 | the location holds the given path and parameters |
| BackButton.Location.Back | client/src/hooks/useTelegramBackButton.tsx:16-38 | hidden at "/" without parameters; otherwise back deletes the last key or navigates to the parent or home |
| ProfilePage.UpperHexDigit | client/src/pages/Profile/ProfilePage.tsx:27 | a digit below 16 becomes an uppercase hex digit |
| ProfilePage.Utf8 | client/src/pages/Profile/ProfilePage.tsx:27 | a character becomes one to four UTF-8 bytes, one exactly for ASCII |
| ProfilePage.PercentBytes | client/src/pages/Profile/ProfilePage.tsx:27 | each byte becomes "%" and two uppercase hex digits |
| ProfilePage.EncodeUriComponent | client/src/pages/Profile/ProfilePage.tsx:27 | the encoding uses only unreserved characters and escapes, is never shorter, and leaves unreserved text alone |
| ProfilePage.EncodeChar | client/src/pages/Profile/ProfilePage.tsx:27 | an unreserved character stands for itself, any other becomes the escapes of its UTF-8 bytes |
| ProfilePage.EncodeUriComponentChar | client/src/pages/Profile/ProfilePage.tsx:27 | a one-character text encodes as that character's own encoding |
| ProfilePage.EncodeUriComponentAppend | client/src/pages/Profile/ProfilePage.tsx:27 | the encoding of a concatenation is the concatenation of the encodings |
| ProfilePage.EncodedThumbnailIsOneParam | client/src/pages/Profile/ProfilePage.tsx:27 | parsing `url=` and an encoded thumbnail gives back exactly one pair holding the encoded text, so the thumbnail stays one query value |
| ProfilePage.ThumbnailUrl | client/src/pages/Profile/ProfilePage.tsx:14-31 | empty exactly for an empty thumbnail or a Telegram file id; an http link is the API base, `/api/proxy/image?url=` and the encoded link; any other value is the API base, `/downloads/` and the value |
| ProfilePage.ProxyReceivesThumbnail | client/src/pages/Profile/ProfilePage.tsx:27 | for a linked thumbnail the proxy's query parses to exactly one parameter, `url`, holding the encoded link |
| ProfilePage.ImageUnlessFileId | client/src/pages/Profile/ProfilePage.tsx:101-116 | an image is shown exactly when the thumbnail is non-empty and not a file id |
| ProfilePage.LocalThumbnailLikeVideo | client/src/pages/Profile/ProfilePage.tsx:30 | a local thumbnail resolves as the feed resolves a local video |
| ProfilePage.FileIdBeforeLink | client/src/pages/Profile/ProfilePage.tsx:21-26 | the file-id test precedes the http test |
| ProfilePage.FormatDuration | client/src/pages/Profile/ProfilePage.tsx:124 | `m:ss` has at least four characters with ":" before two digits |
| ProfilePage.DurationReadsBack | client/src/pages/Profile/ProfilePage.tsx:124 | the text is decimal minutes, ":" and two decimal digits whose value is below 60 |
| ProfilePage.SixtyFiveSeconds | client/src/pages/Profile/ProfilePage.tsx:124 | 65 seconds reads "1:05" |
| ProfilePage.SelectTab | client/src/pages/Profile/ProfilePage.tsx:50-55 | the loading flag is the active tab's; the list and total are that tab's data, or empty and 0 when it has none |
| ProfilePage.OtherTabDoesNotMatter | client/src/pages/Profile/ProfilePage.tsx:50-55 | the inactive tab's query has no effect on the list, the flag or the total |
| ProfilePage.ContentOf | client/src/pages/Profile/ProfilePage.tsx:89-97 | loading while loading, the grid exactly for a loaded non-empty list, empty otherwise |
| ProfilePage.CardTitle | client/src/pages/Profile/ProfilePage.tsx:128 | the title, or "Untitled Video" when empty |
| ProfilePage.CardLinkReadsBack | client/src/pages/Profile/ProfilePage.tsx:99 | the card link is "/?" and a query whose `video` parameter is the id, which the feed reads |
| ProfilePage.ViewOf | client/src/pages/Profile/ProfilePage.tsx:50-55 | a query as the grid shows it; specified by SelectTab and OtherTabDoesNotMatter |
| ProfilePage.CardLink | client/src/pages/Profile/ProfilePage.tsx:99 | the feed link with the id as parameter; specified by CardLinkReadsBack |
| VideoUploader.ClientPlatform | client/src/components/VideoUploader/VideoUploader.tsx:69-76 | each label is returned exactly when its test hits and every earlier test misses, in the order Instagram, TikTok, YouTube (youtube.com or youtu.be), Facebook, Twitter/X (twitter.com or x.com); null exactly when every test misses |
| VideoUploader.Badge | client/src/components/VideoUploader/VideoUploader.tsx:78 | no badge for an empty URL, the detected one otherwise |
| VideoUploader.ClientKnownServerKnown | client/src/components/VideoUploader/VideoUploader.tsx:69-76 | a platform the client names is never "other" on the server |
| VideoUploader.ClientAgreesWithServer | client/src/components/VideoUploader/VideoUploader.tsx:69-76 | apart from YouTube and fb.com addresses, the client's badge names the server's platform |
| VideoUploader.VkUnknownToClient | client/src/components/VideoUploader/VideoUploader.tsx:69-76 | a VK address gets no badge but the server calls it "vk" |
| VideoUploader.ErrorMessage | client/src/components/VideoUploader/VideoUploader.tsx:55 | the server's message when non-empty, "Failed to download video" otherwise |
| VideoUploader.SentIffNotBlank | client/src/components/VideoUploader/VideoUploader.tsx:21-28 | a request is sent exactly when the URL is not blank, and it carries the trimmed URL, which starts and ends with a non-blank character |
| VideoUploader.ClearedOnlyOnSuccess | client/src/components/VideoUploader/VideoUploader.tsx:50-55 | the field is cleared exactly after a sent request succeeds, and a failure shows the error message |
| VideoUploader.EnabledIffSends | client/src/components/VideoUploader/VideoUploader.tsx:122 | the button is enabled exactly when submitting would send |
| VideoUploader.Uploader.constructor | client/src/components/VideoUploader/VideoUploader.tsx:12-13 | the form starts empty and public |
| VideoUploader.Uploader.Submit | client/src/components/VideoUploader/VideoUploader.tsx:18-67 | a submit follows the submit step |
| VideoUploader.SubmitStep | client/src/components/VideoUploader/VideoUploader.tsx:18-67 | a submission; specified by SentIffNotBlank, ClearedOnlyOnSuccess, EnabledIffSends and Uploader.Submit |
| VideoCard.ViewBoundaries | client/src/components/common/VideoCard/VideoCard.tsx:24-31 | 999 and 1000, 999999 and 1000000 fall on either side of the branch boundaries |
| VideoCard.FormatDate | client/src/components/common/VideoCard/VideoCard.tsx:39-52 | 0 today, 1 yesterday, 2 to 6 days, 7 to 29 whole weeks, 30 and more the date |
| VideoCard.LabelsFollowAge | client/src/components/common/VideoCard/VideoCard.tsx:39-52 | an older video never gets a more recent label |
| VideoCard.PlatformColor | client/src/components/common/VideoCard/VideoCard.tsx:55-68 | the default blue exactly for platforms other than the four named |
| VideoCard.ColorsDistinct | client/src/components/common/VideoCard/VideoCard.tsx:55-68 | the four named platforms have four different colours |
| VideoCard.SchemaPlatformsColored | client/src/components/common/VideoCard/VideoCard.tsx:55-68 | every schema platform except "other" has its own colour |
| VideoCard.VisibleActions | client/src/components/common/VideoCard/VideoCard.tsx:100-122 | download only for others' videos with a handler, delete only for own videos with a handler, never both, nothing without actions |
| VideoCard.ActionButtonClasses | client/src/components/common/VideoCard/VideoCard.tsx:103-119 | the action buttons get the small full-width primary and secondary classes |
| VideoCard.Card.constructor | client/src/components/common/VideoCard/VideoCard.tsx:22 | a card starts without an image error |
| VideoCard.Card.OnImageError | client/src/components/common/VideoCard/VideoCard.tsx:73-83 | a failed image switches the card to its placeholder |
| Button.VariantName | client/src/components/ui/Button/Button.tsx:6 | a variant name is non-empty and has no blank |
| Button.SizeName | client/src/components/ui/Button/Button.tsx:7 | a size name is non-empty and has no blank |
| Button.ExpectedClasses | client/src/components/ui/Button/Button.tsx:23-29 | there are always at least the base, variant and size classes |
| Button.EntriesFiltered | client/src/components/ui/Button/Button.tsx:23-29 | dropping empty entries leaves base, variant, size, full width only when set, and the extra name only when non-empty |
| Button.ClassStringTokens | client/src/components/ui/Button/Button.tsx:23-29 | splitting the class string at blanks gives the expected classes back, and it starts with "button" |
| Button.DefaultClasses | client/src/components/ui/Button/Button.tsx:15-20 | with no properties the classes are button, primary and medium |
| Button.Parts | client/src/components/ui/Button/Button.tsx:33-35 | the label always renders, each icon exactly when given, start first and end last |

## Left out

- Database access: `find`, `findById`, `countDocuments`, `findByIdAndUpdate` and `save` are I/O. Handlers receive the looked-up document, and the listing handlers only compute skip and pagination.
- Sort order, `skip` and `limit` applied by the database, the search regular expression, and the trending listing are database queries.
- `deleteVideo` and `getUserUploadedVideos` are outside the modelled handlers. So are `getVideoById`, `getVideoStats` and `getTrendingVideos`.
- `getVideoFile` and `deleteVideoFile` only touch the file system.
- The `average_watch_time` and `engagement_rate` analytics (server/src/controllers/socialVideoController.ts:140-153) are floating point.
- The `toFixed(1)` text of `formatCount` and `formatViews` is floating point. Only the branch and the scaled value are modelled.
- Non-numeric `page` and `limit` (`parseInt` returning NaN) are not modelled: page and limit are integers.
- Pagination, TotalPages: the model requires a positive limit, so the Infinity or NaN that `Math.ceil` gives for 0 is not captured.
- The external `yt-dlp` run, the metadata read with `yt-dlp --dump-json` and the file-existence check are parameters. So are the clock and the random bytes.
- SocialVideoController.Precheck: the interaction handlers start after the lookup, with the document given, so they do not call it; it states the replies given before and at the lookup on its own.
- AccessPassword.AccessPasswordScreen.Press: the awaited `onComplete` (client/src/pages/Auth/AccessPassword.tsx:41-59) is reduced to a `confirmed` input, so presses that arrive while it is pending are not modelled.
- Touch and mouse coordinates, element centres, the window width, the intersection ratio and the throttle are parameters. `setTimeout` is the `TimerFires` event.
- The asynchronous `video.play()` is a `playStarted` parameter. Its failure path is not modelled.
- Haptics, toasts (except their kind and text), popups, the clipboard in share, biometrics and the cloud-storage write are platform calls. The reset's cloud-storage write is the `clearsPassword` flag.
- Route parsing by the router is not modelled. The feed reads the `video` parameter as an input.
- UrlState.ParsePieces: `URLSearchParams` parsing is modelled without percent-decoding and without `+` as a space.
- UrlState.Keys: the integer-like keys that `Object.keys` orders first are not modelled; keys keep their order of first appearance.
- ProfilePage.EncodeUriComponent: lone surrogates, which make `encodeURIComponent` throw, are not modelled; a character is a code point.
- ProfilePage.FormatDuration: only whole-second durations are modelled.
- VideoCard.FormatDate: the Date arithmetic giving `diffDays` and the locale date text are out. The Russian labels, which are mis-encoded in the source, are opaque constants.
- Icon content, markup and styles are presentation.

## Findings

| source | as written | input that shows it | evidently intended | confidence | as-written member | corrected member |
|---|---|---|---|---|---|---|
| client/src/pages/Auth/AccessPassword.tsx:101-107 | the key handler tests the label against "<", but the erase key is labelled "⌫" | press "⌫" with "12" entered: the code becomes "12⌫" instead of "1" | the erase key calls the delete handler, as the set-password screen's does | high, not executed | AccessPassword.EraseKeyTypesAsWritten | AccessPassword.EraseKeyErases |
| server/src/models/socialVideoModel.ts:66-70 | the `source_platform` enumeration lists instagram, tiktok, youtube and other; the detector also returns facebook, twitter, vk, pinterest and reddit (server/src/controllers/videoDownloadController.ts:24-28) | download "http://vk.com/" with a valid user: the record's platform is "vk", validation refuses it, and the reply is 500 "Failed to download video" | every platform the detector produces can be stored | medium, not executed | VideoDownload.DownloadVideo | VideoDownload.DownloadVideoIntended |
