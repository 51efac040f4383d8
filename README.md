# Past Palette — a verified model of its core

Past Palette is a progressive web app for archaeologists. A user photographs
an artifact; the photographs are stored in the browser's IndexedDB (through
Dexie). Color variants are produced by a serverless function that asks an
image model to recolor the photograph. A second function suggests a name for
the artifact. Finished artifacts can be published to a public gallery in
Firebase Storage and Firestore, and an image proxy serves the stored images
back. Publication goes through a persistent upload queue with retries and
exponential back-off.

This project models that core in Dafny and proves properties of the model:

- **Upload queue** (`upload_queue.dfy`, `upload_store.dfy`). The back-off
  table and the eligibility rule. Enqueueing at most one record per artifact.
  One drain of the pending records, with the per-record outcomes and the
  attempt ceiling. Start-up resurrection of failed uploads at most once a day.
  The broadcast slot that the progress indicator reads. The service is a class
  whose methods change the table, the flags and the timers.
- **Serverless functions** (`colorize.dfy`, `identify.dfy`,
  `image_proxy.dfy`). Request validation with its exact error messages. Prompt
  assembly. The first inline image of a model answer. The three-word name
  rule. The proxy's origin allow-list and status codes. Every HTTP method
  branch of each handler.
- **Gallery service** (`gallery_service.dfy`, `uri_encoding.dfy`). Storage
  paths, the published document and the files an upload writes. The
  proxy-address rewrite. JavaScript's `encodeURIComponent`, with a decoder
  proved to invert it.
- **Local database and hooks** (`local_db.dfy`, `artifact_data.dfy`,
  `colorize_hook.dfy`, `gallery_filters.dfy`). Dexie tables as sequences kept
  in primary-key order. The cascade delete. The newest-first listing. The
  artifact view. The colorize hook's state machine and its cancellation. The
  search filter and the three sort orders.
- **Small utilities and stores** (`device_id.dfy`, `export_names.dfy`,
  `app_store.dfy`, `gallery_tour.dfy`). The device id. Export file names. The
  three Zustand stores. The 3-D tour's frame table, its Fisher–Yates shuffle
  and the remembered variant per artifact.

Randomness, clocks, the network, Firebase and the image models are
parameters of the model:

- `now` values for the clock.
- `random` functions for `Math.random`.
- Fresh ids for `uuid()`, `crypto.randomUUID()` and `Date.now()`.
- `publish`, `fetch`, `parse`, `generate` and `downloadUrl` oracles for the
  network, JSON parsing, the model and Firebase.

## Model

| member | source | states |
|---|---|---|
| UploadQueue.BackoffTable | src/lib/firebase/uploadQueue.ts:7-10 | The delays before attempts 0..4 are 0, 5 s, 15 s, 45 s and 2 min. Any later attempt waits 2 min, which is the largest delay. |
| UploadQueue.BackoffMonotonic | src/lib/firebase/uploadQueue.ts:74-76 | More attempts never mean a shorter wait. |
| UploadQueue.EligibilityRule | src/lib/firebase/uploadQueue.ts:74-81 | A record never tried is always eligible. A tried record is eligible exactly when `now - lastAttempt >= delay(attempts)`. |
| UploadQueue.EligibilityPersists | src/lib/firebase/uploadQueue.ts:74-81 | An eligible record stays eligible as time passes. |
| UploadQueue.EligibleAfterLongestDelay | src/lib/firebase/uploadQueue.ts:7-10 | Two minutes after its last attempt, every record is eligible. |
| UploadQueue.EnqueueEffect | src/lib/firebase/uploadQueue.ts:18-43 | If the artifact already has a record in any status, nothing changes. Otherwise exactly one new record is added under the fresh id: pending, 0 attempts, created now, never tried. |
| UploadQueue.EnqueueIdempotent | src/lib/firebase/uploadQueue.ts:20-28 | A second enqueue of the same artifact changes nothing. |
| UploadQueue.EnqueueLeavesOneRecord | src/lib/firebase/uploadQueue.ts:20-36 | After an enqueue, the artifact has exactly one record. |
| UploadQueue.EnqueuePreservesInvariant | src/lib/firebase/uploadQueue.ts:18-43 | Enqueueing keeps the table invariant: records keyed by their id, at most one per artifact, attempts within 0..5. |
| UploadQueue.Started | src/lib/firebase/uploadQueue.ts:92-95 | Starting an attempt marks the record uploading and stamps `lastAttempt`. It keeps the old error and the attempt count. |
| UploadQueue.AttemptOutcomes | src/lib/firebase/uploadQueue.ts:73-137 | An ineligible record is left alone. A successful publish deletes the record. A failure increments the attempts, records the thrown message (or "Unknown error") and stamps `lastAttempt`. The record is failed exactly when the attempts reach 5, and pending otherwise. |
| UploadQueue.AttemptKeepsRange | src/lib/firebase/uploadQueue.ts:108-126 | A pending record whose attempts are in range keeps them in range after any attempt. |
| UploadQueue.BroadcastMatchesOutcome | src/lib/firebase/uploadQueue.ts:97-135 | After an attempt, the progress slot is cleared on success and on a retry. It shows a failed upload, with the error, when the ceiling is reached. |
| UploadQueue.DrainIsPerRecord | src/lib/firebase/uploadQueue.ts:57-67 | A drain changes only pending records. Each pending record's new state is its own attempt's outcome, whatever the order. No record appears that was not there. |
| UploadQueue.DrainIsolation | src/lib/firebase/uploadQueue.ts:65-67 | One record's failure does not stop another record from being published in the same drain. |
| UploadQueue.DrainPreservesInvariant | src/lib/firebase/uploadQueue.ts:48-71 | A drain keeps the table invariant. |
| UploadQueue.DrainedOnEmpty | src/lib/firebase/uploadQueue.ts:65-67 | Draining no records leaves the table unchanged. |
| UploadQueue.DrainedOnStep | src/lib/firebase/uploadQueue.ts:65-67 | Draining one more record replaces only that record by its attempt's outcome. |
| UploadQueue.CeilingAfterRepeatedFailure | src/lib/firebase/uploadQueue.ts:108-126 | Failing every attempt from a pending record ends in a failed record with 5 attempts. |
| UploadQueue.RevivedOnEmpty | src/lib/firebase/uploadQueue.ts:166-172 | Reviving no records leaves the table unchanged. |
| UploadQueue.RevivedOnStep | src/lib/firebase/uploadQueue.ts:166-172 | Reviving one more failed record resets only that record. |
| UploadQueue.ResurrectionEffect | src/lib/firebase/uploadQueue.ts:153-172 | A failed record becomes pending with one attempt fewer, which is 4 at the ceiling, and no error. Its id, artifact, creation time and last attempt are kept. Every other record is unchanged. |
| UploadQueue.ResurrectionPreservesInvariant | src/lib/firebase/uploadQueue.ts:142-175 | Resurrection keeps the table invariant. |
| UploadQueue.RevivedIsRetried | src/lib/firebase/uploadQueue.ts:142-175 | A revived record whose last attempt is at least 2 min old is pending and eligible at once. |
| UploadQueue.StuckUploadingIsPermanent | src/lib/firebase/uploadQueue.ts:18-175 | A record left uploading is untouched by drain and by resurrection, and it blocks re-enqueueing its artifact. |
| UploadQueue.UploadQueueService.constructor | src/lib/firebase/uploadQueue.ts:12-13 | The service starts from the stored table and the stored last-retry time. It is idle, with no timer and no listener. |
| UploadQueue.UploadQueueService.SetOnline | src/lib/firebase/uploadQueue.ts:49-55 | Records the browser's online flag. |
| UploadQueue.UploadQueueService.EnqueueUpload | src/lib/firebase/uploadQueue.ts:18-43 | The new table is `Enqueued(old, artifactId, id, now)`, and the invariant is kept. |
| UploadQueue.UploadQueueService.ProcessUpload | src/lib/firebase/uploadQueue.ts:73-137 | The record is replaced by its attempt's outcome. An eligible attempt broadcasts exactly two values, 'uploading' for the artifact and then its outcome; an attempt still inside its backoff broadcasts nothing. |
| UploadQueue.UploadQueueService.ProcessQueue | src/lib/firebase/uploadQueue.ts:48-71 | When busy or offline, nothing changes. Otherwise the table becomes `Drained(old, now, publish)` and the busy flag is released. |
| UploadQueue.UploadQueueService.DrainSnapshot | src/lib/firebase/uploadQueue.ts:58-67 | Looping over the snapshot of pending ids yields `Drained(old, now, publish)`. |
| UploadQueue.UploadQueueService.RetryFailedUploadsOnStartup | src/lib/firebase/uploadQueue.ts:142-175 | Failed records are revived, and the time stamped, only when 24 h have passed and there is a failed record. Otherwise nothing changes. |
| UploadQueue.UploadQueueService.ReviveAll | src/lib/firebase/uploadQueue.ts:166-172 | Looping over the failed ids yields `Resurrected(old)`. |
| UploadQueue.UploadQueueService.InitializeUploadQueue | src/lib/firebase/uploadQueue.ts:185-200 | The listener and timer part of start-up. One interval timer is live: any previous one is cleared. One more online listener is registered. |
| UploadQueue.UploadQueueService.CleanupUploadQueue | src/lib/firebase/uploadQueue.ts:208-213 | The interval timer is cleared. Listeners stay registered. |
| UploadStore.UploadStore.constructor | src/stores/uploadStore.ts:14 | The progress slot starts empty. |
| UploadStore.UploadStore.SetCurrentUpload | src/stores/uploadStore.ts:15 | The slot holds exactly the given value, and that value is appended to the record of broadcasts subscribers have seen. |
| UploadStore.UploadStore.ClearUpload | src/stores/uploadStore.ts:16 | The slot is emptied, and the empty value is appended to the record of broadcasts. |
| Colorize.ParseSchemeRoundTrip | netlify/functions/colorize.ts:30-80 | Each of the seven scheme names parses to its scheme, and only that name does. |
| Colorize.ClientSchemesAccepted | src/types/artifact.ts:8-14 | Every scheme the client can send is accepted under the same name. "weathered" is a server-only scheme. |
| Colorize.ValidateRequest | netlify/functions/colorize.ts:83-116 | A body that is not an object is rejected with "Invalid request body"; the other errors are, in order, a missing image, a missing or unknown scheme, and a custom scheme without a prompt. An accepted request carries exactly the body's image, scheme, custom prompt when it is a string, and the truthiness of `includeRestoration`. |
| Colorize.ValidRequestAccepted | netlify/functions/colorize.ts:83-116 | Every well-formed body is accepted. |
| Colorize.UnknownSchemeRejected | netlify/functions/colorize.ts:98-104 | A non-empty scheme name outside the table is rejected, and the message names it. |
| Colorize.CustomNeedsPrompt | netlify/functions/colorize.ts:106-108 | A custom scheme without a non-empty prompt is rejected. |
| Colorize.PromptLayout | netlify/functions/colorize.ts:119-140 | A prompt is the opening, then the restoration paragraph only when asked for, then the closing instructions. |
| Colorize.RestorationOnlyInserts | netlify/functions/colorize.ts:123-137 | Asking for restoration only inserts the paragraph and changes nothing else. |
| Colorize.PromptOpening | netlify/functions/colorize.ts:119-124 | A custom scheme's prompt opens with the user's text. Any other scheme's prompt opens with that scheme's table entry. |
| Colorize.FirstImageIsEarliest | netlify/functions/colorize.ts:205-214 | The image returned is from the earliest part that has inline data. There is none exactly when no part has any. |
| Colorize.FirstInlineImage | netlify/functions/colorize.ts:205-214 | The loop over the answer's parts finds that same earliest image. |
| Colorize.RejectedBeforeModel | netlify/functions/colorize.ts:176-177 | An invalid request fails without the model being consulted. |
| Colorize.SuccessMeansValidRequest | netlify/functions/colorize.ts:143-233 | A success needs a configured key, a parsable and valid body, and a non-empty image. |
| Colorize.Handle | netlify/functions/colorize.ts:143-252 | OPTIONS answers 204. A method other than POST answers 405. A POST answers 200 with the image exactly when every step succeeds; otherwise it answers 500 with the step's message. |
| Identify.FirstSpace | netlify/functions/identify.ts:70-74 | The index of the first white-space character, and no white space before it. |
| Identify.Split | netlify/functions/identify.ts:70-74 | Splitting always yields at least one piece. |
| Identify.FirstThree | netlify/functions/identify.ts:70-74 | The first `min(n, 3)` words, unchanged. |
| Identify.SplitPiecesHaveNoSpace | netlify/functions/identify.ts:70-74 | The pieces of a split contain no white space. |
| Identify.SplitPiecesNonEmpty | netlify/functions/identify.ts:70-74 | A trimmed text splits into non-empty words. |
| Identify.FirstSpaceAt | netlify/functions/identify.ts:70-74 | A word followed by a white-space character ends at that character. |
| Identify.SplitAfterWord | netlify/functions/identify.ts:70-74 | A word, a space and a rest split into the word followed by the rest's split. |
| Identify.SplitJoin | netlify/functions/identify.ts:70-74 | Joining non-empty words with single spaces and splitting gives the words back. |
| Identify.NameIsFirstThreeWords | netlify/functions/identify.ts:70-74 | The suggested name is the first three words of the trimmed answer: at most three words. |
| Identify.Handle | netlify/functions/identify.ts:22-101 | OPTIONS answers 204 and other non-POST methods 405. A POST answers 200 exactly when the key, the body, the image and the model call all succeed; otherwise 500 with the error. |
| Identify.SuccessCarriesName | netlify/functions/identify.ts:39-85 | A 200 answer means a configured key and an image in the body. Its name has at most three words. |
| Identify.MissingImageRejected | netlify/functions/identify.ts:45-48 | A body without `imageBase64` is answered 500 "Missing imageBase64" without consulting the model. |
| ImageProxy.AllowedIffPrefixed | netlify/functions/image-proxy.ts:3-25 | A URL is allowed exactly when it starts with one of the two Firebase Storage origins. |
| ImageProxy.Handle | netlify/functions/image-proxy.ts:8-59 | A missing or empty `url` answers 400 "Missing url parameter". An address off the allow-list answers 403 "URL not allowed". |
| ImageProxy.RefusalsDoNotFetch | netlify/functions/image-proxy.ts:9-25 | The 400 and 403 answers are the same whatever the network would have answered. |
| ImageProxy.AllowedIsFetched | netlify/functions/image-proxy.ts:27-58 | For an allowed URL, a network error answers 500 "Failed to fetch image". A non-OK upstream answers with its own status and "Failed to fetch image: " plus its status text. An OK upstream answers 200 with the fetched bytes in base64 and their content type, or image/jpeg when there is none. |
| ImageProxy.SuccessOnlyFromAllowed | netlify/functions/image-proxy.ts:19-51 | Every 200 answer came from an allowed address and carries a base64 body. |
| ImageProxy.LookalikeHostAllowed | netlify/functions/image-proxy.ts:3-25 | As written, an address whose host merely begins with the Google storage host, such as `https://firebasestorage.googleapis.com.evil.example/...`, passes the allow-list and is fetched. Its host is neither storage host. |
| ImageProxy.AllowedOriginHostIsStorage | netlify/functions/image-proxy.ts:3-25 | Under the intended check, an allowed origin followed by `/`, the address's host is exactly one of the two storage hosts. Every such address also passes the check as written. |
| ImageProxy.LookalikeRefusedByOrigin | netlify/functions/image-proxy.ts:3-25 | The intended check refuses the lookalike address. |
| ImageProxy.HandleCorrected | netlify/functions/image-proxy.ts:8-59 | The handler with the intended check: an address failing it answers 403 "URL not allowed" without a fetch. Every other request is answered as written. |
| ImageProxy.CorrectedFetchesOnlyStorageHosts | netlify/functions/image-proxy.ts:19-51 | Every 200 answer of the corrected handler was fetched from one of the two storage hosts. |
| GalleryService.ProxyRoundTrip | src/lib/firebase/galleryService.ts:161-167 | A storage URL becomes the proxy path plus a parameter made only of unreserved characters and `%`, and that parameter decodes back to the URL. Any other URL is returned unchanged. |
| GalleryService.AllowedIsProxied | src/lib/firebase/galleryService.ts:161-167 | Every URL the proxy allows is one the client rewrites to go through the proxy. |
| GalleryService.PlainHttpProxiedButRefused | src/lib/firebase/galleryService.ts:161-167 | The converse fails: a plain-http storage URL is rewritten by the client and refused by the proxy. |
| GalleryService.ProxyAllChangesOnlyAddresses | src/lib/firebase/galleryService.ts:172-193 | Proxying a fetched artifact rewrites exactly the original, thumbnail and variant image addresses. Every other field, and the variants' order, ids, schemes and prompts, are kept. |
| GalleryService.ThumbnailPath | src/lib/firebase/galleryService.ts:105 | The thumbnail is stored at `gallery/thumbnails/<artifact id>.jpg`. |
| GalleryService.OriginalPath | src/lib/firebase/galleryService.ts:110 | The original is stored at `gallery/originals/<artifact id>.jpg`. |
| GalleryService.VariantPath | src/lib/firebase/galleryService.ts:117 | A variant is stored at `gallery/variants/<variant id>.jpg`. |
| GalleryService.PathInInjective | src/lib/firebase/galleryService.ts:105-117 | Different names in one folder get different paths. |
| GalleryService.PathsDistinct | src/lib/firebase/galleryService.ts:103-131 | The thumbnail, the original and every variant of one upload are written to pairwise different paths. |
| GalleryService.GalleryDocFields | src/lib/firebase/galleryService.ts:121-151 | The document's fields:<br>- the artifact's id, the device id, the name or "Unnamed Artifact";<br>- the thumbnail and original addresses;<br>- one entry per variant, in order, with the variant's id, address and scheme, and its prompt only when non-empty;<br>- a server timestamp and status "published";<br>- site and location only when non-empty. |
| GalleryService.WithVariantFilesContent | src/lib/firebase/galleryService.ts:114-131 | After the variant uploads, each variant's path holds its blob, and every other path is unchanged. |
| GalleryService.PublishedFilesContent | src/lib/firebase/galleryService.ts:103-131 | After an upload, the thumbnail, original and variant paths hold the thumbnail, the first image's blob and each variant's blob. Every other stored object is unchanged. |
| GalleryService.VariantsOfDistinct | src/lib/firebase/galleryService.ts:91 | The variants read for one artifact have pairwise distinct ids. |
| GalleryService.UploadVariants | src/lib/firebase/galleryService.ts:114-131 | The variant uploads write exactly the variant files. They return the document's variant entries. |
| GalleryService.UploadToGallery | src/lib/firebase/galleryService.ts:83-156 | An unknown artifact, one without images and one without variants fail with the source's messages, and nothing is written. An artifact that exists and has images and variants always gives `Ok` with its id. Then the files are `PublishedFiles`, the document under the artifact's id is `GalleryDoc` with the stored device id, and the id is returned. |
| UriEncoding.EncodeCharset | src/lib/firebase/galleryService.ts:164 | `encodeURIComponent` produces only unreserved characters and `%`, so no `&`, `=`, `#`, `?`, `+` or space. It never shortens the text. |
| UriEncoding.DecodeEncode | src/lib/firebase/galleryService.ts:164 | Decoding an encoded text gives it back. |
| UriEncoding.OverlongRefused | src/lib/firebase/galleryService.ts:164 | Overlong UTF-8 forms of U+0000 in two and three bytes decode to nothing, as `decodeURIComponent` refuses them. |
| DeviceId.Resolve | src/lib/utils/deviceId.ts:4-11 | A stored non-empty id wins. Otherwise the fresh id is used. |
| DeviceId.GetDeviceId | src/lib/utils/deviceId.ts:1-12 | Returns the resolved id, which is never empty. Only the device key is written, and nothing is written when a non-empty id was stored. |
| DeviceId.ResolveIsStable | src/lib/utils/deviceId.ts:1-12 | After one call, a later call settles on the same id. |
| DeviceId.TwoCalls | src/lib/utils/deviceId.ts:1-12 | Two calls in a row return the same id, and the second one writes nothing. |
| ExportNames.Dash | src/lib/utils/export.ts:27 | Every character outside a-z and 0-9 becomes `-`, and every other character is kept. |
| ExportNames.Collapse | src/lib/utils/export.ts:28 | Collapsing runs of dashes never lengthens the text and keeps its first character. |
| ExportNames.CollapseIsSlug | src/lib/utils/export.ts:25-28 | The collapsed text has no two dashes in a row. |
| ExportNames.CollapseFixes | src/lib/utils/export.ts:28 | Text without a double dash is left unchanged. |
| ExportNames.TakeSlug | src/lib/utils/export.ts:29 | Cutting to 30 characters keeps the slug shape. |
| ExportNames.SafeNameShape | src/lib/utils/export.ts:25-29 | The safe name has 1 to 30 characters from a-z, 0-9 and `-`, with no double dash. A missing or empty name gives "artifact". |
| ExportNames.SafeNameFixes | src/lib/utils/export.ts:25-29 | A name already in that shape is kept. |
| ExportNames.SafeNameIdempotent | src/lib/utils/export.ts:25-29 | Applying the rule twice is the same as applying it once. |
| ExportNames.VariantFilename | src/lib/utils/export.ts:20-33 | The file name is the safe name, `-`, the scheme and `-`, then the first ten characters of the ISO date and `.jpg`: its length is the sum of those parts, and the segment before `.jpg` is exactly the date. |
| ExportNames.OriginalIsVariantNamed | src/lib/utils/export.ts:53-65 | The original's file name is the variant rule with the scheme "original". |
| GalleryFilters.BeforeIsTotalPreorder | src/hooks/useGalleryFilters.ts:41-54 | Each sort comparator is a total preorder (for names, given a total collation). |
| GalleryFilters.FilteredContents | src/hooks/useGalleryFilters.ts:17-38 | A blank query keeps every artifact. Otherwise exactly the artifacts whose lower-cased name, location, site, tags or notes contain the lower-cased query are kept. Each kept artifact appears as often as in the input, and the result is a sub-multiset of the input. |
| GalleryFilters.NewestFirst | src/hooks/useGalleryFilters.ts:43-44 | 'newest' lists by creation time, latest first. |
| GalleryFilters.OldestFirst | src/hooks/useGalleryFilters.ts:45-46 | 'oldest' lists by creation time, earliest first. |
| GalleryFilters.ByName | src/hooks/useGalleryFilters.ts:47-50 | 'name' lists by name under the collation, a missing name counting as empty. |
| GalleryFilters.BlankQueryKeepsAll | src/hooks/useGalleryFilters.ts:21 | A query of white space only is a permutation of the input. |
| Keys.BelowTotal | src/lib/db/index.ts:22-42 | Dexie's string key order is total. |
| Keys.BelowTransitive | src/lib/db/index.ts:22-42 | Dexie's string key order is transitive. |
| Keys.InsertByKeyCorrect | src/hooks/useColorize.ts:129 | Adding a row to a key-ordered table keeps it key-ordered, and the table gains exactly that row. |
| Keys.FilterKeyOrdered | src/lib/db/index.ts:26-27 | A `where(...).equals(...)` query returns rows in key order. |
| Keys.KeyOrderedUnique | src/lib/db/index.ts:22-30 | In a key-ordered table, two rows with one key are one row. |
| LocalDb.Get | src/lib/db/index.ts:23 | `get(id)` returns a row with that key, and it returns nothing exactly when there is none. |
| LocalDb.GetArtifactWithImages | src/lib/db/index.ts:22-30 | Nothing exactly when the artifact is absent. Otherwise the artifact and exactly its images and variants; when the tables are in key order, so are the returned images and variants. |
| LocalDb.AllArtifactsOrdered | src/lib/db/index.ts:40-42 | The listing is a permutation of the artifacts, newest first. |
| LocalDb.ReverseOfAscending | src/lib/db/index.ts:41 | Reversing an oldest-first order gives a newest-first one. |
| LocalDb.CascadeRemovesExactly | src/lib/db/index.ts:32-38 | The delete removes exactly the artifact's row, images and variants. Afterwards the artifact can no longer be found. |
| LocalDb.ArtifactDb.DeleteArtifact | src/lib/db/index.ts:32-38 | The three tables become the cascade's result, and key order is kept. |
| LocalDb.ArtifactDb.GetAllArtifacts | src/lib/db/index.ts:40-42 | A permutation of the artifact table, newest first. |
| LocalDb.ArtifactDb.AddVariant | src/hooks/useColorize.ts:129 | The variant table gains exactly the new row, and key order is kept. |
| LocalDb.ArtifactDb.ModifyArtifact | src/hooks/useColorize.ts:132-138 | Only the rows with the id are changed, by the given change. |
| ArtifactData.UseArtifactData | src/hooks/useArtifactData.ts:13-51 | Without an id, the view is empty. With one, it shows the database's artifact, images and variants. `primaryImage` is the first image. `isLoading` holds exactly when an id is given and no artifact is shown. |
| ArtifactData.ViewMatchesDatabaseQuery | src/hooks/useArtifactData.ts:13-51 | Once the queries have run, the view agrees with `getArtifactWithImages`. |
| ArtifactData.EmptyIdLoadsForever | src/hooks/useArtifactData.ts:16-42 | An empty-string id shows no images and is reported as loading forever. |
| ArtifactData.WithoutIdExact | src/hooks/useArtifactData.ts:63 | Filtering removes every occurrence of the variant id and keeps the others with their multiplicities. |
| ArtifactData.DropVariant | src/hooks/useArtifactData.ts:62-65 | The artifact loses every copy of that variant id and keeps every other id as often as before; its update time becomes the given time; every other field stays. |
| ArtifactData.DeleteVariant | src/hooks/useArtifactData.ts:56-67 | The variant row is removed, and the owning artifact's list drops the id. The images are untouched. |
| ArtifactData.DeleteArtifact | src/hooks/useArtifactData.ts:72-83 | Same result as the transactional cascade delete. |
| ColorizeHook.FailureMessage | src/hooks/useColorize.ts:103-149 | A thrown error's message, "Unknown error", the API's error or "Colorization failed". |
| ColorizeHook.NewVariant | src/hooks/useColorize.ts:117-126 | The new variant's fields. Its prompt is the custom prompt or "". Its model is the reported one or "gemini-2.5-flash-image". It is speculative. |
| ColorizeHook.AttachVariant | src/hooks/useColorize.ts:132-138 | The variant id is appended, the update time refreshed, and 'images-captured' becomes 'complete'; every other field, the thumbnail included, stays. |
| ColorizeHook.AttachStatusTransition | src/hooks/useColorize.ts:135-137 | The only status change is from 'images-captured' to 'complete', and attaching again changes the status no further. |
| ColorizeHook.ColorizeHook.Reset | src/hooks/useColorize.ts:32-37 | Back to idle, with progress 0 and no error or variant. |
| ColorizeHook.ColorizeHook.Cancel | src/hooks/useColorize.ts:39-45 | The live controller is aborted, the reference is cleared, and the state is reset. |
| ColorizeHook.ColorizeHook.Colorize | src/hooks/useColorize.ts:47-155 | As written. Succeeds exactly when the API produced an image, saving the variant and attaching it even after a cancel. On failure, step is error with the failure message. |
| ColorizeHook.ColorizeHook.ColorizeCorrected | src/hooks/useColorize.ts:47-155 | With the intended cancel check. A cancelled run returns nothing and saves nothing. An uncancelled run behaves as written. |
| ColorizeHook.CancelledRunStillSaves | src/hooks/useColorize.ts:39-101 | A concrete run cancelled during the API call still saves one variant and ends 'complete'. |
| ColorizeHook.CancelledRunStops | src/hooks/useColorize.ts:39-101 | The same run under the corrected check saves nothing and stays idle. |
| AppStore.WithProgress | src/stores/appStore.ts:27-32 | Progress updates change only progress and message, and only while a status exists. |
| AppStore.WithError | src/stores/appStore.ts:34-39 | An error sets step 'error' and the message, and only while a status exists. |
| AppStore.ErrorSurvivesProgress | src/stores/appStore.ts:27-39 | A later progress update keeps the error state. Setting the same error twice is the same as once. |
| AppStore.AppState.UpdateProcessingProgress | src/stores/appStore.ts:27-32 | The status becomes `WithProgress(old, ...)`. |
| AppStore.AppState.SetProcessingError | src/stores/appStore.ts:34-39 | The status becomes `WithError(old, ...)`. |
| AppStore.WithElementLaws | src/stores/appStore.ts:82-85 | Setting a gallery element to its own value changes nothing, and the last of two settings wins. |
| AppStore.WithElement | src/stores/appStore.ts:82-85 | Only the named element changes. |
| AppStore.SettingsState.constructor | src/stores/appStore.ts:67-76 | Defaults: English, 'original', restoration and haptics on, all four gallery elements on. |
| AppStore.SettingsState.SetGalleryElement | src/stores/appStore.ts:82-85 | The elements become `WithElement(old, key, value)`. |
| AppStore.CaptureState.constructor | src/stores/appStore.ts:106-109 | Not capturing, with no image and the back camera. |
| AppStore.CaptureState.Reset | src/stores/appStore.ts:115 | Not capturing and no image. The camera choice is kept. |
| GalleryTour.FrameTable | src/pages/GalleryTourPage.tsx:17-36 | 21 pairwise distinct frames: 9 on the north wall, then 6 west and 6 east. |
| GalleryTour.EveryArtifactFramed | src/pages/GalleryTourPage.tsx:205-206 | With at most 21 artifacts, each artifact hangs in its own frame and the remaining frames are empty. |
| GalleryTour.Pick | src/pages/GalleryTourPage.tsx:44 | The random index lies in `0..i`. |
| GalleryTour.SwapPermutes | src/pages/GalleryTourPage.tsx:45 | A swap permutes the elements. |
| GalleryTour.ShuffledPermutes | src/pages/GalleryTourPage.tsx:41-48 | The shuffle is a permutation of its input. |
| GalleryTour.ShuffleArray | src/pages/GalleryTourPage.tsx:41-48 | The in-place loop over a copy computes the shuffle: same length, same elements. |
| GalleryTour.StoredIndex | src/pages/GalleryTourPage.tsx:114 | The remembered variant index, or 0. |
| GalleryTour.AfterVariantChange | src/pages/GalleryTourPage.tsx:117-125 | Remembers the index for the selected artifact only, and nothing without a selection. |
| GalleryTour.ChoiceRemembered | src/pages/GalleryTourPage.tsx:111-125 | A choice for one artifact survives a choice for another. |
| GalleryTour.TourState.HandleFrameClick | src/pages/GalleryTourPage.tsx:111-115 | Selects the artifact and restores its remembered index. |
| GalleryTour.TourState.Close | src/pages/GalleryTourPage.tsx:270 | Closing the overlay leaves no artifact selected. |
| GalleryTour.TourState.HandleVariantChange | src/pages/GalleryTourPage.tsx:117-125 | Sets the index and remembers it for the selected artifact. |

## Left out

- Asynchrony and interleaving:
  - UploadQueue.UploadQueueService.InitializeUploadQueue: does not itself make the start-up calls `retryFailedUploadsOnStartup(); processQueue();` at the head of `initializeUploadQueue`; a caller runs `RetryFailedUploadsOnStartup` and then `ProcessQueue`.
  - The fire-and-forget `processQueue()` calls after an enqueue, after start-up resurrection, from the online listener and from the two-minute timer are not made by the model's methods. A caller drains explicitly, so interleavings of concurrent drains are not modelled; the `isProcessing` guard is.
- UploadQueue clock: one `now` value stands for every `Date.now()` inside a drain. Elapsed time within one drain is not modelled.
- UploadQueue drain order:
  - Dexie returns pending records in key order of random ids. The model drains the snapshot in an unspecified order and proves the result does not depend on it.
  - The broadcast slot's final value depends on which record was last. It is stated for one attempt only.
- Floating-point progress: progress increments (`Math.random() * 5`), `processingTimeMs` and the interval timer in the colorize hook are left out. Progress is modelled only at its fixed values.
- Base64 and blobs: `atob`, `FileReader`, `base64ToBlob` and thumbnail generation are parameters (`toBlob`, `makeThumbnail`); blobs are opaque values.
- External services:
  - Firebase's `getDownloadURL` is an oracle from path to address.
  - Failures of Storage or Firestore writes are not modelled. The upload queue's `publish` parameter carries those outcomes instead.
  - GalleryService.UploadToGallery: `generateThumbnail` is a total parameter `makeThumbnail`, so its rejections (an image that fails to load, a missing canvas context) do not make the upload fail in the model.
  - The image models and the network are oracles.
- Concurrent uploads: the concurrent `Promise.all` variant uploads are modelled one after another. The end state is the same because the paths are pairwise distinct (`GalleryService.PathsDistinct`).
- Gallery query: the server-side part of `fetchGalleryArtifacts` (Firestore's `where`, `orderBy` and `limit`) is not modelled; only the proxy mapping of its results is.
- Headers and JSON: CORS headers, content-length and the JSON text format are not modelled. JSON numbers are integers, and parsing is a parameter.
- Strings:
  - `toLowerCase` is modelled on ASCII letters only.
  - `localeCompare` is an abstract total collation.
  - `\s` and `trim` use the fixed ECMAScript white-space set.
  - Dexie compares strings by UTF-16 code units, and the model compares code points; they differ only beyond U+FFFF.
- UriEncoding.EncodeURIComponent: a Dafny `char` cannot hold a lone UTF-16 surrogate, so the `URIError` that `encodeURIComponent` throws on one cannot arise in the model.
- Colorize.ValidateRequest: keeps `customPrompt` only when it is a JSON string, where the source passes any value through; only the 'custom' scheme reads the prompt, and it demands a non-empty string.
- UriEncoding.DecodeURIComponent: accepts a `%` not followed by two hex digits as a literal, where JavaScript throws. Only encoded texts are decoded in the model, so the round trip is unaffected.
- Storage and React machinery: Zustand's `persist` middleware, React re-rendering, stale closures and `useLiveQuery` timing are not modelled. The artifact view takes flags saying which live queries have produced a value.
- Transactions: the atomicity of Dexie's transaction in `deleteArtifact` is not modelled separately. Its effect equals the sequential deletes.
- The `pendingUploads` table: the Dexie schema in `src/lib/db/index.ts` declares only `artifacts`, `images` and `colorVariants`, yet the upload queue reads and writes `db.pendingUploads`. The model assumes that table exists, as a map from record id to record. As declared, every queue operation would fail on an undefined table.
- UI: the remaining UI components, pages, i18n, the scripts and the Firebase configuration are outside this model.

## Findings

| source | as written | input that shows it | evidently intended | confidence | as-written member | corrected member |
|---|---|---|---|---|---|---|
| src/hooks/useColorize.ts:39-101 | `cancel()` aborts the controller and then sets the reference to null. The cancel checks read `abortControllerRef.current?.signal.aborted`, which is then `undefined`. The `finally` also nulls it. So the checks never fire. | A user calls `cancel()` while `colorizeImage` is pending, and the API then succeeds. The run still saves the variant, attaches it to the artifact, and sets step 'complete' after the reset. | A cancelled run stops at the next check: it returns null, saves nothing and leaves the reset state. | not executed | ColorizeHook.ColorizeHook.Colorize, ColorizeHook.CancelledRunStillSaves | ColorizeHook.ColorizeHook.ColorizeCorrected, ColorizeHook.CancelledRunStops |
| netlify/functions/image-proxy.ts:3-25 | The allow-list test is `url.startsWith(origin)` with origins that end at the host name and not at a `/`. | `https://firebasestorage.googleapis.com.evil.example/x` passes and is fetched. | Only addresses on the two storage hosts are fetched: the origin must be followed by `/`. | not executed | ImageProxy.LookalikeHostAllowed | ImageProxy.HandleCorrected, ImageProxy.AllowedOriginHostIsStorage |
