# Weibo album bulk downloader — a Dafny model of its core

The user script `weibo_album_bulk_download.user.js` downloads every photo (and
the video of every live photo) from a Weibo account's album into a local
directory. It works in two phases.

- **Production.** It pages through the album listing with a `since_id` cursor.
  It turns each listed entry into an image task and, for a live photo, a video
  task. A `seen` set of task identities (`img:<pid>`, `vid:<pid>:<url>`)
  de-duplicates them into a FIFO queue. Each file is named
  `{mid}_{year}_{month}_{pid}`. An entry without a date takes the year and
  month from a rolling cursor. That cursor may probe a post's `created_at`
  until the first entry with an explicit date arrives.
- **Download.** Once the listing is exhausted, the queue is put in download
  order and four workers take tasks from it. Each task is tried over its
  candidate URLs: the three `wxN.sinaimg.cn` mirrors for an image, starting
  with the mirror its URL names. Each task gets up to two rounds. A file that
  already exists is skipped.

A one-shot finish resolver ends the run when production is done, the queue is
empty and no download is active. Stop and pause can come in at any time.

The model covers the following, one Dafny module per concern:

- **Text:** the character classes and trimming the regular expressions use.
- **Settings:** intervals, download order, `randomInt` with an explicit draw,
  and the rate limiter.
- **Display:** middle ellipsis and progress arithmetic.
- **Tasks:** the task record and identities.
- **Hosts:** mirror URLs and candidate order.
- **Naming:** the base name, sanitising, and the video extension.
- **CreatedAt:** the `created_at` parser.
- **PageInfo:** album-page detection.
- **Discovery:** the timeline cursor, de-duplicating enqueue, and pagination.
- **Download:** the bounded retry loop.
- **RunControl:** the download phase as a state machine of atomic steps, plus
  the launch and end of `run`.

Everything outside the script's own logic becomes an explicit argument:

- `Math.random` is a natural-number draw.
- A parsed URL is its host name or path, as `Option<string>`.
- A listing request is a `FetchResult`.
- A creation-time lookup is a string.
- Each download attempt's fetch outcome comes from a `seq<bool>`, and its write outcome from a `seq<WriteFault>`: the write completes, fails before the file is created, or fails after creating it.
- The target directory is the set of file names it holds.

The download phase is modelled as an interleaving of atomic steps over the
queue fixed at launch: a worker taking a task, a worker's download settling,
stop, and pause toggling. Production has finished before any worker starts,
and JavaScript runs the code between two `await`s without interruption.
`RunControl.Inv` is the invariant every step keeps. `RunControl.RunStepsKeepInv`
extends it to every interleaving.

## Model

| member | source | states |
|---|---|---|
| Settings.IntervalExamples | weibo_album_bulk_download.user.js:510-515 | (100, 3050) fails validation, (100, 4000) passes it, and the defaults (1000, 3000) fail it themselves |
| Settings.IsValidIntervalRange | weibo_album_bulk_download.user.js:510-515 | a pair is valid exactly when the minimum is at least 100 and the maximum exceeds it by more than 3000, so the separate max > min test never decides; a valid pair is ordered |
| Settings.GetIntervals | weibo_album_bulk_download.user.js:501-508 | the intervals in force either pass validation or are exactly the defaults; both bounds are at least 100 and min < max; a passing stored pair (raised to 100) is used unchanged |
| Settings.GetIntervalsValidIff | weibo_album_bulk_download.user.js:501-515 | the intervals in force pass validation if and only if the stored pair, raised to the floor, does |
| Settings.GetDownloadOrder | weibo_album_bulk_download.user.js:517-520 | the order is ascending exactly when the stored text is "asc"; anything else, or nothing stored, means reverse |
| Settings.RandomInt | weibo_album_bulk_download.user.js:763-767 | the result lies between the smaller and the larger bound, both included, whichever order they come in; a draw inside the range gives low + draw |
| Settings.WaitBeforeNextFetch | weibo_album_bulk_download.user.js:826-845 | the wait never exceeds the drawn total and reaches it exactly when no tick cut it short, in ceil(total/250) ticks, lying then between the two interval bounds; a stop, a pause waited out, a pending resume or an idle download side ends it at the tick that sees it; returning for a pause or resume clears the resumedFromPause flag, a stop leaves it as it was, an idle return finds it down, and after an elapsed wait it is up exactly when a resume came during the last sleep |
| Display.EllipsisLimit | weibo_album_bulk_download.user.js:142-144 | the limit is at least 10, a zero length falls back to 72, and any length of 10 or more is used as given |
| Display.EllipsizeMiddle | weibo_album_bulk_download.user.js:142-150 | a text within the limit is unchanged; a longer one becomes its first ceil((limit-1)/2) characters, one ellipsis and its last floor((limit-1)/2) characters, exactly limit long |
| Display.EllipsizeLength | weibo_album_bulk_download.user.js:142-150 | the result is as long as the text when it fits and as long as the limit otherwise |
| Display.PercentBounds | weibo_album_bulk_download.user.js:152-155 | the floored percentage lies in 0..100, pins done*100 between pct*total and (pct+1)*total, and is 100 exactly when done equals total |
| Display.SetProgress | weibo_album_bulk_download.user.js:152-158 | the total is clamped at 0 and the count into [0, total]; the percentage is the floor of done*100/total, 0 for an empty total, and 100 exactly when the count reaches a positive total |
| Tasks.ImageTaskId | weibo_album_bulk_download.user.js:890 | the image identity is "img:" followed by the photo id |
| Tasks.VideoTaskId | weibo_album_bulk_download.user.js:906 | the video identity is "vid:", the photo id, ":" and the video URL, each in its place |
| Tasks.ImageTaskIdInjective | weibo_album_bulk_download.user.js:890-891 | two image identities are equal if and only if their photo ids are |
| Tasks.ImageAndVideoIdsDiffer | weibo_album_bulk_download.user.js:890-907 | an image identity never equals a video identity, so a live photo's image and video are both enqueued |
| Hosts.BuildImageUrlWithHost | weibo_album_bulk_download.user.js:781-783 | the URL is "https://", the mirror's host name, then "/large/", the photo id and ".jpg" |
| Hosts.BuildImageUrl | weibo_album_bulk_download.user.js:773-779 | the random mirror choice yields the URL of the photo on one of the three mirrors |
| Hosts.ImageUrlInjective | weibo_album_bulk_download.user.js:781-783 | the URLs of one photo on two mirrors are equal if and only if the mirrors are |
| Hosts.ExtractWxHostNo | weibo_album_bulk_download.user.js:1065-1072 | the result is 0..3, and a non-zero result means the host name lower-cases to that mirror's host name |
| Hosts.ExtractWxHostNoOfMirror | weibo_album_bulk_download.user.js:1065-1072 | a mirror's own host name yields its number (the inverse of the host name construction) |
| Hosts.HostOrder | weibo_album_bulk_download.user.js:1054-1059 | a preferred mirror number comes first and the other two follow in ascending order; any other preference gives 1, 2, 3 |
| Hosts.MirrorUrlsDistinct | weibo_album_bulk_download.user.js:1054-1061 | the URLs built over a mirror order are pairwise distinct and cover every mirror |
| Hosts.GetDownloadCandidates | weibo_album_bulk_download.user.js:1052-1063 | an image with a photo id gets three distinct candidates, one per mirror, starting with the mirror its URL names and followed by the other two in ascending order (1, 2, 3 when it names none); any other task gets exactly its own URL |
| Hosts.CandidatesStartAtBuiltMirror | weibo_album_bulk_download.user.js:1052-1072 | for a URL on mirror n, the candidates start with the photo's URL on mirror n |
| Naming.BuildBaseFileName | weibo_album_bulk_download.user.js:954-956 | the base name starts with the post id, ends with the photo id, and is three separators longer than its parts |
| Naming.BaseFileNameRoundTrip | weibo_album_bulk_download.user.js:954-956 | cutting the base name at its first three underscores gives back its four parts whenever post id, year and month contain no underscore |
| Naming.BaseFileNameShape | weibo_album_bulk_download.user.js:954-956 | the base name opens with the post id and an underscore and closes with an underscore and the photo id, and parses back into its four parts whenever the first three contain no underscore |
| Naming.ReplaceHostile | weibo_album_bulk_download.user.js:1190-1192 | every character of `\/:*?"<>\|` becomes "_" and every other character stays in place |
| Naming.SanitizeFileName | weibo_album_bulk_download.user.js:1190-1192 | the result is never empty and has no hostile character; an empty name becomes "file.bin"; otherwise the length is kept and only hostile characters change |
| Naming.SanitizeFileNameIdempotent | weibo_album_bulk_download.user.js:1190-1192 | sanitising a sanitised name changes nothing |
| Naming.SanitizeDirName | weibo_album_bulk_download.user.js:1194-1197 | the result is non-empty, has no hostile character and no surrounding white space; it is the trimmed replacement unless that is empty, when it is "weibo_user" |
| Naming.SanitizeDirNameIdempotent | weibo_album_bulk_download.user.js:1194-1197 | sanitising a sanitised directory name changes nothing |
| Naming.UserDirName | weibo_album_bulk_download.user.js:1160-1163 | the account's directory is named after the display name when there is one and after the account id otherwise, sanitised either way |
| Naming.GuessVideoExt | weibo_album_bulk_download.user.js:988-995 | the extension is "." and 2 to 5 lower-case letters or digits; anything but ".mp4" is the lower-cased end of the path; an unparsable URL gives ".mp4" |
| Naming.GuessVideoExtOfSuffix | weibo_album_bulk_download.user.js:988-995 | a path ending in "." and a 2 to 5 character alphanumeric extension yields that extension lower-cased, whatever precedes it |
| Naming.GuessVideoExtNoDot | weibo_album_bulk_download.user.js:988-995 | a path without any dot yields ".mp4" |
| CreatedAt.MatchCreatedAt | weibo_album_bulk_download.user.js:976 | a match captures a non-empty run of word characters as the month name and exactly four digits as the year, and exists only when the text is a well-formed creation time rendered from pieces whose month word and year are those captures |
| CreatedAt.MonthCode | weibo_album_bulk_download.user.js:978-981 | a code exists exactly for the twelve English abbreviations, and the i-th abbreviation gets the two-digit number i+1 |
| CreatedAt.ParseCreatedAtToYearMonth | weibo_album_bulk_download.user.js:974-986 | empty text gives nothing; a result has a four-digit year and a two-digit month, exists exactly when the pattern matches and the month name is one of the twelve, and is the matched year with that month's code |
| CreatedAt.MatchRendered | weibo_album_bulk_download.user.js:976 | every well-formed creation time is matched, the pieces it was rendered from are recovered, and the captures are exactly its month word and year |
| CreatedAt.MatchParts | weibo_album_bulk_download.user.js:976 | a successful piece-wise match yields well-formed pieces that render back to exactly the matched text |
| CreatedAt.ParseRendered | weibo_album_bulk_download.user.js:974-986 | every well-formed creation time with an English month abbreviation reads back as its year and that month's number |
| CreatedAt.MonthTableLookupAsWritten | weibo_album_bulk_download.user.js:978-982 | the object-literal table answers its twelve own keys and also every inherited member name |
| CreatedAt.ParseCreatedAtAsWritten | weibo_album_bulk_download.user.js:974-986 | the parser as written returns a result exactly when the pattern matches and the object-literal table answers the month word, and that result is the matched year with the table's answer |
| CreatedAt.InheritedMemberAccepted | weibo_album_bulk_download.user.js:978-984 | a well-formed creation time whose month word is an inherited member name is accepted as written and rejected by the corrected parser |
| CreatedAt.InheritedMonthAccepted | weibo_album_bulk_download.user.js:978-984 | "Sat constructor 12 10:00:00 +0800 2020" is accepted as written, with the inherited constructor as its month |
| PageInfo.ParsePageInfo | weibo_album_bulk_download.user.js:283-296 | a page is recognised only on a path "/u/<digits>" with at most one trailing slash; its uid is those digits and its tab is the parameter, "" when absent |
| PageInfo.ParsePageInfoOfUserPath | weibo_album_bulk_download.user.js:290-295 | every account path, with or without the trailing slash, is recognised with its uid |
| PageInfo.AlbumPageIff | weibo_album_bulk_download.user.js:298-300 | a location is an album page if and only if it is an account page whose tab parameter is "album" |
| Discovery.ResolveTimeline | weibo_album_bulk_download.user.js:923-952 | year and month are never empty; each is the latest known value or "unknown"; an explicit year and month are used as given and turn probing off for good; a probe is made exactly when probing is on, the post id is non-empty and a part is missing; the cursor's year and month become the probed date when the probe parses, else the explicit part, else their previous value |
| Discovery.ProbeAdoptsCreationTime | weibo_album_bulk_download.user.js:926-946 | an entry missing a date part, met while probing with a post id, takes the year and month number of a well-formed creation time and the cursor keeps them |
| Discovery.Push | weibo_album_bulk_download.user.js:890-901 | a task with an unseen identity is appended, counted and recorded at once; a seen one changes nothing; the queue keeps distinct identities all recorded as seen |
| Discovery.DedupDrawn | weibo_album_bulk_download.user.js:890-917 | every task the de-duplication keeps comes from the list and has an identity not seen before |
| Discovery.DedupDistinct | weibo_album_bulk_download.user.js:890-917 | the de-duplicated tasks have distinct identities and, with the seen set, cover every identity of the list |
| Discovery.DedupAppend | weibo_album_bulk_download.user.js:880-921 | de-duplicating two lists in a row equals de-duplicating the second against the first list's identities, after the first |
| Discovery.PushAll | weibo_album_bulk_download.user.js:890-917 | pushing a list appends exactly its de-duplication against the seen set, counts exactly those tasks, marks every listed identity seen, and keeps the queue invariant |
| Discovery.PushAllNew | weibo_album_bulk_download.user.js:890-917 | the queue only grows at its end, by tasks from the list whose identities were unseen |
| Discovery.ItemTasks | weibo_album_bulk_download.user.js:888-918 | an entry stands for its image task and, for a live photo with a video, its video task after it; both carry the photo id and are named after the base name, with ".jpg" or the guessed video extension |
| Discovery.ImageTask | weibo_album_bulk_download.user.js:890-899 | the image task has kind image, the img identity of the photo, its URL on the drawn mirror, and the base name plus ".jpg" |
| Discovery.VideoTask | weibo_album_bulk_download.user.js:903-915 | the video task has kind video, the vid identity of the photo and video URL, that URL, and the base name plus the guessed extension |
| Discovery.MidOf | weibo_album_bulk_download.user.js:886 | the post id used for naming is the entry's own when it has one and exactly "nomid" when it has none; it is never empty |
| Discovery.EntryBaseName | weibo_album_bulk_download.user.js:886-888 | an entry's base name opens with its post id and an underscore and closes with an underscore and its photo id; when post id, resolved year and month contain no underscore, it parses back into exactly those four parts |
| Discovery.ResolveItem | weibo_album_bulk_download.user.js:886-888 | resolving an entry's date touches only the cursor and the probe count; it probes once exactly when probing is still on and the entry lacks its year or month (the post id is never empty, thanks to the "nomid" default), never again once an explicit year and month arrive, and yields the base name built from the resolved date |
| Discovery.EnqueueItem | weibo_album_bulk_download.user.js:881-919 | one entry appends exactly the de-duplication of its own tasks, with the cursor and probe count its date resolution gives; at most two tasks with unseen identities of its photo; an entry without a photo id, or one after a stop, changes nothing; the queue invariant is kept |
| Discovery.EntryListing | weibo_album_bulk_download.user.js:884-918 | an entry without a photo id stands for nothing; any other for its tasks named after its resolved date, the cursor that resolution leaves, and one probe exactly when it probed |
| Discovery.ListTasks | weibo_album_bulk_download.user.js:880-921 | the entries of a list make at most one probe each, and every entry with a photo id contributes its image identity |
| Discovery.EnqueuedTwice | weibo_album_bulk_download.user.js:880-921 | enqueuing one listing and then another equals enqueuing their concatenation in one go |
| Discovery.EnqueueFromList | weibo_album_bulk_download.user.js:880-921 | the queue grows by exactly the de-duplication of the list's tasks in order, the seen set by their identities, and the count by the number appended; the cursor and probes are those of the entries in turn; nothing happens after a stop; the queue invariant is kept |
| Discovery.EntriesWithoutPidIgnored | weibo_album_bulk_download.user.js:884-885 | a list of entries without photo ids leaves the producer unchanged |
| Discovery.NoProbeAfterExplicitDate | weibo_album_bulk_download.user.js:926-930 | once an entry has an explicit year and month, no later entry of the list probes |
| Discovery.PushAllFresh | weibo_album_bulk_download.user.js:890-917 | tasks with distinct, unseen identities are all appended, in order |
| Discovery.EnqueueItemFresh | weibo_album_bulk_download.user.js:890-917 | an entry whose identities are unseen appends its image task and then, for a live photo, its video task |
| Discovery.HeadStaysUnique | weibo_album_bulk_download.user.js:890-901 | under the queue invariant the head task keeps its place and no later entry enqueues its identity again |
| Discovery.DuplicatePhotoEnqueuedOnce | weibo_album_bulk_download.user.js:890-901 | two entries for one photo enqueue its image exactly once |
| Discovery.LivePhotoYieldsTwoTasks | weibo_album_bulk_download.user.js:903-917 | a live photo in a fresh run gives two tasks and a count of two, the image first and its video second |
| Discovery.StopProducer | weibo_album_bulk_download.user.js:255-259 | a stop raises the flag and empties the queue, keeping the seen set and the count |
| Discovery.StopEnqueuesNothing | weibo_album_bulk_download.user.js:882 | after a stop, no entry enqueues anything |
| Discovery.EnqueueAnswer | weibo_album_bulk_download.user.js:803-814 | a failed request, or a stop, changes nothing; an answered page enqueues exactly the de-duplication of its entries' tasks, keeping the queue invariant |
| Discovery.EnqueuePages | weibo_album_bulk_download.user.js:797-824 | enqueuing the answered pages in order appends exactly the de-duplication of all their tasks, counts what it appends, and keeps the queue invariant; after a stop nothing changes |
| Discovery.ChainExtend | weibo_album_bulk_download.user.js:819-822 | after a page that is not the last, the next request asks for that page's since_id |
| Discovery.NextCursor | weibo_album_bulk_download.user.js:818 | the next cursor is the page's since_id, or "0" when the page has none |
| Discovery.IsLastPage | weibo_album_bulk_download.user.js:819 | a page is the last exactly when its since_id is missing, empty or "0" |
| Discovery.ProduceMediaList | weibo_album_bulk_download.user.js:797-824 | the requests ask for "0" and then each page's since_id, each only after a page that was not the last; production ends on an empty or "0" since_id, a failed request, or a stop; the queue is the entries of the answered pages enqueued in order |
| Download.WriteBlobToFile | weibo_album_bulk_download.user.js:1141-1149 | an existing name is left alone and reported; otherwise a completed write adds the name, one file more; a write failing after the file was created leaves that (empty) file behind, one failing before leaves the directory unchanged |
| Download.MaxAttempts | weibo_album_bulk_download.user.js:1032-1034 | two rounds make twice as many attempts as there are candidates |
| Download.AttemptUrl | weibo_album_bulk_download.user.js:1033-1034 | attempt k asks for candidate k modulo the number of candidates |
| Download.FirstSuccess | weibo_album_bulk_download.user.js:1033-1046 | the first attempt that succeeds, with no success before it, or none at all |
| Download.WithFile | weibo_album_bulk_download.user.js:1141-1149 | the directory gains at most the one name, and holds it exactly when it held it before or the name was added |
| Download.DownloadOutcome | weibo_album_bulk_download.user.js:1029-1050 | the call fails exactly when no attempt of the two rounds succeeds, and then makes all of them; otherwise it ends at the first success, a skip exactly when the sanitised name was there before that attempt (at the start or left by a failed write), an Ok adding exactly that file; the directory gains only that name |
| Download.FailedWriteThenSkip | weibo_album_bulk_download.user.js:1035-1045 | a write that fails after creating the file, then a successful fetch, ends in a skip with the empty file in the directory |
| Download.DownloadTask | weibo_album_bulk_download.user.js:1029-1050 | the nested retry loop requests the candidates in order, once per round, and its result, directory and attempt count are those of the reference outcome, which it reaches by its loop invariants |
| Download.TryOnce | weibo_album_bulk_download.user.js:1035-1045 | one attempt succeeds exactly when its fetch succeeds and the file is there (from the start or left by a failed write) or the write completes; the directory afterwards is the one the reference outcome gives for that many attempts |
| RunControl.MaybeResolveFinish | weibo_album_bulk_download.user.js:1199-1207 | the resolver fires, and is cleared, exactly when it is still set, production is done, the queue is empty and no download is active; otherwise nothing changes |
| RunControl.Stop | weibo_album_bulk_download.user.js:255-264 | a stop outside a run does nothing; otherwise it raises the stop flag, clears the pause, marks production done, empties the queue, and fires the finish exactly when it is still set and nothing is active |
| RunControl.TogglePause | weibo_album_bulk_download.user.js:267-273 | outside a run nothing changes; otherwise the pause flips and a resume is recorded exactly when the run is unpaused |
| RunControl.WorkerPop | weibo_album_bulk_download.user.js:997-1008 | a worker held by a pause changes nothing; otherwise it takes the head of a non-empty queue and counts one more active download, or with an empty queue it returns and gives the finish its chance |
| RunControl.Record | weibo_album_bulk_download.user.js:1011-1024 | a settled download raises exactly the count its result names (downloaded for Ok, skipped for Skip, failed for Failed), lowers the active count and frees the worker; nothing else changes |
| RunControl.WorkerSettle | weibo_album_bulk_download.user.js:1008-1024 | when a download settles, the settled total grows by one and the active count drops by one; exactly the count its result names grows; the finish check in the `finally` fires (once, disarming itself) exactly when it is armed, the producer is done, the queue is empty and this was the last download in flight; nothing else in the run state changes; a worker with no download in flight changes nothing |
| RunControl.SettleOutcome | weibo_album_bulk_download.user.js:1011-1050 | a settled download adds at most one file to the directory, that file being the task's sanitised name, and exactly one when the result is Ok; it makes at most two rounds of attempts |
| RunControl.MaybeResolveFinishKeepsInv | weibo_album_bulk_download.user.js:1199-1207 | the finish check keeps the bookkeeping, and by the time every worker has returned the resolver has fired |
| RunControl.PopKeepsInv | weibo_album_bulk_download.user.js:997-1008 | taking a task or returning keeps the invariant |
| RunControl.RecordKeepsAccounting | weibo_album_bulk_download.user.js:1008-1024 | queued + active + settled stays equal to discovered (at most discovered after a stop), and the directory holds at least one file per downloaded task and at most one per settled one |
| RunControl.SettleKeepsInv | weibo_album_bulk_download.user.js:1008-1026 | a download settling keeps the invariant, including the bounds on the directory's growth |
| RunControl.StopKeepsInv | weibo_album_bulk_download.user.js:255-264 | a stop keeps the invariant: the queue is empty and settled + active stay at most discovered |
| RunControl.NextKeepsInv | weibo_album_bulk_download.user.js:997-1027 | every atomic step of the download phase keeps the invariant |
| RunControl.RunStepsKeepInv | weibo_album_bulk_download.user.js:1199-1207 | under every interleaving of steps the invariant holds, the resolver is called at most once, and once called it stays called |
| RunControl.FinishFiresOnlyWhenDrained | weibo_album_bulk_download.user.js:1199-1207 | the resolver fires only with production done, the queue empty and no active download |
| RunControl.PausedWorkerTakesNothing | weibo_album_bulk_download.user.js:160-167 | while the run is paused and not stopped, no worker takes a task |
| RunControl.PauseDoesNotFreezeSettling | weibo_album_bulk_download.user.js:1008-1024 | a download already in flight still settles and is counted while the run is paused |
| RunControl.NaturalFinishSettlesAll | weibo_album_bulk_download.user.js:219-229 | a run that finished without a stop has settled every discovered task |
| RunControl.ProgressShowsSettled | weibo_album_bulk_download.user.js:1209-1212 | the progress bar shows the settled count and the discovered total unclamped |
| RunControl.Reverse | weibo_album_bulk_download.user.js:216-218 | the reversed queue has the same length, with element i taken from position length-1-i |
| RunControl.ReverseReverse | weibo_album_bulk_download.user.js:216-218 | reversing twice gives back the original queue |
| RunControl.Launch | weibo_album_bulk_download.user.js:169-228 | the workers start exactly when no run is active, the page is an album page, the directories are ready, no stop came and something was collected; the started state satisfies the invariant, holds the queue in download order with the discovered count equal to its length, nothing settled or active, and four idle workers |
| RunControl.Conclude | weibo_album_bulk_download.user.js:229-236 | the run reports a user stop exactly when the stop flag is up; the reported counts never exceed the discovered total and, without a stop, add up to it with a full progress bar |
| Text.TrimIdempotent | weibo_album_bulk_download.user.js:924-925 | trimming a trimmed text changes nothing |
| Text.TrimClean | weibo_album_bulk_download.user.js:924-925 | a text with no white space at either end is its own trim |

## Left out

- The DOM and UI are left out, because they are presentation only: panel, buttons, status text, settings dialog and menu registration.
- Route watching and history patching are left out; they are browser event plumbing.
- Persistence is left out: the settings accessors, local storage and the IndexedDB directory-handle store. Stored values are parameters (`Settings.GetIntervals`, `Settings.GetDownloadOrder`). A key missing from local storage reads as 0 there, so the caller passes `Some(0)` for it, not `None`.
- Network and file-system calls are left out: `requestImageWall`, `fetchStatusCreatedAt`, `requestBlob`, `fetchProfileInfo`, the directory pickers and permission prompts, and the internals of `fileExists` and file writing. Only their results appear, as oracle arguments; `RunControl.DirectorySetup` stands for the outcome of choosing the download directory and creating the account's sub-directory.
- `sleep`, the polling loops, and the `fetchInFlight` / `inFlightSinceIds` request mutex are left out. A single producer never overlaps its own requests, so the mutex does not change which pages are requested. The back-off sleep between download attempts is left out too.
- Discovery.ResolveTimeline: uses the corrected month lookup (see Findings). As written, an inherited member name such as "constructor" read as the month word would be adopted as the cursor's month; `CreatedAt.ParseCreatedAtAsWritten` models that behaviour separately.
- Display.EllipsizeMiddle: lengths and slices count characters of a `seq<char>`. JavaScript counts UTF-16 code units, so for text outside the Basic Multilingual Plane the cut points, and the lengths in `Naming`, may differ.
- Settings.RandomInt: `Math.random` is replaced by an explicit draw reduced into the range, so uniformity is not claimed.
- URL parsing and `decodeURIComponent` are left out. This includes `normalizeVideoUrl`. An entry's video URL arrives already normalised, with its path (`Discovery.RawItem`), and a task URL's host name arrives as `Option<string>`.
- JavaScript `Number` coercion, `NaN` and floating point are left out; all values are integers.
- Display.EllipsisLimit: reads a zero length as the 72 default, which is where `NaN` or a missing length would also land.
- Entries that are not objects, and fields of other types, are left out: an entry arrives with its fields already converted to text.
- Discovery.ProduceMediaList: a stop is modelled only before the first request. A stop arriving between pages would end production early, but `run` then ends without downloading anything, so that outcome is covered by `RunControl.Launch`. The rate-limited wait between pages is `Settings.WaitBeforeNextFetch`, modelled separately.
- Discovery.ProduceMediaList: the supplied answers bound the number of requests (`ResponsesExhausted`); the script itself would keep requesting.
- Discovery.ProduceMediaList: the entries are folded in once the cursor chain is known. The requests do not depend on what the entries enqueue, so the resulting queue is the same.
- Discovery.EnqueueItem: an entry is processed atomically. A stop that arrives while a creation-time probe is awaited does not stop that entry's own push.
- RunControl.WorkerSettle: takes six fetch and six write outcomes, enough for two rounds over at most three candidates.
- RunControl.WorkerSettle: the existence check and the write of a download are one step. Two workers writing the same name at the same moment are not modelled.
- RunControl.WorkerPop: a worker that finds the queue empty while production is still running would sleep. In the download phase production is always done, so this case does not arise.
- What happens after `run` returns is left out: the `finally` block resetting the flags, and workers that return after the finish.
- A second run started while workers of the previous run are still returning is left out.

## Findings

| source | as written | input that shows it | evidently intended | confidence | as-written member | corrected member |
|---|---|---|---|---|---|---|
| weibo_album_bulk_download.user.js:978-984 | the month table is a plain object literal. `monthMap[m[1]]` therefore also finds inherited members such as `constructor`, `toString` or `__proto__`, all truthy. A captured month word of that kind is accepted, and a function or prototype becomes the "month" of the file name | `created_at` = "Sat constructor 12 10:00:00 +0800 2020" | only the twelve English month abbreviations are accepted; anything else yields no date | not executed | CreatedAt.InheritedMonthAccepted | CreatedAt.ParseCreatedAtToYearMonth |
