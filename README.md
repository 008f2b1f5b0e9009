# ytb-next Shorts feed and creator studio, modelled in Dafny

This project models the client-side logic of five parts of the ytb-next web app:

- the **Shorts page** (`app/shorts/page.tsx`). It shows a vertical, snap-scrolling feed of playable videos, one tile per viewport height. A single current index is driven by scroll events, the arrow keys and two navigation buttons.
- the **Shorts player tile** (`components/ShortsPlayer.tsx`). It attaches an hls.js session to its `<video>` element or falls back to native HLS. It recovers from fatal stream errors. It plays or pauses as the tile becomes active or inactive, and it toggles play and mute.
- the **video card** (`components/VideoCard.tsx`). It formats the view count ("M", "K" or the plain number) and the relative upload date ("Today", "Yesterday", "n days/weeks/months/years ago"). `formatViews` is written identically in `components/ShortsPlayer.tsx:110-117`, and `ViewCount` models both copies.
- the **studio list** (`app/studio/page.tsx`). It has the auth redirect, the loading of the creator's videos, the status badges, and deletion after confirmation.
- the **upload wizard** (`app/studio/upload/page.tsx`). It validates the file and the form, then runs the create → presign → PUT → mark-complete chain. It reports progress and moves from the form to the uploading screen, then to the processing screen or back to the form.

Modules, one per file:

| file | module | what it holds |
|---|---|---|
| `wrappers.dfy` | `Wrappers` | `Option` |
| `rounding.dfy` | `Rounding` | `Math.round(n / d)` and `Math.ceil(n / d)` on naturals |
| `text.dfy` | `Text` | `trim`, `startsWith`, decimal `toString` and its inverse |
| `seqfilter.dfy` | `SeqFilter` | `Array.prototype.filter` |
| `videos.dfy` | `Videos` | the `Video` record and the "playable" test |
| `feed.dfy` | `ShortsFeed` | the Shorts page: pure index logic and the `FeedController` class |
| `player.dfy` | `ShortsPlayer` | the player tile: error recovery, session lifecycle, the `Player` class |
| `viewcount.dfy` | `ViewCount` | `formatViews` |
| `videocard.dfy` | `VideoCard` | `formatDate`, as written and corrected |
| `studio.dfy` | `Studio` | badges, delete filter, auth effect, the `StudioPage` class |
| `upload.dfy` | `Upload` | checks, payload, progress, call chain, the `UploadPage` class |

Each component's state updates are modelled as methods of a class with the component's state variables as fields. The pure helpers (filters, index arithmetic, formatters, the error dispatch) are functions, with lemmas about them. Asynchronous results are parameters: `Option<seq<Video>>` for a list fetch that may fail, and a `Backend` value that gives the outcome of each upload call. Each handler is modelled as running to completion.

## Model

| member | source | states |
|---|---|---|
| Rounding.RoundDiv | app/shorts/page.tsx:58 | `Math.round(n / d)` for naturals: the result is the integer nearest n/d, halves rounding up (`2rd <= 2n+d < 2rd+2d`) |
| Rounding.RoundDivUnique | app/shorts/page.tsx:58 | that nearest-integer bound determines the rounded value uniquely |
| Rounding.CeilDiv | components/VideoCard.tsx:33 | `Math.ceil(n / d)`: the least r with `r*d >= n` |
| Text.TextStart | app/studio/upload/page.tsx:47 | the scan for the start of the text: everything skipped is whitespace, and it stops at the first non-whitespace character or at the end |
| Text.TextEnd | app/studio/upload/page.tsx:47 | the scan back from the end: everything skipped is whitespace, and it stops after the last non-whitespace character, never going back past the start |
| Text.Trim | app/studio/upload/page.tsx:47 | `trim` never lengthens its input, and a non-empty result neither starts nor ends with whitespace |
| Text.TrimIsInfix | app/studio/upload/page.tsx:59 | the trimmed text is the slice of the input that starts where the leading whitespace ends, and everything before and after it is whitespace |
| Text.TrimEmptyIff | app/studio/upload/page.tsx:47 | `s.trim()` is empty exactly when s is all whitespace |
| Text.TrimIdempotent | app/studio/upload/page.tsx:59-61 | trimming twice gives the same result as trimming once |
| Text.NatToString | components/VideoCard.tsx:26 | `views.toString()` is non-empty decimal digits with no leading zero |
| Text.ParseNatToString | components/VideoCard.tsx:26 | the decimal text of a number reads back as that number |
| SeqFilter.Filter | app/studio/page.tsx:54 | `filter` keeps exactly the elements that pass the test, and never lengthens the list |
| SeqFilter.FilterAppend | app/shorts/page.tsx:39-42 | filtering keeps the original relative order |
| ShortsFeed.PlayableVideos | app/shorts/page.tsx:39-42 | a video is in the feed iff it was fetched, its status is "completed" and it has a non-empty URL |
| ShortsFeed.PlayableVideosKeepOrder | app/shorts/page.tsx:39-42 | the feed keeps the fetched order |
| ShortsFeed.PlayableVideosDropNothingIff | app/shorts/page.tsx:39-42 | the feed equals the fetched list iff every fetched video is playable |
| ShortsFeed.ScrollTarget | app/shorts/page.tsx:56-62 | the index changes iff the rounded position differs from it and names a tile, and then it becomes that tile; an out-of-range position is ignored, not clamped |
| ShortsFeed.ScrollOntoTile | app/shorts/page.tsx:56-62 | scrolling exactly onto tile k (k < N) makes k current |
| ShortsFeed.ScrollPastEndIgnored | app/shorts/page.tsx:58-60 | a position at or past the end of the last tile leaves the index unchanged |
| ShortsFeed.EarlyScrollEventRewinds | app/shorts/page.tsx:58-61 | a scroll event inside the first half tile resets the index to 0, so the optimistic update of `scrollToVideo` can be overwritten mid-animation |
| ShortsFeed.KeyMovesByOne | app/shorts/page.tsx:74-79 | ArrowDown and ArrowUp move by exactly one and do nothing at the last and first tile; other keys do nothing |
| ShortsFeed.NavButtonsMatchKeys | app/shorts/page.tsx:170-199 | the "previous" ("next") button is shown iff ArrowUp (ArrowDown) would move the index |
| ShortsFeed.ActiveFlags | app/shorts/page.tsx:160-167 | tile i gets `isActive` iff i is the current index |
| ShortsFeed.ExactlyOneActive | app/shorts/page.tsx:160-167 | exactly one tile is active when the index is in range, and none otherwise |
| ShortsFeed.RunStaysOnATile | app/shorts/page.tsx:52-84 | after any sequence of scrolls and key presses starting on a tile, the index is still on a tile and exactly one tile is active |
| ShortsFeed.FeedController.ActiveTiles | app/shorts/page.tsx:160-167 | one `isActive` flag per video, set iff that tile is the current index |
| ShortsFeed.FeedController.constructor | app/shorts/page.tsx:25-28 | empty list, index 0, loading, no error |
| ShortsFeed.FeedController.FetchVideos | app/shorts/page.tsx:35-50 | a successful fetch stores the playable videos; a failed one stores "Failed to load videos"; loading ends either way |
| ShortsFeed.FeedController.OnScroll | app/shorts/page.tsx:53-63 | without a rendered container nothing changes; otherwise the index follows `ScrollTarget`, a zero height changes nothing, and exactly one tile stays active |
| ShortsFeed.FeedController.ScrollToVideo | app/shorts/page.tsx:86-94 | the container is asked to scroll to `index * height` and the index is set at once |
| ShortsFeed.FeedController.KeyDown | app/shorts/page.tsx:74-80 | the index becomes `KeyTarget` of the old one, and the scroll position moves only when the index does |
| ShortsFeed.FeedController.PressPrevious | app/shorts/page.tsx:172-174 | the visible "previous" button moves to the previous tile |
| ShortsFeed.FeedController.PressNext | app/shorts/page.tsx:186-188 | the visible "next" button moves to the next tile |
| ShortsPlayer.RecoveryFor | components/ShortsPlayer.tsx:55-69 | a fatal network error → `startLoad`, fatal media → `recoverMediaError`, other fatal → `destroy`, non-fatal → nothing; each of these is an iff |
| ShortsPlayer.Teardown | components/ShortsPlayer.tsx:71-73 | the cleanup destroys an hls.js session and leaves a native source alone; nothing is live afterwards |
| ShortsPlayer.ErrorRecoveryOutcome | components/ShortsPlayer.tsx:55-69 | network and media errors keep the session live and bump only their counter; other fatal errors only destroy it; non-fatal errors change nothing |
| ShortsPlayer.DestroyIdempotent | components/ShortsPlayer.tsx:65-73 | destroying by the error handler and again by the cleanup equals destroying once |
| ShortsPlayer.RecoverableErrorsNeverDestroy | components/ShortsPlayer.tsx:55-63 | retry is unbounded: any run of network/media errors leaves the session live, with one load restart per fatal network error |
| ShortsPlayer.RenderedView | components/ShortsPlayer.tsx:119-134 | the `<video>` element is rendered iff the video is completed with a URL; the "processing" notice iff the status is "processing" |
| ShortsPlayer.FeedTilesRenderPlayer | components/ShortsPlayer.tsx:119 | every video the Shorts feed keeps renders its player |
| ShortsPlayer.MountSession | components/ShortsPlayer.tsx:34-78 | a rendered video gets an hls.js session whenever hls.js is supported, else the native source when the element can play HLS, else none; a session exists only for a rendered video with a URL; an hls.js session loads that URL with zero retries and captures the mount-time `isActive`; the native path sets `src` to the URL |
| ShortsPlayer.NoUrlNoSession | components/ShortsPlayer.tsx:35 | a video without a URL gets no session |
| ShortsPlayer.Player.Mount | components/ShortsPlayer.tsx:34-90 | mounting creates `MountSession` and plays iff the element is rendered and the tile is active; unmuted |
| ShortsPlayer.Player.SetActive | components/ShortsPlayer.tsx:80-90 | a changed `isActive` plays or pauses a rendered element to match; an unchanged one does nothing |
| ShortsPlayer.Player.OnManifestParsed | components/ShortsPlayer.tsx:49-53 | the manifest handler plays iff the `isActive` captured at mount was true |
| ShortsPlayer.Player.OnError | components/ShortsPlayer.tsx:55-69 | the session becomes the result of the chosen recovery |
| ShortsPlayer.Player.Unmount | components/ShortsPlayer.tsx:71-73 | the session is torn down and no longer live |
| ShortsPlayer.Player.TogglePlay | components/ShortsPlayer.tsx:92-102 | a rendered element flips between playing and paused |
| ShortsPlayer.Player.ToggleMute | components/ShortsPlayer.tsx:104-108 | a rendered element flips between muted and unmuted |
| ShortsPlayer.ToggleTwiceRestores | components/ShortsPlayer.tsx:92-108 | toggling play, or mute, twice restores the state; the session and `isActive` are untouched |
| ShortsPlayer.StaleAutoplayScenario | components/ShortsPlayer.tsx:49-53 | a tile mounted active and scrolled away before its manifest is parsed ends up playing while inactive, next to the active tile |
| ViewCount.FormatViews | components/VideoCard.tsx:20-27 | "M" iff ≥ 1 000 000, "K" iff 1 000 ≤ views < 1 000 000, otherwise decimal text that reads back as the count |
| ViewCount.FormatViewsMonotone | components/VideoCard.tsx:20-27 | more views never get a smaller unit |
| VideoCard.FormatDate | components/VideoCard.tsx:35-40 | each label holds exactly for its span of days, and its count is the floor of days / 7, 30 or 365 within that span |
| VideoCard.LabelText | components/VideoCard.tsx:35-40 | "Today" and "Yesterday" are shown as such; a counted label ends in its words (" days ago", " weeks ago", …) and what comes before them is decimal digits that read back as the count |
| VideoCard.FormatDateMonotone | components/VideoCard.tsx:35-40 | an older upload never gets a more recent label |
| VideoCard.AsWrittenTodayOnlyAtSameInstant | components/VideoCard.tsx:32-36 | with `Math.ceil`, "Today" appears only when upload time equals now, and anything up to 24 h old is "Yesterday" |
| VideoCard.AsWrittenOneMinuteOldIsYesterday | components/VideoCard.tsx:33-36 | with `Math.ceil`, a video one minute old is labelled "Yesterday" |
| VideoCard.TodayIffWithinADay | components/VideoCard.tsx:32-36 | with whole days rounded down, "Today" covers the first 24 h and "Yesterday" the next 24 h |
| VideoCard.CardOneMinuteOld | components/VideoCard.tsx:29-41 | one minute after upload, the card as written (`CardDateText`) reads "Yesterday" and the rounded-down card (`CorrectedCardDateText`) reads "Today" |
| VideoCard.LabelSymmetric | components/VideoCard.tsx:32 | `Math.abs` makes past and future dates at the same distance read the same |
| Studio.StatusBadge | app/studio/page.tsx:73-81 | each known status gets its own badge text; "pending" and every unknown status get the pending badge |
| Studio.BadgeIdentifiesStatus | app/studio/page.tsx:74-79 | different known statuses get different badges |
| Studio.RemoveById | app/studio/page.tsx:54 | after a delete, the list holds exactly the videos with a different id |
| Studio.RemoveByIdKeepsOrder | app/studio/page.tsx:54 | a delete keeps the other videos in order |
| Studio.RemoveByIdAbsent | app/studio/page.tsx:54 | deleting an id not in the list leaves the list unchanged |
| Studio.RemoveByIdIdempotent | app/studio/page.tsx:54 | deleting the same id twice is the same as deleting it once |
| Studio.AuthEffect | app/studio/page.tsx:27-33 | redirect to /login iff auth has loaded with no user; fetch iff a user is signed in |
| Studio.StudioPage.constructor | app/studio/page.tsx:23-25 | empty list, loading, no error |
| Studio.StudioPage.FetchMyVideos | app/studio/page.tsx:35-45 | success stores the list as returned; failure sets "Failed to load videos" and keeps the list; loading ends either way |
| Studio.StudioPage.HandleDelete | app/studio/page.tsx:47-59 | the API is called iff the user confirmed; the list loses that id iff the call succeeded; the user is alerted iff it failed |
| Upload.OptionalFieldBlank | app/studio/upload/page.tsx:60-61 | an optional field is omitted iff it is all whitespace, and is otherwise sent trimmed |
| Upload.PayloadIsTrimmed | app/studio/upload/page.tsx:58-62 | every text in the create payload is already trimmed, and no optional field is blank |
| Upload.Percent | app/studio/upload/page.tsx:80-82 | the nearest integer to `loaded * 100 / (total or 1)`, at most 100 when loaded ≤ total |
| Upload.PercentWithoutTotal | app/studio/upload/page.tsx:81 | with no total the divisor is 1, so the figure is `100 * loaded` |
| Upload.SubmitCheck | app/studio/upload/page.tsx:37-50 | the checks run in order: signed in, then a file, then a title that is not blank after trimming; each outcome is an iff |
| Upload.TitleCheckIsBlankness | app/studio/upload/page.tsx:47-50 | a title is refused iff it is all whitespace |
| Upload.ErrorMessage | app/studio/upload/page.tsx:98 | the shown error is the server's `detail` when it is present and non-empty, and "Failed to upload video" otherwise; never empty |
| Upload.CallsInOrder | app/studio/upload/page.tsx:56-88 | the calls are made in the order create, presign, PUT, mark-complete; the first failure stops the chain; all four are made iff none of the first three fails |
| Upload.UploadPage.constructor | app/studio/upload/page.tsx:13-20 | empty form, no file, progress 0, no error, on the form step |
| Upload.UploadPage.EditFields | app/studio/upload/page.tsx:209-241 | the text inputs store what was typed |
| Upload.UploadPage.HandleFileChange | app/studio/upload/page.tsx:22-32 | no file changes nothing; a non-video type sets "Please select a video file" and keeps the old file; a video is stored and clears the error |
| Upload.UploadPage.OnUploadProgress | app/studio/upload/page.tsx:79-84 | on the uploading screen, the progress becomes `Percent` of the event |
| Upload.UploadPage.ApplyProgress | app/studio/upload/page.tsx:79-84 | after a run of progress events the figure is that of the last event, or unchanged when there were none |
| Upload.UploadPage.RunCalls | app/studio/upload/page.tsx:56-88 | the calls run only on the uploading screen, with `uploading` set and the error cleared; the calls made are `CallLog`, the reported failure is the first failing step, the progress is the PUT's last figure |
| Upload.UploadPage.StartUpload | app/studio/upload/page.tsx:52-102 | success ends on the processing step, with no error and a redirect to the studio; failure returns to the form with the error message; `uploading` is false afterwards |
| Upload.UploadPage.HandleSubmit | app/studio/upload/page.tsx:34-103 | a failed check makes no call and stays on the form (no user → /login; no file or blank title → its message); a passing check runs the chain with the trimmed payload and ends as `StartUpload` says |

## Left out

- Network, timers and the browser are parameters, not modelled behaviour. Each API result is an input (`Option`, `Reply`, `Backend`). The 2-second `setTimeout` before the redirect to the studio is collapsed into the returned route. `window.confirm` and `alert` become a boolean input and output.
- `lib/api.ts`, `contexts/AuthContext.tsx`, the login and register pages, the video detail and edit pages, and `components/Navbar.tsx` are not part of this model. The signed-in user is the boolean `hasUser`, or `authLoading` and `hasUser`.
- ViewCount.FormatViews: the one-decimal figure that `toFixed(1)` prints before "M" or "K" is not modelled, because it needs floating-point formatting. Only the choice of unit and the plain decimal text are.
- VideoCard: parsing `created_at` with `new Date` and reading the clock are not modelled. Both instants are integer milliseconds passed in.
- Rounding.RoundDiv models `Math.round` on non-negative quotients only. Every quotient the source rounds is non-negative: scroll offsets, byte counts, times.
- ShortsFeed.FeedController.OnScroll: a zero window height is taken as "no change". This matches `Math.round(x / 0)` being `Infinity` or `NaN`, neither of which is `< videos.length`. Fractional scroll offsets and heights are not modelled; both are natural numbers.
- ShortsFeed.FeedController.ScrollToVideo: the smooth-scroll animation is reduced to its final `scrollTop`. The scroll events fired during it are separate `OnScroll` calls, as in `EarlyScrollEventRewinds`.
- The `like` handler (a `console.log` placeholder), the mouse-hover controls and the Shorts page's "Loading" / error / empty render branches are not modelled beyond `FeedController.ContainerMounted`.
- ShortsPlayer: `play()` rejections are not modelled (they are logged and ignored). hls.js internals and the `enableWorker` and `lowLatencyMode` options are not modelled either. `Hls.isSupported()` and `canPlayType` are boolean inputs.
- ShortsPlayer.Player: the `onPlay` and `onPause` element events are folded into the invariant `isPlaying == elementPlaying`. A pause started by the browser itself is not a separate operation.
- ShortsPlayer.Player.OnManifestParsed requires a live session, because a destroyed hls.js instance emits no events. The HLS effect's re-run when `video.video_url` changes is not modelled, because a tile's video is fixed for its lifetime (`key={video.id}`).
- Studio.StatusBadge: the badge lookup `badges[status]` on a plain object also matches inherited keys such as `"constructor"`. This JavaScript prototype quirk is not modelled; such statuses get the pending badge here.
- Studio.StudioPage.HandleDelete: runs to completion against the list as it is at the click. The source filters the list captured when the button was clicked (app/studio/page.tsx:54). So if two deletes overlap (B clicked while A's call is pending), B's success overwrites A's and A's video reappears. Overlapping deletes are not modelled.
- Studio: the video table's rendering (`toLocaleDateString`, `toLocaleString` of the view count) and the "Cancel" / "Upload Video" links are not modelled.
- Upload: the `accept="video/*"` attribute and the disabled buttons are not modelled. Only the handlers' own checks are. `HandleSubmit` requires the form step and `!uploading`, the only state in which the submit button can be pressed.
- Upload.UploadPage.HandleSubmit: the `err.response?.data?.detail` lookup is reduced to the `detail` carried by the failing `Reply`.

## Findings

| source | as written | input that shows it | evidently intended | confidence | as-written member | corrected member |
|---|---|---|---|---|---|---|
| components/VideoCard.tsx:33 | `diffDays = Math.ceil(diffTime / 86400000)`, so every non-zero age up to one day counts as one day | a video uploaded 60 000 ms (one minute) before now is labelled "Yesterday"; "Today" only appears when upload time equals now | whole days rounded down, so "Today" covers the first 24 hours and "Yesterday" the next 24 | not executed | VideoCard.AsWrittenOneMinuteOldIsYesterday | VideoCard.TodayIffWithinADay |
