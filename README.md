# simple-youtube-player core, in Dafny

This project models the logic at the heart of the simple-youtube-player web
app: a YouTube player page with bookmarks and captions. It covers:

- **Segment bookmarks** (`useFavoriteSegments`). A list of named start times
  per video, written back whole to `localStorage` after every add, remove and
  update. The in-memory list changes only when that write succeeds.
- **Video bookmarks** (`useFavoriteVideos`). The same shape, except that an add
  keeps at most one record per video id and returns the existing record
  instead of adding a second one.
- **The one-shot migration** (`migrateFromLocalStorage`). It copies three
  legacy `localStorage` keys into the durable store. It writes the parsed value,
  or the raw text as a fallback. A completion flag guards every later run.
- **The playback bridge** (`useYouTubePlayer`). The state `player`, `isReady`,
  `isPlaying` and `currentTime` is driven by the widget's events, a polling
  tick and the guarded `play`, `pause` and relative `seekTo`.
- **Captions** (`useCaptions`, `CaptionDisplay`). A line-oriented parser for
  WebVTT-style cue timings (the `HH:MM:SS.mmm --> HH:MM:SS.mmm` line of
  section 4.1 of the W3C WebVTT specification, with exactly two hour digits),
  the first-match lookup of the current caption, and the panel's highlight
  rule.
- **The segment components** (`FavoriteSegmentForm`, `FavoriteSegmentList`).
  These cover `formatTime`, the stable sort by start time, the row label, the
  quick-register record and the small name-editing state machine. The two
  components define `formatTime`, the order and the name editor
  identically, so one definition serves both. Their row labels differ and
  are modelled separately. Only `FavoriteSegmentForm` has quick register.

Module layout:

- `Base`: `Option`, map lookup.
- `Lists`: filter, find, some, stable insertion sort, with their lemmas.
- `Text`: ECMAScript `trim`, `split`, `join`, `includes('-->')`, tag stripping,
  decimal rendering, `padStart`.
- `Storage`: the two stores as classes, and JSON and `Date` as function-valued
  codecs.
- `Types`: the record types.
- Then one module per part of the core.

Effects and outside choices are parameters:

- `fits` says whether a `localStorage` write is accepted.
- `accept(key, value)` says whether the durable store accepts a write.
- `fault` says whether a widget call throws; `reading` is what
  `getCurrentTime` would return.
- Fresh ids and creation dates are passed in.

Some things the code does that a reader might not expect:

- The hooks persist to `localStorage` under `youtube-player-favorites` and
  `youtube-player-favorite-videos`, not to the durable store.
- The durable store is touched only by the migration.
- The player hook has only a relative, clamped seek.
- The cue pattern is not anchored. A line matches when the pattern occurs
  anywhere in it, and the leftmost occurrence gives the times.
- The caption panel highlights every row whose *text* equals the current
  caption's text, not only the current row.
- The migration falls back to writing the raw text in two cases: when
  parsing fails, and when the write of the parsed value is rejected.

## Model

| member | source | states |
|---|---|---|
| FavoriteSegments.Loaded | src/hooks/useFavoriteSegments.ts:11-30 | the load installs nothing exactly when no text is stored, the text is empty, or it does not parse; otherwise it installs one record per stored record, fields copied and `createdAt` rebuilt from its text |
| FavoriteSegments.LoadAfterSave | src/hooks/useFavoriteSegments.ts:11-40 | loading what a save wrote gives back the saved list, dates included, when JSON and the date text round-trip |
| FavoriteSegments.Serialize | src/hooks/useFavoriteSegments.ts:33-40 | the array written has one entry per record, with the same id, name, start time and video id, and the date as ISO text |
| FavoriteSegments.RemoveByIdSpec | src/hooks/useFavoriteSegments.ts:56-59 | removal keeps, in original order and multiplicity, exactly the records with another id |
| FavoriteSegments.RemoveAbsentIsNoop | src/hooks/useFavoriteSegments.ts:56-59 | removing an id no record has leaves the list equal |
| FavoriteSegments.ByVideoIdSpec | src/hooks/useFavoriteSegments.ts:62-64 | the lookup is the ordered subsequence of records of that video, each as often as in the list, and nothing else |
| FavoriteSegments.ApplyUpdate | src/hooks/useFavoriteSegments.ts:67-72 | a merge overrides exactly the supplied fields and keeps id and creation date |
| FavoriteSegments.UpdateById | src/hooks/useFavoriteSegments.ts:67-72 | an update keeps length, order, every id and date; records with another id are unchanged, matching ones are merged |
| FavoriteSegments.UpdateAbsentIsNoop | src/hooks/useFavoriteSegments.ts:67-72 | an update of an id not in the list leaves it equal, with no error |
| FavoriteSegments.OperationsKeepIdsDistinct | src/hooks/useFavoriteSegments.ts:43-72 | pairwise distinct ids stay distinct after an add with a fresh id, a remove and an update |
| FavoriteSegments.FavoriteSegmentsHook.constructor | src/hooks/useFavoriteSegments.ts:8 | the list starts empty |
| FavoriteSegments.FavoriteSegmentsHook.Load | src/hooks/useFavoriteSegments.ts:11-30 | the list becomes what was loaded, or stays as it was when nothing loads |
| FavoriteSegments.FavoriteSegmentsHook.SaveFavorites | src/hooks/useFavoriteSegments.ts:33-40 | state and stored text change together, and only when the write is accepted |
| FavoriteSegments.FavoriteSegmentsHook.AddFavorite | src/hooks/useFavoriteSegments.ts:43-53 | the record returned carries the given id and date and the input's fields; on an accepted write it is appended at the end and nothing else changes |
| FavoriteSegments.FavoriteSegmentsHook.RemoveFavorite | src/hooks/useFavoriteSegments.ts:56-59 | on an accepted write the list becomes the removal of that id, otherwise it is unchanged |
| FavoriteSegments.FavoriteSegmentsHook.UpdateFavorite | src/hooks/useFavoriteSegments.ts:67-72 | on an accepted write the list becomes the update, otherwise it is unchanged |
| FavoriteSegments.FavoriteSegmentsHook.GetFavoritesByVideoId | src/hooks/useFavoriteSegments.ts:62-64 | returns the video's records, without changing anything |
| FavoriteVideos.Loaded | src/hooks/useFavoriteVideos.ts:11-30 | the load installs nothing exactly when no text is stored, the text is empty, or it does not parse; otherwise every stored record with its date rebuilt |
| FavoriteVideos.LoadAfterSave | src/hooks/useFavoriteVideos.ts:11-40 | loading what a save wrote gives back the saved list |
| FavoriteVideos.Serialize | src/hooks/useFavoriteVideos.ts:33-40 | the array written has one entry per record, with the same id, video id, title, original title and thumbnail URL, and the date as ISO text |
| FavoriteVideos.FindByVideoId | src/hooks/useFavoriteVideos.ts:68-70 | finds nothing exactly when no record has the video id; otherwise the first record that has it |
| FavoriteVideos.IsFavoriteIffFound | src/hooks/useFavoriteVideos.ts:68-75 | `isFavoriteVideo` holds exactly when `getFavoriteVideoByVideoId` finds a record |
| FavoriteVideos.AddVideoSpec | src/hooks/useFavoriteVideos.ts:43-59 | with a record for the video, the add returns the first such record and leaves the list; otherwise it appends one record with the input's fields and returns it |
| FavoriteVideos.OperationsKeepOnePerVideo | src/hooks/useFavoriteVideos.ts:43-65 | at most one record per video id is kept by add and by remove |
| FavoriteVideos.AddTwiceIsIdempotent | src/hooks/useFavoriteVideos.ts:45-48 | a second add of the same video returns the first add's record and leaves the list as the first add left it |
| FavoriteVideos.RemoveByIdSpec | src/hooks/useFavoriteVideos.ts:62-65 | removal drops exactly the records with that id and keeps the rest in order |
| FavoriteVideos.RemoveAbsentIsNoop | src/hooks/useFavoriteVideos.ts:62-65 | removing an id no record has leaves the list equal |
| FavoriteVideos.FavoriteVideosHook.constructor | src/hooks/useFavoriteVideos.ts:8 | the list starts empty |
| FavoriteVideos.FavoriteVideosHook.Load | src/hooks/useFavoriteVideos.ts:11-30 | the list becomes what was loaded, or stays as it was |
| FavoriteVideos.FavoriteVideosHook.SaveFavoriteVideos | src/hooks/useFavoriteVideos.ts:33-40 | state and stored text change together, and only when the write is accepted |
| FavoriteVideos.FavoriteVideosHook.AddFavoriteVideo | src/hooks/useFavoriteVideos.ts:43-59 | an existing record is returned with no write; otherwise the new record is returned and appended only if its write is accepted |
| FavoriteVideos.FavoriteVideosHook.RemoveFavoriteVideo | src/hooks/useFavoriteVideos.ts:62-65 | on an accepted write the list loses that id, otherwise it is unchanged |
| FavoriteVideos.FavoriteVideosHook.GetFavoriteVideoByVideoId | src/hooks/useFavoriteVideos.ts:68-70 | returns the first record of the video, if any |
| FavoriteVideos.FavoriteVideosHook.IsFavoriteVideo | src/hooks/useFavoriteVideos.ts:73-75 | true exactly when some record has the video id |
| Migration.CopyKeySpec | src/db/migration.ts:28-42 | copying one key touches only that key; it ends with the parsed value, else the raw text, else unchanged, and counts exactly when a write is accepted |
| Migration.CopyKeysSpec | src/db/migration.ts:26-43 | copying distinct keys touches only those keys, each as one copy says, and counts the keys copied |
| Migration.CountCopied | src/db/migration.ts:25-38 | the count never exceeds the number of keys |
| Migration.MigrateSpec | src/db/migration.ts:16-48 | a truthy flag means no write at all; otherwise each listed key holds its parsed or raw legacy value, keys without a legacy value and all other keys are untouched, the count is the number copied (at most 3), and the flag is set whenever its own write is accepted, however many keys failed, and keeps its old value when that write is rejected |
| Migration.SecondRunIsNoop | src/db/migration.ts:16-48 | after a completed run, another run copies and changes nothing, whatever the legacy store holds |
| Migration.MigrateFromLocalStorage | src/db/migration.ts:16-48 | the loop leaves the durable store and the outcome as the run function says; the legacy store is only read |
| YouTubePlayer.SeekTarget | src/hooks/useYouTubePlayer.ts:128 | the seek target is never negative, is at least current time plus the offset, and is one of the two |
| YouTubePlayer.PlayerBridge.constructor | src/hooks/useYouTubePlayer.ts:14-17 | no widget, not ready, not playing, time 0 |
| YouTubePlayer.PlayerBridge.InitializePlayer | src/hooks/useYouTubePlayer.ts:35-79 | without a mount point or video id nothing happens; otherwise a held widget gets `destroy` first (a throw is swallowed) and a new widget is still created |
| YouTubePlayer.PlayerBridge.OnReady | src/hooks/useYouTubePlayer.ts:65-68 | holds the widget and becomes ready, nothing else changes |
| YouTubePlayer.PlayerBridge.OnStateChange | src/hooks/useYouTubePlayer.ts:70-72 | `isPlaying` becomes whether the state is PLAYING, nothing else changes |
| YouTubePlayer.PlayerBridge.Cleanup | src/hooks/useYouTubePlayer.ts:82-84 | the bridge stops being ready, nothing else changes |
| YouTubePlayer.PlayerBridge.Tick | src/hooks/useYouTubePlayer.ts:88-103 | while active and playing, one time read, and the time follows unless the read throws; otherwise no call and no change |
| YouTubePlayer.PlayerBridge.Play | src/hooks/useYouTubePlayer.ts:105-113 | one play call only when a widget is held and ready; local state untouched |
| YouTubePlayer.PlayerBridge.Pause | src/hooks/useYouTubePlayer.ts:115-123 | one pause call only when a widget is held and ready; local state untouched |
| YouTubePlayer.PlayerBridge.SeekTo | src/hooks/useYouTubePlayer.ts:125-135 | when active, one seek to the clamped target, and the local time follows unless the call throws; otherwise no call and no change |
| YouTubePlayer.OperationsAfterCleanup | src/hooks/useYouTubePlayer.ts:82-135 | after the cleanup, play, pause, seek and a tick reach no widget and change no state |
| Captions.MatchFromLeftmost | src/hooks/useCaptions.ts:22 | the pattern search fails exactly when it matches at no position, and otherwise returns the match at the leftmost position |
| Captions.MatchHasArrow | src/hooks/useCaptions.ts:21-22 | every line the pattern matches also passes the `-->` test |
| Captions.StampReadsBack | src/hooks/useCaptions.ts:25-35 | a timestamp `hh:mm:ss.mmm` reads as h·3600 + m·60 + s + ms/1000 |
| Captions.TimingLineReadsBack | src/hooks/useCaptions.ts:21-35 | a written `a --> b` line is matched and gives back both times exactly |
| Captions.BlockEnd | src/hooks/useCaptions.ts:38-47 | the text run ends at the first blank line after the timing line, or at the end |
| Captions.CueAt | src/hooks/useCaptions.ts:49-55 | a timing line gives a caption exactly when its run has a text line |
| Captions.ReadCueText | src/hooks/useCaptions.ts:38-47 | the inner loop stops where the run ends and collects the texts of its lines without `-->`, tags stripped and trimmed |
| Captions.ScanLine | src/hooks/useCaptions.ts:18-57 | one outer step advances and emits exactly the caption the cue definition gives for that line |
| Captions.ParseVtt | src/hooks/useCaptions.ts:13-63 | the parser returns exactly the cues of the split lines, scanned from the top |
| Captions.Step | src/hooks/useCaptions.ts:17-57 | the scan always moves forward and never past the end: to the next line, or after a cue-timing line to the end of its text run |
| Captions.ReachesStep | src/hooks/useCaptions.ts:17-57 | from every line the scan visits, it visits the line it steps to next |
| Captions.ReachesBlank | src/hooks/useCaptions.ts:40-57 | every blank line is visited, because a text run stops at the first blank line and the scan resumes there |
| Captions.BlankIsNotTiming | src/hooks/useCaptions.ts:18-21 | a blank line fails the `-->` test, so the scan moves to the next line |
| Captions.CuesFromSuffix | src/hooks/useCaptions.ts:17-60 | the captions found from any visited line are a suffix of the whole output; those found before it come first |
| Captions.CuesComplete | src/hooks/useCaptions.ts:17-60 | every visited cue-timing line with text contributes its caption in place: captions before it, then its own, then those found after its text run |
| Captions.CueAfterBlankIsParsed | src/hooks/useCaptions.ts:17-60 | a cue with text whose timing line opens the text or follows a blank line is in the parser's output |
| Captions.CuesFromOrigin | src/hooks/useCaptions.ts:17-60 | every caption comes from a cue-timing line the scan visits, in input order, one per timing line with text: timed by that line, duration end − start, texts joined by a space; the next cue's line lies after the consumed run, so consumed lines are not rescanned |
| Captions.TimingLineShape | src/hooks/useCaptions.ts:14-21 | a written `a --> b` line has no line break, no surrounding space, and passes the `-->` test |
| Captions.TimingLineFacts | src/hooks/useCaptions.ts:14-35 | a written `a --> b` line survives split and trim, passes the `-->` test, and its match gives back both times |
| Captions.PlainCueText | src/hooks/useCaptions.ts:40-44 | a plain text line (trimmed, no `>`, no `-->`) is kept as its own caption text |
| Captions.TwoLineCue | src/hooks/useCaptions.ts:17-60 | a timing line followed by one plain text line gives exactly one caption, with that line's timing and that text |
| Captions.TimingThenText | src/hooks/useCaptions.ts:13-63 | a timing line, a line break and a plain text line parse to exactly that one caption |
| Captions.SingleCueRoundTrip | src/hooks/useCaptions.ts:13-63 | the text `a --> b`, a line break and a plain text line t parse to exactly one caption: start a, duration b − a, text t |
| Text.SplitTwo | src/hooks/useCaptions.ts:14 | splitting `a`, the separator, `b` (neither holding the separator) gives exactly `[a, b]` |
| Captions.CuesCountBound | src/hooks/useCaptions.ts:17-60 | there are at most as many captions as matching timing lines |
| Captions.NoTextNoCaption | src/hooks/useCaptions.ts:49 | a timing line followed by a blank line or the end gives no caption |
| Captions.CueTextClean | src/hooks/useCaptions.ts:41-44 | a caption line's text is trimmed and holds no `<` with a `>` after it |
| Captions.CurrentCaption | src/hooks/useCaptions.ts:146-150 | null exactly when no caption has start ≤ t < start + duration; otherwise the first such caption in list order |
| Captions.IntervalIsHalfOpen | src/components/CaptionDisplay.tsx:17-21 | the start selects a caption with positive duration, and start + duration never does |
| CaptionDisplay.Highlights | src/components/CaptionDisplay.tsx:43 | row k is highlighted exactly when some caption is current and its text equals row k's text |
| CaptionDisplay.EqualTextsHighlightTogether | src/components/CaptionDisplay.tsx:87 | rows with equal text are highlighted together |
| CaptionDisplay.NoneHighlightedIffNoCaption | src/components/CaptionDisplay.tsx:17-21 | no row is highlighted exactly when no caption holds the time |
| CaptionDisplay.RepeatedTextIsHighlighted | src/components/CaptionDisplay.tsx:43 | a row whose own interval misses the time is highlighted when it repeats the current text |
| SegmentViews.JsRemainder60 | src/components/FavoriteSegmentForm.tsx:47 | JavaScript's `% 60`: within ±60, same sign as the dividend, congruent to it |
| SegmentViews.FormatTimeReadsBack | src/components/FavoriteSegmentForm.tsx:45-49 | for s ≥ 0 the text is `M:SS`: minutes without leading zero, seconds exactly two digits below 60, minutes·60 + seconds = s; `FavoriteSegmentList.tsx:23-27` is the same definition |
| SegmentViews.FormLabel | src/components/FavoriteSegmentForm.tsx:182 | the label is never empty, and is the name when there is one |
| SegmentViews.ListLabel | src/components/FavoriteSegmentList.tsx:139 | the label is never empty, and is the name when there is one |
| SegmentViews.UnnamedLabelsShowStartTime | src/components/FavoriteSegmentList.tsx:139 | an unnamed segment shows its formatted start time, after `区間 ` in the list |
| SegmentViews.SortedFavoritesSpec | src/components/FavoriteSegmentForm.tsx:82 | the sorted list is a permutation in non-decreasing start time, equal start times keeping their order; `FavoriteSegmentList.tsx:60` is the same sort |
| SegmentViews.QuickRegister | src/components/FavoriteSegmentForm.tsx:30-35 | an unnamed segment of the current video at the whole second at or below the current time |
| SegmentViews.SaveRequest | src/components/FavoriteSegmentForm.tsx:58-64 | an update is sent exactly while editing, for the edited id, with the trimmed name and nothing else |
| SegmentViews.SaveRenamesOnly | src/components/FavoriteSegmentList.tsx:36-42 | applying the saved update renames exactly the edited segment to the trimmed name and leaves every other field and segment alone |
| SegmentViews.SegmentEditor.constructor | src/components/FavoriteSegmentForm.tsx:26-27 | editing nothing, empty name |
| SegmentViews.SegmentEditor.StartEditing | src/components/FavoriteSegmentForm.tsx:52-55 | edits the record's id, starting from its current name (the list component, lines 30-33, is identical) |
| SegmentViews.SegmentEditor.ChangeName | src/components/FavoriteSegmentForm.tsx:159 | the typed text replaces the name; the edited id stays |
| SegmentViews.SegmentEditor.SaveEditing | src/components/FavoriteSegmentForm.tsx:58-64 | while editing, sends the trimmed name and clears the state; otherwise sends nothing and changes nothing (identical at `FavoriteSegmentList.tsx:36-42`) |
| SegmentViews.SegmentEditor.CancelEditing | src/components/FavoriteSegmentForm.tsx:67-70 | clears the state and sends nothing |
| SegmentViews.SegmentEditor.HandleKeyPress | src/components/FavoriteSegmentForm.tsx:73-79 | Enter saves and clears the editor, or changes nothing when not editing; Escape cancels; any other key changes nothing (identical at `FavoriteSegmentList.tsx:51-57`) |

## Left out

- `fetchCaptions`: network requests, the API-key check and the built-in sample captions are I/O.
- The YouTube IFrame API: script loading, the ready callback on `window`, and the widget's configuration. The widget is seen only through the calls made on it and whether each throws.
- `setInterval` and React effect scheduling: one poll tick is one method call. Stale closures and interleaved effects are not modelled.
- Floating point: playback times and cue times are exact reals, and `ms / 1000` is exact division.
- Fresh ids and dates (`Date.now()`, `Math.random()`): they are parameters.
- `JSON.parse`/`JSON.stringify` and `Date` conversion: they are codec functions. The load/save round trips require that they round-trip.
- The durable store's own module, `./storage`, is not part of this model. It is a map, and a function of key and value decides whether it accepts a write. A `getItem` that fails is not modelled.
- A `localStorage.getItem` that throws is not modelled. A load that does not parse installs nothing, as the code's `catch` does.
- Logging: the hooks and the migration report the failures they swallow with `console.log`/`console.error`. The model keeps the outcome of each failure but not the message.
- Rendering: JSX, class names, icons, the open/closed accordion flag, and the short "registered" feedback after a quick register.
- SegmentViews.FormatTimeReadsBack: stated only for non-negative seconds. `FormatTime` models the JavaScript operators for negative input too, but the `M:SS` layout is not claimed there.
- SegmentViews.FormatTime: takes whole seconds, because every start time comes from `Math.floor`. Fractional input to `formatTime` is not modelled.
- Captions.ParseVtt: models the string type as Unicode code points. `trim` and `\s` use ECMAScript's white-space set, and nothing else of Unicode is modelled.
