# Doom Scroll Ads — a Dafny model

Doom Scroll Ads is a vertical video feed. It plays local clips one at a time.
It records how long each clip was watched, and whether it was liked or shared.
Every few organic videos it slips in a generated advertisement. The ad is
chosen from the viewer's recent history and from how earlier ads performed.
Scripts fill the video directory from public datasets (MSR-VTT, DiDeMo,
Panda-70M). Each video is stored with a caption file beside it.

This project models the core of that system in Dafny:

- `AdGenerationDataclasses` (`ad_generation_dataclasses.dfy`) models the
  shared records:
  - the caption and context files beside a video or product image;
  - the viewer (`User`), with a bounded memory of watched videos and
    reactions, and a memoised context summary built from a prompt with one
    line per video.
- `AdPerformance` (`ad_performance.dfy`) models the per-product ad metrics:
  - the derived rates;
  - recording an impression;
  - the scoring used to choose products;
  - the JSON store, with its save/load round trip.
- `ProductMetadata` (`product_metadata.dfy`) models the product catalogue:
  - which entries are kept;
  - the defaults;
  - the table keyed by image basename (a later entry wins);
  - description lookup.
- `ScrollFeed` (`scroll_feed.dfy`) holds the pure logic of the feed:
  - wrap-around navigation;
  - the organic-view counter and ad insertion after the current video;
  - the ad-generation task (at most one in flight);
  - watch-time accounting by snapshots and commits;
  - the rule that a video enters the viewer's history at most once.
- `ScrollUi` (`scroll_ui.dfy`) is the window as a class whose methods update
  its fields, just as the event handlers do. Each method is specified
  against the `ScrollFeed` functions. The module also models the per-video
  stats file (persisting then loading restores watch time and reactions)
  and the directory scan that collects captioned videos.
- `ParseVideosPanda70m`, `ParseVideosMsrvtt`, `ParseVideosDidemo` and
  `ParseVideosPreprocess` model the dataset scripts:
  - timestamp parsing;
  - flattening examples into clips;
  - the clip download with its skip, success and cleanup paths;
  - the no-overwrite move of `.mp4` files;
  - caption grouping per video id and caption-file writing;
  - archive selection and ordering;
  - the captions table.
- `Wrappers`, `Text`, `Paths`, `Json` and `PyDict` are support modules:
  - `Option`/`Result`;
  - string splitting, joining and stripping;
  - `pathlib` names and parents;
  - decoded JSON values;
  - insertion-ordered dictionaries as association lists.

The file system is a set of existing paths, or a map from path to content.
Time is a `now: real` parameter. These are parameters too:
- the language model;
- Python's `str()` of a JSON value;
- `ast.literal_eval`;
- the outcome of running `yt-dlp`.

Two different caption files are named by the code:
- `_collect_videos` demands `<stem>.txt` beside each video (`src/das/scroll_ui.py:958-972`).
- `Video.context` reads `<stem>_caption.txt` (`src/das/ad_generation_dataclasses.py:23`).

The model keeps both names as written (`ScrollUi.CollectFrom` and
`AdGenerationDataclasses.VideoContext`). A video admitted to the feed can
therefore still lack the caption that ad generation reads. The model gives
`Failure` for that case.

## Model

| member | source | states |
|---|---|---|
| AdGenerationDataclasses.StemHasNoSlash | src/das/ad_generation_dataclasses.py:23 | a path's stem never contains a directory separator, so a name built from it stays in the same directory |
| AdGenerationDataclasses.VideoCaptionBesideVideo | src/das/ad_generation_dataclasses.py:23 | a video's caption file is in the video's own directory and is named `<stem>_caption.txt` |
| AdGenerationDataclasses.ProductContextBesideImage | src/das/ad_generation_dataclasses.py:36-37 | a product's stored context file is in the image's directory and is named `<stem>_context.txt` |
| AdGenerationDataclasses.VideoContext | src/das/ad_generation_dataclasses.py:22-27 | reading a video's context succeeds exactly when its caption file exists; otherwise the failure names the missing path |
| AdGenerationDataclasses.VideoContextStripped | src/das/ad_generation_dataclasses.py:24-27 | a caption that was read is the caption file's text with the spaces, newlines and tabs at both ends removed (a slice of the text with only those characters around it, itself not starting or ending with one), and stripping it again changes nothing |
| AdGenerationDataclasses.StoredProductContext | src/das/ad_generation_dataclasses.py:36-40 | a stored product context is returned exactly when its file exists, and it is that file's text with the spaces, newlines and tabs at both ends removed |
| AdGenerationDataclasses.BoundedAppendSpec | src/das/ad_generation_dataclasses.py:60-68 | appending to a history of at most `limit` items keeps at most `limit`: the newest item is last and the oldest is dropped only when full |
| AdGenerationDataclasses.BoundedAppendPaired | src/das/ad_generation_dataclasses.py:86-89 | appending a video and its reaction to both bounded histories keeps them the same length and still paired position by position |
| AdGenerationDataclasses.ContextLineOneLine | src/das/ad_generation_dataclasses.py:76-77 | a prompt line built from a caption without newlines is a single line |
| AdGenerationDataclasses.ContextLines | src/das/ad_generation_dataclasses.py:74-78 | a successful run over the first `n` entries has exactly `n` lines |
| AdGenerationDataclasses.ContextLinesSucceed | src/das/ad_generation_dataclasses.py:74-78 | when each of the first `n` videos has its caption file, the lines for them are all built |
| AdGenerationDataclasses.ContextLinesCaptioned | src/das/ad_generation_dataclasses.py:74-78 | lines built for the first `n` entries mean each of those videos has its caption file |
| AdGenerationDataclasses.ContextLinesFailureSticks | src/das/ad_generation_dataclasses.py:74-78 | the first unreadable caption aborts the prompt: later entries do not change the failure |
| AdGenerationDataclasses.ContextLinesAt | src/das/ad_generation_dataclasses.py:74-78 | in a successful prompt, line i is built from video i's caption and reaction i |
| AdGenerationDataclasses.PromptFailsAt | src/das/ad_generation_dataclasses.py:74-78 | when entry i's caption cannot be read after the earlier lines were built, the whole prompt fails with that entry's error |
| AdGenerationDataclasses.PromptHasOneLinePerEntry | src/das/ad_generation_dataclasses.py:74-79 | splitting the joined prompt on newlines gives back exactly one line per watched video, in history order |
| AdGenerationDataclasses.BuildPrompt | src/das/ad_generation_dataclasses.py:74-79 | the loop that builds the prompt computes the prompt specification |
| AdGenerationDataclasses.User.constructor | src/das/ad_generation_dataclasses.py:60-68 | a new viewer has empty, paired histories and no cached context |
| AdGenerationDataclasses.User.AppendVideo | src/das/ad_generation_dataclasses.py:86-89 | records the video and its reaction in the bounded histories and drops the cached context |
| AdGenerationDataclasses.User.Context | src/das/ad_generation_dataclasses.py:70-84 | a cached context is returned unchanged; otherwise the prompt is summarised, and a successful summary is cached while a failure caches nothing |
| AdGenerationDataclasses.ContextIsMemoised | src/das/ad_generation_dataclasses.py:70-84 | asking for the context twice in a row gives the same answer even if the chat model would answer differently the second time; a successful answer stays memoised |
| AdPerformance.AvgWatchSeconds | src/das/ad_performance.py:26-28 | zero without impressions; never negative for consistent metrics |
| AdPerformance.LikeRate | src/das/ad_performance.py:30-32 | zero without impressions; otherwise a fraction between 0 and 1 |
| AdPerformance.ShareRate | src/das/ad_performance.py:34-36 | zero without impressions; otherwise a fraction between 0 and 1 |
| AdPerformance.RecordOnlyTouchesProduct | src/das/ad_performance.py:119-125 | an impression adds one view, its seconds and its like/share to that product (created fresh if absent) and leaves every other product's metrics unchanged |
| AdPerformance.RecordKeepsWellFormed | src/das/ad_performance.py:102-125 | recording a positive-length impression keeps keys distinct and keeps every product's counters consistent |
| AdPerformance.Score | src/das/ad_performance.py:130-141 | an unknown product, or one with no impressions, scores zero |
| AdPerformance.ScoreBounds | src/das/ad_performance.py:130-152 | scores are never negative, and the rate-based objectives never exceed 1 |
| AdPerformance.LoadEntriesKeysMatch | src/das/ad_performance.py:61-76 | a successful load gives distinct keys, and each key equals the product path stored under it |
| AdPerformance.EntryMetricOfRecord | src/das/ad_performance.py:61-76 | reading back a saved record gives the metrics that were saved |
| AdPerformance.LoadSavedSuffix | src/das/ad_performance.py:61-76 | loading the remaining saved records after a prefix restores the whole table |
| AdPerformance.LoadSaved | src/das/ad_performance.py:51-91 | loading the document that saving wrote gives back exactly the saved metrics |
| AdPerformance.LoadMetrics | src/das/ad_performance.py:51-79 | the loading loop computes the load specification: empty for a missing or unreadable file, an error for a malformed entry |
| AdPerformance.LoadStore | src/das/ad_performance.py:51-79 | `load` gives a store over the loaded table with nothing saved yet, or fails exactly when the load raises, with that exception |
| AdPerformance.AdPerformanceStore.constructor | src/das/ad_performance.py:45-46 | a store holds the given metrics and has saved nothing yet |
| AdPerformance.AdPerformanceStore.Save | src/das/ad_performance.py:81-91 | a successful write stores the JSON of the current metrics; a failed write leaves the file as it was |
| AdPerformance.AdPerformanceStore.GetOrCreate | src/das/ad_performance.py:95-100 | returns the existing metrics, or adds fresh zero metrics at the end; either way the product then maps to the result |
| AdPerformance.AdPerformanceStore.RecordImpression | src/das/ad_performance.py:102-128 | a non-positive watch time changes nothing; otherwise the table becomes the recorded table, saved when autosave is on |
| ProductMetadata.EntryMeta | src/das/product_metadata.py:45-73 | an entry is kept exactly when it is an object with string `image_path` and `url`; the id falls back to the image stem, the name to the id, the call to action to "View product"; a non-string description path is dropped |
| ProductMetadata.CatalogueEntries | src/das/product_metadata.py:27-42 | a missing or unreadable file gives nothing; a list is used as is; an object gives its `products` list (empty if absent); any other shape gives nothing |
| ProductMetadata.LoadProductMetadata | src/das/product_metadata.py:21-76 | the loading loop computes the catalogue table |
| ProductMetadata.AddEntriesLaterWins | src/das/product_metadata.py:45-74 | adding entries to a table gives, for a key, the last kept entry with that basename, or the earlier value if none |
| ProductMetadata.LastForCons | src/das/product_metadata.py:74 | the last entry for a key is found in the tail if present there, else it is the head |
| ProductMetadata.LaterEntryWins | src/das/product_metadata.py:44-76 | in the loaded table, each basename maps to the last catalogue entry with that image basename |
| ProductMetadata.AddEntriesKeyed | src/das/product_metadata.py:74 | adding entries keeps keys distinct, and each key is the basename of its entry's image |
| ProductMetadata.ProductTableKeyed | src/das/product_metadata.py:44-76 | the loaded table has distinct keys, and each is its product's image basename |
| ProductMetadata.ProductMetadataForBasename | src/das/product_metadata.py:83-85 | a product is found exactly when its basename is a key, and it is the one stored there |
| ProductMetadata.ProductDescription | src/das/product_metadata.py:88-99 | no description path, or a missing file, gives the empty string; otherwise the file's text stripped of spaces, newlines and tabs |
| ScrollFeed.NextIndex | src/das/scroll_ui.py:756-759 | moving forward stays within the feed and wraps from the last video to the first |
| ScrollFeed.PrevIndex | src/das/scroll_ui.py:773-776 | moving back stays within the feed and wraps from the first video to the last |
| ScrollFeed.PrevUndoesNext | src/das/scroll_ui.py:756-776 | forward then back, or back then forward, returns to the same position |
| ScrollFeed.EnsureQueuedSpec | src/das/scroll_ui.py:666-690 | a generation task starts exactly when the cache is below its target and no task is running; nothing else in the feed changes |
| ScrollFeed.EnsureQueuedDropsUncollectedAd | src/das/scroll_ui.py:683-690 | a finished task whose ad was not yet collected is replaced by a new one and that ad never reaches the cache |
| ScrollFeed.CheckAdTaskSpec | src/das/scroll_ui.py:704-729 | collecting a finished task appends its ad to the back of the cache (a failure adds nothing) and leaves no finished task; the feed is untouched |
| ScrollFeed.InsertAt | src/das/scroll_ui.py:747-750 | inserting puts the item at the position and shifts what follows by one, keeping everything else |
| ScrollFeed.InsertAdWaits | src/das/scroll_ui.py:731-740 | before enough organic views, or with an empty cache, nothing changes |
| ScrollFeed.InsertAdPlacesAd | src/das/scroll_ui.py:731-754 | otherwise the oldest cached ad is placed right after the current video, the counter restarts and a replacement is queued |
| ScrollFeed.InsertAdValid | src/das/scroll_ui.py:731-754 | inserting an ad keeps the cursor inside the feed |
| ScrollFeed.NavigationValid | src/das/scroll_ui.py:756-776 | moving either way keeps the cursor inside the feed |
| ScrollFeed.NextCountsOrganicViews | src/das/scroll_ui.py:756-771 | an ad does not count as a view; an organic video increments the count and, at the threshold with a cached ad, an ad follows it |
| ScrollFeed.BackAfterNext | src/das/scroll_ui.py:756-776 | with two or more videos, going forward then back shows the previous video again, even if an ad was inserted |
| ScrollFeed.SnapshotsCredit | src/das/scroll_ui.py:634-646 | a run of snapshots credits exactly the time from the start to the latest snapshot, and the clock restarts there |
| ScrollFeed.SnapshotsThenCommit | src/das/scroll_ui.py:634-646 | snapshots followed by a commit credit exactly the time from start to commit and stop the clock; committing again adds nothing (the commit is `_commit_watch_time`, src/das/scroll_ui.py lines 814-840) |
| ScrollFeed.AppendedAtMostOnce | src/das/scroll_ui.py:865-890 | once a video has been added to the viewer's history, no later watch time or reaction adds it again |
| ScrollUi.RestoreKeeps | src/das/scroll_ui.py:585-606 | restoring from the stats file never changes which video a state is, whether it is an ad, or whether it reached the history |
| ScrollUi.RestoreAll | src/das/scroll_ui.py:585-606 | restoring keeps the number of states |
| ScrollUi.RestoreAllAt | src/das/scroll_ui.py:585-606 | each state is restored from the record under its own basename |
| ScrollUi.RestoreStates | src/das/scroll_ui.py:589-606 | the loop over the states applies each state's stored record in turn and yields the restored states |
| ScrollUi.VideosOutAbsent | src/das/scroll_ui.py:608-632 | the written stats hold no record for a basename that no video has |
| ScrollUi.VideosOutFinds | src/das/scroll_ui.py:608-632 | with distinct basenames, each video's record is found under its basename |
| ScrollUi.StateJsonReadBack | src/das/scroll_ui.py:608-632 | a written record gives back the watch time, heart and share that were written |
| ScrollUi.RestoreFromRecord | src/das/scroll_ui.py:585-606 | restoring from a written record sets exactly that record's watch time and reactions |
| ScrollUi.PersistThenLoad | src/das/scroll_ui.py:573-632 | reopening the same videos with the stats just written restores every video's watch time and reactions |
| ScrollUi.CollectFrom | src/das/scroll_ui.py:958-972 | a path is collected exactly when it is listed, is a file with a video extension (any case) and has a `<stem>.txt` caption beside it |
| ScrollUi.CollectVideos | src/das/scroll_ui.py:958-972 | the directory scan computes the collected list |
| ScrollUi.Open | src/das/scroll_ui.py:131-196 | opening fails with `ValueError` when there are no videos, then with the metrics load's exception when an ad-metrics entry is malformed, and also when the stats document is not an object; otherwise the window is valid, keeps the viewer, has one state per video restored from the stats file when persisting, a fresh metrics store holding the loaded table with nothing saved, starts at index 0 with the clock at `now`, no organic views and the preloaded ads as its cache, queues a generation task exactly when the cache is below its target size, and has written no stats |
| ScrollUi.ScrollWindow.constructor | src/das/scroll_ui.py:131-220 | the window starts at the first video with its clock running, persisted stats applied, cached ads preloaded and a generation task queued when the cache is short |
| ScrollUi.ScrollWindow.LoadPersistedState | src/das/scroll_ui.py:573-606 | the states become the restored states when a usable stats object exists, and are unchanged otherwise |
| ScrollUi.ScrollWindow.PersistState | src/das/scroll_ui.py:608-632 | when persisting, the stats file holds the current states; otherwise nothing is written |
| ScrollUi.ScrollWindow.LoadCurrentVideo | src/das/scroll_ui.py:807-812 | loading the current video starts its clock at now |
| ScrollUi.ScrollWindow.EnsureAdQueued | src/das/scroll_ui.py:666-690 | the window's feed changes as the queueing rule says |
| ScrollUi.ScrollWindow.CompleteAdTask | src/das/scroll_ui.py:692-702 | the running task finishes with the given outcome |
| ScrollUi.ScrollWindow.CheckAdFuture | src/das/scroll_ui.py:704-729 | the window's feed changes as the collection rule says |
| ScrollUi.ScrollWindow.MaybeInsertAd | src/das/scroll_ui.py:731-754 | the window's feed changes as the insertion rule says |
| ScrollUi.ScrollWindow.MaybeAppendCurrentVideoToUser | src/das/scroll_ui.py:865-890 | an organic video that qualifies and is not yet in the history is added to the viewer's bounded history, whose cached context is dropped; otherwise the viewer is untouched |
| ScrollUi.ScrollWindow.CommitWatchTime | src/das/scroll_ui.py:814-840 | with the clock running: positive time is credited, an ad with a product records one impression and saves the metrics, the clock stops, stats are written and the credited video is offered to the history (both deques grow, bounded, and the memo is dropped); with the clock stopped nothing changes |
| ScrollUi.ScrollWindow.CreditElapsed | src/das/scroll_ui.py:817-836 | positive elapsed time is added to the current video; for an ad with a product one impression is recorded and the performance store is saved; otherwise the store is untouched |
| ScrollUi.ScrollWindow.SnapshotTick | src/das/scroll_ui.py:634-646 | positive elapsed time is credited, the clock restarts at now and the stats are written; nothing else changes |
| ScrollUi.ScrollWindow.UpdateWatchTimeDisplay | src/das/scroll_ui.py:648-662 | with the clock running, the shown time is the stored time plus the running interval and the video is offered to the history (the viewer's deques and memo become those of the append check); no stored watch time changes; with the clock stopped nothing changes |
| ScrollUi.ScrollWindow.OnLikeClicked | src/das/scroll_ui.py:780-785 | the heart flag follows the button, the stats are written and the video is offered to the history: a qualifying video joins both bounded deques and the memoised summary is dropped, otherwise the viewer is unchanged |
| ScrollUi.ScrollWindow.OnShareClicked | src/das/scroll_ui.py:787-795 | the share flag follows the button, the stats are written and the video is offered to the history: a qualifying video joins both bounded deques and the memoised summary is dropped, otherwise the viewer is unchanged |
| ScrollUi.ScrollWindow.GoNext | src/das/scroll_ui.py:756-771 | the watch time is committed (the viewer's history, the ad metrics and the stats file become what the commit makes them), then the feed moves forward by the navigation rule and the next video's clock starts |
| ScrollUi.ScrollWindow.Advance | src/das/scroll_ui.py:757-769 | once the time is committed, the feed moves forward by the navigation rule and the new video's clock starts at now |
| ScrollUi.ScrollWindow.CountLanding | src/das/scroll_ui.py:762-769 | landing on an organic video counts one view and may place an ad after it; landing on an ad changes nothing |
| ScrollUi.ScrollWindow.GoPrev | src/das/scroll_ui.py:773-776 | the watch time is committed (the viewer's history, the ad metrics and the stats file become what the commit makes them), then the feed moves back by the navigation rule and that video's clock starts |
| ScrollUi.ScrollWindow.CloseEvent | src/das/scroll_ui.py:894-904 | closing commits the running watch time (the viewer's history and the ad metrics become what the commit makes them), stops the clock and writes the stats |
| ParseVideosPanda70m.SplitThree | scripts/parse_videos_panda70m.py:41 | a colon-separated timestamp splits into its three fields |
| ParseVideosPanda70m.HoursMinutesSeconds | scripts/parse_videos_panda70m.py:39-44 | `h:m:s` is hours×3600 + minutes×60 + seconds, and fails if any field does not parse |
| ParseVideosPanda70m.MinutesSeconds | scripts/parse_videos_panda70m.py:45-47 | `m:s` is minutes×60 + seconds, and fails if either field does not parse |
| ParseVideosPanda70m.BareSeconds | scripts/parse_videos_panda70m.py:48-49 | a timestamp without a colon is read as plain seconds |
| ParseVideosPanda70m.ManyFields | scripts/parse_videos_panda70m.py:48-49 | with four or more fields only the first is read, as seconds |
| ParseVideosPanda70m.FlattenClips | scripts/parse_videos_panda70m.py:128-153 | the metadata loop yields exactly the clip list of the flattening specification |
| ParseVideosPanda70m.ZippedClipsSpec | scripts/parse_videos_panda70m.py:145-153 | each clip comes from a two-element span at its own index, carries that index's caption, and clips are in index order; every span position among the zipped pairs gives a clip |
| ParseVideosPanda70m.ScalarTimestampNoClips | scripts/parse_videos_panda70m.py:140-141 | an example whose timestamps are not a list gives no clips |
| ParseVideosPanda70m.RejectedCaptionDropsRow | scripts/parse_videos_panda70m.py:133-138 | a caption string that cannot be evaluated drops the whole example |
| ParseVideosPanda70m.ScalarCaptionFirstSpanOnly | scripts/parse_videos_panda70m.py:142-153 | a single caption is wrapped in a list, so only the first span can become a clip |
| ParseVideosPanda70m.ClipsToTry | scripts/parse_videos_panda70m.py:161 | at most three times the target number of clips are tried, taken from the front of the list |
| ParseVideosPanda70m.ClipNameInjective | scripts/parse_videos_panda70m.py:62 | different clip indexes of one video get different file names |
| ParseVideosPanda70m.ClipPathsDistinct | scripts/parse_videos_panda70m.py:62-64 | a clip's video never overwrites a caption, and two clips of one video share a file only if they are the same clip |
| ParseVideosPanda70m.DownloadCounts | scripts/parse_videos_panda70m.py:52-116 | a call that raises changes nothing; otherwise it counts exactly one success or exactly one failure |
| ParseVideosPanda70m.DownloadFiles | scripts/parse_videos_panda70m.py:66-116 | a completed download adds the video and a caption with the clip's text; a failed one leaves no video behind |
| ParseVideosPanda70m.CaptionOnlyAfterDownload | scripts/parse_videos_panda70m.py:94-105 | a new caption file appears only if the download exited with 0 and produced the video |
| ParseVideosPanda70m.FinishedClipIsSkipped | scripts/parse_videos_panda70m.py:66-70 | once a clip has succeeded, downloading it again counts a success and changes no file |
| ParseVideosPanda70m.ClipDownloader.constructor | scripts/parse_videos_panda70m.py:33-35 | the downloader starts with zero counts over the files already present |
| ParseVideosPanda70m.ClipDownloader.DownloadClip | scripts/parse_videos_panda70m.py:52-116 | one clip download changes the counts and files as the download specification says |
| ParseVideosMsrvtt.MoveAllKeeps | scripts/parse_videos_msrvtt.py:49-59 | no existing file is overwritten, and the destination grows by exactly the number moved |
| ParseVideosMsrvtt.MoveAllKeys | scripts/parse_videos_msrvtt.py:49-59 | afterwards the destination holds the earlier files plus one file per walked `.mp4` name |
| ParseVideosMsrvtt.MoveAllSources | scripts/parse_videos_msrvtt.py:49-59 | every new file comes from a walked `.mp4` file of that name |
| ParseVideosMsrvtt.MoveMp4Files | scripts/parse_videos_msrvtt.py:49-59 | the walking loop computes the move specification |
| ParseVideosMsrvtt.GroupedGet | scripts/parse_videos_msrvtt.py:69-77 | a video id's group is its earlier captions followed by those of its rows, in order; it exists exactly when either does |
| ParseVideosMsrvtt.GroupedDistinct | scripts/parse_videos_msrvtt.py:69-77 | grouping keeps one group per video id |
| ParseVideosMsrvtt.GroupedAppend | scripts/parse_videos_msrvtt.py:69-77 | grouping two runs of rows is grouping the first run and then the second |
| ParseVideosMsrvtt.CollectCaptions | scripts/parse_videos_msrvtt.py:69-77 | the collecting loop computes the grouping specification |
| ParseVideosMsrvtt.CaptionFileInjective | scripts/parse_videos_msrvtt.py:81-84 | different video ids get different caption files |
| ParseVideosMsrvtt.WrittenSpec | scripts/parse_videos_msrvtt.py:79-87 | one caption file is written per id whose video exists, holding its captions joined by newlines; no other file changes |
| ParseVideosMsrvtt.WriteCaptionFiles | scripts/parse_videos_msrvtt.py:79-87 | the writing loop computes the writing specification |
| ParseVideosMsrvtt.CreateCaptionFiles | scripts/parse_videos_msrvtt.py:65-89 | the script groups all rows, then writes the caption files into its output directory |
| ParseVideosMsrvtt.CaptionFileOfId | scripts/parse_videos_msrvtt.py:65-89 | a listed video on disk gets a caption file holding all its captions, in dataset order |
| ParseVideosDidemo.TarFiles | scripts/parse_videos_didemo.py:39 | exactly the `.tar` archives and archive parts are kept |
| ParseVideosDidemo.TarFilesAppend | scripts/parse_videos_didemo.py:39 | filtering a listing in two pieces and concatenating is filtering the whole listing, so the listing order is kept |
| ParseVideosDidemo.TarFilesOne | scripts/parse_videos_didemo.py:39 | a single name is kept exactly when it ends in `.tar` or contains `.tar.part-` |
| ParseVideosDidemo.TrainPartPaths | scripts/parse_videos_didemo.py:54 | exactly the downloaded train parts are selected |
| ParseVideosDidemo.TestArchivePaths | scripts/parse_videos_didemo.py:55 | exactly the downloaded whole test archives are selected |
| ParseVideosDidemo.TrainTestDisjoint | scripts/parse_videos_didemo.py:54-55 | no archive is selected both as a train part and as a test archive |
| ParseVideosDidemo.WholeNonTestArchiveIgnored | scripts/parse_videos_didemo.py:39-55 | a whole `.tar` archive not named test is downloaded but selected by neither branch |
| ParseVideosDidemo.LexLeTotal | scripts/parse_videos_didemo.py:54 | any two names compare one way or the other, so they can be sorted |
| ParseVideosDidemo.Insert | scripts/parse_videos_didemo.py:54 | insertion adds one element, keeps the rest and keeps a sorted list sorted |
| ParseVideosDidemo.SortPaths | scripts/parse_videos_didemo.py:54 | the result is sorted and a permutation of the input |
| ParseVideosDidemo.TrainParts | scripts/parse_videos_didemo.py:54 | the paths of the downloaded train parts, sorted, each one as often as it was downloaded |
| ParseVideosDidemo.VideoIdOfPath | scripts/parse_videos_didemo.py:105-107 | the id read from a row's `<dir>/<id>.mp4` is `<id>`, also when the id itself contains dots |
| ParseVideosDidemo.TrainThenTest | scripts/parse_videos_didemo.py:93-116 | an id has a group exactly when either split mentions it, holding its train captions and then its test captions |
| ParseVideosDidemo.CaptionsForAbsent | scripts/parse_videos_didemo.py:108-116 | an id that no row mentions collects no captions |
| ParseVideosDidemo.FailedSplitSkipped | scripts/parse_videos_didemo.py:100-116 | a split that fails to load leaves the groups as the other split alone makes them |
| ParseVideosDidemo.CreateDidemoCaptionFiles | scripts/parse_videos_didemo.py:93-128 | the script groups the train split then the test split, then writes the caption files into its output directory |
| ParseVideosPreprocess.Kept | scripts/preprocess/parse_videos.py:86-95 | only examples whose video is on disk are kept, and none is invented |
| ParseVideosPreprocess.KeptAppend | scripts/preprocess/parse_videos.py:86-95 | the filter respects concatenation, so dataset order is kept |
| ParseVideosPreprocess.KeptOne | scripts/preprocess/parse_videos.py:94 | one example is kept exactly when its video is on disk |
| ParseVideosPreprocess.CsvRows | scripts/preprocess/parse_videos.py:70-97 | the table has the header first and then one three-cell row per kept example: row i holds kept example i-1's id, `<id>.mp4` and its caption, and that video exists |
| ParseVideosPreprocess.CreateCaptionsCsv | scripts/preprocess/parse_videos.py:70-97 | the writing loop computes the table specification |

## Left out

- The Qt window is not modelled: widgets, the media player, painting, key handling and the star field. Each timer tick and each handler is a method call, and the clock is a `now` parameter.
- Background threads are not modelled. The ad-generation worker is a task with three states (none, pending, done); its outcome is supplied by `CompleteAdTask`.
- `_generate_ad_for_current_user` calls into `ad_generation.py`, which is not part of this model. The ad it produces, or its failure, is a parameter.
- `build_user_from_stats`, `collect_cached_ads` and the product linked to an ad video are given to the window as a viewer, a list of cached ads and a function.
- `MIN_SECONDS_FOR_CONTEXT` is a parameter (`minSeconds`).
- Random shuffles are not modelled: the collected video list and the Panda-70M clip list are kept in listing order.
- `_share_on_x`, `_print_summary`, `metrics_for_debug`, `_select_directory` and `run_scroll_ui`'s message boxes are not modelled; they are output only.
- JSON encoding and decoding, `ast.literal_eval`, CSV quoting and Python's `str()` are outside the model. A decoded document is a `Json` value, `literal_eval` and `str()` are parameters, and the table is a list of rows of cells.
- Python tuples and lists are one `Json` list.
- The language model that summarises the viewer's context is a parameter.
- The language model and image captioning that produce a product context when no stored file exists are outside the model.
- `int()` and `float()` on strings accept an optional sign and plain decimal digits with at most one point. Surrounding whitespace, underscores, exponents, `inf` and `nan` are not modelled.
- Lower-casing of file extensions covers ASCII letters only.
- Paths are plain strings. There is no normalisation of `.`, `..` or repeated separators.
- `VideoState` and the viewer's history share one reaction object in the source; the model stores reaction values. So the aliasing of a later like or share into an already recorded history entry is not captured.
- ProductMetadata.EntryMeta: a truthy non-string `id`, `name` or `cta_text` is rendered with the `str()` parameter. Its exact text is not modelled.
- Writes of the stats file and of the product caption files are assumed to succeed. The ad metrics file write is a `writeOk` parameter of `Save`.
- AdGenerationDataclasses.VideoContext: its own contract says when the read succeeds and what the failure names; that the value is the caption file's text stripped of blanks at both ends is stated by the lemma `VideoContextStripped`.
- AdPerformance.LoadMetrics: a metrics file whose bytes are not valid UTF-8 makes `read_text` raise `UnicodeDecodeError`, which `load` does not catch. A `JsonFile` is missing, unreadable or parsed, so that input is not modelled (the same holds for `AdPerformance.LoadStore`).
- ProductMetadata.LoadProductMetadata: a catalogue file that is not valid UTF-8 raises `UnicodeDecodeError` out of `load_product_metadata`; it is not modelled, for the same reason (the same holds for `ProductMetadata.CatalogueEntries`).
- ScrollUi.Open: a stats or metrics file that is not valid UTF-8 makes the window's construction raise; that way of failing is not modelled, for the same reason (the same holds for `ScrollUi.ScrollWindow.LoadPersistedState`).
- ProductMetadata.ProductDescription: a description file that is not valid UTF-8 raises `UnicodeDecodeError`, which `except OSError` does not catch. The readable files are a map from path to text, so that case is not modelled.
- AdGenerationDataclasses.VideoContext: `Video.context` is a `cached_property`, so the first successful read is kept for the video's lifetime even if the caption file later changes or disappears. The model reads `files` on every call. A caption file that is not valid UTF-8 is not modelled either.
- ScrollUi.ScrollWindow.CreditElapsed: the window's impressions always save with a successful write, so a metrics write that fails with an `OSError` inside the window is not modelled.
- AdPerformance.EntryPath: Python keys the loaded table by the `product_path` value itself, so a number `5` and the text `"5"` are different keys there. The table here is keyed by strings and files a non-string value under its `str()` text, so those two would collide.
- Dataset downloads, zip and tar extraction, the byte concatenation of the split archive and temporary-directory removal are I/O and are not modelled. The model stops at the list of parts in the order they are concatenated.
- The Panda-70M worker pool, its early stop at the target number of successes and its random delays are not modelled. `ClipDownloader.DownloadClip` models one clip; the order in which clips finish is not captured.
- `yt-dlp` itself is not modelled. Each download's exit code (or exception) and whether the video file appeared are a parameter.
- ParseVideosMsrvtt.WrittenSpec: a caption list with a non-string element makes `"\n".join` raise. The model takes every caption as text.
- ParseVideosPreprocess.CsvRows: a list caption is written by the CSV writer as its Python text. The model takes the caption cell as given text.
- An exception raised while iterating a DiDeMo split, after it loaded, is not modelled; only a split that fails to load is skipped.
- `src/das/utils.py`, `src/das/ad_generation.py` and `launch.py` are not part of this model.
