/**
 * The scroll window: the feed of video states with its cursor, watch-time
 * clock, ready-ad cache and ad-generation task, the viewer it keeps informed,
 * the ad metrics it records into, and the per-video stats file it writes and
 * reads back. Widgets, the media player and timers are not modelled: each
 * timer tick or key press is a method call, and `now` is the monotonic clock
 * read by that call.
 */
module ScrollUi {
  import opened Wrappers
  import opened Text
  import opened Paths
  import opened PyDict
  import opened Json
  import opened AdGenerationDataclasses
  import Perf = AdPerformance
  import opened ScrollFeed

  // ---- the stats file ---------------------------------------------------------

  /** One video's record in the stats file. */
  function StateJson(s: VideoState): Json {
    JObj([("path", JStr(s.video.path)),
          ("seconds_watched", JNum(s.secondsWatched)),
          ("heart", JBool(s.reaction.heart)),
          ("share", JBool(s.reaction.share))])
  }

  /** The `videos` object: records keyed by basename, added in feed order, a later video replacing an earlier one. */
  function VideosOut(acc: Dict<Json>, states: seq<VideoState>): Dict<Json>
    decreases |states|
  {
    if |states| == 0 then acc
    else VideosOut(Put(acc, Basename(states[0].video.path), StateJson(states[0])), states[1..])
  }

  /** The document `_persist_state` writes. */
  function StatsJson(states: seq<VideoState>): Json {
    JObj([("version", JInt(1)), ("videos", JObj(VideosOut([], states)))])
  }

  /** `isinstance(x, (int, float))`: bools are ints in Python. */
  function AsSeconds(j: Json): Option<real> {
    match j
    case JInt(i) => Some(i as real)
    case JNum(r) => Some(r)
    case JBool(b) => Some(if b then 1.0 else 0.0)
    case _ => None
  }

  /**
   * A video state with its stored record applied: a number replaces the
   * watch time, a bool replaces each reaction flag; a missing or non-object
   * record and wrongly typed fields leave the state as it was.
   */
  function Restore(s: VideoState, videos: Dict<Json>): VideoState {
    var record := Get(videos, Basename(s.video.path));
    if record.None? || !record.value.JObj? then s
    else
      var e := record.value.fields;
      var seconds := Get(e, "seconds_watched");
      var heart := Get(e, "heart");
      var share := Get(e, "share");
      s.(secondsWatched := if seconds.Some? && AsSeconds(seconds.value).Some? then AsSeconds(seconds.value).value
                           else s.secondsWatched,
         reaction := UserReaction(
           if heart.Some? && heart.value.JBool? then heart.value.b else s.reaction.heart,
           if share.Some? && share.value.JBool? then share.value.b else s.reaction.share))
  }

  /** Restoring touches only the watch time and the reaction. */
  lemma RestoreKeeps(s: VideoState, videos: Dict<Json>)
    ensures Restore(s, videos).video == s.video
    ensures Restore(s, videos).isAd == s.isAd
    ensures Restore(s, videos).contextAppended == s.contextAppended
  {
  }

  /**
   * The `videos` object of a stats document that `_load_persisted_state`
   * applies: None when there is nothing to apply. A document that is not an
   * object makes the load raise, which `StatsCrash` tells apart.
   */
  function StatsVideos(persisting: bool, file: JsonFile): Option<Dict<Json>> {
    if persisting && file.Parsed? && file.doc.JObj? then
      var videos := Get(file.doc.fields, "videos");
      if videos.Some? && videos.value.JObj? then Some(videos.value.fields) else None
    else None
  }

  /** `payload.get(...)` on a decoded document that is not an object raises `AttributeError`. */
  predicate StatsCrash(persisting: bool, file: JsonFile) {
    persisting && file.Parsed? && !file.doc.JObj?
  }

  /** Every state of a feed with the stored records applied. */
  function RestoreAll(states: seq<VideoState>, videos: Dict<Json>): (r: seq<VideoState>)
    ensures |r| == |states|
    decreases |states|
  {
    if |states| == 0 then []
    else RestoreAll(states[..|states| - 1], videos) + [Restore(states[|states| - 1], videos)]
  }

  lemma {:induction false} RestoreAllAt(states: seq<VideoState>, videos: Dict<Json>, i: int)
    requires 0 <= i < |states|
    ensures RestoreAll(states, videos)[i] == Restore(states[i], videos)
    decreases |states|
  {
    if i < |states| - 1 {
      RestoreAllAt(states[..|states| - 1], videos, i);
    }
  }

  /** The loop of `_load_persisted_state`: each state in turn gets its stored record applied. */
  method RestoreStates(states: seq<VideoState>, videos: Dict<Json>) returns (r: seq<VideoState>)
    ensures r == RestoreAll(states, videos)
  {
    r := [];
    var i := 0;
    while i < |states|
      invariant 0 <= i <= |states|
      invariant r == RestoreAll(states[..i], videos)
    {
      RestoreAllSnoc(states, videos, i);
      r := r + [Restore(states[i], videos)];
      i := i + 1;
    }
    assert states[..i] == states;
  }

  lemma RestoreAllSnoc(states: seq<VideoState>, videos: Dict<Json>, i: int)
    requires 0 <= i < |states|
    ensures RestoreAll(states[..i + 1], videos) == RestoreAll(states[..i], videos) + [Restore(states[i], videos)]
  {
    var prefix := states[..i + 1];
    assert prefix[..|prefix| - 1] == states[..i] && prefix[|prefix| - 1] == states[i];
  }

  /** The feed after `_load_persisted_state`. */
  function Loaded(states: seq<VideoState>, videos: Option<Dict<Json>>): seq<VideoState> {
    if videos.None? then states else RestoreAll(states, videos.value)
  }

  predicate DistinctBasenames(states: seq<VideoState>) {
    forall i, j :: 0 <= i < j < |states| ==> Basename(states[i].video.path) != Basename(states[j].video.path)
  }

  /** A basename none of the states has is looked up in the `videos` object as in the starting one. */
  lemma {:induction false} VideosOutAbsent(acc: Dict<Json>, states: seq<VideoState>, key: string)
    requires forall i :: 0 <= i < |states| ==> Basename(states[i].video.path) != key
    ensures Get(VideosOut(acc, states), key) == Get(acc, key)
    decreases |states|
  {
    if |states| > 0 {
      GetPut(acc, Basename(states[0].video.path), StateJson(states[0]), key);
      VideosOutAbsent(Put(acc, Basename(states[0].video.path), StateJson(states[0])), states[1..], key);
    }
  }

  /** With distinct basenames, each video's basename finds that video's record. */
  lemma {:induction false} VideosOutFinds(acc: Dict<Json>, states: seq<VideoState>, i: int)
    requires DistinctBasenames(states) && 0 <= i < |states|
    ensures Get(VideosOut(acc, states), Basename(states[i].video.path)) == Some(StateJson(states[i]))
    decreases |states|
  {
    var k := Basename(states[0].video.path);
    var acc' := Put(acc, k, StateJson(states[0]));
    if i == 0 {
      VideosOutAbsent(acc', states[1..], k);
      GetPut(acc, k, StateJson(states[0]), k);
    } else {
      assert states[1..][i - 1] == states[i];
      VideosOutFinds(acc', states[1..], i - 1);
    }
  }

  /** The three fields the load reads back from a record the persist wrote. */
  lemma StateJsonReadBack(s: VideoState)
    ensures Get(StateJson(s).fields, "seconds_watched") == Some(JNum(s.secondsWatched))
    ensures Get(StateJson(s).fields, "heart") == Some(JBool(s.reaction.heart))
    ensures Get(StateJson(s).fields, "share") == Some(JBool(s.reaction.share))
  {
    var f := StateJson(s).fields;
    assert "heart"[0] != "share"[0];
    assert DistinctKeys(f);
    GetAt(f, 1);
    GetAt(f, 2);
    GetAt(f, 3);
  }

  /** A state restored from the record written for another state takes that state's watch time and reaction. */
  lemma RestoreFromRecord(t: VideoState, videos: Dict<Json>, s: VideoState)
    requires Get(videos, Basename(t.video.path)) == Some(StateJson(s))
    ensures Restore(t, videos) == t.(secondsWatched := s.secondsWatched, reaction := s.reaction)
  {
    StateJsonReadBack(s);
  }

  /**
   * Persisting a feed and loading the file into a new session's feed of the
   * same videos restores every watch time and reaction, provided the video
   * basenames are distinct.
   */
  lemma PersistThenLoad(states: seq<VideoState>, reopened: seq<VideoState>)
    requires DistinctBasenames(states)
    requires |reopened| == |states| && forall i :: 0 <= i < |states| ==> reopened[i].video == states[i].video
    ensures StatsVideos(true, Parsed(StatsJson(states))).Some?
    ensures var r := Loaded(reopened, StatsVideos(true, Parsed(StatsJson(states))));
      forall i :: 0 <= i < |states| ==>
        r[i] == reopened[i].(secondsWatched := states[i].secondsWatched, reaction := states[i].reaction)
  {
    var out := VideosOut([], states);
    var doc := StatsJson(states);
    assert Get(doc.fields, "videos") == Some(JObj(out));
    assert StatsVideos(true, Parsed(doc)) == Some(out);
    forall i | 0 <= i < |states|
      ensures Loaded(reopened, Some(out))[i]
           == reopened[i].(secondsWatched := states[i].secondsWatched, reaction := states[i].reaction)
    {
      RestoreAllAt(reopened, out, i);
      VideosOutFinds([], states, i);
      RestoreFromRecord(reopened[i], out, states[i]);
    }
  }

  // ---- collecting videos ---------------------------------------------------------

  /** The video file extensions the window plays. */
  const VIDEO_EXTENSIONS: set<string> := {".mp4", ".mov", ".m4v", ".avi", ".mkv"}

  /**
   * `_collect_videos` keeps a directory entry whose lower-cased suffix is a
   * video extension, which is a regular file, and which has `<stem>.txt` beside it.
   */
  predicate Collectable(p: string, files: set<string>, existing: set<string>) {
    && Lower(Suffix(Basename(p))) in VIDEO_EXTENSIONS
    && p in files
    && JoinPath(Parent(p), Stem(p) + ".txt") in existing
  }

  function CollectFrom(listing: seq<string>, files: set<string>, existing: set<string>): (r: seq<string>)
    ensures forall p :: p in r <==> p in listing && Collectable(p, files, existing)
    ensures |r| <= |listing|
    decreases |listing|
  {
    if |listing| == 0 then []
    else
      var rest := CollectFrom(listing[1..], files, existing);
      if Collectable(listing[0], files, existing) then [listing[0]] + rest else rest
  }

  /**
   * `_collect_videos` over the directory `listing`: `files` are the entries
   * that are regular files, `existing` every existing path.
   */
  method CollectVideos(listing: seq<string>, files: set<string>, existing: set<string>) returns (paths: seq<string>)
    ensures paths == CollectFrom(listing, files, existing)
  {
    paths := [];
    var i := |listing|;
    while i > 0
      invariant 0 <= i <= |listing|
      invariant paths == CollectFrom(listing[i..], files, existing)
    {
      i := i - 1;
      assert listing[i..][1..] == listing[i + 1..];
      if Collectable(listing[i], files, existing) {
        paths := [listing[i]] + paths;
      }
    }
  }

  // ---- the window -----------------------------------------------------------------

  /** The viewer's watched videos, their reactions and the memoised summary. */
  type ViewerHistory = (seq<Video>, seq<UserReaction>, Option<string>)

  /** The ad metrics table and the last metrics document written. */
  type StoreContents = (Dict<Perf.AdPerformance>, Option<Json>)

  /**
   * `ScrollWindow`. `persisting` says whether a stats path was given,
   * `minSeconds` stands for `MIN_SECONDS_FOR_CONTEXT`, and `productOf` for
   * the product image linked to an ad video. Writes to the stats and metrics
   * files are taken to succeed.
   */
  class ScrollWindow {
    var videoStates: seq<VideoState>
    var currentIndex: int
    var startedAt: Option<real>
    var adCache: seq<Video>
    var organicViews: int
    var adTask: AdTask
    var stats: Option<Json>
    const persisting: bool
    const minSeconds: real
    const productOf: Video -> Option<string>
    const user: User
    const adStore: Perf.AdPerformanceStore

    function Feed(): Feed
      reads this
    {
      ScrollFeed.Feed(videoStates, currentIndex, adCache, organicViews, adTask)
    }

    ghost predicate Valid()
      reads this, user, adStore
    {
      FeedValid(Feed()) && user.Valid() && adStore.Valid()
    }

    function Current(): VideoState
      reads this
      requires 0 <= currentIndex < |videoStates|
    {
      videoStates[currentIndex]
    }

    /** The viewer's history as a value: watched videos, their reactions, the memoised summary. */
    function History(): ViewerHistory
      reads user
    {
      (user.videosWatched, user.videosWatchedReaction, user.cachedContext)
    }

    /** The ad metrics as a value: the table and the last document written. */
    function Metrics(): StoreContents
      reads adStore
    {
      (adStore.metrics, adStore.saved)
    }

    /**
     * The history after the append check on `s`: a qualifying organic video
     * not yet appended joins both bounded deques and the memo is dropped.
     */
    function Offered(h: ViewerHistory, s: VideoState): ViewerHistory {
      if AppendsToUser(s, minSeconds)
      then (BoundedAppend(h.0, s.video, USER_VIDEO_MEMORY_LIMIT),
            BoundedAppend(h.1, s.reaction, USER_VIDEO_MEMORY_LIMIT), None)
      else h
    }

    /**
     * The metrics after `elapsed` seconds were credited to `credited`: a
     * positive time on an ad with a linked product is one impression, and
     * the store is saved; anything else leaves the store as it was.
     */
    function Recorded(m: StoreContents, credited: VideoState, elapsed: real): StoreContents {
      if elapsed > 0.0 && credited.isAd && productOf(credited.video).Some?
      then
        var t := Perf.Record(m.0, productOf(credited.video).value, elapsed,
                             credited.reaction.heart, credited.reaction.share);
        (t, Some(Perf.MetricsJson(t)))
      else m
    }

    /** The history after `_commit_watch_time` with video `s` current and the clock at `started`. */
    function HistoryAfterCommit(h: ViewerHistory, s: VideoState, started: Option<real>, now: real): ViewerHistory {
      if started.None? then h else Offered(h, Credit(s, now - started.value))
    }

    /** The metrics after `_commit_watch_time` with video `s` current and the clock at `started`. */
    function MetricsAfterCommit(m: StoreContents, s: VideoState, started: Option<real>, now: real): StoreContents {
      if started.None? then m else Recorded(m, Credit(s, now - started.value), now - started.value)
    }

    /** The stats file after `_commit_watch_time`: written, with the time credited, when the clock ran. */
    function StatsAfterCommit(
      stats: Option<Json>, states: seq<VideoState>, index: int, started: Option<real>, now: real): Option<Json>
      requires 0 <= index < |states|
    {
      if started.Some? && persisting
      then Some(StatsJson(states[index := Credit(states[index], now - started.value)]))
      else stats
    }

    /**
     * `__init__` once the video list is known to be non-empty and the stats
     * file to be loadable: the stored stats are applied, the first video
     * starts playing at `now`, and a first ad is queued.
     */
    constructor (
      videos: seq<string>, persisting: bool, statsFile: JsonFile, user: User, adStore: Perf.AdPerformanceStore,
      cachedAds: seq<Video>, productOf: Video -> Option<string>, minSeconds: real, now: real)
      requires |videos| >= 1 && !StatsCrash(persisting, statsFile)
      requires user.Valid() && adStore.Valid()
      ensures Valid()
      ensures this.user == user && this.adStore == adStore
      ensures this.persisting == persisting && this.minSeconds == minSeconds && this.productOf == productOf
      ensures videoStates == Loaded(
        seq(|videos|, i requires 0 <= i < |videos| => NewState(Video(videos[i]), false)),
        StatsVideos(persisting, statsFile))
      ensures currentIndex == 0 && startedAt == Some(now) && organicViews == 0
      ensures adCache == cachedAds
      ensures adTask == (if |cachedAds| < TARGET_CACHE_SIZE then Pending else NoTask)
      ensures stats == None
      ensures unchanged(user) && unchanged(adStore)
    {
      videoStates := seq(|videos|, i requires 0 <= i < |videos| => NewState(Video(videos[i]), false));
      currentIndex := 0;
      startedAt := None;
      this.persisting := persisting;
      this.user := user;
      adCache := cachedAds;
      organicViews := 0;
      this.adStore := adStore;
      adTask := NoTask;
      stats := None;
      this.minSeconds := minSeconds;
      this.productOf := productOf;
      new;
      LoadPersistedState(statsFile);
      LoadCurrentVideo(now);
      EnsureAdQueued();
    }

    /** `_load_persisted_state`, record by record. */
    method LoadPersistedState(file: JsonFile)
      requires !StatsCrash(persisting, file)
      modifies this`videoStates
      ensures videoStates == Loaded(old(videoStates), StatsVideos(persisting, file))
    {
      var videos := StatsVideos(persisting, file);
      if videos.None? {
        return;
      }
      videoStates := RestoreStates(videoStates, videos.value);
    }

    /** `_persist_state`: nothing without a stats path. */
    method PersistState()
      modifies this`stats
      ensures stats == if persisting then Some(StatsJson(videoStates)) else old(stats)
    {
      if !persisting {
        return;
      }
      var out: Dict<Json> := [];
      var i := 0;
      while i < |videoStates|
        invariant 0 <= i <= |videoStates|
        invariant VideosOut(out, videoStates[i..]) == VideosOut([], videoStates)
      {
        assert videoStates[i..][1..] == videoStates[i + 1..];
        out := Put(out, Basename(videoStates[i].video.path), StateJson(videoStates[i]));
        i := i + 1;
      }
      assert videoStates[i..] == [];
      stats := Some(JObj([("version", JInt(1)), ("videos", JObj(out))]));
    }

    /** `_load_current_video`: the clock starts for the current video. */
    method LoadCurrentVideo(now: real)
      modifies this`startedAt
      ensures startedAt == Some(now)
    {
      startedAt := Some(now);
    }

    /** `_ensure_ad_queued`. */
    method EnsureAdQueued()
      modifies this`adTask
      ensures Feed() == EnsureQueued(old(Feed()))
    {
      if |adCache| >= TARGET_CACHE_SIZE {
        return;
      }
      if adTask.Pending? {
        return;
      }
      adTask := Pending;
    }

    /** The background worker finishing with an ad or an exception. */
    method CompleteAdTask(outcome: Option<Video>)
      requires adTask.Pending?
      modifies this`adTask
      ensures Feed() == Complete(old(Feed()), outcome)
    {
      adTask := Done(outcome);
    }

    /** `_check_ad_future`. */
    method CheckAdFuture()
      modifies this`adTask, this`adCache
      ensures Feed() == CheckAdTask(old(Feed()))
    {
      if !adTask.Done? {
        return;
      }
      var outcome := adTask.result;
      adTask := NoTask;
      if outcome.None? {
        return;
      }
      adCache := adCache + [outcome.value];
      EnsureAdQueued();
    }

    /** `_maybe_insert_ad_after_current`. */
    method MaybeInsertAd()
      requires FeedValid(Feed())
      modifies this`videoStates, this`adCache, this`organicViews, this`adTask
      ensures Feed() == InsertAd(old(Feed()))
    {
      if organicViews < ADS_EVERY {
        return;
      }
      if |adCache| == 0 {
        return;
      }
      var ad := adCache[0];
      adCache := adCache[1..];
      var at := if currentIndex + 1 <= |videoStates| then currentIndex + 1 else |videoStates|;
      videoStates := InsertAt(videoStates, at, NewState(ad, true));
      organicViews := 0;
      EnsureAdQueued();
    }

    /**
     * `_maybe_append_current_video_to_user`: an organic video not yet in the
     * viewer's history joins it once it qualifies, and is marked.
     */
    method MaybeAppendCurrentVideoToUser()
      requires Valid()
      modifies this`videoStates, user
      ensures Valid()
      ensures videoStates == old(videoStates)[currentIndex := Marked(old(Current()), minSeconds)]
      ensures AppendsToUser(old(Current()), minSeconds) ==>
        && user.videosWatched == BoundedAppend(old(user.videosWatched), old(Current()).video, USER_VIDEO_MEMORY_LIMIT)
        && user.videosWatchedReaction
           == BoundedAppend(old(user.videosWatchedReaction), old(Current()).reaction, USER_VIDEO_MEMORY_LIMIT)
        && user.cachedContext == None
      ensures !AppendsToUser(old(Current()), minSeconds) ==> unchanged(user)
      ensures History() == Offered(old(History()), old(Current()))
    {
      var state := videoStates[currentIndex];
      if state.isAd {
        return;
      }
      if state.contextAppended {
        return;
      }
      if state.secondsWatched >= minSeconds || state.reaction.heart || state.reaction.share {
        user.AppendVideo(state.video, state.reaction);
        videoStates := videoStates[currentIndex := state.(contextAppended := true)];
      }
    }

    /**
     * `_commit_watch_time`: with the clock running, a positive elapsed time is
     * credited to the current video and, for an ad with a linked product,
     * recorded as one impression; the clock stops, the stats are written and
     * the video is offered to the viewer's history.
     */
    method CommitWatchTime(now: real)
      requires Valid()
      modifies this`videoStates, this`startedAt, this`stats, user, adStore
      ensures Valid()
      ensures videoStates == Committed(old(videoStates), currentIndex, old(startedAt), now)
      ensures startedAt == None
      ensures stats == StatsAfterCommit(old(stats), old(videoStates), currentIndex, old(startedAt), now)
      ensures History() == HistoryAfterCommit(old(History()), old(Current()), old(startedAt), now)
      ensures Metrics() == MetricsAfterCommit(old(Metrics()), old(Current()), old(startedAt), now)
    {
      if startedAt.None? {
        return;
      }
      ghost var elapsed := now - startedAt.value;
      ghost var credited := Credit(Current(), elapsed);
      ghost var history := History();
      CreditElapsed(now);
      assert videoStates == old(videoStates)[currentIndex := credited];
      assert History() == history;
      startedAt := None;
      PersistState();
      MaybeAppendCurrentVideoToUser();
    }

    /**
     * The first half of `_commit_watch_time`: a positive elapsed time is added
     * to the current video and, for an ad with a linked product, recorded as
     * one impression with its reactions.
     */
    method CreditElapsed(now: real)
      requires Valid() && startedAt.Some?
      modifies this`videoStates, adStore
      ensures Valid()
      ensures videoStates == old(videoStates)[currentIndex := Credit(old(Current()), now - startedAt.value)]
      ensures Metrics() == Recorded(old(Metrics()), Credit(old(Current()), now - startedAt.value), now - startedAt.value)
    {
      var elapsed := now - startedAt.value;
      if elapsed <= 0.0 {
        assert videoStates[currentIndex := Current()] == videoStates;
        return;
      }
      var state := videoStates[currentIndex];
      state := state.(secondsWatched := state.secondsWatched + elapsed);
      videoStates := videoStates[currentIndex := state];
      var product := productOf(state.video);
      if state.isAd && product.Some? {
        adStore.RecordImpression(product.value, elapsed, state.reaction.heart, state.reaction.share, true, true);
      }
    }

    /** `_snapshot_tick`: a positive elapsed time is credited, the clock restarts at now, the stats are written. */
    method SnapshotTick(now: real)
      requires Valid()
      modifies this`videoStates, this`startedAt, this`stats
      ensures Valid()
      ensures var c := SnapshotClock(old(Current()).secondsWatched, old(startedAt), now);
        && videoStates == old(videoStates)[currentIndex := old(Current()).(secondsWatched := c.0)]
        && startedAt == c.1
      ensures stats == if old(startedAt).Some? && now - old(startedAt).value > 0.0 && persisting
                       then Some(StatsJson(videoStates)) else old(stats)
    {
      if startedAt.None? {
        return;
      }
      var elapsed := now - startedAt.value;
      if elapsed <= 0.0 {
        return;
      }
      videoStates := videoStates[currentIndex := Current().(secondsWatched := Current().secondsWatched + elapsed)];
      startedAt := Some(now);
      PersistState();
    }

    /**
     * `_update_watch_time_display`: the live total shown for the current
     * video (none while the clock is stopped). No watch time is committed;
     * the video may be offered to the viewer's history.
     */
    method UpdateWatchTimeDisplay(now: real) returns (shown: Option<real>)
      requires Valid()
      modifies this`videoStates, user
      ensures Valid()
      ensures shown == if old(startedAt).None? then None
                       else Some(old(Current()).secondsWatched + (now - old(startedAt).value))
      ensures old(startedAt).None? ==> videoStates == old(videoStates)
      ensures History() == if old(startedAt).None? then old(History()) else Offered(old(History()), old(Current()))
      ensures old(startedAt).Some? ==>
        videoStates == old(videoStates)[currentIndex := Marked(old(Current()), minSeconds)]
      ensures forall i :: 0 <= i < |videoStates| ==> videoStates[i].secondsWatched == old(videoStates)[i].secondsWatched
    {
      if startedAt.None? {
        return None;
      }
      shown := Some(Current().secondsWatched + (now - startedAt.value));
      MaybeAppendCurrentVideoToUser();
    }

    /** `_on_like_clicked`: the heart flag follows the button; stats are written; the video is offered to the history. */
    method OnLikeClicked(checked: bool)
      requires Valid()
      modifies this`videoStates, this`stats, user
      ensures Valid()
      ensures var liked := old(Current()).(reaction := old(Current()).reaction.(heart := checked));
        && videoStates == old(videoStates)[currentIndex := Marked(liked, minSeconds)]
        && stats == (if persisting then Some(StatsJson(old(videoStates)[currentIndex := liked])) else old(stats))
        && History() == Offered(old(History()), liked)
    {
      var state := Current();
      videoStates := videoStates[currentIndex := state.(reaction := state.reaction.(heart := checked))];
      PersistState();
      MaybeAppendCurrentVideoToUser();
    }

    /** `_on_share_clicked` (opening the share page is not modelled). */
    method OnShareClicked(checked: bool)
      requires Valid()
      modifies this`videoStates, this`stats, user
      ensures Valid()
      ensures var shared := old(Current()).(reaction := old(Current()).reaction.(share := checked));
        && videoStates == old(videoStates)[currentIndex := Marked(shared, minSeconds)]
        && stats == (if persisting then Some(StatsJson(old(videoStates)[currentIndex := shared])) else old(stats))
        && History() == Offered(old(History()), shared)
    {
      var state := Current();
      videoStates := videoStates[currentIndex := state.(reaction := state.reaction.(share := checked))];
      PersistState();
      MaybeAppendCurrentVideoToUser();
    }

    /**
     * `_go_next`: the watch time is committed (see `CommitWatchTime`), then the
     * feed moves forward by `Next` and the new video's clock starts at now.
     */
    method GoNext(now: real)
      requires Valid()
      modifies this`videoStates, this`currentIndex, this`startedAt, this`stats, this`adCache, this`organicViews, this`adTask, user, adStore
      ensures Valid()
      ensures Feed() == Next(old(Feed()).(states := Committed(old(videoStates), old(currentIndex), old(startedAt), now)))
      ensures startedAt == Some(now)
      ensures History() == HistoryAfterCommit(old(History()), old(Current()), old(startedAt), now)
      ensures Metrics() == MetricsAfterCommit(old(Metrics()), old(Current()), old(startedAt), now)
      ensures stats == StatsAfterCommit(old(stats), old(videoStates), old(currentIndex), old(startedAt), now)
    {
      CommitWatchTime(now);
      ghost var committed := Feed();
      assert committed == old(Feed()).(states := Committed(old(videoStates), old(currentIndex), old(startedAt), now));
      Advance(now);
      NavigationValid(committed);
    }

    /** The part of `_go_next` after the commit: move the cursor, start the clock, count the landing. */
    method Advance(now: real)
      requires FeedValid(Feed())
      modifies this`videoStates, this`currentIndex, this`startedAt, this`adCache, this`organicViews, this`adTask
      ensures Feed() == Next(old(Feed()))
      ensures startedAt == Some(now)
    {
      currentIndex := NextIndex(currentIndex, |videoStates|);
      LoadCurrentVideo(now);
      CountLanding();
    }

    /**
     * The end of `_go_next`, once the cursor has moved: landing on an organic
     * video counts one view and may place an ad after it; an ad does not count.
     */
    method CountLanding()
      requires FeedValid(Feed())
      modifies this`videoStates, this`adCache, this`organicViews, this`adTask
      ensures FeedValid(Feed())
      ensures Feed() == if old(Current()).isAd then old(Feed())
                        else InsertAd(old(Feed()).(organic := old(organicViews) + 1))
    {
      if !videoStates[currentIndex].isAd {
        organicViews := organicViews + 1;
        MaybeInsertAd();
        InsertAdValid(old(Feed()).(organic := old(organicViews) + 1));
      }
    }

    /** `_go_prev`: the watch time is committed, the cursor moves back (wrapping), the clock restarts. */
    method GoPrev(now: real)
      requires Valid()
      modifies this`videoStates, this`currentIndex, this`startedAt, this`stats, user, adStore
      ensures Valid()
      ensures Feed() == Prev(old(Feed()).(states := Committed(old(videoStates), old(currentIndex), old(startedAt), now)))
      ensures startedAt == Some(now)
      ensures History() == HistoryAfterCommit(old(History()), old(Current()), old(startedAt), now)
      ensures Metrics() == MetricsAfterCommit(old(Metrics()), old(Current()), old(startedAt), now)
      ensures stats == StatsAfterCommit(old(stats), old(videoStates), old(currentIndex), old(startedAt), now)
    {
      CommitWatchTime(now);
      currentIndex := PrevIndex(currentIndex, |videoStates|);
      LoadCurrentVideo(now);
    }

    /** The feed entries after a commit at `now`, as `CommitWatchTime` leaves them. */
    function Committed(states: seq<VideoState>, index: int, started: Option<real>, now: real): seq<VideoState>
      requires 0 <= index < |states|
    {
      if started.None? then states
      else states[index := Marked(Credit(states[index], now - started.value), minSeconds)]
    }

    /** `closeEvent`: commit the watch time and write the stats once more. */
    method CloseEvent(now: real)
      requires Valid()
      modifies this`videoStates, this`startedAt, this`stats, user, adStore
      ensures Valid()
      ensures videoStates == Committed(old(videoStates), currentIndex, old(startedAt), now)
      ensures startedAt == None
      ensures stats == if persisting then Some(StatsJson(videoStates)) else old(stats)
      ensures History() == HistoryAfterCommit(old(History()), old(Current()), old(startedAt), now)
      ensures Metrics() == MetricsAfterCommit(old(Metrics()), old(Current()), old(startedAt), now)
    {
      CommitWatchTime(now);
      ghost var feed := Feed();
      PersistState();
      assert Feed() == feed;
    }
  }

  /**
   * `ScrollWindow(...)`: no window without videos (`ValueError`); then the ad
   * metrics are loaded, and a malformed entry there raises; then a stats file
   * whose document is not an object makes the stats load raise.
   */
  method Open(
    videos: seq<string>, persisting: bool, statsFile: JsonFile, user: User,
    metricsFile: JsonFile, str: Json -> string,
    cachedAds: seq<Video>, productOf: Video -> Option<string>, minSeconds: real, now: real)
    returns (r: Result<ScrollWindow, string>)
    requires user.Valid()
    ensures r.Failure? <==>
      |videos| == 0 || Perf.Loaded(metricsFile, str).Failure? || StatsCrash(persisting, statsFile)
    ensures |videos| == 0 ==> r == Failure("ValueError")
    ensures |videos| > 0 && Perf.Loaded(metricsFile, str).Failure? ==>
      r == Failure(Perf.Loaded(metricsFile, str).error)
    ensures r.Success? ==>
      && fresh(r.value) && fresh(r.value.adStore) && r.value.Valid()
      && r.value.user == user && |r.value.videoStates| == |videos|
      && r.value.adStore.metrics == Perf.Loaded(metricsFile, str).value && r.value.adStore.saved == None
      && r.value.persisting == persisting && r.value.minSeconds == minSeconds && r.value.productOf == productOf
      && r.value.videoStates == Loaded(
           seq(|videos|, i requires 0 <= i < |videos| => NewState(Video(videos[i]), false)),
           StatsVideos(persisting, statsFile))
      && r.value.currentIndex == 0 && r.value.startedAt == Some(now) && r.value.organicViews == 0
      && r.value.adCache == cachedAds
      && r.value.adTask == (if |cachedAds| < TARGET_CACHE_SIZE then Pending else NoTask)
      && r.value.stats == None
  {
    if |videos| == 0 {
      return Failure("ValueError");
    }
    var store := Perf.LoadStore(metricsFile, str);
    if store.Failure? {
      return Failure(store.error);
    }
    if StatsCrash(persisting, statsFile) {
      return Failure("AttributeError");
    }
    var w := new ScrollWindow(videos, persisting, statsFile, user, store.value, cachedAds, productOf, minSeconds, now);
    return Success(w);
  }
}
