/**
 * The scroll feed as values: the list of video states, the cursor, the
 * ready-ad queue, the organic-view counter and the ad-generation task, with
 * the navigation, ad-insertion and ad-queueing rules of the scroll window;
 * and the watch-time clock.
 */
module ScrollFeed {
  import opened Wrappers
  import opened AdGenerationDataclasses

  /** What the window keeps about each video in the feed. */
  datatype VideoState = VideoState(
    video: Video,
    secondsWatched: real,
    reaction: UserReaction,
    isAd: bool,
    contextAppended: bool)

  /** A video as it first enters the feed: unwatched, no reaction, not yet in the viewer's history. */
  function NewState(v: Video, isAd: bool): VideoState {
    VideoState(v, 0.0, UserReaction(false, false), isAd, false)
  }

  /**
   * The background ad-generation task: none submitted (or its result already
   * collected), still running, or finished with an ad video or an exception.
   */
  datatype AdTask = NoTask | Pending | Done(result: Option<Video>)

  datatype Feed = Feed(
    states: seq<VideoState>,
    index: int,
    cache: seq<Video>,
    organic: int,
    task: AdTask)

  predicate FeedValid(f: Feed) {
    1 <= |f.states| && 0 <= f.index < |f.states| && f.organic >= 0
  }

  /** An ad is inserted after this many organic views. */
  const ADS_EVERY: nat := 5

  /** No new ad is generated while this many are ready. */
  const TARGET_CACHE_SIZE: nat := 5

  // ---- cursor ---------------------------------------------------------------

  function NextIndex(i: int, n: int): (j: int)
    requires 0 <= i < n
    ensures 0 <= j < n
    ensures j == if i == n - 1 then 0 else i + 1
  {
    (i + 1) % n
  }

  /** `(i - 1) % n` with Python's non-negative remainder. */
  function PrevIndex(i: int, n: int): (j: int)
    requires 0 <= i < n
    ensures 0 <= j < n
    ensures j == if i == 0 then n - 1 else i - 1
  {
    (i - 1) % n
  }

  /** Moving forward and then back returns to the same position, and so does back then forward. */
  lemma PrevUndoesNext(i: int, n: int)
    requires 0 <= i < n
    ensures PrevIndex(NextIndex(i, n), n) == i
    ensures NextIndex(PrevIndex(i, n), n) == i
  {
  }

  // ---- ad generation queue -----------------------------------------------

  /**
   * `_ensure_ad_queued`: a new task is submitted when fewer than
   * `TARGET_CACHE_SIZE` ads are ready and no task is running. A finished
   * task whose result was not yet collected is replaced.
   */
  function EnsureQueued(f: Feed): Feed {
    if |f.cache| >= TARGET_CACHE_SIZE then f
    else if f.task.Pending? then f
    else f.(task := Pending)
  }

  /**
   * A task is submitted exactly when the cache is below target and no task is
   * running; afterwards a task is running whenever the cache is below target.
   * Nothing but the task changes.
   */
  lemma EnsureQueuedSpec(f: Feed)
    ensures EnsureQueued(f).task != f.task <==> |f.cache| < TARGET_CACHE_SIZE && !f.task.Pending?
    ensures |f.cache| < TARGET_CACHE_SIZE ==> EnsureQueued(f).task == Pending
    ensures EnsureQueued(f) == f.(task := EnsureQueued(f).task)
  {
  }

  /**
   * Queueing over a finished, uncollected task discards its ad: the ad never
   * reaches the cache and the task is running again.
   */
  lemma EnsureQueuedDropsUncollectedAd(f: Feed, ad: Video)
    requires f.task == Done(Some(ad)) && |f.cache| < TARGET_CACHE_SIZE
    ensures EnsureQueued(f).task == Pending
    ensures EnsureQueued(f).cache == f.cache
  {
  }

  /** The worker finishing: a running task becomes a finished one. */
  function Complete(f: Feed, outcome: Option<Video>): Feed
    requires f.task.Pending?
  {
    f.(task := Done(outcome))
  }

  /**
   * `_check_ad_future`: a finished task is collected. A produced ad joins the
   * back of the cache and the next task is queued; a failure is dropped.
   */
  function CheckAdTask(f: Feed): Feed {
    match f.task
    case NoTask => f
    case Pending => f
    case Done(None) => f.(task := NoTask)
    case Done(Some(ad)) => EnsureQueued(f.(task := NoTask, cache := f.cache + [ad]))
  }

  /**
   * Collecting a task leaves no finished task behind; a produced ad is
   * appended at the back of the cache, a failure leaves the cache as it was;
   * the feed itself is untouched.
   */
  lemma CheckAdTaskSpec(f: Feed)
    ensures var g := CheckAdTask(f);
      && g.states == f.states && g.index == f.index && g.organic == f.organic
      && !g.task.Done?
      && (f.task.Done? && f.task.result.Some? ==> g.cache == f.cache + [f.task.result.value])
      && (!(f.task.Done? && f.task.result.Some?) ==> g.cache == f.cache)
      && (f.task.Done? && f.task.result.None? ==> g.task == NoTask)
  {
  }

  // ---- ad insertion -------------------------------------------------------

  function InsertAt<T>(s: seq<T>, i: nat, x: T): (r: seq<T>)
    requires i <= |s|
    ensures |r| == |s| + 1 && r[i] == x
    ensures r[..i] == s[..i] && r[i + 1..] == s[i..]
  {
    s[..i] + [x] + s[i..]
  }

  /**
   * `_maybe_insert_ad_after_current`: after `ADS_EVERY` organic views and
   * with an ad ready, the oldest ready ad is placed right after the current
   * video, the counter restarts and generation is topped up.
   */
  function InsertAd(f: Feed): Feed
    requires FeedValid(f)
  {
    if f.organic < ADS_EVERY || |f.cache| == 0 then f
    else
      var at := if f.index + 1 <= |f.states| then f.index + 1 else |f.states|;
      var g := f.(states := InsertAt(f.states, at, NewState(f.cache[0], true)),
                  cache := f.cache[1..],
                  organic := 0);
      EnsureQueued(g)
  }

  /** Below the threshold, or with no ad ready, nothing changes. */
  lemma InsertAdWaits(f: Feed)
    requires FeedValid(f)
    requires f.organic < ADS_EVERY || |f.cache| == 0
    ensures InsertAd(f) == f
  {
  }

  /**
   * At the threshold with an ad ready: the front of the cache becomes an ad
   * entry right after the current video, the feed grows by one, the counter
   * is reset, the cursor and every entry up to it stay, the entries after it
   * move one place down, and the task is topped up.
   */
  lemma InsertAdPlacesAd(f: Feed)
    requires FeedValid(f)
    requires f.organic >= ADS_EVERY && |f.cache| > 0
    ensures var g := InsertAd(f);
      && |g.states| == |f.states| + 1
      && g.states[f.index + 1] == NewState(f.cache[0], true)
      && g.states[..f.index + 1] == f.states[..f.index + 1]
      && g.states[f.index + 2..] == f.states[f.index + 1..]
      && g.cache == f.cache[1..]
      && g.organic == 0
      && g.index == f.index
      && g.task == EnsureQueued(f.(cache := f.cache[1..])).task
  {
  }

  lemma InsertAdValid(f: Feed)
    requires FeedValid(f)
    ensures FeedValid(InsertAd(f))
  {
  }

  // ---- navigation -----------------------------------------------------------

  /**
   * `_go_next` after the watch time is committed: the cursor moves forward
   * (wrapping), an organic landing counts one view and may trigger an ad.
   */
  function Next(f: Feed): Feed
    requires FeedValid(f)
  {
    var j := NextIndex(f.index, |f.states|);
    if f.states[j].isAd then f.(index := j) else InsertAd(f.(index := j, organic := f.organic + 1))
  }

  /** `_go_prev` after the watch time is committed. */
  function Prev(f: Feed): Feed
    requires FeedValid(f)
  {
    f.(index := PrevIndex(f.index, |f.states|))
  }

  lemma NavigationValid(f: Feed)
    requires FeedValid(f)
    ensures FeedValid(Next(f)) && FeedValid(Prev(f))
  {
    var j := NextIndex(f.index, |f.states|);
    if !f.states[j].isAd {
      InsertAdValid(f.(index := j, organic := f.organic + 1));
    }
  }

  /**
   * Moving forward lands on the next video (wrapping). Landing on an ad does
   * not count; landing on an organic video counts one view, and when that
   * reaches the threshold with an ad ready, the ad is inserted after it and
   * the count restarts.
   */
  lemma NextCountsOrganicViews(f: Feed)
    requires FeedValid(f)
    ensures var g := Next(f);
      var j := NextIndex(f.index, |f.states|);
      && g.index == j
      && g.states[j] == f.states[j]
      && (f.states[j].isAd ==> g == f.(index := j))
      && (!f.states[j].isAd && (f.organic + 1 < ADS_EVERY || |f.cache| == 0) ==>
            g == f.(index := j, organic := f.organic + 1))
      && (!f.states[j].isAd && f.organic + 1 >= ADS_EVERY && |f.cache| > 0 ==>
            g.organic == 0 && |g.states| == |f.states| + 1 && g.states[j + 1] == NewState(f.cache[0], true))
  {
    var h := f.(index := NextIndex(f.index, |f.states|), organic := f.organic + 1);
    if !f.states[NextIndex(f.index, |f.states|)].isAd && f.organic + 1 >= ADS_EVERY && |f.cache| > 0 {
      InsertAdPlacesAd(h);
    }
  }

  /**
   * With at least two entries, going forward and then back shows the video
   * that was current before, even when an ad was inserted in between.
   */
  lemma BackAfterNext(f: Feed)
    requires FeedValid(f) && |f.states| >= 2
    ensures FeedValid(Next(f))
    ensures var g := Prev(Next(f)); g.states[g.index] == f.states[f.index]
  {
    NavigationValid(f);
    var n := |f.states|;
    var j := NextIndex(f.index, n);
    var h := f.(index := j, organic := f.organic + 1);
    if !f.states[j].isAd && f.organic + 1 >= ADS_EVERY && |f.cache| > 0 {
      InsertAdPlacesAd(h);
      InsertedNeighbour(f.states, Next(f).states, j);
    }
  }

  /** After inserting one entry behind position j, the entry before j (cyclically) is where it was. */
  lemma InsertedNeighbour(s: seq<VideoState>, t: seq<VideoState>, j: nat)
    requires j < |s| && |t| == |s| + 1
    requires t[..j + 1] == s[..j + 1] && t[j + 2..] == s[j + 1..]
    ensures j > 0 ==> t[j - 1] == s[j - 1]
    ensures j == 0 && |s| >= 2 ==> t[|s|] == s[|s| - 1]
  {
    if j > 0 {
      assert t[j - 1] == t[..j + 1][j - 1];
    } else if |s| >= 2 {
      assert t[|s|] == t[2..][|s| - 2];
    }
  }

  // ---- the watch-time clock ---------------------------------------------------

  /** Adds a positive elapsed time to a video's seconds; anything else is ignored. */
  function Credit(s: VideoState, elapsed: real): VideoState {
    if elapsed > 0.0 then s.(secondsWatched := s.secondsWatched + elapsed) else s
  }

  /**
   * `_snapshot_tick` on the current video's seconds and the start timestamp:
   * a positive elapsed time is credited and the start moves to now.
   */
  function SnapshotClock(seconds: real, started: Option<real>, now: real): (real, Option<real>) {
    if started.None? || now - started.value <= 0.0 then (seconds, started)
    else (seconds + (now - started.value), Some(now))
  }

  /** `_commit_watch_time` on the clock: credit a positive elapsed time and stop the clock. */
  function CommitClock(seconds: real, started: Option<real>, now: real): (real, Option<real>) {
    if started.None? then (seconds, None)
    else if now - started.value > 0.0 then (seconds + (now - started.value), None)
    else (seconds, None)
  }

  /** A sequence of snapshots, the latest last. */
  function Snapshots(seconds: real, started: Option<real>, times: seq<real>): (real, Option<real>)
    decreases |times|
  {
    if |times| == 0 then (seconds, started)
    else
      var c := Snapshots(seconds, started, times[..|times| - 1]);
      SnapshotClock(c.0, c.1, times[|times| - 1])
  }

  predicate NonDecreasing(times: seq<real>) {
    forall i, j :: 0 <= i < j < |times| ==> times[i] <= times[j]
  }

  /**
   * With a non-decreasing clock, the snapshots so far have credited exactly
   * the time from the start to the latest snapshot, and the clock restarts there.
   */
  lemma {:induction false} SnapshotsCredit(seconds: real, start: real, times: seq<real>)
    requires NonDecreasing(times)
    requires forall i :: 0 <= i < |times| ==> start <= times[i]
    ensures var last := if |times| == 0 then start else times[|times| - 1];
      Snapshots(seconds, Some(start), times) == (seconds + (last - start), Some(last))
    decreases |times|
  {
    if |times| > 0 {
      SnapshotsCredit(seconds, start, times[..|times| - 1]);
    }
  }

  /**
   * Snapshots followed by a commit credit exactly the time from the start to
   * the commit, no more and no less, and leave the clock stopped; committing
   * again adds nothing.
   */
  lemma SnapshotsThenCommit(seconds: real, start: real, times: seq<real>, now: real)
    requires NonDecreasing(times)
    requires forall i :: 0 <= i < |times| ==> start <= times[i] <= now
    requires start <= now
    ensures var c := Snapshots(seconds, Some(start), times);
      var d := CommitClock(c.0, c.1, now);
      && d == (seconds + (now - start), None)
      && CommitClock(d.0, d.1, now) == d
  {
    SnapshotsCredit(seconds, start, times);
  }

  // ---- the viewer's history -------------------------------------------------

  /** A video counts for the viewer's profile once watched long enough, liked or shared. */
  predicate Qualifies(s: VideoState, minSeconds: real) {
    s.secondsWatched >= minSeconds || s.reaction.heart || s.reaction.share
  }

  /** `_maybe_append_current_video_to_user` appends exactly the organic, not yet appended, qualifying videos. */
  predicate AppendsToUser(s: VideoState, minSeconds: real) {
    !s.isAd && !s.contextAppended && Qualifies(s, minSeconds)
  }

  /** The state after the append check: marked as appended when it was appended. */
  function Marked(s: VideoState, minSeconds: real): VideoState {
    if AppendsToUser(s, minSeconds) then s.(contextAppended := true) else s
  }

  /**
   * A video is appended at most once: once the check has run, no later
   * check on it appends again, whatever its watch time or reaction become.
   */
  lemma AppendedAtMostOnce(s: VideoState, minSeconds: real, seconds: real, reaction: UserReaction, m': real)
    requires AppendsToUser(s, minSeconds)
    ensures Marked(s, minSeconds).contextAppended
    ensures !AppendsToUser(Marked(s, minSeconds).(secondsWatched := seconds, reaction := reaction), m')
  {
  }
}
