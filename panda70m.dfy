/**
 * The Panda-70M download script: the timestamp parser, the flattening of
 * dataset rows into clips, the clip selection and the bookkeeping of one clip
 * download (file names, the skip of a finished clip, the caption write and the
 * clean-up of a failed attempt).
 */
module ParseVideosPanda70m {
  import opened Wrappers
  import opened Text
  import opened Paths
  import opened Json

  const OUTPUT_DIR := "assets/videos/panda70m"
  const TARGET_VIDEOS := 1000

  // ---- parse_timestamp -----------------------------------------------------

  /**
   * `parse_timestamp`: "h:m:s", "m:s", or a bare number of seconds. None
   * stands for the ValueError `int()` or `float()` raises on a field that is
   * not a numeral.
   */
  function ParseTimestamp(ts: string): Option<real> {
    FromFields(Split(ts, ':'))
  }

  /** The seconds the colon-separated fields of a timestamp denote. */
  function FromFields(parts: seq<string>): Option<real>
    requires |parts| >= 1
  {
    if |parts| == 3 then
      var h, m, s := ParseInt(parts[0]), ParseInt(parts[1]), ParseFloat(parts[2]);
      if h.Some? && m.Some? && s.Some? then Some(h.value as real * 3600.0 + m.value as real * 60.0 + s.value) else None
    else if |parts| == 2 then
      var m, s := ParseInt(parts[0]), ParseFloat(parts[1]);
      if m.Some? && s.Some? then Some(m.value as real * 60.0 + s.value) else None
    else ParseFloat(parts[0])
  }

  lemma SplitThree(h: string, m: string, s: string)
    requires ':' !in h && ':' !in m && ':' !in s
    ensures Split(h + ":" + m + ":" + s, ':') == [h, m, s]
  {
    assert Join([h, m, s], [':']) == h + ":" + m + ":" + s by {
      assert [h, m, s][1..] == [m, s];
      assert [m, s][1..] == [s];
      assert Join([m, s], [':']) == m + [':'] + s;
      assert Join([h, m, s], [':']) == h + [':'] + (m + [':'] + s);
    }
    SplitJoin([h, m, s], ':');
  }

  /** Three colon-free fields read as hours, minutes and seconds. */
  lemma HoursMinutesSeconds(h: string, m: string, s: string)
    requires ':' !in h && ':' !in m && ':' !in s
    ensures ParseTimestamp(h + ":" + m + ":" + s)
         == if ParseInt(h).Some? && ParseInt(m).Some? && ParseFloat(s).Some?
            then Some(ParseInt(h).value as real * 3600.0 + ParseInt(m).value as real * 60.0 + ParseFloat(s).value)
            else None
  {
    SplitThree(h, m, s);
    assert ParseTimestamp(h + ":" + m + ":" + s) == FromFields([h, m, s]);
    ThreeFields(h, m, s);
  }

  lemma ThreeFields(h: string, m: string, s: string)
    ensures FromFields([h, m, s])
         == if ParseInt(h).Some? && ParseInt(m).Some? && ParseFloat(s).Some?
            then Some(ParseInt(h).value as real * 3600.0 + ParseInt(m).value as real * 60.0 + ParseFloat(s).value)
            else None
  {
    var parts := [h, m, s];
    assert |parts| == 3 && parts[0] == h && parts[1] == m && parts[2] == s;
  }

  /** Two colon-free fields read as minutes and seconds. */
  lemma MinutesSeconds(m: string, s: string)
    requires ':' !in m && ':' !in s
    ensures ParseTimestamp(m + ":" + s)
         == if ParseInt(m).Some? && ParseFloat(s).Some?
            then Some(ParseInt(m).value as real * 60.0 + ParseFloat(s).value)
            else None
  {
    assert Join([m, s], [':']) == m + ":" + s by {
      assert [m, s][1..] == [s];
    }
    SplitJoin([m, s], ':');
    assert Split(m + ":" + s, ':') == [m, s];
  }

  /** A string without a colon is read as a number of seconds. */
  lemma BareSeconds(s: string)
    requires ':' !in s
    ensures ParseTimestamp(s) == ParseFloat(s)
  {
  }

  /** Four or more fields: only the first is read, as seconds. */
  lemma ManyFields(fields: seq<string>)
    requires |fields| >= 4
    requires forall f :: f in fields ==> ':' !in f
    ensures ParseTimestamp(Join(fields, [':'])) == ParseFloat(fields[0])
  {
    SplitJoin(fields, ':');
  }

  /**
   * A timestamp value taken from a clip: a string is parsed; any other
   * value has no `split` and raises (None).
   */
  function TimestampSeconds(v: Json): (r: Option<real>)
    ensures !v.JStr? ==> r == None
    ensures v.JStr? ==> r == ParseTimestamp(v.s)
  {
    if v.JStr? then ParseTimestamp(v.s) else None
  }

  // ---- flattening rows into clips ------------------------------------------

  /** One dataset row: its video id and its raw `timestamp` and `caption` values. */
  datatype Example = Example(videoId: string, timestamp: Json, caption: Json)

  datatype Clip = Clip(videoId: string, clipIdx: nat, start: Json, end: Json, caption: Json)

  /**
   * The timestamp and caption values after `ast.literal_eval` (the parameter
   * `literalEval`, None when it raises) of those that are strings: both are
   * evaluated, or both stay raw when either evaluation raises.
   */
  function Evaluated(ex: Example, literalEval: string -> Option<Json>): (Json, Json) {
    var ts := if ex.timestamp.JStr? then literalEval(ex.timestamp.s) else Some(ex.timestamp);
    var caps := if ex.caption.JStr? then literalEval(ex.caption.s) else Some(ex.caption);
    if ts.Some? && caps.Some? then (ts.value, caps.value) else (ex.timestamp, ex.caption)
  }

  /** A value that is not a list stands for the one-element list holding it. */
  function AsList(v: Json): (items: seq<Json>)
    ensures |items| >= 1 || v.JList?
  {
    if v.JList? then v.items else [v]
  }

  /** A timestamp entry that makes a clip: a list of exactly two values. */
  predicate IsSpan(v: Json) {
    v.JList? && |v.items| == 2
  }

  function Min(a: nat, b: nat): nat {
    if a <= b then a else b
  }

  /** The clips of the first `n` zipped positions, in order. */
  function ZippedClips(videoId: string, ts: seq<Json>, caps: seq<Json>, n: nat): seq<Clip>
    requires n <= |ts| && n <= |caps|
    decreases n
  {
    if n == 0 then []
    else
      var k := n - 1;
      ZippedClips(videoId, ts, caps, k)
        + if IsSpan(ts[k]) then [Clip(videoId, k, ts[k].items[0], ts[k].items[1], caps[k])] else []
  }

  /** The clips one row yields. */
  function ExampleClips(ex: Example, literalEval: string -> Option<Json>): seq<Clip> {
    var (t, c) := Evaluated(ex, literalEval);
    var ts, caps := AsList(t), AsList(c);
    ZippedClips(ex.videoId, ts, caps, Min(|ts|, |caps|))
  }

  /** `all_clips`: the clips of every row, row by row. */
  function AllClips(examples: seq<Example>, literalEval: string -> Option<Json>): seq<Clip>
    decreases |examples|
  {
    if |examples| == 0 then []
    else AllClips(examples[..|examples| - 1], literalEval) + ExampleClips(examples[|examples| - 1], literalEval)
  }

  /** The flattening loop of `main`. */
  method FlattenClips(examples: seq<Example>, literalEval: string -> Option<Json>) returns (clips: seq<Clip>)
    ensures clips == AllClips(examples, literalEval)
  {
    clips := [];
    var i := 0;
    while i < |examples|
      invariant 0 <= i <= |examples|
      invariant clips == AllClips(examples[..i], literalEval)
    {
      var ex := examples[i];
      var (t, c) := Evaluated(ex, literalEval);
      var ts, caps := AsList(t), AsList(c);
      var n := Min(|ts|, |caps|);
      ghost var before := clips;
      var k := 0;
      while k < n
        invariant 0 <= k <= n
        invariant clips == before + ZippedClips(ex.videoId, ts, caps, k)
      {
        if IsSpan(ts[k]) {
          clips := clips + [Clip(ex.videoId, k, ts[k].items[0], ts[k].items[1], caps[k])];
        }
        k := k + 1;
      }
      assert examples[..i + 1][..i] == examples[..i];
      i := i + 1;
    }
    assert examples[..i] == examples;
  }

  /**
   * The zipped clips are exactly the span positions below `n`, in increasing
   * position order; each clip carries its position, the two values of its
   * timestamp entry and the caption at the same position.
   */
  lemma {:induction false} ZippedClipsSpec(videoId: string, ts: seq<Json>, caps: seq<Json>, n: nat)
    requires n <= |ts| && n <= |caps|
    ensures var r := ZippedClips(videoId, ts, caps, n);
      && (forall j :: 0 <= j < |r| ==>
            && r[j].videoId == videoId
            && r[j].clipIdx < n
            && ts[r[j].clipIdx] == JList([r[j].start, r[j].end])
            && caps[r[j].clipIdx] == r[j].caption)
      && (forall j, j' :: 0 <= j < j' < |r| ==> r[j].clipIdx < r[j'].clipIdx)
      && (forall k :: 0 <= k < n ==> (IsSpan(ts[k]) <==> exists j :: 0 <= j < |r| && r[j].clipIdx == k))
    decreases n
  {
    if n > 0 {
      var k := n - 1;
      ZippedClipsSpec(videoId, ts, caps, k);
      var r := ZippedClips(videoId, ts, caps, n);
      var prev := ZippedClips(videoId, ts, caps, k);
      assert forall j :: 0 <= j < |prev| ==> r[j] == prev[j];
      if IsSpan(ts[k]) {
        assert ts[k] == JList([ts[k].items[0], ts[k].items[1]]);
        assert r[|prev|].clipIdx == k;
      }
    }
  }

  /** A row whose timestamp value is not a list (after evaluation) yields no clip. */
  lemma ScalarTimestampNoClips(ex: Example, literalEval: string -> Option<Json>)
    requires !Evaluated(ex, literalEval).0.JList?
    ensures ExampleClips(ex, literalEval) == []
  {
    var (t, c) := Evaluated(ex, literalEval);
    assert !IsSpan(AsList(t)[0]);
  }

  /**
   * A caption string that `literal_eval` rejects sends the timestamp back to
   * its raw string too, so the whole row yields no clip.
   */
  lemma RejectedCaptionDropsRow(ex: Example, literalEval: string -> Option<Json>)
    requires ex.timestamp.JStr? && ex.caption.JStr? && literalEval(ex.caption.s).None?
    ensures ExampleClips(ex, literalEval) == []
  {
    ScalarTimestampNoClips(ex, literalEval);
  }

  /**
   * A caption that is a single value is zipped with the first timestamp
   * entry only: the row yields at most the clip at position 0.
   */
  lemma ScalarCaptionFirstSpanOnly(ex: Example, literalEval: string -> Option<Json>)
    requires Evaluated(ex, literalEval).0.JList? && !Evaluated(ex, literalEval).1.JList?
    ensures var (t, c) := Evaluated(ex, literalEval);
      ExampleClips(ex, literalEval)
        == if |t.items| > 0 && IsSpan(t.items[0])
           then [Clip(ex.videoId, 0, t.items[0].items[0], t.items[0].items[1], c)]
           else []
  {
  }

  /** `clips_to_try`: the first `TARGET_VIDEOS * 3` clips of the (shuffled) list. */
  function ClipsToTry(allClips: seq<Clip>): (r: seq<Clip>)
    ensures |r| <= TARGET_VIDEOS * 3
    ensures r <= allClips
    ensures |allClips| <= TARGET_VIDEOS * 3 ==> r == allClips
    ensures |allClips| >= TARGET_VIDEOS * 3 ==> |r| == TARGET_VIDEOS * 3
  {
    if |allClips| <= TARGET_VIDEOS * 3 then allClips else allClips[..TARGET_VIDEOS * 3]
  }

  // ---- download_clip -------------------------------------------------------

  /** `f"{video_id}_{clip_idx}"`. */
  function ClipName(videoId: string, clipIdx: nat): string {
    videoId + "_" + NatToString(clipIdx)
  }

  function VideoPath(c: Clip): string {
    JoinPath(OUTPUT_DIR, ClipName(c.videoId, c.clipIdx) + ".mp4")
  }

  function CaptionPath(c: Clip): string {
    JoinPath(OUTPUT_DIR, ClipName(c.videoId, c.clipIdx) + ".txt")
  }

  /** The clips of one video get distinct names. */
  lemma ClipNameInjective(videoId: string, a: nat, b: nat)
    requires ClipName(videoId, a) == ClipName(videoId, b)
    ensures a == b
  {
    var p := videoId + "_";
    assert ClipName(videoId, a)[|p|..] == NatToString(a);
    assert ClipName(videoId, b)[|p|..] == NatToString(b);
    NatToStringInjective(a, b);
  }

  /** Clips of one video never share a file, and a clip's video and caption differ. */
  lemma ClipPathsDistinct(c: Clip, d: Clip)
    requires c.videoId == d.videoId
    ensures VideoPath(c) != CaptionPath(d)
    ensures VideoPath(c) == VideoPath(d) ==> c.clipIdx == d.clipIdx
    ensures CaptionPath(c) == CaptionPath(d) ==> c.clipIdx == d.clipIdx
  {
    var n, m := ClipName(c.videoId, c.clipIdx), ClipName(d.videoId, d.clipIdx);
    var pre := OUTPUT_DIR + "/";
    assert VideoPath(c) == pre + n + ".mp4";
    assert CaptionPath(d) == pre + m + ".txt";
    if VideoPath(c) == VideoPath(d) {
      assert (pre + n + ".mp4")[|pre|..|pre| + |n|] == n;
      assert (pre + m + ".mp4")[|pre|..|pre| + |m|] == m;
      ClipNameInjective(c.videoId, c.clipIdx, d.clipIdx);
    }
    if CaptionPath(c) == CaptionPath(d) {
      assert (pre + n + ".txt")[|pre|..|pre| + |n|] == n;
      assert (pre + m + ".txt")[|pre|..|pre| + |m|] == m;
      ClipNameInjective(c.videoId, c.clipIdx, d.clipIdx);
    }
  }

  /**
   * What `yt-dlp` did: its exit code (None when it timed out or could not be
   * started) and whether the clip's video file exists afterwards.
   */
  datatype RunOutcome = RunOutcome(exitCode: Option<int>, videoPresent: bool)

  /**
   * The script's shared state: the two counters, the existing files and the
   * text of the caption files this run wrote.
   */
  datatype Downloads = Downloads(successCount: nat, failCount: nat, files: set<string>, captions: map<string, string>)

  /**
   * One call of `download_clip`: the new state and its value (None when
   * a timestamp does not parse and the call raises before anything happens).
   */
  function Download(st: Downloads, c: Clip, run: RunOutcome): (Downloads, Option<bool>) {
    var video, caption := VideoPath(c), CaptionPath(c);
    if TimestampSeconds(c.start).None? || TimestampSeconds(c.end).None? then (st, None)
    else if video in st.files && caption in st.files then
      (st.(successCount := st.successCount + 1), Some(true))
    else
      var files := if run.videoPresent then st.files + {video} else st.files - {video};
      if run.exitCode == Some(0) && run.videoPresent && c.caption.JStr? then
        (st.(successCount := st.successCount + 1, files := files + {caption},
             captions := st.captions[caption := c.caption.s]), Some(true))
      else
        // a caption that is not a string makes `f.write` raise after `open`
        // has created the file empty
        var wroteEmpty := run.exitCode == Some(0) && run.videoPresent;
        var files' := if wroteEmpty then files + {caption} else files;
        var captions' := if wroteEmpty then st.captions[caption := ""] else st.captions;
        (st.(failCount := st.failCount + 1, files := files' - {video}, captions := captions'), Some(false))
  }

  /** Each call that does not raise counts exactly one success or one failure. */
  lemma DownloadCounts(st: Downloads, c: Clip, run: RunOutcome)
    ensures var (st', r) := Download(st, c, run);
      && (r == None ==> st' == st)
      && (r == Some(true) ==> st'.successCount == st.successCount + 1 && st'.failCount == st.failCount)
      && (r == Some(false) ==> st'.failCount == st.failCount + 1 && st'.successCount == st.successCount)
  {
  }

  /**
   * A success leaves the clip's video and caption both on disk, and a new
   * success wrote the clip's caption text; a failure leaves no video; either
   * way no other file appears or disappears.
   */
  lemma DownloadFiles(st: Downloads, c: Clip, run: RunOutcome)
    ensures var (st', r) := Download(st, c, run);
      && (r == Some(true) ==> VideoPath(c) in st'.files && CaptionPath(c) in st'.files)
      && (r == Some(true) && !(VideoPath(c) in st.files && CaptionPath(c) in st.files) ==>
            c.caption.JStr? && CaptionPath(c) in st'.captions && st'.captions[CaptionPath(c)] == c.caption.s)
      && (r == Some(false) ==> VideoPath(c) !in st'.files)
      && (forall p :: p != VideoPath(c) && p != CaptionPath(c) ==> (p in st'.files <==> p in st.files))
      && (forall p :: p != CaptionPath(c) && p in st.captions ==> p in st'.captions && st'.captions[p] == st.captions[p])
  {
    ClipPathsDistinct(c, c);
  }

  /** A caption is written only after a zero exit code with the video present. */
  lemma CaptionOnlyAfterDownload(st: Downloads, c: Clip, run: RunOutcome)
    requires CaptionPath(c) !in st.files
    requires CaptionPath(c) in Download(st, c, run).0.files
    ensures run.exitCode == Some(0) && run.videoPresent
  {
  }

  /** Once a clip succeeded, trying it again redoes nothing and succeeds, whatever yt-dlp would do. */
  lemma FinishedClipIsSkipped(st: Downloads, c: Clip, run: RunOutcome, again: RunOutcome)
    requires Download(st, c, run).1 == Some(true)
    ensures var st1 := Download(st, c, run).0;
      Download(st1, c, again) == (st1.(successCount := st1.successCount + 1), Some(true))
  {
    DownloadFiles(st, c, run);
  }

  /** The script's global counters and output directory. */
  class ClipDownloader {
    var successCount: nat
    var failCount: nat
    var files: set<string>
    var captions: map<string, string>

    function State(): Downloads
      reads this
    {
      Downloads(successCount, failCount, files, captions)
    }

    constructor(existing: set<string>)
      ensures State() == Downloads(0, 0, existing, map[])
    {
      successCount, failCount := 0, 0;
      files, captions := existing, map[];
    }

    /** `download_clip`. */
    method DownloadClip(c: Clip, run: RunOutcome) returns (r: Option<bool>)
      modifies this
      ensures (State(), r) == Download(old(State()), c, run)
    {
      var start := TimestampSeconds(c.start);
      var end := TimestampSeconds(c.end);
      if start.None? || end.None? {
        return None;
      }
      var video, caption := VideoPath(c), CaptionPath(c);
      if video in files && caption in files {
        successCount := successCount + 1;
        return Some(true);
      }
      files := if run.videoPresent then files + {video} else files - {video};
      if run.exitCode == Some(0) && run.videoPresent {
        files := files + {caption};
        if c.caption.JStr? {
          captions := captions[caption := c.caption.s];
          successCount := successCount + 1;
          return Some(true);
        }
        captions := captions[caption := ""];
      }
      files := files - {video};
      failCount := failCount + 1;
      r := Some(false);
    }
  }
}
