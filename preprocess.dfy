/**
 * The preprocessing script: a captions table with a header row and one row
 * per dataset example whose video is on disk, in dataset order. Its move
 * loop is the one `ParseVideosMsrvtt.MoveMp4Files` models, with the
 * directory `TARGET_VIDEO_DIR`.
 */
module ParseVideosPreprocess {
  import opened Paths
  import opened ParseVideosMsrvtt

  const TARGET_VIDEO_DIR := "assets/videos"
  const HEADER: seq<string> := ["video_id", "filename", "caption"]

  /** `f"{video_id}.mp4"`. */
  function FileName(videoId: string): string {
    videoId + ".mp4"
  }

  predicate HasVideo(videoId: string, files: set<string>) {
    JoinPath(TARGET_VIDEO_DIR, FileName(videoId)) in files
  }

  /** The examples (video id, caption cell) whose video is on disk, in order. */
  function Kept(examples: seq<(string, string)>, files: set<string>): (r: seq<(string, string)>)
    ensures |r| <= |examples|
    ensures forall e :: e in r ==> e in examples && HasVideo(e.0, files)
    decreases |examples|
  {
    if |examples| == 0 then []
    else (if HasVideo(examples[0].0, files) then [examples[0]] else []) + Kept(examples[1..], files)
  }

  /** The filter keeps one entry per kept example and respects concatenation, hence order. */
  lemma {:induction false} KeptAppend(a: seq<(string, string)>, b: seq<(string, string)>, files: set<string>)
    ensures Kept(a + b, files) == Kept(a, files) + Kept(b, files)
    decreases |a|
  {
    if |a| == 0 {
      assert a + b == b;
    } else {
      assert (a + b)[0] == a[0];
      assert (a + b)[1..] == a[1..] + b;
      KeptAppend(a[1..], b, files);
    }
  }

  /** One example is kept exactly when its video is on disk. */
  lemma KeptOne(e: (string, string), files: set<string>)
    ensures Kept([e], files) == if HasVideo(e.0, files) then [e] else []
  {
    assert [e][1..] == [];
  }

  /** The row written for a kept example. */
  function Row(e: (string, string)): seq<string> {
    [e.0, FileName(e.0), e.1]
  }

  /** The rows of the table, header first. */
  function CsvRows(examples: seq<(string, string)>, files: set<string>): (rows: seq<seq<string>>)
    ensures |rows| == 1 + |Kept(examples, files)|
    ensures rows[0] == HEADER
    ensures forall i :: 1 <= i < |rows| ==>
      |rows[i]| == 3 && rows[i][1] == rows[i][0] + ".mp4" && HasVideo(rows[i][0], files)
    ensures forall i :: 1 <= i < |rows| ==>
      rows[i][0] == Kept(examples, files)[i - 1].0 && rows[i][2] == Kept(examples, files)[i - 1].1
  {
    var kept := Kept(examples, files);
    assert forall i :: 0 <= i < |kept| ==> kept[i] in kept;
    [HEADER] + Rows(kept)
  }

  function Rows(kept: seq<(string, string)>): (rows: seq<seq<string>>)
    ensures |rows| == |kept|
    ensures forall i :: 0 <= i < |kept| ==> rows[i] == Row(kept[i])
  {
    seq(|kept|, i requires 0 <= i < |kept| => Row(kept[i]))
  }

  lemma RowsAppend(a: seq<(string, string)>, b: seq<(string, string)>)
    ensures Rows(a + b) == Rows(a) + Rows(b)
  {
    var l, r := Rows(a + b), Rows(a) + Rows(b);
    forall i | 0 <= i < |l| ensures l[i] == r[i] {
      if i < |a| {
        assert (a + b)[i] == a[i];
      } else {
        assert (a + b)[i] == b[i - |a|];
      }
    }
  }

  /** The table after one more example: its row is added when its video is on disk. */
  lemma CsvRowsSnoc(examples: seq<(string, string)>, files: set<string>, i: nat)
    requires i < |examples|
    ensures CsvRows(examples[..i + 1], files)
         == CsvRows(examples[..i], files) + if HasVideo(examples[i].0, files) then [Row(examples[i])] else []
  {
    assert examples[..i + 1] == examples[..i] + [examples[i]];
    KeptAppend(examples[..i], [examples[i]], files);
    KeptOne(examples[i], files);
    RowsAppend(Kept(examples[..i], files), Kept([examples[i]], files));
    assert Rows([examples[i]]) == [Row(examples[i])];
  }

  /** The writing loop of `create_captions_csv`. */
  method CreateCaptionsCsv(examples: seq<(string, string)>, files: set<string>) returns (rows: seq<seq<string>>)
    ensures rows == CsvRows(examples, files)
  {
    rows := [HEADER];
    var i := 0;
    while i < |examples|
      invariant 0 <= i <= |examples|
      invariant rows == CsvRows(examples[..i], files)
    {
      var (videoId, caption) := examples[i];
      CsvRowsSnoc(examples, files, i);
      if HasVideo(videoId, files) {
        rows := rows + [[videoId, FileName(videoId), caption]];
      }
      i := i + 1;
    }
    assert examples[..i] == examples;
  }
}
