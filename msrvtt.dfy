/**
 * The MSR-VTT download script: moving the extracted `.mp4` files into the
 * output directory without overwriting, grouping the dataset's captions by
 * video id, and writing one caption file per video that is on disk. The
 * DiDeMo and preprocessing scripts repeat the move loop and the caption
 * grouping word for word and reuse this module.
 */
module ParseVideosMsrvtt {
  import opened Wrappers
  import opened Text
  import opened Paths
  import opened PyDict

  const OUTPUT_DIR := "assets/videos/msrvtt"

  // ---- moving the extracted videos -----------------------------------------

  /** One file `os.walk` reports: its directory and its name. */
  datatype Found = Found(root: string, name: string)

  /** `fname.lower().endswith(".mp4")`. */
  predicate IsMp4Name(name: string) {
    EndsWith(Lower(name), ".mp4")
  }

  /**
   * The move loop over the walked files, as a value: `dest` maps each file
   * in the output directory to the path its content came from. The result
   * is the new directory and the number of moves.
   */
  function MoveAll(walk: seq<Found>, dir: string, dest: map<string, string>): (map<string, string>, nat)
    decreases |walk|
  {
    if |walk| == 0 then (dest, 0)
    else
      var f := walk[0];
      var to := JoinPath(dir, f.name);
      if IsMp4Name(f.name) && to !in dest then
        var r := MoveAll(walk[1..], dir, dest[to := JoinPath(f.root, f.name)]);
        (r.0, r.1 + 1)
      else MoveAll(walk[1..], dir, dest)
  }

  /** The destinations of the `.mp4` files among the walked ones. */
  function Mp4Destinations(walk: seq<Found>, dir: string): set<string> {
    set f | f in walk && IsMp4Name(f.name) :: JoinPath(dir, f.name)
  }

  /** No file already in the directory is overwritten, and the count is the number of files gained. */
  lemma {:induction false} MoveAllKeeps(walk: seq<Found>, dir: string, dest: map<string, string>)
    ensures forall p :: p in dest ==> p in MoveAll(walk, dir, dest).0 && MoveAll(walk, dir, dest).0[p] == dest[p]
    ensures |MoveAll(walk, dir, dest).0| == |dest| + MoveAll(walk, dir, dest).1
    decreases |walk|
  {
    if |walk| > 0 {
      var f := walk[0];
      var to := JoinPath(dir, f.name);
      if IsMp4Name(f.name) && to !in dest {
        MoveAllKeeps(walk[1..], dir, dest[to := JoinPath(f.root, f.name)]);
      } else {
        MoveAllKeeps(walk[1..], dir, dest);
      }
    }
  }

  /** The directory after one walked file. */
  function MoveOne(dest: map<string, string>, f: Found, dir: string): map<string, string> {
    var to := JoinPath(dir, f.name);
    if IsMp4Name(f.name) && to !in dest then dest[to := JoinPath(f.root, f.name)] else dest
  }

  lemma MoveAllCons(walk: seq<Found>, dir: string, dest: map<string, string>)
    requires |walk| > 0
    ensures MoveAll(walk, dir, dest).0 == MoveAll(walk[1..], dir, MoveOne(dest, walk[0], dir)).0
  {
  }

  lemma MoveOneKeys(dest: map<string, string>, f: Found, dir: string)
    ensures MoveOne(dest, f, dir).Keys == dest.Keys + (if IsMp4Name(f.name) then {JoinPath(dir, f.name)} else {})
  {
  }

  /** The directory gains exactly the destinations of the walked `.mp4` files. */
  lemma {:induction false} MoveAllKeys(walk: seq<Found>, dir: string, dest: map<string, string>)
    ensures MoveAll(walk, dir, dest).0.Keys == dest.Keys + Mp4Destinations(walk, dir)
    decreases |walk|
  {
    if |walk| > 0 {
      var dest' := MoveOne(dest, walk[0], dir);
      MoveAllCons(walk, dir, dest);
      MoveAllKeys(walk[1..], dir, dest');
      MoveOneKeys(dest, walk[0], dir);
      Mp4DestinationsCons(walk, dir);
    }
  }

  lemma Mp4DestinationsCons(walk: seq<Found>, dir: string)
    requires |walk| > 0
    ensures Mp4Destinations(walk, dir)
         == Mp4Destinations(walk[1..], dir) + (if IsMp4Name(walk[0].name) then {JoinPath(dir, walk[0].name)} else {})
  {
    var rest := walk[1..];
    forall f | f in walk ensures f == walk[0] || f in rest {
      var j :| 0 <= j < |walk| && walk[j] == f;
      if j > 0 {
        assert rest[j - 1] == f;
      }
    }
    forall f | f in rest ensures f in walk {
      var j :| 0 <= j < |rest| && rest[j] == f;
      assert walk[j + 1] == f;
    }
  }

  /** Each file the directory gains came from a walked `.mp4` file of that name. */
  lemma {:induction false} MoveAllSources(walk: seq<Found>, dir: string, dest: map<string, string>, p: string)
    requires p in MoveAll(walk, dir, dest).0 && p !in dest
    ensures exists f :: f in walk && IsMp4Name(f.name) && JoinPath(dir, f.name) == p
                     && MoveAll(walk, dir, dest).0[p] == JoinPath(f.root, f.name)
    decreases |walk|
  {
    var f := walk[0];
    var to := JoinPath(dir, f.name);
    var rest := walk[1..];
    if IsMp4Name(f.name) && to !in dest {
      var dest' := dest[to := JoinPath(f.root, f.name)];
      if p == to {
        MoveAllKeeps(rest, dir, dest');
        assert f in walk;
      } else {
        MoveAllSources(rest, dir, dest', p);
        var g :| g in rest && IsMp4Name(g.name) && JoinPath(dir, g.name) == p
               && MoveAll(rest, dir, dest').0[p] == JoinPath(g.root, g.name);
        assert g in walk;
      }
    } else {
      MoveAllSources(rest, dir, dest, p);
      var g :| g in rest && IsMp4Name(g.name) && JoinPath(dir, g.name) == p
             && MoveAll(rest, dir, dest).0[p] == JoinPath(g.root, g.name);
      assert g in walk;
    }
  }

  /** The move loop of `download_and_extract_videos`. */
  method MoveMp4Files(walk: seq<Found>, dir: string, existing: map<string, string>) returns (dest: map<string, string>, moved: nat)
    ensures (dest, moved) == MoveAll(walk, dir, existing)
  {
    dest, moved := existing, 0;
    var i := 0;
    while i < |walk|
      invariant 0 <= i <= |walk|
      invariant MoveAll(walk[i..], dir, dest).0 == MoveAll(walk, dir, existing).0
      invariant moved + MoveAll(walk[i..], dir, dest).1 == MoveAll(walk, dir, existing).1
    {
      assert walk[i..][1..] == walk[i + 1..];
      var f := walk[i];
      var to := JoinPath(dir, f.name);
      if IsMp4Name(f.name) && to !in dest {
        dest := dest[to := JoinPath(f.root, f.name)];
        moved := moved + 1;
      }
      i := i + 1;
    }
  }

  // ---- grouping captions -----------------------------------------------------

  /** A row's caption: one text, or a list of texts. */
  datatype Caption = One(text: string) | Many(texts: seq<string>)

  /** What a caption adds to its group: a list extends it, a single text is appended. */
  function CaptionTexts(c: Caption): (r: seq<string>)
    ensures c.One? ==> r == [c.text]
    ensures c.Many? ==> r == c.texts
  {
    match c
    case One(t) => [t]
    case Many(ts) => ts
  }

  /** `captions_by_video` after the rows, in order, starting from `acc`. */
  function Grouped(acc: Dict<seq<string>>, rows: seq<(string, Caption)>): Dict<seq<string>>
    decreases |rows|
  {
    if |rows| == 0 then acc
    else Grouped(Extend(acc, rows[0]), rows[1..])
  }

  /** One row added to its group. */
  function Extend(acc: Dict<seq<string>>, row: (string, Caption)): Dict<seq<string>> {
    Put(acc, row.0, Get(acc, row.0).GetOr([]) + CaptionTexts(row.1))
  }

  /** Reference account of one group: the texts of the rows with that id, in row order. */
  function CaptionsFor(rows: seq<(string, Caption)>, id: string): seq<string>
    decreases |rows|
  {
    if |rows| == 0 then []
    else (if rows[0].0 == id then CaptionTexts(rows[0].1) else []) + CaptionsFor(rows[1..], id)
  }

  predicate HasId(rows: seq<(string, Caption)>, id: string) {
    exists j :: 0 <= j < |rows| && rows[j].0 == id
  }

  /**
   * A group holds what it held before followed by the texts of its rows in
   * order; an id gets a group exactly when it had one or some row carries it.
   */
  lemma {:induction false} GroupedGet(acc: Dict<seq<string>>, rows: seq<(string, Caption)>, id: string)
    ensures Get(Grouped(acc, rows), id)
         == if Get(acc, id).Some? || HasId(rows, id)
            then Some(Get(acc, id).GetOr([]) + CaptionsFor(rows, id))
            else None
    decreases |rows|
  {
    if |rows| > 0 {
      var k := rows[0].0;
      GroupedGet(Extend(acc, rows[0]), rows[1..], id);
      GetPut(acc, k, Get(acc, k).GetOr([]) + CaptionTexts(rows[0].1), id);
      var g, ct, cf := Get(acc, id).GetOr([]), CaptionTexts(rows[0].1), CaptionsFor(rows[1..], id);
      if k == id {
        assert CaptionsFor(rows, id) == ct + cf;
        assert (g + ct) + cf == g + (ct + cf);
      } else {
        assert CaptionsFor(rows, id) == [] + cf == cf;
      }
      HasIdCons(rows, id);
    } else {
      assert Get(acc, id).GetOr([]) + [] == Get(acc, id).GetOr([]);
    }
  }

  lemma HasIdCons(rows: seq<(string, Caption)>, id: string)
    requires |rows| > 0
    ensures HasId(rows, id) <==> rows[0].0 == id || HasId(rows[1..], id)
  {
    if HasId(rows[1..], id) {
      var j :| 0 <= j < |rows[1..]| && rows[1..][j].0 == id;
      assert rows[j + 1].0 == id;
    }
    if HasId(rows, id) && rows[0].0 != id {
      var j :| 0 <= j < |rows| && rows[j].0 == id;
      assert rows[1..][j - 1].0 == id;
    }
  }

  /** Every id has at most one group. */
  lemma {:induction false} GroupedDistinct(acc: Dict<seq<string>>, rows: seq<(string, Caption)>)
    requires DistinctKeys(acc)
    ensures DistinctKeys(Grouped(acc, rows))
    decreases |rows|
  {
    if |rows| > 0 {
      PutDistinct(acc, rows[0].0, Get(acc, rows[0].0).GetOr([]) + CaptionTexts(rows[0].1));
      GroupedDistinct(Extend(acc, rows[0]), rows[1..]);
    }
  }

  /** Grouping two batches of rows one after the other is grouping them together. */
  lemma {:induction false} GroupedAppend(acc: Dict<seq<string>>, a: seq<(string, Caption)>, b: seq<(string, Caption)>)
    ensures Grouped(acc, a + b) == Grouped(Grouped(acc, a), b)
    decreases |a|
  {
    if |a| > 0 {
      assert (a + b)[0] == a[0];
      assert (a + b)[1..] == a[1..] + b;
      GroupedAppend(Extend(acc, a[0]), a[1..], b);
    } else {
      assert a + b == b;
    }
  }

  /** The grouping loop of `create_caption_files`. */
  method CollectCaptions(acc: Dict<seq<string>>, rows: seq<(string, Caption)>) returns (groups: Dict<seq<string>>)
    ensures groups == Grouped(acc, rows)
  {
    groups := acc;
    var i := 0;
    while i < |rows|
      invariant 0 <= i <= |rows|
      invariant Grouped(groups, rows[i..]) == Grouped(acc, rows)
    {
      assert rows[i..][1..] == rows[i + 1..];
      var (id, c) := rows[i];
      var group := Get(groups, id).GetOr([]);
      groups := Put(groups, id, group + CaptionTexts(c));
      i := i + 1;
    }
    assert rows[i..] == [];
  }

  // ---- writing caption files -------------------------------------------------

  function VideoFor(dir: string, id: string): string {
    JoinPath(dir, id + ".mp4")
  }

  function CaptionFileFor(dir: string, id: string): string {
    JoinPath(dir, id + ".txt")
  }

  /**
   * The write loop as a value: `captions` maps each caption file to its
   * text; the result is the new map and the number written.
   */
  function Written(groups: Dict<seq<string>>, dir: string, files: set<string>, captions: map<string, string>): (map<string, string>, nat)
    decreases |groups|
  {
    if |groups| == 0 then (captions, 0)
    else
      var (id, texts) := groups[0];
      var has := VideoFor(dir, id) in files;
      var captions' := if has then captions[CaptionFileFor(dir, id) := Join(texts, "\n")] else captions;
      var (c, n) := Written(groups[1..], dir, files, captions');
      (c, n + if has then 1 else 0)
  }

  /** The ids whose video is on disk. */
  function WithVideo(groups: Dict<seq<string>>, dir: string, files: set<string>): set<string> {
    set id | id in Keys(groups) && VideoFor(dir, id) in files
  }

  /** The caption files of the ids whose video is on disk. */
  function CaptionFilesFor(groups: Dict<seq<string>>, dir: string, files: set<string>): set<string> {
    set id | id in Keys(groups) && VideoFor(dir, id) in files :: CaptionFileFor(dir, id)
  }

  lemma CaptionFileInjective(dir: string, a: string, b: string)
    requires CaptionFileFor(dir, a) == CaptionFileFor(dir, b)
    ensures a == b
  {
    JoinPathInjective(dir, a + ".txt", b + ".txt");
    assert (a + ".txt")[..|a|] == a;
    assert (b + ".txt")[..|b|] == b;
  }

  /**
   * For groups with distinct ids: each id whose video exists gets a caption
   * file holding its texts joined by newlines, no other file changes, and
   * the count is the number of ids whose video exists.
   */
  lemma {:induction false} WrittenSpec(groups: Dict<seq<string>>, dir: string, files: set<string>, captions: map<string, string>)
    requires DistinctKeys(groups)
    ensures var (c, n) := Written(groups, dir, files, captions);
      && n == |WithVideo(groups, dir, files)|
      && (forall i :: 0 <= i < |groups| && VideoFor(dir, groups[i].0) in files ==>
            CaptionFileFor(dir, groups[i].0) in c && c[CaptionFileFor(dir, groups[i].0)] == Join(groups[i].1, "\n"))
      && (forall p :: p !in CaptionFilesFor(groups, dir, files) ==>
            (p in c <==> p in captions) && (p in c ==> c[p] == captions[p]))
    decreases |groups|
  {
    if |groups| > 0 {
      var (id, texts) := groups[0];
      var rest := groups[1..];
      var has := VideoFor(dir, id) in files;
      var captions' := if has then captions[CaptionFileFor(dir, id) := Join(texts, "\n")] else captions;
      WrittenSpec(rest, dir, files, captions');
      var (c, n) := Written(rest, dir, files, captions');
      assert Keys(groups) == [id] + Keys(rest);
      assert id !in Keys(rest) by {
        forall j | 0 <= j < |rest| ensures Keys(rest)[j] != id {
          assert groups[0].0 != groups[j + 1].0;
        }
      }
      if has {
        assert WithVideo(groups, dir, files) == WithVideo(rest, dir, files) + {id};
        assert CaptionFileFor(dir, id) !in CaptionFilesFor(rest, dir, files) by {
          forall other | other in Keys(rest) ensures CaptionFileFor(dir, other) != CaptionFileFor(dir, id) {
            if CaptionFileFor(dir, other) == CaptionFileFor(dir, id) {
              CaptionFileInjective(dir, other, id);
            }
          }
        }
      } else {
        assert WithVideo(groups, dir, files) == WithVideo(rest, dir, files);
      }
      forall i | 0 <= i < |groups| && VideoFor(dir, groups[i].0) in files
        ensures CaptionFileFor(dir, groups[i].0) in c && c[CaptionFileFor(dir, groups[i].0)] == Join(groups[i].1, "\n")
      {
        if i > 0 {
          assert groups[i] == rest[i - 1];
        }
      }
    }
  }

  /** The write loop of `create_caption_files`. */
  method WriteCaptionFiles(groups: Dict<seq<string>>, dir: string, files: set<string>, captions: map<string, string>)
    returns (written: map<string, string>, count: nat)
    ensures (written, count) == Written(groups, dir, files, captions)
  {
    written, count := captions, 0;
    var i := 0;
    while i < |groups|
      invariant 0 <= i <= |groups|
      invariant Written(groups[i..], dir, files, written).0 == Written(groups, dir, files, captions).0
      invariant count + Written(groups[i..], dir, files, written).1 == Written(groups, dir, files, captions).1
    {
      assert groups[i..][1..] == groups[i + 1..];
      var (id, texts) := groups[i];
      if VideoFor(dir, id) in files {
        written := written[CaptionFileFor(dir, id) := Join(texts, "\n")];
        count := count + 1;
      }
      i := i + 1;
    }
  }

  /** `create_caption_files`: group the rows, then write one file per grouped id with a video. */
  method CreateCaptionFiles(rows: seq<(string, Caption)>, files: set<string>, captions: map<string, string>)
    returns (written: map<string, string>, count: nat)
    ensures (written, count) == Written(Grouped([], rows), OUTPUT_DIR, files, captions)
  {
    var groups := CollectCaptions([], rows);
    written, count := WriteCaptionFiles(groups, OUTPUT_DIR, files, captions);
  }

  /**
   * End to end: when a row's id has its video on disk, the id's caption file
   * exists afterwards and holds every text of that id, in row order, joined
   * by newlines.
   */
  lemma CaptionFileOfId(rows: seq<(string, Caption)>, files: set<string>, captions: map<string, string>, id: string)
    requires HasId(rows, id) && VideoFor(OUTPUT_DIR, id) in files
    ensures var (c, _) := Written(Grouped([], rows), OUTPUT_DIR, files, captions);
      CaptionFileFor(OUTPUT_DIR, id) in c && c[CaptionFileFor(OUTPUT_DIR, id)] == Join(CaptionsFor(rows, id), "\n")
  {
    var groups := Grouped([], rows);
    GroupedDistinct([], rows);
    GroupedGet([], rows, id);
    GetFindsEntry(groups, id);
    var i :| 0 <= i < |groups| && groups[i] == (id, Get(groups, id).value);
    assert groups[i].1 == CaptionsFor(rows, id) by {
      assert [] + CaptionsFor(rows, id) == CaptionsFor(rows, id);
    }
    WrittenSpec(groups, OUTPUT_DIR, files, captions);
  }
}
