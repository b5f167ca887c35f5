/**
 * The DiDeMo download script: which archives of the dataset repository are
 * fetched, which of them form the split train archive (in sorted order) and
 * which are test archives, how a video id is read from a dataset row, and
 * the caption grouping across the train and test splits.
 */
module ParseVideosDidemo {
  import opened Wrappers
  import opened Text
  import opened Paths
  import opened PyDict
  import opened ParseVideosMsrvtt

  const DIDEMO_DIR := "assets/videos/didemo"

  // ---- archive selection -----------------------------------------------------

  /** `f.endswith(".tar") or ".tar.part-" in f`. */
  predicate IsArchiveName(name: string) {
    EndsWith(name, ".tar") || Contains(name, ".tar.part-")
  }

  /** `tar_files`: the archive names among the repository's files, in order. */
  function TarFiles(names: seq<string>): (r: seq<string>)
    ensures forall n :: n in r <==> n in names && IsArchiveName(n)
    ensures |r| <= |names|
    decreases |names|
  {
    if |names| == 0 then []
    else (if IsArchiveName(names[0]) then [names[0]] else []) + TarFiles(names[1..])
  }

  /** The archive filter keeps the listing order: filtering two listings in turn is filtering their concatenation. */
  lemma {:induction false} TarFilesAppend(a: seq<string>, b: seq<string>)
    ensures TarFiles(a + b) == TarFiles(a) + TarFiles(b)
    decreases |a|
  {
    if |a| == 0 {
      assert a + b == b;
    } else {
      assert (a + b)[1..] == a[1..] + b;
      TarFilesAppend(a[1..], b);
    }
  }

  /** A single name is kept exactly when it is an archive name. */
  lemma TarFilesOne(name: string)
    ensures TarFiles([name]) == if IsArchiveName(name) then [name] else []
  {
    assert [name][1..] == [];
  }

  /** A piece of the split train archive: `"train" in name and ".part-" in name`. */
  predicate IsTrainPart(name: string) {
    Contains(name, "train") && Contains(name, ".part-")
  }

  /** A whole test archive: `"test" in name and ".tar" in name and ".part-" not in name`. */
  predicate IsTestArchive(name: string) {
    Contains(name, "test") && Contains(name, ".tar") && !Contains(name, ".part-")
  }

  /** No downloaded file is both a train part and a test archive. */
  lemma TrainTestDisjoint(name: string)
    ensures !(IsTrainPart(name) && IsTestArchive(name))
  {
  }

  /**
   * An archive that is neither a part nor named "test" (a whole "train.tar",
   * say) is downloaded but extracted by neither branch.
   */
  lemma WholeNonTestArchiveIgnored(name: string)
    requires EndsWith(name, ".tar") && !Contains(name, ".part-") && !Contains(name, "test")
    ensures IsArchiveName(name) && !IsTrainPart(name) && !IsTestArchive(name)
  {
  }

  /** The local paths of the downloaded train parts, in download order. */
  function TrainPartPaths(downloaded: seq<(string, string)>): (r: seq<string>)
    ensures forall p :: p in r <==> exists name :: (name, p) in downloaded && IsTrainPart(name)
    decreases |downloaded|
  {
    if |downloaded| == 0 then []
    else
      var rest := TrainPartPaths(downloaded[1..]);
      assert forall e :: e in downloaded <==> e == downloaded[0] || e in downloaded[1..];
      (if IsTrainPart(downloaded[0].0) then [downloaded[0].1] else []) + rest
  }

  /** `test_tar`: the local paths of the test archives, in download order. */
  function TestArchivePaths(downloaded: seq<(string, string)>): (r: seq<string>)
    ensures forall p :: p in r <==> exists name :: (name, p) in downloaded && IsTestArchive(name)
    decreases |downloaded|
  {
    if |downloaded| == 0 then []
    else
      var rest := TestArchivePaths(downloaded[1..]);
      assert forall e :: e in downloaded <==> e == downloaded[0] || e in downloaded[1..];
      (if IsTestArchive(downloaded[0].0) then [downloaded[0].1] else []) + rest
  }

  // ---- sorted(...) on strings ------------------------------------------------

  /** Python's `a <= b` on strings: code point by code point, a prefix first. */
  predicate LexLe(a: string, b: string)
    decreases |a|
  {
    |a| == 0 || (|b| > 0 && (a[0] < b[0] || (a[0] == b[0] && LexLe(a[1..], b[1..]))))
  }

  lemma {:induction false} LexLeTotal(a: string, b: string)
    ensures LexLe(a, b) || LexLe(b, a)
    decreases |a|
  {
    if |a| > 0 && |b| > 0 && a[0] == b[0] {
      LexLeTotal(a[1..], b[1..]);
    }
  }

  predicate Sorted(s: seq<string>) {
    forall i :: 0 < i < |s| ==> LexLe(s[i - 1], s[i])
  }

  /** `x` placed before the first element it does not exceed. */
  function Insert(x: string, s: seq<string>): (r: seq<string>)
    ensures multiset(r) == multiset(s) + multiset{x}
    ensures |r| == |s| + 1
    ensures r[0] == x || (|s| > 0 && r[0] == s[0])
    ensures Sorted(s) ==> Sorted(r)
    decreases |s|
  {
    if |s| == 0 || LexLe(x, s[0]) then [x] + s
    else
      LexLeTotal(x, s[0]);
      assert s == [s[0]] + s[1..];
      [s[0]] + Insert(x, s[1..])
  }

  /** `sorted(paths)`: the same paths, in ascending order. */
  function SortPaths(s: seq<string>): (r: seq<string>)
    ensures Sorted(r)
    ensures multiset(r) == multiset(s)
    decreases |s|
  {
    if |s| == 0 then []
    else
      assert s == [s[0]] + s[1..];
      Insert(s[0], SortPaths(s[1..]))
  }

  /** `train_parts`: the train parts in the order they are concatenated. */
  function TrainParts(downloaded: seq<(string, string)>): (r: seq<string>)
    ensures Sorted(r)
    ensures multiset(r) == multiset(TrainPartPaths(downloaded))
  {
    SortPaths(TrainPartPaths(downloaded))
  }

  // ---- video ids and captions ------------------------------------------------

  /** `os.path.splitext(os.path.basename(video))[0]`. */
  function VideoId(video: string): string {
    SplitExtRoot(Basename(video))
  }

  /**
   * A row's video "dir/id.mp4" has id `id`, for any id without a slash that
   * is not made only of dots (an id may itself contain dots).
   */
  lemma VideoIdOfPath(dir: string, id: string)
    requires id != "" && '/' !in id && !AllDots(id)
    ensures VideoId(dir + "/" + id + ".mp4") == id
  {
    var p := dir + "/" + id + ".mp4";
    var name := id + ".mp4";
    var k := |dir|;
    assert p[k] == '/';
    assert forall j :: k < j < |p| ==> p[j] == name[j - k - 1];
    LastIndexAt(p, '/', k);
    assert Basename(p) == name;
    assert name[|id|] == '.';
    assert forall j :: |id| < j < |name| ==> name[j] != '.';
    LastIndexAt(name, '.', |id|);
    assert name[..|id|] == id;
  }

  /** What `load_dataset` gave for a split: its rows (video path and caption), or an error. */
  datatype SplitLoad = Loaded(rows: seq<(string, Caption)>) | Failed

  /** The (video id, caption) pairs a split contributes; a failed split contributes none. */
  function SplitRows(split: SplitLoad): (r: seq<(string, Caption)>)
    ensures split.Failed? ==> r == []
    ensures split.Loaded? ==> |r| == |split.rows|
    ensures split.Loaded? ==> forall j :: 0 <= j < |r| ==>
      r[j].0 == VideoId(split.rows[j].0) && r[j].1 == split.rows[j].1
  {
    match split
    case Failed => []
    case Loaded(rows) => seq(|rows|, j requires 0 <= j < |rows| => (VideoId(rows[j].0), rows[j].1))
  }

  /** `captions_by_video` after the train split, then the test split. */
  function DidemoGroups(train: SplitLoad, test: SplitLoad): Dict<seq<string>> {
    Grouped(Grouped([], SplitRows(train)), SplitRows(test))
  }

  /**
   * An id has a group exactly when a row of either split carries it, and
   * the group is its train captions followed by its test captions.
   */
  lemma TrainThenTest(train: SplitLoad, test: SplitLoad, id: string)
    ensures var a, b := SplitRows(train), SplitRows(test);
      Get(DidemoGroups(train, test), id)
        == if HasId(a, id) || HasId(b, id) then Some(CaptionsFor(a, id) + CaptionsFor(b, id)) else None
  {
    GroupedTwice(SplitRows(train), SplitRows(test), id);
  }

  lemma GroupedTwice(a: seq<(string, Caption)>, b: seq<(string, Caption)>, id: string)
    ensures Get(Grouped(Grouped([], a), b), id)
         == if HasId(a, id) || HasId(b, id) then Some(CaptionsFor(a, id) + CaptionsFor(b, id)) else None
  {
    GroupedGet([], a, id);
    GroupedGet(Grouped([], a), b, id);
    if HasId(a, id) {
      assert Get(Grouped([], a), id) == Some(CaptionsFor(a, id)) by {
        assert [] + CaptionsFor(a, id) == CaptionsFor(a, id);
      }
    } else {
      assert [] + CaptionsFor(b, id) == CaptionsFor(b, id);
      assert CaptionsFor(a, id) == [] by {
        CaptionsForAbsent(a, id);
      }
    }
  }

  lemma {:induction false} CaptionsForAbsent(rows: seq<(string, Caption)>, id: string)
    requires !HasId(rows, id)
    ensures CaptionsFor(rows, id) == []
    decreases |rows|
  {
    if |rows| > 0 {
      assert rows[0].0 != id;
      CaptionsForAbsent(rows[1..], id);
    }
  }

  /** A split that fails to load leaves the groups as the other split makes them. */
  lemma FailedSplitSkipped(train: SplitLoad, test: SplitLoad)
    ensures train.Failed? ==> DidemoGroups(train, test) == Grouped([], SplitRows(test))
    ensures test.Failed? ==> DidemoGroups(train, test) == Grouped([], SplitRows(train))
  {
  }

  /** `create_caption_files`: both splits grouped in turn, then one caption file per id with a video. */
  method CreateDidemoCaptionFiles(train: SplitLoad, test: SplitLoad, files: set<string>, captions: map<string, string>)
    returns (written: map<string, string>, count: nat)
    ensures (written, count) == Written(DidemoGroups(train, test), DIDEMO_DIR, files, captions)
  {
    var groups: Dict<seq<string>> := [];
    var splits := [train, test];
    var i := 0;
    while i < 2
      invariant 0 <= i <= 2
      invariant i == 0 ==> groups == []
      invariant i == 1 ==> groups == Grouped([], SplitRows(train))
      invariant i == 2 ==> groups == DidemoGroups(train, test)
    {
      if splits[i].Loaded? {
        groups := CollectCaptions(groups, SplitRows(splits[i]));
      }
      i := i + 1;
    }
    written, count := WriteCaptionFiles(groups, DIDEMO_DIR, files, captions);
  }
}
