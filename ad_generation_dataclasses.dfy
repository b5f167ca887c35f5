/**
 * The shared records of ad generation: videos and products with the caption
 * files beside them, a viewer's reaction, and the viewer's bounded watch
 * history with its memoised summary.
 */
module AdGenerationDataclasses {
  import opened Wrappers
  import opened Text
  import opened Paths

  /** `USER_VIDEO_MEMORY_LIMIT`: the capacity of both history deques. */
  const USER_VIDEO_MEMORY_LIMIT: nat := 50

  datatype Video = Video(path: string)

  datatype Product = Product(path: string)

  datatype UserReaction = UserReaction(heart: bool, share: bool)

  lemma StemHasNoSlash(p: string)
    ensures '/' !in Stem(p)
  {
    StemSuffix(Basename(p));
    assert Stem(p) == Basename(p)[..|Stem(p)|];
  }

  /** A name made of a path's stem and a suffix without separators lies beside the path. */
  lemma StemSibling(p: string, suffix: string)
    requires '/' !in suffix
    ensures Parent(JoinPath(Parent(p), Stem(p) + suffix)) == Parent(p)
    ensures Basename(JoinPath(Parent(p), Stem(p) + suffix)) == Stem(p) + suffix
  {
    StemHasNoSlash(p);
    Sibling(p, Stem(p) + suffix);
  }

  /** Where `Video.context` looks for the caption: `<stem>_caption.txt` beside the video. */
  function VideoCaptionPath(v: Video): string {
    JoinPath(Parent(v.path), Stem(v.path) + "_caption.txt")
  }

  /** The caption path is in the video's directory and is named after the video's stem. */
  lemma VideoCaptionBesideVideo(v: Video)
    ensures Parent(VideoCaptionPath(v)) == Parent(v.path)
    ensures Basename(VideoCaptionPath(v)) == Stem(v.path) + "_caption.txt"
  {
    StemSibling(v.path, "_caption.txt");
  }

  /** Where `Product.context` looks for a stored description: `<stem>_context.txt` beside the image. */
  function ProductContextPath(p: Product): string {
    JoinPath(Parent(p.path), Stem(p.path) + "_context.txt")
  }

  /** The description path is in the image's directory and is named after the image's stem. */
  lemma ProductContextBesideImage(p: Product)
    ensures Parent(ProductContextPath(p)) == Parent(p.path)
    ensures Basename(ProductContextPath(p)) == Stem(p.path) + "_context.txt"
  {
    StemSibling(p.path, "_context.txt");
  }

  /**
   * `Video.context`: the stripped caption text, or a failure naming the
   * caption file when it does not exist (the source's assertion).
   * `files` maps each existing file's path to its content.
   */
  function VideoContext(v: Video, files: map<string, string>): (r: Result<string, string>)
    ensures r.Success? <==> VideoCaptionPath(v) in files
    ensures r.Failure? ==> r.error == VideoCaptionPath(v)
  {
    var path := VideoCaptionPath(v);
    if path in files then Success(Strip(files[path])) else Failure(path)
  }

  /**
   * A caption read by `Video.context` is the caption file's text with the
   * blanks at both ends removed, and stripping it again changes nothing.
   */
  lemma VideoContextStripped(v: Video, files: map<string, string>)
    requires VideoContext(v, files).Success?
    ensures StrippedFrom(files[VideoCaptionPath(v)], VideoContext(v, files).value)
    ensures Strip(VideoContext(v, files).value) == VideoContext(v, files).value
  {
    StripSpec(files[VideoCaptionPath(v)]);
    StripIdempotent(files[VideoCaptionPath(v)]);
  }

  /**
   * `Product.context` when the description file exists: its stripped text.
   * None stands for the other branch, where the description is produced by an
   * image-captioning model and written to that file.
   */
  function StoredProductContext(p: Product, files: map<string, string>): (r: Option<string>)
    ensures r.Some? <==> ProductContextPath(p) in files
    ensures r.Some? ==> StrippedFrom(files[ProductContextPath(p)], r.value)
  {
    var path := ProductContextPath(p);
    if path in files then StripSpec(files[path]); Some(Strip(files[path])) else None
  }

  // ---- The bounded history -----------------------------------------------

  /** Appending to a `deque(maxlen=limit)`: the oldest items fall off the front. */
  function BoundedAppend<T>(s: seq<T>, x: T, limit: nat): seq<T> {
    var t := s + [x];
    if |t| <= limit then t else t[|t| - limit..]
  }

  /**
   * A deque within its limit stays within it; the new item is last; below the
   * limit nothing is lost, and at the limit exactly the oldest item is dropped.
   */
  lemma BoundedAppendSpec<T>(s: seq<T>, x: T, limit: nat)
    requires 1 <= limit && |s| <= limit
    ensures var r := BoundedAppend(s, x, limit);
      && |r| <= limit
      && r[|r| - 1] == x
      && (|s| < limit ==> r == s + [x])
      && (|s| == limit ==> r == s[1..] + [x])
  {
  }

  function Zip<A, B>(a: seq<A>, b: seq<B>): (z: seq<(A, B)>)
    requires |a| == |b|
    ensures |z| == |a|
    ensures forall i :: 0 <= i < |a| ==> z[i] == (a[i], b[i])
  {
    seq(|a|, i requires 0 <= i < |a| => (a[i], b[i]))
  }

  /**
   * Two parallel deques of equal length stay paired: appending a video and its
   * reaction side by side is appending the pair, so the oldest video and the
   * oldest reaction are dropped together.
   */
  lemma {:induction false} BoundedAppendPaired<A, B>(a: seq<A>, b: seq<B>, x: A, y: B, limit: nat)
    requires |a| == |b|
    ensures |BoundedAppend(a, x, limit)| == |BoundedAppend(b, y, limit)|
    ensures Zip(BoundedAppend(a, x, limit), BoundedAppend(b, y, limit))
         == BoundedAppend(Zip(a, b), (x, y), limit)
  {
    var za, zb := a + [x], b + [y];
    ZipAppend(a, b, x, y);
    if |za| <= limit {
      assert BoundedAppend(a, x, limit) == za && BoundedAppend(b, y, limit) == zb;
      assert BoundedAppend(Zip(a, b), (x, y), limit) == Zip(za, zb);
    } else {
      var k := |za| - limit;
      assert BoundedAppend(a, x, limit) == za[k..] && BoundedAppend(b, y, limit) == zb[k..];
      assert BoundedAppend(Zip(a, b), (x, y), limit) == Zip(za, zb)[k..];
      ZipDrop(za, zb, k);
    }
  }

  lemma ZipAppend<A, B>(a: seq<A>, b: seq<B>, x: A, y: B)
    requires |a| == |b|
    ensures Zip(a + [x], b + [y]) == Zip(a, b) + [(x, y)]
  {
    var l, r := Zip(a + [x], b + [y]), Zip(a, b) + [(x, y)];
    assert |l| == |r|;
    forall i | 0 <= i < |l| ensures l[i] == r[i] {
      if i < |a| {
        assert (a + [x])[i] == a[i] && (b + [y])[i] == b[i];
      }
    }
  }

  lemma ZipDrop<A, B>(a: seq<A>, b: seq<B>, k: nat)
    requires |a| == |b| && k <= |a|
    ensures Zip(a[k..], b[k..]) == Zip(a, b)[k..]
  {
    var l, r := Zip(a[k..], b[k..]), Zip(a, b)[k..];
    assert |l| == |r|;
    forall i | 0 <= i < |l| ensures l[i] == r[i] {
      assert a[k..][i] == a[k + i] && b[k..][i] == b[k + i];
    }
  }

  /** One line of the summarisation prompt. */
  function ContextLine(caption: string, r: UserReaction): string {
    "Context: " + caption + ", Heart: " + PyBool(r.heart) + ", Share: " + PyBool(r.share)
  }

  lemma ContextLineOneLine(caption: string, r: UserReaction)
    requires '\n' !in caption
    ensures '\n' !in ContextLine(caption, r)
  {
    assert '\n' !in "Context: " && '\n' !in ", Heart: " && '\n' !in ", Share: ";
    assert '\n' !in PyBool(r.heart) && '\n' !in PyBool(r.share);
  }

  /**
   * The prompt lines for the first `n` history entries, oldest first, or the
   * first caption file found missing.
   */
  function ContextLines(videos: seq<Video>, reactions: seq<UserReaction>, files: map<string, string>, n: nat)
    : (r: Result<seq<string>, string>)
    requires n <= |videos| && n <= |reactions|
    ensures r.Success? ==> |r.value| == n
  {
    if n == 0 then Success([])
    else
      match ContextLines(videos, reactions, files, n - 1)
      case Failure(e) => Failure(e)
      case Success(lines) =>
        match VideoContext(videos[n - 1], files)
        case Failure(e) => Failure(e)
        case Success(c) => Success(lines + [ContextLine(c, reactions[n - 1])])
  }

  /** Once a caption is missing, every longer prefix fails the same way. */
  lemma {:induction false} ContextLinesFailureSticks(
    videos: seq<Video>, reactions: seq<UserReaction>, files: map<string, string>, k: nat, n: nat)
    requires k <= n <= |videos| && n <= |reactions|
    requires ContextLines(videos, reactions, files, k).Failure?
    ensures ContextLines(videos, reactions, files, n) == ContextLines(videos, reactions, files, k)
    decreases n - k
  {
    if k < n {
      ContextLinesFailureSticks(videos, reactions, files, k, n - 1);
    }
  }

  /** When each of the first `n` videos has its caption file, the first `n` lines can all be built. */
  lemma {:induction false} ContextLinesSucceed(
    videos: seq<Video>, reactions: seq<UserReaction>, files: map<string, string>, n: nat)
    requires n <= |videos| && n <= |reactions|
    requires forall i :: 0 <= i < n ==> VideoContext(videos[i], files).Success?
    ensures ContextLines(videos, reactions, files, n).Success?
  {
    if n > 0 {
      ContextLinesSucceed(videos, reactions, files, n - 1);
    }
  }

  /** A successful run over `n > 0` entries extends a successful run over `n - 1` with a readable caption. */
  lemma ContextLinesLast(videos: seq<Video>, reactions: seq<UserReaction>, files: map<string, string>, n: nat)
    requires 0 < n <= |videos| && n <= |reactions|
    requires ContextLines(videos, reactions, files, n).Success?
    ensures ContextLines(videos, reactions, files, n - 1).Success?
    ensures VideoContext(videos[n - 1], files).Success?
  {
  }

  /** Conversely, lines built for the first `n` entries mean each of those videos has its caption file. */
  lemma {:induction false} ContextLinesCaptioned(
    videos: seq<Video>, reactions: seq<UserReaction>, files: map<string, string>, n: nat, i: nat)
    requires i < n <= |videos| && n <= |reactions|
    requires ContextLines(videos, reactions, files, n).Success?
    ensures VideoContext(videos[i], files).Success?
    decreases n
  {
    ContextLinesLast(videos, reactions, files, n);
    if i < n - 1 {
      ContextLinesCaptioned(videos, reactions, files, n - 1, i);
    }
  }

  lemma ContextLinesNext(videos: seq<Video>, reactions: seq<UserReaction>, files: map<string, string>, i: nat)
    requires i < |videos| && i < |reactions|
    requires ContextLines(videos, reactions, files, i).Success?
    ensures ContextLines(videos, reactions, files, i + 1)
         == match VideoContext(videos[i], files)
            case Failure(e) => Failure(e)
            case Success(c) => Success(ContextLines(videos, reactions, files, i).value + [ContextLine(c, reactions[i])])
  {
  }

  /** A missing caption file for entry i, after i successful lines, is the prompt's failure. */
  lemma PromptFailsAt(videos: seq<Video>, reactions: seq<UserReaction>, files: map<string, string>, i: nat)
    requires i < |videos| == |reactions|
    requires ContextLines(videos, reactions, files, i).Success?
    requires VideoContext(videos[i], files).Failure?
    ensures PromptInput(videos, reactions, files) == Failure(VideoContext(videos[i], files).error)
  {
    var e := VideoContext(videos[i], files).error;
    ContextLinesNext(videos, reactions, files, i);
    assert ContextLines(videos, reactions, files, i + 1) == Failure(e);
    ContextLinesFailureSticks(videos, reactions, files, i + 1, |videos|);
    assert ContextLines(videos, reactions, files, |videos|) == Failure(e);
  }

  /** Entry i of a successful prompt is the line of video i and reaction i. */
  lemma {:induction false} ContextLinesAt(
    videos: seq<Video>, reactions: seq<UserReaction>, files: map<string, string>, n: nat, i: nat)
    requires n <= |videos| && n <= |reactions| && i < n
    requires ContextLines(videos, reactions, files, n).Success?
    ensures VideoContext(videos[i], files).Success?
    ensures ContextLines(videos, reactions, files, n).value[i]
         == ContextLine(VideoContext(videos[i], files).value, reactions[i])
    decreases n
  {
    var prev := ContextLines(videos, reactions, files, n - 1);
    var c := VideoContext(videos[n - 1], files);
    assert prev.Success? && c.Success?;
    assert ContextLines(videos, reactions, files, n).value == prev.value + [ContextLine(c.value, reactions[n - 1])];
    if i < n - 1 {
      ContextLinesAt(videos, reactions, files, n - 1, i);
    }
  }

  /** The text handed to the summariser: the lines joined with "\n". */
  function PromptInput(videos: seq<Video>, reactions: seq<UserReaction>, files: map<string, string>)
    : Result<string, string>
  {
    var n := if |videos| <= |reactions| then |videos| else |reactions|;
    match ContextLines(videos, reactions, files, n)
    case Failure(e) => Failure(e)
    case Success(lines) => Success(Join(lines, "\n"))
  }

  /**
   * When no caption holds a newline, the prompt has exactly one line per
   * history entry, oldest first, each `Context: ..., Heart: ..., Share: ...`.
   */
  lemma PromptHasOneLinePerEntry(videos: seq<Video>, reactions: seq<UserReaction>, files: map<string, string>)
    requires |videos| == |reactions| >= 1
    requires PromptInput(videos, reactions, files).Success?
    requires forall v :: v in videos && VideoContext(v, files).Success? ==> '\n' !in VideoContext(v, files).value
    ensures var lines := Split(PromptInput(videos, reactions, files).value, '\n');
      && |lines| == |videos|
      && forall i :: 0 <= i < |videos| ==>
           VideoContext(videos[i], files).Success?
           && lines[i] == ContextLine(VideoContext(videos[i], files).value, reactions[i])
  {
    var n := |videos|;
    var built := ContextLines(videos, reactions, files, n);
    assert built.Success?;
    var lines := built.value;
    assert PromptInput(videos, reactions, files).value == Join(lines, "\n");
    forall i | 0 <= i < n
      ensures VideoContext(videos[i], files).Success?
      ensures lines[i] == ContextLine(VideoContext(videos[i], files).value, reactions[i])
      ensures '\n' !in lines[i]
    {
      ContextLinesAt(videos, reactions, files, n, i);
      assert videos[i] in videos;
      ContextLineOneLine(VideoContext(videos[i], files).value, reactions[i]);
    }
    SplitJoin(lines, '\n');
    assert Split(Join(lines, "\n"), '\n') == lines;
  }

  /**
   * Building the prompt entry by entry, oldest first: it stops at the first
   * missing caption file and otherwise joins the lines with "\n".
   */
  method BuildPrompt(videos: seq<Video>, reactions: seq<UserReaction>, files: map<string, string>)
    returns (r: Result<string, string>)
    requires |videos| == |reactions|
    ensures r == PromptInput(videos, reactions, files)
  {
    var lines: seq<string> := [];
    var i := 0;
    while i < |videos|
      invariant 0 <= i <= |videos|
      invariant ContextLines(videos, reactions, files, i) == Success(lines)
    {
      var caption := VideoContext(videos[i], files);
      ContextLinesNext(videos, reactions, files, i);
      if caption.Failure? {
        PromptFailsAt(videos, reactions, files, i);
        return Failure(caption.error);
      }
      lines := lines + [ContextLine(caption.value, reactions[i])];
      i := i + 1;
    }
    r := Success(Join(lines, "\n"));
  }

  /** The summary of a prompt, or the failure that stopped its construction. */
  function Summary(prompt: Result<string, string>, summarize: string -> string): Result<string, string> {
    match prompt
    case Success(text) => Success(summarize(text))
    case Failure(e) => Failure(e)
  }

  /**
   * The viewer: two parallel deques of at most `USER_VIDEO_MEMORY_LIMIT`
   * entries and the memoised summary of them.
   */
  class User {
    var videosWatched: seq<Video>
    var videosWatchedReaction: seq<UserReaction>
    var cachedContext: Option<string>

    ghost predicate Valid()
      reads this
    {
      |videosWatched| == |videosWatchedReaction| <= USER_VIDEO_MEMORY_LIMIT
    }

    constructor ()
      ensures Valid()
      ensures videosWatched == [] && videosWatchedReaction == [] && cachedContext == None
    {
      videosWatched := [];
      videosWatchedReaction := [];
      cachedContext := None;
    }

    /** `append_video`: push onto both deques and forget the memoised summary. */
    method AppendVideo(video: Video, reaction: UserReaction)
      requires Valid()
      modifies this
      ensures Valid()
      ensures videosWatched == BoundedAppend(old(videosWatched), video, USER_VIDEO_MEMORY_LIMIT)
      ensures videosWatchedReaction == BoundedAppend(old(videosWatchedReaction), reaction, USER_VIDEO_MEMORY_LIMIT)
      ensures cachedContext == None
    {
      videosWatched := videosWatched + [video];
      if |videosWatched| > USER_VIDEO_MEMORY_LIMIT {
        videosWatched := videosWatched[1..];
      }
      videosWatchedReaction := videosWatchedReaction + [reaction];
      if |videosWatchedReaction| > USER_VIDEO_MEMORY_LIMIT {
        videosWatchedReaction := videosWatchedReaction[1..];
      }
      cachedContext := None;
    }

    /**
     * The `context` property: the memoised summary when there is one;
     * otherwise the prompt is built entry by entry, handed to `summarize` (the
     * chat model), and the answer is memoised. A missing caption file fails
     * and leaves the memo empty.
     */
    method Context(files: map<string, string>, summarize: string -> string) returns (r: Result<string, string>)
      requires Valid()
      modifies this`cachedContext
      ensures Valid()
      ensures old(cachedContext).Some? ==>
        r == Success(old(cachedContext).value) && cachedContext == old(cachedContext)
      ensures old(cachedContext).None? ==>
        && r == Summary(PromptInput(videosWatched, videosWatchedReaction, files), summarize)
        && cachedContext == (if r.Success? then Some(r.value) else None)
    {
      if cachedContext.Some? {
        return Success(cachedContext.value);
      }
      var prompt := BuildPrompt(videosWatched, videosWatchedReaction, files);
      if prompt.Failure? {
        return Failure(prompt.error);
      }
      var response := summarize(prompt.value);
      cachedContext := Some(response);
      r := Success(response);
    }
  }

  /**
   * Asking twice in a row gives the same answer, even when the chat model
   * would answer differently the second time: a summary is memoised, and a
   * missing caption file fails again before the model is consulted.
   */
  method ContextIsMemoised(
    u: User, files: map<string, string>, summarize: string -> string, summarizeAgain: string -> string)
    returns (first: Result<string, string>, second: Result<string, string>)
    requires u.Valid()
    modifies u
    ensures second == first
    ensures first.Success? ==> u.cachedContext == Some(first.value)
  {
    first := u.Context(files, summarize);
    second := u.Context(files, summarizeAgain);
  }
}
