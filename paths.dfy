/**
 * The path arithmetic the core uses, on '/'-separated paths: `os.path.basename`
 * and `Path.name`, `Path.parent`, `parent / name`, `Path.suffix`, `Path.stem`
 * and the root part of `os.path.splitext`.
 */
module Paths {
  import opened Text

  /** `s.rfind(c)`: the last position of `c`, or -1. */
  function LastIndexOf(s: string, c: char): (i: int)
    ensures -1 <= i < |s|
    ensures i >= 0 ==> s[i] == c
    ensures forall j :: i < j < |s| ==> s[j] != c
    decreases |s|
  {
    if |s| == 0 then -1
    else if s[|s| - 1] == c then |s| - 1
    else LastIndexOf(s[..|s| - 1], c)
  }

  /** The last component of a path (`Path.name`, `os.path.basename`). */
  function Basename(p: string): (r: string)
    ensures '/' !in r && EndsWith(p, r)
  {
    p[LastIndexOf(p, '/') + 1..]
  }

  /** `Path.parent`: "." for a bare name, "/" for a top-level entry. */
  function Parent(p: string): string {
    var i := LastIndexOf(p, '/');
    if i < 0 then "." else if i == 0 then "/" else p[..i]
  }

  /** `Path(dir) / name`. */
  function JoinPath(dir: string, name: string): string {
    if dir == "." then name else if dir == "/" then "/" + name else dir + "/" + name
  }

  /**
   * A name placed next to a path lands in the same directory, under exactly
   * that name.
   */
  lemma {:induction false} Sibling(p: string, name: string)
    requires '/' !in name
    ensures Basename(JoinPath(Parent(p), name)) == name
    ensures Parent(JoinPath(Parent(p), name)) == Parent(p)
  {
    var d := Parent(p);
    var q := JoinPath(d, name);
    if d == "." {
      assert LastIndexOf(q, '/') == -1;
    } else {
      var k := |q| - |name| - 1;
      assert q == q[..k] + ['/'] + name;
      assert q[k] == '/';
      assert forall j :: k < j < |q| ==> q[j] == name[j - k - 1];
      LastIndexAt(q, '/', k);
      assert q[..k] == (if d == "/" then "" else d);
    }
  }

  /** Two names joined onto the same directory give the same path only when they are equal. */
  lemma JoinPathInjective(dir: string, x: string, y: string)
    requires JoinPath(dir, x) == JoinPath(dir, y)
    ensures x == y
  {
    if dir == "/" {
      assert JoinPath(dir, x)[1..] == x;
      assert JoinPath(dir, y)[1..] == y;
    } else if dir != "." {
      var p := dir + "/";
      assert JoinPath(dir, x)[|p|..] == x;
      assert JoinPath(dir, y)[|p|..] == y;
    }
  }

  lemma LastIndexAt(s: string, c: char, k: nat)
    requires k < |s| && s[k] == c
    requires forall j :: k < j < |s| ==> s[j] != c
    ensures LastIndexOf(s, c) == k
  {
  }

  /** `PurePath.suffix` of a name: from its last '.', unless that dot is first or last. */
  function Suffix(name: string): string {
    var i := LastIndexOf(name, '.');
    if 0 < i < |name| - 1 then name[i..] else ""
  }

  /** `PurePath.stem` of a name: the name without its suffix. */
  function StemOfName(name: string): string {
    var i := LastIndexOf(name, '.');
    if 0 < i < |name| - 1 then name[..i] else name
  }

  /** `Path(p).stem`. */
  function Stem(p: string): string {
    StemOfName(Basename(p))
  }

  /** Stem and suffix split a name in two; a suffix is empty or one '.' and no other. */
  lemma StemSuffix(name: string)
    ensures StemOfName(name) + Suffix(name) == name
    ensures Suffix(name) == "" || (Suffix(name)[0] == '.' && '.' !in Suffix(name)[1..])
  {
    var i := LastIndexOf(name, '.');
    if 0 < i < |name| - 1 {
      assert name[i..][1..] == name[i + 1..];
    }
  }

  predicate AllDots(s: string) {
    forall j :: 0 <= j < |s| ==> s[j] == '.'
  }

  /**
   * `os.path.splitext(name)[0]` for a name without '/': the name up to its
   * last '.', unless only dots come before that dot.
   */
  function SplitExtRoot(name: string): string {
    var i := LastIndexOf(name, '.');
    if i <= 0 || AllDots(name[..i]) then name else name[..i]
  }
}
