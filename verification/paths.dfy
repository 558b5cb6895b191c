/** Path arithmetic (Python's posixpath on the operations the job engine
    uses) and the collision-free output-name allocator.  The filesystem is a
    finite set of the paths that exist. */
module Paths {
  import opened Common

  const Sep: char := '/'

  /** Index of the last separator of p, or -1 when there is none. */
  function LastSep(p: string): (i: int)
    ensures -1 <= i < |p|
    ensures i >= 0 ==> p[i] == Sep
    ensures forall j :: i < j < |p| ==> p[j] != Sep
    ensures forall j :: 0 <= j < |p| && p[j] == Sep ==> j <= i
  {
    if |p| == 0 then -1
    else if p[|p| - 1] == Sep then |p| - 1
    else LastSep(p[..|p| - 1])
  }

  predicate AllSeps(s: string) { forall i :: 0 <= i < |s| ==> s[i] == Sep }

  function RStripSeps(s: string): (r: string)
    ensures |r| <= |s| && r == s[..|r|]
    ensures |r| > 0 ==> r[|r| - 1] != Sep
  {
    if |s| > 0 && s[|s| - 1] == Sep then RStripSeps(s[..|s| - 1]) else s
  }

  /** os.path.basename: everything after the last separator. */
  function Basename(p: string): (b: string)
    ensures forall i :: 0 <= i < |b| ==> b[i] != Sep
    ensures EndsWith(p, b)
  {
    p[LastSep(p) + 1..]
  }

  /** os.path.dirname: everything up to the last separator, with trailing
      separators removed unless the head consists of separators only. */
  function Dirname(p: string): (d: string)
    ensures StartsWith(p, d)
  {
    var head := p[..LastSep(p) + 1];
    if |head| > 0 && !AllSeps(head) then RStripSeps(head) else head
  }

  /** os.path.join(a, b) for two components. */
  function Join(a: string, b: string): string
  {
    if |b| > 0 && b[0] == Sep then b
    else if |a| == 0 || a[|a| - 1] == Sep then a + b
    else a + [Sep] + b
  }

  /** True when some character of name before index k is not a dot. */
  predicate HasNonDotBefore(name: string, k: nat)
    requires k <= |name|
  {
    exists i :: 0 <= i < k && name[i] != '.'
  }

  /** Index of the last '.' of s, or -1. */
  function LastDot(s: string): (i: int)
    ensures -1 <= i < |s|
    ensures i >= 0 ==> s[i] == '.'
    ensures forall j :: i < j < |s| ==> s[j] != '.'
    ensures forall j :: 0 <= j < |s| && s[j] == '.' ==> j <= i
  {
    if |s| == 0 then -1
    else if s[|s| - 1] == '.' then |s| - 1
    else LastDot(s[..|s| - 1])
  }

  /** os.path.splitext(name)[0] for a name without separators: the
      extension starts at the last dot, unless only dots precede it. */
  function StemOfName(name: string): (stem: string)
    ensures StartsWith(name, stem)
  {
    var k := LastDot(name);
    if k >= 0 && HasNonDotBefore(name, k) then name[..k] else name
  }

  /** os.path.splitext(os.path.basename(path))[0] */
  function Stem(path: string): string
  {
    StemOfName(Basename(path))
  }

  // ---------------------------------------------------------------------
  // Output-name allocation
  // ---------------------------------------------------------------------

  /** An output file name `base_tag.ext` or `base_tag_N.ext`. */
  datatype OutputName = OutputName(base: string, tag: string, counter: Option<nat>, ext: string)
  {
    function FileName(): string
    {
      base + "_" + tag
        + (match counter case None => "" case Some(n) => "_" + NatToString(n))
        + ext
    }
  }

  function PathOf(dir: string, n: OutputName): string
  {
    Join(dir, n.FileName())
  }

  function Numbered(base: string, tag: string, k: nat, ext: string): OutputName
  {
    OutputName(base, tag, Some(k), ext)
  }

  /** Existing paths not yet passed over by a search that has tried the
      counters 1 .. k-1. */
  ghost function Remaining(fs: set<string>, dir: string, base: string, tag: string, ext: string, k: nat): set<string>
  {
    set x | x in fs && forall j: nat :: 1 <= j < k ==> x != PathOf(dir, Numbered(base, tag, j, ext))
  }

  lemma JoinAppend(dir: string, a: string, rest: string)
    requires |a| >= 1
    ensures Join(dir, a + rest) == Join(dir, a) + rest
  {
    var b := a + rest;
    assert b[0] == a[0];
    if a[0] == Sep {
      assert Join(dir, b) == b && Join(dir, a) == a;
    } else if |dir| == 0 || dir[|dir| - 1] == Sep {
      assert Join(dir, b) == dir + b && Join(dir, a) == dir + a;
      assert dir + b == (dir + a) + rest;
    } else {
      assert Join(dir, b) == dir + [Sep] + b && Join(dir, a) == dir + [Sep] + a;
      assert dir + [Sep] + b == (dir + [Sep] + a) + rest;
    }
  }

  /** Numbered candidates in one directory are pairwise distinct. */
  lemma NumberedInjective(dir: string, base: string, tag: string, ext: string, j: nat, k: nat)
    requires PathOf(dir, Numbered(base, tag, j, ext)) == PathOf(dir, Numbered(base, tag, k, ext))
    ensures j == k
  {
    var s := base + "_" + tag;
    var a := "_" + NatToString(j);
    var b := "_" + NatToString(k);
    NumberedPath(dir, base, tag, j, ext);
    NumberedPath(dir, base, tag, k, ext);
    CancelLeft(Join(dir, s), a + ext, b + ext);
    CancelRight(a, b, ext);
    CancelLeft("_", NatToString(j), NatToString(k));
    NatToStringInjective(j, k);
  }

  /** A numbered path is the joined unnumbered prefix followed by the
      counter and the extension. */
  lemma NumberedPath(dir: string, base: string, tag: string, k: nat, ext: string)
    ensures PathOf(dir, Numbered(base, tag, k, ext))
            == Join(dir, base + "_" + tag) + (("_" + NatToString(k)) + ext)
  {
    var s := base + "_" + tag;
    var a := "_" + NatToString(k);
    assert Numbered(base, tag, k, ext).FileName() == s + (a + ext);
    JoinAppend(dir, s, a + ext);
  }

  lemma CancelLeft(p: string, x: string, y: string)
    requires p + x == p + y
    ensures x == y
  {
    assert x == (p + x)[|p|..];
  }

  lemma CancelRight(x: string, y: string, e: string)
    requires x + e == y + e
    ensures x == y
  {
    assert |x| == |y|;
    assert x == (x + e)[..|x|];
  }

  lemma RemainingShrinks(fs: set<string>, dir: string, base: string, tag: string, ext: string, k: nat)
    requires k >= 1
    requires PathOf(dir, Numbered(base, tag, k, ext)) in fs
    ensures Remaining(fs, dir, base, tag, ext, k + 1) < Remaining(fs, dir, base, tag, ext, k)
  {
    var c := PathOf(dir, Numbered(base, tag, k, ext));
    forall j: nat | 1 <= j < k
      ensures c != PathOf(dir, Numbered(base, tag, j, ext))
    {
      if c == PathOf(dir, Numbered(base, tag, j, ext)) {
        NumberedInjective(dir, base, tag, ext, j, k);
      }
    }
    assert c in Remaining(fs, dir, base, tag, ext, k);
    assert c !in Remaining(fs, dir, base, tag, ext, k + 1);
  }

  /** The smallest counter N >= k whose numbered name is free. */
  function FirstFree(fs: set<string>, dir: string, base: string, tag: string, ext: string, k: nat): (n: nat)
    requires k >= 1
    ensures n >= k
    ensures PathOf(dir, Numbered(base, tag, n, ext)) !in fs
    ensures forall j: nat :: k <= j < n ==> PathOf(dir, Numbered(base, tag, j, ext)) in fs
    decreases Remaining(fs, dir, base, tag, ext, k)
  {
    if PathOf(dir, Numbered(base, tag, k, ext)) !in fs then k
    else
      RemainingShrinks(fs, dir, base, tag, ext, k);
      FirstFree(fs, dir, base, tag, ext, k + 1)
  }

  /** The first unused output name: `base_tag.ext` when free, otherwise
      `base_tag_N.ext` for the smallest free N >= 1. */
  function Allocate(fs: set<string>, dir: string, base: string, tag: string, ext: string): (n: OutputName)
    ensures n.base == base && n.tag == tag && n.ext == ext
    ensures PathOf(dir, n) !in fs
    ensures n.counter.None? <==> PathOf(dir, OutputName(base, tag, None, ext)) !in fs
    ensures n.counter.Some? ==>
      && n.counter.value >= 1
      && forall j: nat :: 1 <= j < n.counter.value ==> PathOf(dir, Numbered(base, tag, j, ext)) in fs
  {
    var plain := OutputName(base, tag, None, ext);
    if PathOf(dir, plain) !in fs then plain
    else Numbered(base, tag, FirstFree(fs, dir, base, tag, ext, 1), ext)
  }

  /** Allocating, creating the chosen file and allocating again never
      returns the same path twice. */
  lemma AllocateAfterCreateDiffers(fs: set<string>, dir: string, base: string, tag: string, ext: string)
    ensures var first := PathOf(dir, Allocate(fs, dir, base, tag, ext));
            PathOf(dir, Allocate(fs + {first}, dir, base, tag, ext)) != first
  {
  }

  /** The allocator's choice is determined: when the plain name is taken
      and c is the smallest free counter, the result is `base_tag_c.ext`. */
  lemma AllocateIsSmallestFree(fs: set<string>, dir: string, base: string, tag: string, ext: string, c: nat)
    requires c >= 1
    requires PathOf(dir, OutputName(base, tag, None, ext)) in fs
    requires forall j: nat :: 1 <= j < c ==> PathOf(dir, Numbered(base, tag, j, ext)) in fs
    requires PathOf(dir, Numbered(base, tag, c, ext)) !in fs
    ensures Allocate(fs, dir, base, tag, ext) == Numbered(base, tag, c, ext)
  {
    var n := Allocate(fs, dir, base, tag, ext);
    assert n == Numbered(base, tag, n.counter.value, ext);
  }

  /** The candidate names of `clip` in `out` for the 9:16 mode. */
  lemma PlainExampleName()
    ensures PathOf("out", OutputName("clip", "9_16", None, ".mp4")) == "out/clip_9_16.mp4"
  {
    assert OutputName("clip", "9_16", None, ".mp4").FileName() == "clip_9_16.mp4";
  }

  lemma NumberedExampleName(k: nat, digit: string)
    requires k < 10 && digit == NatToString(k)
    ensures PathOf("out", Numbered("clip", "9_16", k, ".mp4")) == "out/clip_9_16_" + digit + ".mp4"
  {
    var name := "clip_9_16_" + digit + ".mp4";
    assert Numbered("clip", "9_16", k, ".mp4").FileName() == name;
    assert name[0] != Sep;
    assert "out" + [Sep] + name == "out/clip_9_16_" + digit + ".mp4";
  }

  lemma ExampleNames()
    ensures PathOf("out", OutputName("clip", "9_16", None, ".mp4")) == "out/clip_9_16.mp4"
    ensures PathOf("out", Numbered("clip", "9_16", 1, ".mp4")) == "out/clip_9_16_1.mp4"
    ensures PathOf("out", Numbered("clip", "9_16", 2, ".mp4")) == "out/clip_9_16_2.mp4"
  {
    PlainExampleName();
    assert NatToString(1) == "1";
    NumberedExampleName(1, "1");
    assert NatToString(2) == "2";
    NumberedExampleName(2, "2");
  }

  /** With `clip_9_16.mp4` present the next name is `clip_9_16_1.mp4`. */
  lemma AllocateSecondExample()
    ensures PathOf("out", Allocate({"out/clip_9_16.mp4"}, "out", "clip", "9_16", ".mp4"))
            == "out/clip_9_16_1.mp4"
  {
    ExampleNames();
    AllocateIsSmallestFree({"out/clip_9_16.mp4"}, "out", "clip", "9_16", ".mp4", 1);
  }

  /** Once `clip_9_16_1.mp4` exists too, the next name is `clip_9_16_2.mp4`. */
  lemma AllocateThirdExample()
    ensures PathOf("out", Allocate({"out/clip_9_16.mp4", "out/clip_9_16_1.mp4"}, "out", "clip", "9_16", ".mp4"))
            == "out/clip_9_16_2.mp4"
  {
    var fs := {"out/clip_9_16.mp4", "out/clip_9_16_1.mp4"};
    ExampleNames();
    forall j: nat | 1 <= j < 2
      ensures PathOf("out", Numbered("clip", "9_16", j, ".mp4")) in fs
    {
      assert j == 1;
    }
    AllocateIsSmallestFree(fs, "out", "clip", "9_16", ".mp4", 2);
  }
}
