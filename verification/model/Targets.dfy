/**
 Where a volume is mounted. Its target's text is put right behind the text of the
 root path, so the two can run into one name, and `..` can lead out of the root.
 */
module Targets {
  import opened CStrings
  import opened Paths
  import opened Options
  import opened Volumes

  /** What is left of the target when both texts are put into one bounded buffer. */
  function Kept(rootfs: string, target: string): string
    requires |rootfs| < MAX_PATH_LEN
  {
    Take(target, MAX_PATH_LEN - 1 - |rootfs|)
  }

  lemma {:induction false} LastHasNoSlash(s: string)
    ensures '/' !in Scan(s).last
  {
    if s != [] {
      LastHasNoSlash(s[..|s| - 1]);
    }
  }

  /** Text put behind a path goes on with the path's unfinished name. */
  lemma {:induction false} NamesGlued(a: string, b: string)
    ensures Scan(a + b) == Scanned(Scan(a).names + Scan(Scan(a).last + b).names, Scan(Scan(a).last + b).last)
    ensures Names(a + b) == Scan(a).names + Names(Scan(a).last + b)
    decreases |b|
  {
    var last := Scan(a).last;
    if b == [] {
      assert a + b == a && last + b == last;
      LastHasNoSlash(a);
      if last != "" {
        OneName(last);
      }
    } else {
      var front := b[..|b| - 1];
      NamesGlued(a, front);
      assert (a + b)[..|a + b| - 1] == a + front && (last + b)[..|last + b| - 1] == last + front;
    }
  }

  /** The way of a volume's mount: the finished names of the root path, then the rest of both texts. */
  lemma VolumeWay(rootfs: string, v: MountPoint)
    requires |rootfs| < MAX_PATH_LEN
    ensures VolumeMount(rootfs, v).way == Names(rootfs + Kept(rootfs, v.target))
    ensures VolumeMount(rootfs, v).way == Scan(rootfs).names + Names(Scan(rootfs).last + Kept(rootfs, v.target))
  {
    hide Names, Scan;
    assert Under(rootfs, v.target) == rootfs + Kept(rootfs, v.target);
    NamesGlued(rootfs, Kept(rootfs, v.target));
  }

  /* ---- Staying inside the root ---- */

  /** The root path ends in the middle of a name and the target goes on with that name. */
  predicate RunsOn(rootfs: string, target: string) {
    rootfs != "" && target != "" && rootfs[|rootfs| - 1] != '/' && target[0] != '/'
  }

  /** How far below its start a way ends, each `..` counting one up. */
  function Height(w: Way): int {
    if w == [] then 0
    else
      var up, x := Height(w[..|w| - 1]), w[|w| - 1];
      if x == "." then up else if x == ".." then up - 1 else up + 1
  }

  /** The way never goes above its start. */
  predicate NeverClimbs(w: Way) {
    forall k | 0 <= k <= |w| :: Height(w[..k]) >= 0
  }

  /** From the `n`-th name on, the way is inside the root at every name. */
  predicate StaysInside(root: Place, w: Way, n: nat) {
    n <= |w| && forall k | n <= k <= |w| :: root <= Resolved(w[..k])
  }

  lemma {:induction false} HeightIsDepth(p: Place, w: Way)
    requires NeverClimbs(w)
    ensures p <= Go(p, w) && |Go(p, w)| == |p| + Height(w)
    decreases |w|
  {
    if w != [] {
      var front := w[..|w| - 1];
      forall k | 0 <= k <= |front|
        ensures Height(front[..k]) >= 0
      {
        assert front[..k] == w[..k];
      }
      HeightIsDepth(p, front);
      assert w[..|w|] == w;
      assert Height(w) >= 0;
    }
  }

  /** A way that goes above its start is outside at some name, unless the start is the root of everything. */
  lemma {:induction false} ClimbingLeaves(p: Place, w: Way) returns (k: nat)
    requires !NeverClimbs(w) && p != []
    ensures k <= |w| && !(p <= Go(p, w[..k]))
    decreases |w|
  {
    var front := w[..|w| - 1];
    if NeverClimbs(front) {
      k := |w|;
      assert w[..k] == w;
      HeightIsDepth(p, front);
      assert front[..|front|] == front;
      forall j | 0 <= j <= |front|
        ensures Height(w[..j]) >= 0
      {
        assert front[..j] == w[..j];
      }
      assert Height(w) < 0;
    } else {
      k := ClimbingLeaves(p, front);
      assert front[..k] == w[..k];
    }
  }

  lemma StaysInsideIff(first: Way, w: Way)
    ensures StaysInside(Resolved(first), first + w, |first|) <==> Resolved(first) == [] || NeverClimbs(w)
  {
    hide Go, Height;
    var root, whole := Resolved(first), first + w;
    forall k | |first| <= k <= |whole|
      ensures Resolved(whole[..k]) == Go(root, w[..k - |first|])
    {
      assert whole[..k] == first + w[..k - |first|];
      GoJoin([], first, w[..k - |first|]);
    }
    if NeverClimbs(w) {
      forall k | 0 <= k <= |w|
        ensures root <= Go(root, w[..k])
      {
        assert forall j | 0 <= j <= k :: w[..k][..j] == w[..j];
        HeightIsDepth(root, w[..k]);
      }
    } else if root != [] {
      var k := ClimbingLeaves(root, w);
      assert Resolved(whole[..|first| + k]) == Go(root, w[..k]);
    }
  }

  lemma {:induction false} ScanOfText(s: string)
    ensures Scan(s).last == "" <==> s == "" || s[|s| - 1] == '/'
  {
  }

  /** Two texts that run into one name: the name they make is longer. */
  lemma {:induction false} GluedName(x: string, b: string)
    requires x != "" && '/' !in x && b != "" && b[0] != '/'
    ensures Names(x + b) != [] && x < Names(x + b)[0]
    decreases |b|
  {
    var front := b[..|b| - 1];
    assert (x + b)[..|x + b| - 1] == x + front;
    if front == [] {
      assert x + front == x;
      OneName(x);
    } else {
      GluedName(x, front);
    }
  }

  /** Two texts that do not run into one name: the names of one, then the names of the other. */
  lemma NamesApart(a: string, b: string)
    requires !RunsOn(a, b)
    ensures Names(a + b) == Names(a) + Names(b)
  {
    ScanOfText(a);
    if b == "" {
      assert a + b == a;
    } else if Scan(a).last == "" {
      NamesGlued(a, b);
      assert "" + b == b;
    } else {
      NamesAppend(a, b[1..]);
      assert a + b == a + ['/'] + b[1..];
      NamesAppend("", b[1..]);
      assert b == "" + ['/'] + b[1..];
    }
  }

  lemma RunningOnLeaves(rootfs: string, b: string)
    requires RunsOn(rootfs, b) && Ordinary(Scan(rootfs).last)
    ensures !StaysInside(Resolved(Names(rootfs)), Names(rootfs + b), |Names(rootfs)|)
    ensures Resolved(Names(rootfs)) != []
  {
    hide Names, Resolved;
    var front, x := Scan(rootfs).names, Scan(rootfs).last;
    ScanOfText(rootfs);
    LastHasNoSlash(rootfs);
    NamesGlued(rootfs, b);
    GluedName(x, b);
    WholeNames(rootfs);
    OtherName(front, x, Names(x + b));
  }

  /** Another name in the same directory, and what follows it, is outside. */
  lemma OtherName(front: Way, x: string, rest: Way)
    requires Ordinary(x) && x != "" && rest != [] && x < rest[0]
    ensures Resolved(front + [x]) != [] && !StaysInside(Resolved(front + [x]), front + rest, |front + [x]|)
  {
    var g := rest[0];
    var n := |front| + 1;
    assert (front + rest)[..n] == front + [g];
    GoOne([], front, x);
    GoOne([], front, g);
    assert Ordinary(g) by { assert x == g[..|x|]; }
    var up := Resolved(front);
    assert (up + [g])[|up|] == g && (up + [x])[|up|] == x;
  }

  lemma WholeNames(s: string)
    requires Scan(s).last != ""
    ensures Names(s) == Scan(s).names + [Scan(s).last]
  {
  }

  /**
   From the root path on, the way to a volume's mount stays inside the root at every name exactly when the
   two texts do not run into one name and the target never goes above where it starts.
   */
  lemma VolumeStaysInRoot(rootfs: string, v: MountPoint)
    requires |rootfs| < MAX_PATH_LEN && Ordinary(Scan(rootfs).last)
    ensures var root, kept := Resolved(Names(rootfs)), Kept(rootfs, v.target);
            StaysInside(root, VolumeMount(rootfs, v).way, |Names(rootfs)|) <==>
            root == [] || (!RunsOn(rootfs, kept) && NeverClimbs(Names(kept)))
  {
    hide Names, Scan, Resolved, StaysInside, NeverClimbs;
    var kept := Kept(rootfs, v.target);
    VolumeWay(rootfs, v);
    if RunsOn(rootfs, kept) {
      RunningOnLeaves(rootfs, kept);
    } else {
      NamesApart(rootfs, kept);
      StaysInsideIff(Names(rootfs), Names(kept));
    }
  }

  /* ---- Ending inside the root ---- */

  /** What a way comes to: so many steps up, then these names down. */
  datatype Reduced = Reduced(ups: nat, down: Place)

  function Reduce(w: Way): Reduced {
    if w == [] then Reduced(0, [])
    else
      var r, x := Reduce(w[..|w| - 1]), w[|w| - 1];
      if x == "." then r
      else if x != ".." then r.(down := r.down + [x])
      else if r.down == [] then r.(ups := r.ups + 1)
      else r.(down := Above(r.down))
  }

  /** A place without its last names. */
  function Up(p: Place, n: nat): Place {
    if n >= |p| then [] else p[..|p| - n]
  }

  lemma {:induction false} GoReduced(p: Place, w: Way)
    ensures Go(p, w) == Up(p, Reduce(w).ups) + Reduce(w).down
    decreases |w|
  {
    if w == [] {
      assert p[..|p|] + [] == p;
    } else {
      var front, x := w[..|w| - 1], w[|w| - 1];
      GoReduced(p, front);
      ReducedStep(p, Reduce(front), x);
    }
  }

  lemma ReducedStep(p: Place, r: Reduced, x: string)
    ensures GoOn(Up(p, r.ups) + r.down, x) ==
            if x == "." then Up(p, r.ups) + r.down
            else if x != ".." then Up(p, r.ups) + (r.down + [x])
            else if r.down == [] then Up(p, r.ups + 1) + []
            else Up(p, r.ups) + Above(r.down)
  {
    var base := Up(p, r.ups);
    if r.down == [] {
      assert base + r.down == base;
      assert Up(p, r.ups + 1) == Above(base);
    } else {
      assert Above(base + r.down) == base + Above(r.down);
    }
  }

  /** The names of a place from the `n`-th on. */
  function Beyond(p: Place, n: nat): Place {
    if n >= |p| then [] else p[n..]
  }

  /** The root and the place its last name starts from agree as far as both go. */
  predicate Related(p: Place, q: Place) {
    p <= q || q <= p
  }

  lemma InsideIff(root: Place, p: Place, ups: nat, down: Place)
    requires Related(root, p)
    ensures root <= Up(p, ups) + down <==> Beyond(root, |Up(p, ups)|) <= down
  {
    var base := Up(p, ups);
    var n := |base|;
    assert base <= p;
    if n < |root| {
      assert root[..n] == base;
      assert root == base + root[n..];
      assert (base + down)[n..] == down;
      if root <= base + down {
        assert root[n..] == (base + down)[n..|root|];
      }
    } else {
      assert root <= base;
    }
  }

  /**
   A volume's mount ends up inside the root exactly when the names of the root that its target climbs over
   are named again on the way down. The target's text counts from the root path's last name, which it may go on with.
   */
  lemma VolumeEndsInRootIff(rootfs: string, v: MountPoint)
    requires |rootfs| < MAX_PATH_LEN
    ensures var root, start := Resolved(Names(rootfs)), Resolved(Scan(rootfs).names);
            var r := Reduce(Names(Scan(rootfs).last + Kept(rootfs, v.target)));
            root <= VolumeMount(rootfs, v).Target() <==> Beyond(root, |Up(start, r.ups)|) <= r.down
  {
    hide Names, Reduce, Up, Beyond;
    var root, start := Resolved(Names(rootfs)), Resolved(Scan(rootfs).names);
    var rest := Names(Scan(rootfs).last + Kept(rootfs, v.target));
    VolumeWay(rootfs, v);
    GoJoin([], Scan(rootfs).names, rest);
    GoReduced(start, rest);
    assert Related(root, start) by { RootAndStart(rootfs); }
    InsideIff(root, start, Reduce(rest).ups, Reduce(rest).down);
  }

  lemma RootAndStart(rootfs: string)
    ensures Related(Resolved(Names(rootfs)), Resolved(Scan(rootfs).names))
  {
    if Scan(rootfs).last != "" {
      GoOne([], Scan(rootfs).names, Scan(rootfs).last);
    }
  }

  /* ---- Two volumes that end up outside ---- */

  function VolumeAt(target: string): MountPoint {
    MountPoint("/src", target, "bind", MS_BIND)
  }

  /** `..` leads out of the root. */
  lemma ClimbingVolume()
    ensures VolumeMount("/img/rootfs", VolumeAt("/../../../etc")).Target() == ["etc"]
  {
    hide Names, Scan, Go, Take;
    assert Under("/img/rootfs", "/../../../etc") == "/img/rootfs" + "/../../../etc" by {
      TakeWhole("/img/rootfs" + "/../../../etc");
    }
    ClimbingNames();
    var inner, ups := ["img", "rootfs"], ["..", "..", ".."];
    assert ["img", "rootfs", "..", "..", "..", "etc"] == inner + ups + ["etc"];
    GoJoin([], inner + ups, ["etc"]);
    GoJoin([], inner, ups);
    OrdinaryWay(inner);
    OrdinaryWay(["etc"]);
    StepsUp(inner);
  }

  lemma ClimbingNames()
    ensures Names("/img/rootfs" + "/../../../etc") == ["img", "rootfs", "..", "..", "..", "etc"]
  {
    hide Names, Scan;
    assert "/img/rootfs" + "/../../../etc" == "/img/rootfs" + ['/'] + ("../../.." + ['/'] + "etc");
    assert "/img/rootfs" == "" + ['/'] + ("img" + ['/'] + "rootfs");
    assert "../../.." == ".." + ['/'] + (".." + ['/'] + "..");
    NamesAppend("/img/rootfs", "../../.." + ['/'] + "etc");
    NamesAppend("", "img" + ['/'] + "rootfs");
    NamesAppend("img", "rootfs");
    NamesAppend("../../..", "etc");
    NamesAppend("..", ".." + ['/'] + "..");
    NamesAppend("..", "..");
    NoName();
    OneName("img");
    OneName("rootfs");
    OneName("..");
    OneName("etc");
  }

  lemma OrdinaryWay(w: Way)
    requires Plain(w)
    ensures Resolved(w) == w
  {
    GoOrdinary([], w);
    assert [] + w == w;
  }

  lemma TakeWhole(s: string)
    requires |s| < MAX_PATH_LEN
    ensures Take(s, MAX_PATH_LEN - 1) == s
  {
  }

  lemma NoName()
    ensures Names("") == []
  {
  }

  lemma StepsUp(p: Place)
    requires |p| == 2
    ensures Go(p, ["..", "..", ".."]) == []
  {
    assert ["..", ".."] + [".."] == ["..", "..", ".."] && [".."] + [".."] == ["..", ".."] && [] + [".."] == [".."];
    GoOne(p, ["..", ".."], "..");
    GoOne(p, [".."], "..");
    GoOne(p, [], "..");
  }

  /** Without a slash of its own the target goes on with the root's last name. */
  lemma GluedVolume()
    ensures VolumeMount("/c", VolumeAt("data")).Target() == ["cdata"]
  {
    hide Names, Scan, Go, Take;
    var text := "/c" + "data";
    assert Under("/c", "data") == text by { TakeWhole(text); }
    assert text == "" + ['/'] + "cdata";
    NamesAppend("", "cdata");
    NoName();
    OneName("cdata");
    assert Names(text) == ["cdata"];
    OrdinaryWay(["cdata"]);
  }
}
