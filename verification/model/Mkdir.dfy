/** mkdir_recursive: walking a path, cutting it at each slash in place, and making every directory on the way. */
module Mkdir {
  import opened Wrappers
  import opened CStrings
  import opened Paths
  import opened Faults

  datatype Kind = Directory | RegularFile

  type Tree = map<Place, Kind>

  predicate IsDirectory(tree: Tree, c: Place) {
    c in tree && tree[c] == Directory
  }

  /** A place made of ordinary names, in a directory. */
  predicate WellPlaced(tree: Tree, c: Place) {
    Plain(c) && IsDirectory(tree, Above(c))
  }

  /** Everything but the root lies in a directory, under a name other than `.` and `..`. */
  ghost predicate ParentClosed(tree: Tree) {
    IsDirectory(tree, []) && forall c {:trigger WellPlaced(tree, c)} :: c in tree ==> WellPlaced(tree, c)
  }

  /* ---- Paths ---- */

  /** Where a path starts from: the root, or the working directory. */
  function BaseOf(cwd: Place, s: string): Way {
    if s != "" && s[0] == '/' then [] else cwd
  }

  /** The way that a path spells, from the root on. */
  function WayOf(cwd: Place, s: string): Way {
    BaseOf(cwd, s) + Names(s)
  }

  /** Every name of the way but the last leads to a directory. */
  predicate Passable(tree: Tree, w: Way) {
    forall k | 0 <= k < |w| :: IsDirectory(tree, Resolved(w[..k]))
  }

  /* ---- mkdir ---- */

  datatype Errno = Made | Exists | Failed

  /** mkdir on a path: it fails for the empty path, when the way there is not all directories, or by itself. */
  function MkdirAt(tree: Tree, cwd: Place, s: string, fault: bool): (Tree, Errno) {
    var c := Resolved(WayOf(cwd, s));
    if s == "" || !Passable(tree, WayOf(cwd, s)) then (tree, Failed)
    else if c in tree then (tree, Exists)
    else if fault then (tree, Failed)
    else (tree[c := Directory], Made)
  }

  datatype MkdirResult = MkdirResult(tree: Tree, clock: nat, status: Status)

  /** The walk from position `k` of the path on. */
  function MakeFrom(tree: Tree, cwd: Place, s: string, k: nat, t: nat, faults: nat -> bool): MkdirResult
    decreases |s| - k
  {
    if k < |s| && s[k] != '/' then MakeFrom(tree, cwd, s, k + 1, t, faults)
    else
      var (tree', e) := MkdirAt(tree, cwd, if k < |s| then s[..k] else s, faults(t));
      if e == Failed then MkdirResult(tree', t + 1, Esyscall)
      else if k < |s| then MakeFrom(tree', cwd, s, k + 1, t + 1, faults)
      else MkdirResult(tree', t + 1, Ok)
  }

  /** What is left of a path in the buffer: bounded, and without one trailing slash. */
  function Walked(path: string): string {
    var s := Take(path, MAX_PATH_LEN - 1);
    if s != "" && s[|s| - 1] == '/' then s[..|s| - 1] else s
  }

  class FileSystem {
    var tree: Tree
    var clock: nat
    const cwd: Place
    const faults: nat -> bool

    constructor (tree: Tree, cwd: Place, faults: nat -> bool)
      ensures this.tree == tree && this.cwd == cwd && this.faults == faults && clock == 0
    {
      this.tree, this.cwd, this.faults, clock := tree, cwd, faults, 0;
    }

    method MakeDirectory(s: string) returns (e: Errno)
      modifies this
      ensures (tree, e) == MkdirAt(old(tree), cwd, s, faults(old(clock))) && clock == old(clock) + 1
    {
      var c := Resolved(WayOf(cwd, s));
      var fault := faults(clock);
      clock := clock + 1;
      if s == "" || !Passable(tree, WayOf(cwd, s)) {
        e := Failed;
      } else if c in tree {
        e := Exists;
      } else if fault {
        e := Failed;
      } else {
        tree := tree[c := Directory];
        e := Made;
      }
    }

    /** The walk over the buffer: every slash is cut, used and put back. */
    method MkdirRecursive(path: string) returns (status: Status)
      requires path != "" && NUL !in path
      modifies this
      ensures MkdirResult(tree, clock, status) == MakeFrom(old(tree), cwd, Walked(path), 1, old(clock), faults)
      ensures status == Ok || status == Esyscall
      ensures ParentClosed(old(tree)) && cwd in old(tree) ==>
                && ParentClosed(tree)
                && (status == Ok ==> tree == Extend(old(tree), Leads(cwd, path)) && Reached(tree, Leads(cwd, path)))
    {
      hide MakeFrom, MkdirAt, Walked, StrAt, Find, ParentClosed, Extend, Reached, Leads, NoFileOnWay;
      if ParentClosed(tree) && cwd in tree {
        MkdirRecursiveResult(tree, cwd, path, clock, faults);
      }
      var tmp := PathBuffer(path);
      ghost var s := Walked(path);
      ghost var goal := MakeFrom(tree, cwd, s, 1, clock, faults);
      var p := 1;
      while tmp[p] != NUL
        invariant 1 <= p < tmp.Length && |s| < tmp.Length && (p <= |s| || (p == 1 && tmp[1] == NUL))
        invariant tmp[..|s|] == s && tmp[|s|] == NUL
        invariant MakeFrom(tree, cwd, s, p, clock, faults) == goal
        decreases tmp.Length - p
      {
        assert p < |s| && tmp[p] == tmp[..|s|][p] == s[p];
        MakeFromStep(tree, cwd, s, p, clock, faults);
        if tmp[p] == '/' {
          tmp[p] := NUL;
          assert tmp[..p] == s[..p];
          BufferHolds(tmp[..], s[..p]);
          var part := ReadString(tmp, 0);
          var e := MakeDirectory(part);
          if e == Failed {
            return Esyscall;
          }
          tmp[p] := '/';
          assert tmp[..|s|] == s;
        }
        p := p + 1;
      }
      WalkEnds(tmp[..], s, p);
      MakeFromEnd(tree, cwd, s, p, clock, faults);
      BufferHolds(tmp[..], s);
      var whole := ReadString(tmp, 0);
      var e := MakeDirectory(whole);
      status := if e == Failed then Esyscall else Ok;
    }
  }

  /** The local buffer: a bounded copy of the path, without one trailing slash. */
  method PathBuffer(path: string) returns (tmp: array<char>)
    requires path != "" && NUL !in path
    ensures fresh(tmp) && tmp.Length == MAX_PATH_LEN
    ensures var s := Walked(path);
            && |s| < tmp.Length && tmp[..|s|] == s && tmp[|s|] == NUL && NUL !in s
            && (s == "" ==> tmp[1] == NUL)
  {
    hide StrAt, Find;
    var text := Take(path, MAX_PATH_LEN - 1);
    tmp := new char[MAX_PATH_LEN];
    forall k | 0 <= k < |text| {
      tmp[k] := text[k];
    }
    tmp[|text|] := NUL;
    assert tmp[..|text|] == text;
    BufferHolds(tmp[..], text);
    var len := StrLen(tmp, 0);
    if tmp[len - 1] == '/' {
      tmp[len - 1] := NUL;
    }
  }

  lemma MakeFromStep(tree: Tree, cwd: Place, s: string, k: nat, t: nat, faults: nat -> bool)
    requires k < |s|
    ensures MakeFrom(tree, cwd, s, k, t, faults) ==
            if s[k] != '/' then MakeFrom(tree, cwd, s, k + 1, t, faults)
            else
              var (tree', e) := MkdirAt(tree, cwd, s[..k], faults(t));
              if e == Failed then MkdirResult(tree', t + 1, Esyscall) else MakeFrom(tree', cwd, s, k + 1, t + 1, faults)
  {
    hide MkdirAt;
  }

  lemma MakeFromEnd(tree: Tree, cwd: Place, s: string, k: nat, t: nat, faults: nat -> bool)
    requires k >= |s|
    ensures MakeFrom(tree, cwd, s, k, t, faults) ==
            var (tree', e) := MkdirAt(tree, cwd, s, faults(t));
            MkdirResult(tree', t + 1, if e == Failed then Esyscall else Ok)
  {
    hide MkdirAt;
  }

  /** The walk stops at the terminator, not before. */
  lemma WalkEnds(b: seq<char>, s: string, p: nat)
    requires |s| < |b| && b[..|s|] == s && NUL !in s && p < |b| && b[p] == NUL
    ensures p >= |s|
  {
    assert forall k | 0 <= k < |s| :: b[k] == s[k];
  }

  lemma BufferHolds(b: seq<char>, s: string)
    requires |s| < |b| && b[..|s|] == s && b[|s|] == NUL && NUL !in s
    ensures Terminated(b, 0) && StrAt(b, 0) == s
  {
    StrAtLocal(b, 0, s);
  }

  /* ---- What the walk does to the tree ---- */

  /** The tree with every missing directory that the way leads through, and the one it ends at. */
  function Extend(tree: Tree, w: Way): Tree {
    if w == [] then tree
    else
      var above, c := Extend(tree, w[..|w| - 1]), Resolved(w);
      if c in above then above else above[c := Directory]
  }

  /** No regular file lies on the way before its end. */
  predicate NoFileOnWay(tree: Tree, w: Way) {
    forall k | 0 <= k < |w| :: Resolved(w[..k]) in tree ==> tree[Resolved(w[..k])] == Directory
  }

  /** The way can be walked, and there is something at its end. */
  predicate Reached(tree: Tree, w: Way) {
    Passable(tree, w) && Resolved(w) in tree
  }

  /** Extend keeps what is there and adds only directories that the way leads through, all of them. */
  lemma {:induction false} ExtendIs(tree: Tree, w: Way)
    ensures forall q :: q in tree ==> q in Extend(tree, w) && Extend(tree, w)[q] == tree[q]
    ensures forall q :: q in Extend(tree, w) && q !in tree ==>
              Extend(tree, w)[q] == Directory && exists k :: 1 <= k <= |w| && q == Resolved(w[..k])
    ensures forall k | 1 <= k <= |w| :: Resolved(w[..k]) in Extend(tree, w)
    decreases |w|
  {
    hide Resolved;
    if w != [] {
      var up := w[..|w| - 1];
      ExtendIs(tree, up);
      assert forall k | 0 <= k < |w| :: w[..k] == up[..k];
      assert w[..|w|] == w;
    }
  }

  /** Any tree that holds the old one and in which the way can be walked to its end holds the extended tree. */
  lemma ExtendLeast(tree: Tree, w: Way, larger: Tree)
    requires tree.Keys <= larger.Keys && Reached(larger, w)
    ensures Extend(tree, w).Keys <= larger.Keys
  {
    hide Extend, Resolved;
    ExtendIs(tree, w);
    forall q | q in Extend(tree, w)
      ensures q in larger
    {
      if q !in tree {
        var k :| 1 <= k <= |w| && q == Resolved(w[..k]);
        assert w[..|w|] == w;
      }
    }
  }

  /** Extending along a way that can be walked to its end changes nothing. */
  lemma {:induction false} ExtendExisting(tree: Tree, w: Way)
    requires Reached(tree, w)
    ensures Extend(tree, w) == tree
    decreases |w|
  {
    hide Resolved;
    if w != [] {
      var up := w[..|w| - 1];
      assert forall k | 0 <= k < |up| :: up[..k] == w[..k];
      ExtendExisting(tree, up);
    }
  }

  /** In a parent-closed tree everything above something that exists is a directory. */
  lemma {:induction false} AboveIsDirectory(tree: Tree, c: Place, k: nat)
    requires ParentClosed(tree) && c in tree && k < |c|
    ensures IsDirectory(tree, c[..k])
    decreases |c|
  {
    assert WellPlaced(tree, c);
    if k < |c| - 1 {
      AboveIsDirectory(tree, c[..|c| - 1], k);
      assert c[..|c| - 1][..k] == c[..k];
    }
  }

  /** The working directory can be walked to. */
  lemma BaseReached(tree: Tree, cwd: Place, s: string)
    requires ParentClosed(tree) && cwd in tree
    ensures Reached(tree, BaseOf(cwd, s))
  {
    var base := BaseOf(cwd, s);
    assert WellPlaced(tree, cwd);
    GoOrdinary([], base);
    assert [] + base == base;
    forall k | 0 <= k < |base|
      ensures IsDirectory(tree, Resolved(base[..k]))
    {
      AboveIsDirectory(tree, base, k);
      assert forall x :: x in base[..k] ==> x in base;
      GoOrdinary([], base[..k]);
      assert [] + base[..k] == base[..k];
    }
  }

  /** A place that is missing at the end of a way that can be walked lies in a directory, under an ordinary name. */
  lemma MissingEnd(tree: Tree, w: Way)
    requires ParentClosed(tree) && Passable(tree, w) && Resolved(w) !in tree
    ensures w != [] && Ordinary(w[|w| - 1]) && Resolved(w) == Resolved(w[..|w| - 1]) + [w[|w| - 1]]
    ensures IsDirectory(tree, Above(Resolved(w))) && Plain(Resolved(w))
  {
    hide Go, GoOn, Above;
    NowhereToGo();
    var front, x := w[..|w| - 1], w[|w| - 1];
    assert front + [x] == w;
    GoOne([], front, x);
    GoPlain([], w);
    assert IsDirectory(tree, Resolved(front));
    OneFurther(tree, Resolved(front), x);
  }

  /** One name on from a directory: only an ordinary name can lead to something that is missing. */
  lemma OneFurther(tree: Tree, up: Place, x: string)
    requires ParentClosed(tree) && IsDirectory(tree, up) && GoOn(up, x) !in tree
    ensures Ordinary(x) && GoOn(up, x) == up + [x] && Above(GoOn(up, x)) == up
  {
    assert WellPlaced(tree, up);
    assert Above(up + [x]) == up;
  }

  lemma NowhereToGo()
    ensures Resolved([]) == []
  {
  }

  lemma MkdirKeepsClosed(tree: Tree, cwd: Place, s: string, fault: bool)
    requires ParentClosed(tree)
    ensures ParentClosed(MkdirAt(tree, cwd, s, fault).0)
  {
    hide WayOf, Resolved, Passable;
    var w := WayOf(cwd, s);
    var tree' := MkdirAt(tree, cwd, s, fault).0;
    if tree' != tree {
      MissingEnd(tree, w);
      forall c | c in tree'
        ensures WellPlaced(tree', c)
      {
        assert c in tree ==> WellPlaced(tree, c);
      }
    }
  }

  /** One step: a directory is made below a place that exists, unless that place is a file or making it fails. */
  lemma MkdirBelow(tree: Tree, cwd: Place, s: string, fault: bool, done: Way)
    requires Reached(tree, done) && s != ""
    requires WayOf(cwd, s) == done || (WayOf(cwd, s) != [] && WayOf(cwd, s)[..|WayOf(cwd, s)| - 1] == done)
    ensures var (tree', e) := MkdirAt(tree, cwd, s, fault);
            var w := WayOf(cwd, s);
            var c := Resolved(w);
            && (e == Failed ==> tree' == tree)
            && (e != Failed ==> tree' == (if c in tree then tree else tree[c := Directory]) && Reached(tree', w))
            && (e == Failed <==> (w != done && !IsDirectory(tree, Resolved(done))) || (c !in tree && fault))
  {
    hide WayOf, Resolved;
    var w := WayOf(cwd, s);
    if w != done {
      assert forall k | 0 <= k < |done| :: w[..k] == done[..k];
      assert w[..|done|] == done;
    }
  }

  /** The names of a prefix of the path are a prefix of its names. */
  lemma {:induction false} NamesGrow(s: string, k: nat)
    requires k <= |s|
    ensures Scan(s[..k]).names <= Names(s)
    ensures k < |s| && s[k] == '/' ==> Names(s[..k]) <= Names(s)
    decreases |s| - k
  {
    if k == |s| {
      assert s[..k] == s;
    } else {
      ScanStep(s, k);
      NamesGrow(s, k + 1);
    }
  }

  /**
   The result of a walk: a parent-closed tree that gained some stretch of the way, all of it when the walk ended
   well.
   */
  ghost predicate WalkResult(start: Tree, target: Way, r: MkdirResult, faults: nat -> bool) {
    && ParentClosed(r.tree)
    && (exists n | 0 <= n <= |target| :: r.tree == Extend(start, target[..n]))
    && (r.status == Ok ==> r.tree == Extend(start, target) && Reached(r.tree, target))
    && (r.status == Ok ==> NoFileOnWay(start, target))
    && (NoFaults(faults) && NoFileOnWay(start, target) ==> r.status == Ok)
  }

  /** What the walk has done before position `k`: the names finished so far can be walked, and nothing else was made. */
  ghost predicate WalkedTo(start: Tree, tree: Tree, cwd: Place, s: string, k: nat)
    requires k <= |s|
  {
    var done := BaseOf(cwd, s) + Scan(s[..k]).names;
    ParentClosed(tree) && Reached(tree, done) && tree == Extend(start, done)
  }

  /** Where the next mkdir of the walk goes: the names finished so far, with the last one if it is not empty. */
  lemma NextWay(cwd: Place, s: string, k: nat)
    requires 1 <= k <= |s|
    ensures var done, w := BaseOf(cwd, s) + Scan(s[..k]).names, WayOf(cwd, s[..k]);
            && (w == done || (w != [] && w[..|w| - 1] == done))
            && BaseOf(cwd, s[..k]) == BaseOf(cwd, s)
            && done <= WayOf(cwd, s) && (k == |s| || s[k] == '/' ==> w <= WayOf(cwd, s))
  {
    hide Scan;
    NamesGrow(s, k);
    if k == |s| {
      assert s[..k] == s;
    }
  }

  lemma ExtendOne(start: Tree, tree: Tree, done: Way, w: Way)
    requires tree == Extend(start, done) && Resolved(done) in tree
    requires w == done || (w != [] && w[..|w| - 1] == done)
    ensures Extend(start, w) == if Resolved(w) in tree then tree else tree[Resolved(w) := Directory]
  {
    hide Resolved;
  }

  /** A place before the end of the way that the walk has reached is a directory when no file was there. */
  lemma ReachedIsDirectory(start: Tree, done: Way, target: Way)
    requires NoFileOnWay(start, target) && done <= target && |done| < |target| && Resolved(done) in Extend(start, done)
    ensures IsDirectory(Extend(start, done), Resolved(done))
  {
    hide Resolved;
    ExtendIs(start, done);
    assert target[..|done|] == done;
  }

  /** A walk that ended well found no file on its way. */
  lemma OkMeansNoFile(start: Tree, target: Way)
    requires Passable(Extend(start, target), target)
    ensures NoFileOnWay(start, target)
  {
    hide Resolved;
    ExtendIs(start, target);
  }

  lemma WalkStops(start: Tree, done: Way, target: Way, clock: nat, faults: nat -> bool)
    requires ParentClosed(Extend(start, done)) && done <= target
    requires !(NoFaults(faults) && NoFileOnWay(start, target))
    ensures WalkResult(start, target, MkdirResult(Extend(start, done), clock, Esyscall), faults)
  {
    hide Resolved, Extend;
    assert target[..|done|] == done;
  }

  /** The walk from position `k` on. */
  lemma {:induction false} Walk(start: Tree, tree: Tree, cwd: Place, s: string, k: nat, t: nat, faults: nat -> bool)
    requires 1 <= k <= |s| && WalkedTo(start, tree, cwd, s, k)
    ensures WalkResult(start, WayOf(cwd, s), MakeFrom(tree, cwd, s, k, t, faults), faults)
    decreases |s| - k
  {
    hide Scan, MakeFrom, MkdirAt, Extend, WalkResult, ParentClosed, NoFileOnWay, WayOf, BaseOf, Reached;
    var target, done := WayOf(cwd, s), BaseOf(cwd, s) + Scan(s[..k]).names;
    if k < |s| && s[k] != '/' {
      MakeFromStep(tree, cwd, s, k, t, faults);
      ScanStep(s, k);
      Walk(start, tree, cwd, s, k + 1, t, faults);
    } else {
      WalkMkdir(start, tree, cwd, s, k, t, faults);
      var (tree', e) := MkdirAt(tree, cwd, s[..k], faults(t));
      if k < |s| {
        MakeFromStep(tree, cwd, s, k, t, faults);
        ScanStep(s, k);
        if e == Failed {
          WalkStops(start, done, target, t + 1, faults);
        } else {
          WaySplits(cwd, s, k);
          Walk(start, tree', cwd, s, k + 1, t + 1, faults);
        }
      } else {
        assert s[..k] == s;
        MakeFromEnd(tree, cwd, s, k, t, faults);
        if e == Failed {
          WalkStops(start, done, target, t + 1, faults);
        } else {
          WalkArrives(start, tree', target, t + 1, faults);
        }
      }
    }
  }

  lemma WaySplits(cwd: Place, s: string, k: nat)
    requires 1 <= k <= |s|
    ensures WayOf(cwd, s[..k]) == BaseOf(cwd, s) + Names(s[..k])
  {
    hide Scan;
  }

  lemma WalkArrives(start: Tree, tree: Tree, target: Way, clock: nat, faults: nat -> bool)
    requires ParentClosed(tree) && tree == Extend(start, target) && Reached(tree, target)
    ensures WalkResult(start, target, MkdirResult(tree, clock, Ok), faults)
  {
    hide Resolved, Extend;
    OkMeansNoFile(start, target);
    assert target[..|target|] == target;
  }

  /** One mkdir of the walk: its parent is always there, and it fails only by itself or below a regular file. */
  lemma WalkMkdir(start: Tree, tree: Tree, cwd: Place, s: string, k: nat, t: nat, faults: nat -> bool)
    requires 1 <= k <= |s| && WalkedTo(start, tree, cwd, s, k) && (k == |s| || s[k] == '/')
    ensures var (tree', e) := MkdirAt(tree, cwd, s[..k], faults(t));
            var w, target, done := WayOf(cwd, s[..k]), WayOf(cwd, s), BaseOf(cwd, s) + Scan(s[..k]).names;
            && ParentClosed(tree') && done <= target
            && (Resolved(w) in tree || (w != [] && Resolved(w[..|w| - 1]) in tree))
            && (e == Failed ==> tree' == Extend(start, done) && !(NoFaults(faults) && NoFileOnWay(start, target)))
            && (e != Failed ==> tree' == Extend(start, w) && Reached(tree', w))
  {
    hide Scan, MkdirAt, Extend, NoFileOnWay, WayOf, BaseOf, Resolved, Passable, ParentClosed;
    var w, target, done := WayOf(cwd, s[..k]), WayOf(cwd, s), BaseOf(cwd, s) + Scan(s[..k]).names;
    NextWay(cwd, s, k);
    MkdirBelow(tree, cwd, s[..k], faults(t), done);
    MkdirKeepsClosed(tree, cwd, s[..k], faults(t));
    ExtendOne(start, tree, done, w);
    if NoFileOnWay(start, target) && w != done {
      ReachedIsDirectory(start, done, target);
    }
  }

  /** The way that the path leads, as far as the buffer holds it. */
  function Leads(cwd: Place, path: string): Way {
    WayOf(cwd, Take(path, MAX_PATH_LEN - 1))
  }

  /** A path that fits the buffer leads where it says: from the root, or from the working directory. */
  lemma LeadsWhole(cwd: Place, path: string)
    requires |path| < 4096
    ensures Leads(cwd, path) == BaseOf(cwd, path) + Names(path)
    ensures path != "" && path[0] == '/' ==> Leads(cwd, path) == Names(path)
    ensures path == "" || path[0] != '/' ==> Leads(cwd, path) == cwd + Names(path)
  {
    assert [] + Names(path) == Names(path);
  }

  /** Cutting one trailing slash takes no name away: what is walked is the path itself, up to 4095 characters. */
  lemma WalkedIsPath(cwd: Place, path: string)
    ensures Names(Walked(path)) == Names(Take(path, 4095))
    ensures |path| < 4096 ==> Names(Walked(path)) == Names(path)
    ensures Walked(path) == "" <==> path == "" || path == "/"
    ensures Walked(path) != "" ==> WayOf(cwd, Walked(path)) == Leads(cwd, path)
  {
    var s := Take(path, MAX_PATH_LEN - 1);
    if s != "" && s[|s| - 1] == '/' {
      assert Walked(path) == s[..|s| - 1];
    }
  }

  /**
   The whole call: the tree stays parent-closed and gains only directories that the path leads through, for
   every failure; when it ends well it is the least such tree in which the path can be walked; and it ends
   well, if no mkdir fails by itself, exactly when the path is not "/" (or empty) and leads through no
   regular file.
   */
  lemma MkdirRecursiveResult(tree: Tree, cwd: Place, path: string, t: nat, faults: nat -> bool)
    requires ParentClosed(tree) && cwd in tree
    ensures var r, target := MakeFrom(tree, cwd, Walked(path), 1, t, faults), Leads(cwd, path);
            && ParentClosed(r.tree)
            && (exists n | 0 <= n <= |target| :: r.tree == Extend(tree, target[..n]))
            && (r.status == Ok ==> r.tree == Extend(tree, target) && Reached(r.tree, target))
            && (NoFaults(faults) ==> (r.status == Ok <==> path != "" && path != "/" && NoFileOnWay(tree, target)))
  {
    hide Scan, MkdirAt, Extend, ParentClosed, NoFileOnWay, WayOf, Walked, MakeFrom, Reached, Leads, Names;
    var s := Walked(path);
    WalkedIsPath(cwd, path);
    if s == "" {
      EmptyPathFails(tree, cwd, Leads(cwd, path), t, faults);
    } else {
      FirstStep(tree, cwd, s);
      Walk(tree, tree, cwd, s, 1, t, faults);
    }
  }

  /** "/" is cut to the empty path, which cannot be made: the call fails although the root is there. */
  lemma EmptyPathFails(tree: Tree, cwd: Place, w: Way, t: nat, faults: nat -> bool)
    ensures MakeFrom(tree, cwd, "", 1, t, faults) == MkdirResult(tree, t + 1, Esyscall)
    ensures tree == Extend(tree, w[..0])
    ensures Walked("/") == ""
  {
  }

  lemma FirstStep(tree: Tree, cwd: Place, s: string)
    requires ParentClosed(tree) && cwd in tree && s != ""
    ensures WalkedTo(tree, tree, cwd, s, 1)
  {
    hide Extend, ParentClosed, Reached, BaseOf;
    assert s[..1][..0] == [];
    assert Scan(s[..1]).names == [];
    BaseReached(tree, cwd, s);
    ExtendExisting(tree, BaseOf(cwd, s));
    assert BaseOf(cwd, s) + [] == BaseOf(cwd, s);
  }

  /** Calling it again after it ended well changes nothing and ends well, whatever else fails. */
  lemma MkdirRecursiveIdempotent(tree: Tree, cwd: Place, path: string, t: nat, u: nat,
                                 faults: nat -> bool, later: nat -> bool)
    requires ParentClosed(tree) && cwd in tree
    requires MakeFrom(tree, cwd, Walked(path), 1, t, faults).status == Ok
    ensures var r := MakeFrom(tree, cwd, Walked(path), 1, t, faults);
            var again := MakeFrom(r.tree, cwd, Walked(path), 1, u, later);
            again.tree == r.tree && again.status == Ok
  {
    hide Scan, MkdirAt, Extend, WayOf, Walked, MakeFrom, Reached, ParentClosed, Leads;
    MkdirRecursiveResult(tree, cwd, path, t, faults);
    var r := MakeFrom(tree, cwd, Walked(path), 1, t, faults);
    var s := Walked(path);
    WalkedIsPath(cwd, path);
    if s == "" {
      EmptyPathFails(tree, cwd, [], t, faults);
    } else {
      AllThere(r.tree, cwd, s, 1, u, later);
    }
  }

  /** When the whole path can be walked, every mkdir on the way finds its directory. */
  lemma {:induction false} AllThere(tree: Tree, cwd: Place, s: string, k: nat, t: nat, faults: nat -> bool)
    requires s != "" && 1 <= k <= |s| && Reached(tree, WayOf(cwd, s))
    ensures MakeFrom(tree, cwd, s, k, t, faults).tree == tree && MakeFrom(tree, cwd, s, k, t, faults).status == Ok
    decreases |s| - k
  {
    hide Scan, MakeFrom, WayOf, BaseOf, Names, Reached, Passable, Resolved;
    if k < |s| {
      MakeFromStep(tree, cwd, s, k, t, faults);
      if s[k] == '/' {
        NextWay(cwd, s, k);
        StretchReached(tree, WayOf(cwd, s), WayOf(cwd, s[..k]));
        AllThere(tree, cwd, s, k + 1, t + 1, faults);
      } else {
        AllThere(tree, cwd, s, k + 1, t, faults);
      }
    } else {
      MakeFromEnd(tree, cwd, s, k, t, faults);
      StretchReached(tree, WayOf(cwd, s), WayOf(cwd, s));
    }
  }

  lemma StretchReached(tree: Tree, w: Way, v: Way)
    requires Reached(tree, w) && v <= w
    ensures Passable(tree, v) && Resolved(v) in tree
  {
    hide Resolved;
    assert forall k | 0 <= k < |v| :: v[..k] == w[..k];
    if |v| < |w| {
      assert w[..|v|] == v;
    } else {
      assert v == w;
    }
  }

  /**
   A call that ends well leaves a directory at the place exactly when no regular file was there: an existing
   file passes as made.
   */
  lemma OkMeansDirectory(tree: Tree, cwd: Place, path: string, t: nat, faults: nat -> bool)
    requires ParentClosed(tree) && cwd in tree
    requires MakeFrom(tree, cwd, Walked(path), 1, t, faults).status == Ok
    ensures var r, c := MakeFrom(tree, cwd, Walked(path), 1, t, faults), Resolved(Leads(cwd, path));
            c in r.tree && (r.tree[c] == Directory <==> !(c in tree && tree[c] == RegularFile))
  {
    hide Scan, MkdirAt, Extend, Leads, Walked, MakeFrom, Passable, ParentClosed, Resolved;
    MkdirRecursiveResult(tree, cwd, path, t, faults);
    ExtendIs(tree, Leads(cwd, path));
  }
}
