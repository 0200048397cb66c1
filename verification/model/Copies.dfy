/**
 A recursive bind: the mount that a path leads to is copied from that place on,
 together with every mount attached inside it, directly or to another copied
 mount, each to the copy of what it was attached to. Here this is shown to be
 the same as making those mounts again, in order, after the bind.
 */
module Copies {
  import opened Paths
  import opened Mounts

  /** Attached inside the place that is copied, or to a mount that is. */
  predicate Within(loc: Loc, at: Loc, olds: seq<nat>) {
    loc.mount in olds || (loc.mount == at.mount && at.below <= loc.below)
  }

  /** The mounts copied along, among those numbered below `l`, in order. */
  function Originals(tab: Table, at: Loc, l: nat): (olds: seq<nat>)
    requires l <= |tab|
    ensures forall q | 0 <= q < |olds| :: 1 <= olds[q] < l
    ensures forall p, q | 0 <= p < q < |olds| :: olds[p] < olds[q]
  {
    if l <= 1 then []
    else
      var olds := Originals(tab, at, l - 1);
      if Within(tab[l - 1], at, olds) then olds + [l - 1] else olds
  }

  function IndexIn(s: seq<nat>, x: nat): (i: nat)
    requires x in s
    ensures i < |s| && s[i] == x
  {
    if s[0] == x then 0 else 1 + IndexIn(s[1..], x)
  }

  /** Where the copy of a mount is attached, `base` being the number of the first copy. */
  function CopyOf(loc: Loc, at: Loc, olds: seq<nat>, base: nat): Loc {
    if loc.mount in olds then Loc(base + 1 + IndexIn(olds, loc.mount), loc.below)
    else Loc(base, if |at.below| <= |loc.below| then loc.below[|at.below|..] else [])
  }

  /** The entries of the copied mounts, the first `n` of them. */
  function CopyEntries(tab: Table, at: Loc, olds: seq<nat>, base: nat, n: nat): (es: seq<Loc>)
    requires n <= |olds| && forall q | 0 <= q < |olds| :: olds[q] < |tab|
    ensures |es| == n
  {
    if n == 0 then []
    else CopyEntries(tab, at, olds, base, n - 1) + [CopyOf(tab[olds[n - 1]], at, olds, base)]
  }

  /** A copy is attached to the bind or to an earlier copy. */
  lemma CopyInOrder(loc: Loc, at: Loc, olds: seq<nat>, base: nat, n: nat)
    requires n < |olds| && loc.mount < olds[n] && forall p, q | 0 <= p < q < |olds| :: olds[p] < olds[q]
    ensures CopyOf(loc, at, olds, base).mount < base + 1 + n
  {
    if loc.mount in olds && IndexIn(olds, loc.mount) > n {
      assert false;
    }
  }

  lemma {:induction false} CopiesInOrder(tab: Table, at: Loc, a: Loc, n: nat)
    requires Ordered(tab) && a.mount < |tab| && n <= |Originals(tab, at, |tab|)|
    ensures Ordered(tab + [a] + CopyEntries(tab, at, Originals(tab, at, |tab|), |tab|, n))
  {
    hide CopyOf, Within, Originals;
    var olds := Originals(tab, at, |tab|);
    if n == 0 {
      assert tab + [a] + [] == tab + [a];
    } else {
      CopiesInOrder(tab, at, a, n - 1);
      var before := tab + [a] + CopyEntries(tab, at, olds, |tab|, n - 1);
      var loc := tab[olds[n - 1]];
      CopyInOrder(loc, at, olds, |tab|, n - 1);
      assert tab + [a] + CopyEntries(tab, at, olds, |tab|, n) == before + [CopyOf(loc, at, olds, |tab|)];
    }
  }

  /** The table after the place that a path leads to has been bound onto itself, with everything inside. */
  function BoundTable(tab: Table, w: Way): (tab': Table)
    requires Ordered(tab)
    ensures Ordered(tab') && |tab'| == |tab| + 1 + |Originals(tab, Walk(tab, w), |tab|)|
  {
    var at := Walk(tab, w);
    var olds := Originals(tab, at, |tab|);
    CopiesInOrder(tab, at, AttachAt(tab, w), |olds|);
    tab + [AttachAt(tab, w)] + CopyEntries(tab, at, olds, |tab|, |olds|)
  }

  /* ---- Which mounts are copied ---- */

  /** Below a place, and not the place itself. */
  predicate StrictlyBelow(p: Place, q: Place) {
    p <= q && p != q
  }

  /** A later mount was attached where the last mount before it, on its way, says. */
  lemma EntryIsServed(targets: seq<Place>, j: nat)
    requires 1 <= j < |targets| && targets[0] == []
    ensures TableOf(targets)[j] == Served(targets[..j], targets[j])
  {
    hide Descend, Follow, TableOf;
    TableEntry(targets, j);
    DescendIsLastCover(targets[..j], targets[j]);
  }

  lemma LastCoverBelow(targets: seq<Place>, p: Place, j: nat)
    requires 1 <= j < |targets| && targets[0] == []
    ensures var c := LastCover(targets[..j], p);
            c < j && targets[c] <= p && forall l | c < l < j :: !(targets[l] <= p)
  {
    assert forall l | 0 <= l < j :: targets[..j][l] == targets[l];
  }

  lemma Comparable(p: Place, q: Place, r: Place)
    requires p <= r && q <= r
    ensures p <= q || q <= p
    ensures |p| <= |q| ==> p <= q
  {
    if |p| <= |q| {
      assert p == r[..|p|] == q[..|p|];
    } else {
      assert q == r[..|q|] == p[..|q|];
    }
  }

  /**
   Is the `j`-th mount attached inside the place, given that the mounts below it that are so are the later ones
   strictly below?
   */
  lemma WithinIff(targets: seq<Place>, root: Place, j: nat, olds: seq<nat>)
    requires 1 <= j < |targets| && targets[0] == []
    requires forall l :: l in olds <==> LastCover(targets, root) < l < j && StrictlyBelow(root, targets[l])
    ensures Within(TableOf(targets)[j], Served(targets, root), olds) <==>
            LastCover(targets, root) < j && StrictlyBelow(root, targets[j])
  {
    hide TableOf, Within;
    if Within(TableOf(targets)[j], Served(targets, root), olds) {
      InsideIsBelow(targets, root, j, olds);
    }
    if LastCover(targets, root) < j && StrictlyBelow(root, targets[j]) {
      BelowIsInside(targets, root, j, olds);
    }
  }

  lemma InsideIsBelow(targets: seq<Place>, root: Place, j: nat, olds: seq<nat>)
    requires 1 <= j < |targets| && targets[0] == []
    requires forall l :: l in olds <==> LastCover(targets, root) < l < j && StrictlyBelow(root, targets[l])
    requires Within(TableOf(targets)[j], Served(targets, root), olds)
    ensures LastCover(targets, root) < j && StrictlyBelow(root, targets[j])
  {
    hide TableOf;
    var k, t := LastCover(targets, root), targets[j];
    EntryIsServed(targets, j);
    LastCoverBelow(targets, t, j);
    var c := LastCover(targets[..j], t);
    assert targets[..j][c] == targets[c];
    if c !in olds {
      SamePrefix(targets[k], root, t);
      if t == root {
        assert false;
      }
    }
  }

  lemma BelowIsInside(targets: seq<Place>, root: Place, j: nat, olds: seq<nat>)
    requires 1 <= j < |targets| && targets[0] == []
    requires forall l :: l in olds <==> LastCover(targets, root) < l < j && StrictlyBelow(root, targets[l])
    requires LastCover(targets, root) < j && StrictlyBelow(root, targets[j])
    ensures Within(TableOf(targets)[j], Served(targets, root), olds)
  {
    hide TableOf;
    var k, t := LastCover(targets, root), targets[j];
    EntryIsServed(targets, j);
    LastCoverBelow(targets, t, j);
    var c := LastCover(targets[..j], t);
    assert targets[..j][c] == targets[c];
    if c == k {
      assert root[|targets[k]|..] <= t[|targets[k]|..];
    } else {
      Comparable(root, targets[c], t);
      assert !(targets[c] <= root);
    }
  }

  lemma SamePrefix(p: Place, q: Place, r: Place)
    requires p <= q && p <= r && q[|p|..] <= r[|p|..]
    ensures q <= r
  {
    assert q == p + q[|p|..] && r == p + r[|p|..];
  }

  /** The copied mounts are those made after the one that serves the place, on targets strictly below it. */
  lemma {:induction false} OriginalsAre(targets: seq<Place>, root: Place, l: nat)
    requires |targets| > 0 && targets[0] == [] && l <= |targets|
    ensures forall j :: j in Originals(TableOf(targets), Served(targets, root), l) <==>
                        LastCover(targets, root) < j < l && StrictlyBelow(root, targets[j])
  {
    hide TableOf, Served, LastCover, Within, StrictlyBelow;
    if l > 1 {
      OriginalsAre(targets, root, l - 1);
      WithinIff(targets, root, l - 1, Originals(TableOf(targets), Served(targets, root), l - 1));
    }
  }

  /* ---- Copying is making again ---- */

  /** The targets after the bind and the first `n` copies made as mounts of their own. */
  function Remade(targets: seq<Place>, root: Place, olds: seq<nat>, n: nat): (ts: seq<Place>)
    requires n <= |olds| && forall q | 0 <= q < |olds| :: olds[q] < |targets|
    ensures |ts| == |targets| + 1 + n && ts[..|targets|] == targets && ts[|targets|] == root
    ensures forall q | 0 <= q < n :: ts[|targets| + 1 + q] == targets[olds[q]]
  {
    if n == 0 then targets + [root] else Remade(targets, root, olds, n - 1) + [targets[olds[n - 1]]]
  }

  /** The next copy is attached where making its mount again would attach it. */
  lemma NextCopy(targets: seq<Place>, root: Place, olds: seq<nat>, n: nat)
    requires |targets| > 0 && targets[0] == [] && n < |olds|
    requires olds == Originals(TableOf(targets), Served(targets, root), |targets|)
    ensures olds[n] < |targets|
    ensures CopyOf(TableOf(targets)[olds[n]], Served(targets, root), olds, |targets|) ==
            Served(Remade(targets, root, olds, n), targets[olds[n]])
  {
    hide TableOf, Originals, Served, LastCover, CopyOf, StrictlyBelow, Remade;
    OriginalsAre(targets, root, |targets|);
    var j := olds[n];
    assert j in olds;
    EntryIsServed(targets, j);
    CopyServed(targets, root, olds, n);
  }

  lemma CopyServed(targets: seq<Place>, root: Place, olds: seq<nat>, n: nat)
    requires |targets| > 0 && targets[0] == [] && n < |olds| && 1 <= olds[n]
    requires forall q | 0 <= q < |olds| :: olds[q] < |targets|
    requires forall p, q | 0 <= p < q < |olds| :: olds[p] < olds[q]
    requires forall l :: l in olds <==> LastCover(targets, root) < l < |targets| && StrictlyBelow(root, targets[l])
    ensures Remade(targets, root, olds, n)[0] == []
    ensures CopyOf(Served(targets[..olds[n]], targets[olds[n]]), Served(targets, root), olds, |targets|) ==
            Served(Remade(targets, root, olds, n), targets[olds[n]])
  {
    hide Remade, CopyOf, Served;
    var j := olds[n];
    var t := targets[j];
    LastCoverBelow(targets, t, j);
    var c := LastCover(targets[..j], t);
    assert targets[..j][c] == targets[c];
    assert forall q | 0 <= q < |olds| :: olds[q] in olds;
    ServedAt(targets[..j], t, c);
    if c in olds {
      hide LastCover, StrictlyBelow;
      CopyOfCopied(targets, root, olds, n, c);
    } else {
      CoverIsRoots(targets, root, c, t);
      hide LastCover, StrictlyBelow;
      CopyInRoot(targets, root, olds, n, c);
    }
  }

  lemma ServedAt(targets: seq<Place>, p: Place, k: nat)
    requires |targets| > 0 && targets[0] == [] && LastCover(targets, p) == k
    ensures Served(targets, p) == Loc(k, p[|targets[k]|..])
  {
  }

  /** On the way to a place below the root the last cover is the root's own, or strictly below the root. */
  lemma CoverIsRoots(targets: seq<Place>, root: Place, c: nat, t: Place)
    requires |targets| > 0 && targets[0] == [] && c < |targets| && targets[c] <= t && StrictlyBelow(root, t)
    requires LastCover(targets, root) <= c && !(LastCover(targets, root) < c && StrictlyBelow(root, targets[c]))
    ensures c == LastCover(targets, root) && targets[c] <= root
  {
    Comparable(root, targets[c], t);
  }

  /** The mount was attached to one that is copied: its copy is attached to the copy of that one. */
  lemma CopyOfCopied(targets: seq<Place>, root: Place, olds: seq<nat>, n: nat, c: nat)
    requires |targets| > 0 && targets[0] == [] && n < |olds|
    requires forall q | 0 <= q < |olds| :: olds[q] < |targets|
    requires forall p, q | 0 <= p < q < |olds| :: olds[p] < olds[q]
    requires c in olds && c < olds[n] && targets[c] <= targets[olds[n]]
    requires forall l | c < l < olds[n] :: !(targets[l] <= targets[olds[n]])
    ensures Remade(targets, root, olds, n)[0] == []
    ensures CopyOf(Loc(c, targets[olds[n]][|targets[c]|..]), Served(targets, root), olds, |targets|) ==
            Served(Remade(targets, root, olds, n), targets[olds[n]])
  {
    hide Remade, Served, LastCover;
    var t, q := targets[olds[n]], IndexIn(olds, c);
    EarlierIndex(olds, q, n);
    LaterCopiesElsewhere(targets, olds, n, c, q + 1, t);
    AgainCover(targets, root, olds, n, t, |targets| + 1 + q);
    ServedAt(Remade(targets, root, olds, n), t, |targets| + 1 + q);
  }

  /** The mount was attached inside the place itself: its copy is attached to the bind. */
  lemma CopyInRoot(targets: seq<Place>, root: Place, olds: seq<nat>, n: nat, k: nat)
    requires |targets| > 0 && targets[0] == [] && n < |olds| && k == LastCover(targets, root) && targets[k] <= root
    requires forall q | 0 <= q < |olds| :: k < olds[q] < |targets|
    requires forall p, q | 0 <= p < q < |olds| :: olds[p] < olds[q]
    requires k !in olds && root <= targets[olds[n]]
    requires forall l | k < l < olds[n] :: !(targets[l] <= targets[olds[n]])
    ensures Remade(targets, root, olds, n)[0] == []
    ensures CopyOf(Loc(k, targets[olds[n]][|targets[k]|..]), Served(targets, root), olds, |targets|) ==
            Served(Remade(targets, root, olds, n), targets[olds[n]])
  {
    hide Remade, Served, LastCover;
    var t := targets[olds[n]];
    LaterCopiesElsewhere(targets, olds, n, k, 0, t);
    AgainCover(targets, root, olds, n, t, |targets|);
    ServedAt(Remade(targets, root, olds, n), t, |targets|);
    ServedAt(targets, root, k);
    PrefixAway(targets[k], root, t);
  }

  lemma PrefixAway(p: Place, q: Place, r: Place)
    requires p <= q <= r
    ensures |q[|p|..]| <= |r[|p|..]| && r[|p|..][|q[|p|..]|..] == r[|q|..]
  {
  }

  lemma EarlierIndex(olds: seq<nat>, q: nat, n: nat)
    requires q < |olds| && n < |olds| && olds[q] < olds[n]
    requires forall p, r | 0 <= p < r < |olds| :: olds[p] < olds[r]
    ensures q < n
  {
  }

  /** Copies of mounts that come after `c` and before the mount in question are not on its way. */
  lemma LaterCopiesElsewhere(targets: seq<Place>, olds: seq<nat>, n: nat, c: nat, from: nat, t: Place)
    requires n < |olds| && forall q | 0 <= q < |olds| :: olds[q] < |targets|
    requires forall p, r | 0 <= p < r < |olds| :: olds[p] < olds[r]
    requires forall l | c < l < olds[n] :: l < |targets| && !(targets[l] <= t)
    requires forall q | from <= q < n :: c < olds[q]
    ensures forall q | from <= q < n :: olds[q] < |targets| && !(targets[olds[q]] <= t)
  {
    forall q | from <= q < n
      ensures olds[q] < |targets| && !(targets[olds[q]] <= t)
    {
    }
  }

  lemma AgainCover(targets: seq<Place>, root: Place, olds: seq<nat>, n: nat, t: Place, k: nat)
    requires |targets| > 0 && targets[0] == [] && n <= |olds| && forall q | 0 <= q < |olds| :: olds[q] < |targets|
    requires |targets| <= k < |targets| + 1 + n && Remade(targets, root, olds, n)[k] <= t
    requires forall q | 0 <= q < n && k < |targets| + 1 + q :: olds[q] < |targets| && !(targets[olds[q]] <= t)
    ensures Remade(targets, root, olds, n)[0] == []
    ensures LastCover(Remade(targets, root, olds, n), t) == k
  {
    var again := Remade(targets, root, olds, n);
    assert again[..|targets|][0] == targets[0];
    forall l | k < l < |again|
      ensures !(again[l] <= t)
    {
      var q := l - |targets| - 1;
      assert again[|targets| + 1 + q] == targets[olds[q]];
    }
    CoverIs(again, t, k);
  }

  lemma {:induction false} CopiesAreRemade(targets: seq<Place>, root: Place, n: nat)
    requires |targets| > 0 && targets[0] == [] && n <= |Originals(TableOf(targets), Served(targets, root), |targets|)|
    ensures var tab, at := TableOf(targets), Served(targets, root);
            var olds := Originals(tab, at, |tab|);
            tab + [Served(targets, root)] + CopyEntries(tab, at, olds, |tab|, n) ==
                TableOf(Remade(targets, root, olds, n))
  {
    hide Descend, Follow, Served, CopyOf, TableOf, Originals, Remade;
    var tab, at := TableOf(targets), Served(targets, root);
    var olds := Originals(tab, at, |tab|);
    if n == 0 {
      BoundFirst(targets, root, olds);
      assert tab + [at] + [] == tab + [at];
    } else {
      CopiesAreRemade(targets, root, n - 1);
      NextCopy(targets, root, olds, n - 1);
      OneMoreRemade(targets, root, olds, n - 1);
      var entries := CopyEntries(tab, at, olds, |tab|, n - 1);
      var e := CopyOf(tab[olds[n - 1]], at, olds, |tab|);
      assert tab + [at] + (entries + [e]) == tab + [at] + entries + [e];
    }
  }

  lemma BoundFirst(targets: seq<Place>, root: Place, olds: seq<nat>)
    requires |targets| > 0 && targets[0] == []
    requires forall q | 0 <= q < |olds| :: olds[q] < |targets|
    ensures TableOf(Remade(targets, root, olds, 0)) == TableOf(targets) + [Served(targets, root)]
  {
    hide Descend, Served;
    assert (targets + [root])[..|targets|] == targets;
    DescendIsLastCover(targets, root);
  }

  lemma OneMoreRemade(targets: seq<Place>, root: Place, olds: seq<nat>, n: nat)
    requires |targets| > 0 && targets[0] == [] && n < |olds|
    requires forall q | 0 <= q < |olds| :: olds[q] < |targets|
    ensures var before, t := Remade(targets, root, olds, n), targets[olds[n]];
            && before[0] == []
            && TableOf(Remade(targets, root, olds, n + 1)) == TableOf(before) + [Served(before, t)]
  {
    hide Descend, Served;
    var before, t := Remade(targets, root, olds, n), targets[olds[n]];
    assert (before + [t])[..|before|] == before;
    assert before[..|targets|][0] == targets[0];
    DescendIsLastCover(before, t);
  }

  /**
   A place other than the root bound onto itself with everything inside it: the mounts made after the one that
   serves it, on targets strictly below it, might as well have been made again, in order, after the bind.
   */
  lemma BindIsRemaking(targets: seq<Place>, w: Way)
    requires |targets| > 0 && targets[0] == [] && forall k | 1 <= k < |targets| :: targets[k] != []
    ensures var tab, root := TableOf(targets), Resolved(w);
            var olds := Originals(tab, Walk(tab, w), |tab|);
            && BoundTable(tab, w) == TableOf(Remade(targets, root, olds, |olds|))
            && forall j :: j in olds <==> LastCover(targets, root) < j < |targets| && StrictlyBelow(root, targets[j])
  {
    hide Descend, Follow, TableOf, Walk, Served;
    var root, tab := Resolved(w), TableOf(targets);
    WalkIsServed(targets, w);
    DescendIsLastCover(targets, root);
    DescendStays(tab, root);
    OriginalsAre(targets, root, |targets|);
    CopiesAreRemade(targets, root, |Originals(tab, Walk(tab, w), |tab|)|);
  }
}
