/**
 Mounting the container's file systems. A mount is attached at the place its
 target reaches in the tree of mounts so far; a path is walked name by name, and
 at each place the walk moves onto the mount that is attached there. `Descend`
 is the walk over ordinary names; `Walk` also takes `.` and `..`, and does not
 move onto a mount at the root it starts from.
 */
module Mounts {
  import opened Wrappers
  import opened Paths

  /** A place inside a mount: the mount's number and the names below the mount's own root. */
  datatype Loc = Loc(mount: nat, below: Place)

  /** For each mount, the place it is attached at; number 0 is the root mount, whose entry is not used. */
  type Table = seq<Loc>

  /** Every mount is attached to an earlier one. */
  predicate Ordered(tab: Table) {
    |tab| > 0 && forall k | 1 <= k < |tab| :: tab[k].mount < k
  }

  /** The last mount attached at a place, among those numbered below `n`. */
  function AttachedBelow(tab: Table, loc: Loc, n: nat): (m: Option<nat>)
    requires n <= |tab|
    ensures m.Some? ==> 1 <= m.value < n && tab[m.value] == loc
    ensures m.None? ==> forall k | 1 <= k < n :: tab[k] != loc
  {
    if n <= 1 then None
    else if tab[n - 1] == loc then Some(n - 1)
    else AttachedBelow(tab, loc, n - 1)
  }

  /** Moves onto the mount attached at a place, and onto the one attached at that mount's root, and so on. */
  function Follow(tab: Table, loc: Loc): Loc
    requires Ordered(tab)
    decreases |tab| - loc.mount
  {
    match AttachedBelow(tab, loc, |tab|)
    case None => loc
    case Some(m) => Follow(tab, Loc(m, []))
  }

  /** Walks ordinary names from the root, one at a time. */
  function Descend(tab: Table, p: Place): Loc
    requires Ordered(tab)
  {
    if p == [] then Follow(tab, Loc(0, []))
    else
      var up := Descend(tab, p[..|p| - 1]);
      Follow(tab, Loc(up.mount, up.below + [p[|p| - 1]]))
  }

  /** The table after mounting on each target in turn; the first target stands for the root mount. */
  function TableOf(targets: seq<Place>): (tab: Table)
    requires |targets| > 0
    ensures Ordered(tab) && |tab| == |targets|
  {
    if |targets| == 1 then [Loc(0, [])]
    else
      var before := TableOf(targets[..|targets| - 1]);
      DescendInside(before, targets[|targets| - 1]);
      before + [Descend(before, targets[|targets| - 1])]
  }

  lemma {:induction false} FollowInside(tab: Table, loc: Loc)
    requires Ordered(tab) && loc.mount < |tab|
    ensures Follow(tab, loc).mount < |tab|
    decreases |tab| - loc.mount
  {
    match AttachedBelow(tab, loc, |tab|) {
      case None =>
      case Some(m) => FollowInside(tab, Loc(m, []));
    }
  }

  lemma {:induction false} DescendInside(tab: Table, p: Place)
    requires Ordered(tab)
    ensures Descend(tab, p).mount < |tab|
    decreases |p|
  {
    if p == [] {
      FollowInside(tab, Loc(0, []));
    } else {
      DescendInside(tab, p[..|p| - 1]);
      var up := Descend(tab, p[..|p| - 1]);
      FollowInside(tab, Loc(up.mount, up.below + [p[|p| - 1]]));
    }
  }

  /** The last of the targets that lies on the way to a place. */
  function LastCover(targets: seq<Place>, p: Place): (k: nat)
    requires |targets| > 0 && targets[0] == []
    ensures k < |targets| && targets[k] <= p
    ensures forall l | k < l < |targets| :: !(targets[l] <= p)
  {
    if targets[|targets| - 1] <= p then |targets| - 1
    else
      LastCover(targets[..|targets| - 1], p)
  }

  /** The simple rule: the last-issued mount on the way, and what is left of the path below its target. */
  function Served(targets: seq<Place>, p: Place): Loc
    requires |targets| > 0 && targets[0] == []
  {
    var k := LastCover(targets, p);
    Loc(k, p[|targets[k]|..])
  }

  /** The simple rule loses nothing of the path, so it tells places apart. */
  lemma ServedTellsApart(targets: seq<Place>, p: Place, q: Place)
    requires |targets| > 0 && targets[0] == [] && Served(targets, p) == Served(targets, q)
    ensures p == q
  {
    var k := LastCover(targets, p);
    assert p == targets[k] + p[|targets[k]|..];
    assert q == targets[k] + q[|targets[k]|..];
  }

  /* ---- One more mount ---- */

  lemma AttachedMore(tab: Table, w: Loc, loc: Loc)
    requires Ordered(tab) && w.mount < |tab|
    ensures AttachedBelow(tab + [w], loc, |tab| + 1) == if loc == w then Some(|tab|) else AttachedBelow(tab, loc, |tab|)
  {
    AttachedSame(tab, tab + [w], loc, |tab|);
  }

  lemma {:induction false} AttachedSame(tab: Table, tab': Table, loc: Loc, n: nat)
    requires n <= |tab| <= |tab'| && tab'[..|tab|] == tab
    ensures AttachedBelow(tab', loc, n) == AttachedBelow(tab, loc, n)
  {
    if n > 1 {
      assert tab'[n - 1] == tab'[..|tab|][n - 1];
      AttachedSame(tab, tab', loc, n - 1);
    }
  }

  /** Nothing is attached to the newest mount. */
  lemma NewestIsBare(tab: Table, w: Loc, below: Place)
    requires Ordered(tab) && w.mount < |tab|
    ensures Ordered(tab + [w]) && Follow(tab + [w], Loc(|tab|, below)) == Loc(|tab|, below)
  {
    var tab' := tab + [w];
    assert forall k | 1 <= k < |tab'| :: tab'[k].mount < |tab|;
  }

  lemma {:induction false} FollowEnds(tab: Table, loc: Loc)
    requires Ordered(tab)
    ensures AttachedBelow(tab, Follow(tab, loc), |tab|) == None
    decreases |tab| - loc.mount
  {
    match AttachedBelow(tab, loc, |tab|) {
      case None =>
      case Some(m) => FollowEnds(tab, Loc(m, []));
    }
  }

  /** A walk that used to end where the new mount is attached now ends on its root; no other one changes. */
  lemma {:induction false} FollowMore(tab: Table, w: Loc, loc: Loc)
    requires Ordered(tab) && w.mount < |tab| && loc.mount < |tab| && AttachedBelow(tab, w, |tab|) == None
    ensures Ordered(tab + [w])
    ensures Follow(tab + [w], loc) == if Follow(tab, loc) == w then Loc(|tab|, []) else Follow(tab, loc)
    decreases |tab| - loc.mount
  {
    AttachedMore(tab, w, loc);
    if loc == w {
      NewestIsBare(tab, w, []);
    } else {
      match AttachedBelow(tab, loc, |tab|) {
        case None =>
        case Some(m) => FollowMore(tab, w, Loc(m, []));
      }
    }
  }

  lemma {:induction false} DescendEnds(tab: Table, p: Place)
    requires Ordered(tab)
    ensures AttachedBelow(tab, Descend(tab, p), |tab|) == None
  {
    var from := if p == [] then Loc(0, [])
        else Loc(Descend(tab, p[..|p| - 1]).mount, Descend(tab, p[..|p| - 1]).below + [p[|p| - 1]]);
    FollowEnds(tab, from);
  }

  lemma {:induction false} DescendMore(targets: seq<Place>, t: Place, p: Place)
    requires |targets| > 0 && targets[0] == []
    requires forall q: Place :: Descend(TableOf(targets), q) == Served(targets, q)
    ensures Descend(TableOf(targets + [t]), p) == Served(targets + [t], p)
    decreases |p|
  {
    hide Descend, Follow, AttachedBelow, Served;
    if p == [] {
      DescendMoreRoot(targets, t);
    } else {
      var up, x := p[..|p| - 1], p[|p| - 1];
      DescendMore(targets, t, up);
      DescendMoreStep(targets, t, up, x);
      assert p == up + [x];
    }
  }

  /** The empty path. */
  lemma DescendMoreRoot(targets: seq<Place>, t: Place)
    requires |targets| > 0 && targets[0] == []
    requires forall q: Place :: Descend(TableOf(targets), q) == Served(targets, q)
    ensures Descend(TableOf(targets + [t]), []) == Served(targets + [t], [])
  {
    hide Follow, AttachedBelow, LastCover;
    var tab := TableOf(targets);
    var w := Descend(tab, t);
    TableMore(targets, t);
    DescendInside(tab, t);
    DescendEnds(tab, t);
    CoverMore(targets, t, []);
    FollowMore(tab, w, Loc(0, []));
    assert Descend(tab, []) == Served(targets, []);
    if Served(targets, []) == w { ServedTellsApart(targets, [], t); }
  }

  lemma TableMore(targets: seq<Place>, t: Place)
    requires |targets| > 0
    ensures TableOf(targets + [t]) == TableOf(targets) + [Descend(TableOf(targets), t)]
  {
    assert (targets + [t])[..|targets|] == targets;
  }

  /** One more name of the path. */
  lemma DescendMoreStep(targets: seq<Place>, t: Place, up: Place, x: string)
    requires |targets| > 0 && targets[0] == []
    requires forall q: Place :: Descend(TableOf(targets), q) == Served(targets, q)
    requires Descend(TableOf(targets + [t]), up) == Served(targets + [t], up)
    ensures Descend(TableOf(targets + [t]), up + [x]) == Served(targets + [t], up + [x])
  {
    hide Descend, Follow, AttachedBelow, TableOf;
    var tab, p := TableOf(targets), up + [x];
    var w := Descend(tab, t);
    TableMore(targets, t);
    DescendInside(tab, t);
    DescendInside(tab, up);
    DescendEnds(tab, t);
    DescendLonger(tab, up, x);
    DescendLonger(tab + [w], up, x);
    CoverMore(targets, t, up);
    CoverMore(targets, t, p);
    if t <= up {
      NewestIsBare(tab, w, up[|t|..] + [x]);
      assert p[|t|..] == up[|t|..] + [x];
    } else {
      var from := Loc(Descend(tab, up).mount, Descend(tab, up).below + [x]);
      FollowMore(tab, w, from);
      if Descend(tab, p) == w {
        ServedTellsApart(targets, p, t);
        assert p[|p|..] == [];
      } else {
        assert t != p;
      }
    }
  }

  lemma CoverMore(targets: seq<Place>, t: Place, p: Place)
    requires |targets| > 0 && targets[0] == []
    ensures Served(targets + [t], p) == if t <= p then Loc(|targets|, p[|t|..]) else Served(targets, p)
  {
    assert (targets + [t])[..|targets|] == targets;
  }

  lemma DescendLonger(tab: Table, up: Place, x: string)
    requires Ordered(tab)
    ensures Descend(tab, up + [x]) == Follow(tab, Loc(Descend(tab, up).mount, Descend(tab, up).below + [x]))
  {
    assert (up + [x])[..|up|] == up;
  }

  /**
   Walking any path over the mounts, in the tree in which they are attached to each other, ends where
   the last-issued mount on the way says, for any sequence of targets.
   */
  lemma {:induction false} DescendIsLastCover(targets: seq<Place>, p: Place)
    requires |targets| > 0 && targets[0] == []
    ensures Descend(TableOf(targets), p) == Served(targets, p)
    decreases |targets|
  {
    hide Descend, Served;
    if |targets| == 1 {
      assert targets == [[]];
      DescendBare(p);
      ServedBare(p);
    } else {
      var front, t := targets[..|targets| - 1], targets[|targets| - 1];
      hide TableOf;
      forall q: Place
        ensures Descend(TableOf(front), q) == Served(front, q)
      {
        DescendIsLastCover(front, q);
      }
      DescendMore(front, t, p);
      assert targets == front + [t];
    }
  }

  lemma ServedBare(p: Place)
    ensures Served([[]], p) == Loc(0, p)
  {
    assert LastCover([[]], p) == 0;
  }

  lemma {:induction false} DescendBare(p: Place)
    ensures Descend([Loc(0, [])], p) == Loc(0, p)
    decreases |p|
  {
    if p != [] {
      DescendBare(p[..|p| - 1]);
      assert p == p[..|p| - 1] + [p[|p| - 1]];
    }
  }

  /* ---- Paths as written ---- */

  /** The place above: out of a mount at its root, through all mounts attached at one place. */
  function Parent(tab: Table, loc: Loc): Loc
    requires Ordered(tab) && loc.mount < |tab|
    decreases loc.mount
  {
    if loc.below != [] then Loc(loc.mount, Above(loc.below))
    else if loc.mount == 0 then loc
    else Parent(tab, tab[loc.mount])
  }

  lemma {:induction false} ParentInside(tab: Table, loc: Loc)
    requires Ordered(tab) && loc.mount < |tab|
    ensures Parent(tab, loc).mount < |tab|
    decreases loc.mount
  {
    if loc.below == [] && loc.mount != 0 {
      ParentInside(tab, tab[loc.mount]);
    }
  }

  function WalkOn(tab: Table, loc: Loc, x: string): Loc
    requires Ordered(tab) && loc.mount < |tab|
  {
    if x == "." then loc
    else if x == ".." then Follow(tab, Parent(tab, loc))
    else Follow(tab, Loc(loc.mount, loc.below + [x]))
  }

  lemma WalkOnInside(tab: Table, loc: Loc, x: string)
    requires Ordered(tab) && loc.mount < |tab|
    ensures WalkOn(tab, loc, x).mount < |tab|
  {
    ParentInside(tab, loc);
    FollowInside(tab, Parent(tab, loc));
    FollowInside(tab, Loc(loc.mount, loc.below + [x]));
  }

  /** Walks a path as written from the root of the root mount. */
  function Walk(tab: Table, w: Way): (loc: Loc)
    requires Ordered(tab)
    ensures loc.mount < |tab|
    decreases |w|
  {
    if w == [] then Loc(0, [])
    else
      var up := Walk(tab, w[..|w| - 1]);
      WalkOnInside(tab, up, w[|w| - 1]);
      WalkOn(tab, up, w[|w| - 1])
  }

  /** Where a mount on a path is attached: on top of what is mounted there already. */
  function AttachAt(tab: Table, w: Way): (loc: Loc)
    requires Ordered(tab)
    ensures loc.mount < |tab|
  {
    FollowInside(tab, Walk(tab, w));
    Follow(tab, Walk(tab, w))
  }

  /** The table after mounting on each path in turn; the first one stands for the root mount. */
  function TableFor(ways: seq<Way>): (tab: Table)
    requires |ways| > 0
    ensures Ordered(tab) && |tab| == |ways|
  {
    if |ways| == 1 then [Loc(0, [])]
    else
      var before := TableFor(ways[..|ways| - 1]);
      before + [AttachAt(before, ways[|ways| - 1])]
  }

  function Places(ways: seq<Way>): (ps: seq<Place>)
    ensures |ps| == |ways| && forall k | 0 <= k < |ways| :: ps[k] == Resolved(ways[k])
  {
    if ways == [] then [] else Places(ways[..|ways| - 1]) + [Resolved(ways[|ways| - 1])]
  }

  /** No mount but the first is made on the root itself. */
  predicate OffRoot(ways: seq<Way>) {
    forall k | 1 <= k < |ways| :: Resolved(ways[k]) != []
  }

  /** Each later mount is attached where its target led to at the time. */
  lemma {:induction false} TableEntry(targets: seq<Place>, k: nat)
    requires 1 <= k < |targets|
    ensures TableOf(targets)[k] == Descend(TableOf(targets[..k]), targets[k])
    decreases |targets|
  {
    hide Descend, Follow;
    var front := targets[..|targets| - 1];
    DescendInside(TableOf(front), targets[|targets| - 1]);
    if k < |targets| - 1 {
      TableEntry(front, k);
      assert front[..k] == targets[..k];
    }
  }

  /** Going up from where a place is served leads to where the place above is served. */
  lemma {:induction false} ParentIsServed(targets: seq<Place>, p: Place, n: nat)
    requires 0 < n <= |targets| && targets[0] == []
    requires forall l | n <= l < |targets| && targets[l] <= p :: targets[l] == p
    ensures p != [] ==> Parent(TableOf(targets), Served(targets[..n], p)) == Served(targets, Above(p))
    decreases n
  {
    hide Descend, Follow, TableOf;
    var tab, k := TableOf(targets), LastCover(targets[..n], p);
    if p != [] && targets[k] == p {
      assert Served(targets[..n], p) == Loc(k, []);
      TableEntry(targets, k);
      DescendIsLastCover(targets[..k], p);
      ParentIsServed(targets, p, k);
    } else if p != [] {
      var up := Above(p);
      assert targets[k] <= up && up[|targets[k]|..] == Above(p[|targets[k]|..]);
      forall l | k < l < |targets|
        ensures !(targets[l] <= up)
      {
        assert !(targets[l] <= p) || targets[l] == p by {
          assert l < n ==> targets[..n][l] == targets[l];
        }
        NotOnWayAbove(targets[l], p);
      }
      CoverIs(targets, up, k);
    }
  }

  lemma NotOnWayAbove(t: Place, p: Place)
    ensures t <= Above(p) ==> t <= p
    ensures p != [] ==> !(p <= Above(p))
  {
  }

  lemma {:induction false} CoverIs(targets: seq<Place>, p: Place, k: nat)
    requires |targets| > 0 && targets[0] == [] && k < |targets| && targets[k] <= p
    requires forall l | k < l < |targets| :: !(targets[l] <= p)
    ensures LastCover(targets, p) == k
  {
    if k < |targets| - 1 {
      CoverIs(targets[..|targets| - 1], p, k);
    }
  }

  /** Where a walk over ordinary names ends, nothing more is attached. */
  lemma DescendStays(tab: Table, p: Place)
    requires Ordered(tab)
    ensures Follow(tab, Descend(tab, p)) == Descend(tab, p)
  {
    hide Descend;
    DescendEnds(tab, p);
  }

  /** With nothing but the first mount on the root, a path as written ends where the place it leads to is served. */
  lemma {:induction false} WalkIsServed(targets: seq<Place>, w: Way)
    requires |targets| > 0 && targets[0] == [] && forall k | 1 <= k < |targets| :: targets[k] != []
    ensures Walk(TableOf(targets), w) == Served(targets, Resolved(w))
    decreases |w|
  {
    hide Descend, Follow, TableOf, Parent;
    var tab := TableOf(targets);
    if w == [] {
      CoverIs(targets, [], 0);
    } else {
      var up, x := w[..|w| - 1], w[|w| - 1];
      WalkIsServed(targets, up);
      WalkOnServed(targets, Resolved(up), x);
    }
  }

  lemma WalkOnServed(targets: seq<Place>, p: Place, x: string)
    requires |targets| > 0 && targets[0] == [] && forall k | 1 <= k < |targets| :: targets[k] != []
    ensures WalkOn(TableOf(targets), Served(targets, p), x) == Served(targets, GoOn(p, x))
  {
    hide Descend, Follow, TableOf, Parent, Served;
    var tab := TableOf(targets);
    DescendIsLastCover(targets, p);
    DescendIsLastCover(targets, GoOn(p, x));
    DescendStays(tab, GoOn(p, x));
    if x == ".." {
      assert targets[..|targets|] == targets;
      if p != [] {
        ParentIsServed(targets, p, |targets|);
      } else {
        RootServed(targets);
        ParentOfRoot(tab);
      }
    } else if x != "." {
      DescendLonger(tab, p, x);
    }
  }

  lemma RootServed(targets: seq<Place>)
    requires |targets| > 0 && targets[0] == [] && forall k | 1 <= k < |targets| :: targets[k] != []
    ensures Served(targets, []) == Loc(0, [])
  {
    CoverIs(targets, [], 0);
  }

  lemma ParentOfRoot(tab: Table)
    requires Ordered(tab)
    ensures Parent(tab, Loc(0, [])) == Loc(0, [])
  {
  }

  lemma {:induction false} TableForPlaces(ways: seq<Way>)
    requires |ways| > 0 && ways[0] == [] && OffRoot(ways)
    ensures TableFor(ways) == TableOf(Places(ways))
    decreases |ways|
  {
    hide Descend, Follow, Walk, Served;
    if |ways| > 1 {
      var front, w := ways[..|ways| - 1], ways[|ways| - 1];
      TableForPlaces(front);
      var ps := Places(ways);
      assert ps[..|ps| - 1] == Places(front);
      WalkIsServed(Places(front), w);
      DescendIsLastCover(Places(front), Resolved(w));
      DescendStays(TableOf(Places(front)), Resolved(w));
    }
  }

  /**
   Every path, as written, ends on the last-issued mount on the way to the place it leads to, at the rest of
   that place.
   */
  ghost predicate LastIssuedServes(ways: seq<Way>)
    requires |ways| > 0 && ways[0] == []
  {
    forall w: Way :: Walk(TableFor(ways), w) == Served(Places(ways), Resolved(w))
  }

  /**
   For any mounts on any paths, `.` and `..` included, the last-issued mount on the way serves every path
   exactly when no mount but the first is made on the root itself: such a mount is not seen by paths that
   start at the root below it.
   */
  lemma LastIssuedServesIff(ways: seq<Way>)
    requires |ways| > 0 && ways[0] == []
    ensures LastIssuedServes(ways) <==> OffRoot(ways)
  {
    hide Walk, TableOf, TableFor;
    var ps := Places(ways);
    if OffRoot(ways) {
      TableForPlaces(ways);
      forall w: Way
        ensures Walk(TableFor(ways), w) == Served(ps, Resolved(w))
      {
        WalkIsServed(ps, w);
      }
    } else {
      var k :| 1 <= k < |ways| && Resolved(ways[k]) == [];
      assert ps[k] <= [];
      WalkOfNothing(TableFor(ways));
      assert Served(ps, Resolved([])).mount >= k;
    }
  }

  lemma WalkOfNothing(tab: Table)
    requires Ordered(tab)
    ensures Walk(tab, []) == Loc(0, [])
  {
  }
}
