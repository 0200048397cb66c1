/**
 namespace_setup_mounts: the order in which the container's root, the standard
 file systems and the volumes are mounted, and which of them serves a path.
 */
module Volumes {
  import opened Wrappers
  import opened CStrings
  import opened Paths
  import opened Options
  import opened Mounts
  import opened Copies

  /** A mount: what is mounted, its file system type, and the path it is mounted on, as written. */
  datatype Mounted = Mounted(source: string, fs: string, way: Way)
  {
    function Target(): Place {
      Resolved(way)
    }
  }

  /** The mounts in the order of issue, which of them are read-only, and where each is attached. */
  datatype Space = Space(mounts: seq<Mounted>, ro: seq<bool>, table: Table)

  predicate Matched(s: Space) {
    Ordered(s.table) && |s.table| == |s.mounts| == |s.ro|
  }

  /** Which mount a walk of the path ends in. */
  function Reaches(s: Space, w: Way): (k: nat)
    requires Matched(s)
    ensures k < |s.mounts|
  {
    Walk(s.table, w).mount
  }

  function ServedBy(s: Space, w: Way): Mounted
    requires Matched(s)
  {
    s.mounts[Reaches(s, w)]
  }

  function ReadonlyAt(s: Space, w: Way): bool
    requires Matched(s)
  {
    s.ro[Reaches(s, w)]
  }

  /** One more mount, attached where its path leads now. */
  function Attach(s: Space, m: Mounted, ro: bool): (s': Space)
    requires Matched(s)
    ensures Matched(s')
  {
    Space(s.mounts + [m], s.ro + [ro], s.table + [AttachAt(s.table, m.way)])
  }

  function Pick<T>(s: seq<T>, olds: seq<nat>): (t: seq<T>)
    requires forall q | 0 <= q < |olds| :: olds[q] < |s|
    ensures |t| == |olds| && forall q | 0 <= q < |t| :: t[q] == s[olds[q]]
  {
    if olds == [] then [] else Pick(s, olds[..|olds| - 1]) + [s[olds[|olds| - 1]]]
  }

  /** The mounts that a recursive bind of a path copies along. */
  function Copied(s: Space, w: Way): (olds: seq<nat>)
    requires Matched(s)
    ensures forall q | 0 <= q < |olds| :: olds[q] < |s.mounts|
  {
    Originals(s.table, Walk(s.table, w), |s.table|)
  }

  /** A path bound onto itself, recursively; every copy is read-only if its original is. */
  function BindAll(s: Space, m: Mounted): (s': Space)
    requires Matched(s)
    ensures Matched(s')
  {
    var olds := Copied(s, m.way);
    Space(s.mounts + [m] + Pick(s.mounts, olds), s.ro + [ReadonlyAt(s, m.way)] + Pick(s.ro, olds),
          BoundTable(s.table, m.way))
  }

  function MadeReadonly(s: Space, k: nat): (s': Space)
    requires Matched(s) && k < |s.mounts|
    ensures Matched(s')
  {
    s.(ro := s.ro[k := true])
  }

  /** A mount to make, of a file system or of a source that is bound; the setup ends when a required one fails. */
  datatype Req = Req(source: string, fs: string, path: string, bind: bool, required: bool)

  function MountedFor(r: Req): Mounted {
    Mounted(r.source, r.fs, Names(r.path))
  }

  /** A bind is read-only if the mount that serves its source is; the file systems are mounted writable. */
  function MountReq(s: Space, r: Req): (s': Space)
    requires Matched(s)
    ensures Matched(s')
  {
    Attach(s, MountedFor(r), r.bind && ReadonlyAt(s, Names(r.source)))
  }

  datatype RunResult = RunResult(space: Space, clock: nat, ok: bool)

  function RunReqs(s: Space, reqs: seq<Req>, t: nat, faults: nat -> bool): (r: RunResult)
    requires Matched(s)
    ensures Matched(r.space)
    decreases |reqs|
  {
    if reqs == [] then RunResult(s, t, true)
    else if !faults(t) then RunReqs(MountReq(s, reqs[0]), reqs[1..], t + 1, faults)
    else if reqs[0].required then RunResult(s, t + 1, false)
    else RunReqs(s, reqs[1..], t + 1, faults)
  }

  function Under(rootfs: string, path: string): string {
    Take(rootfs + path, MAX_PATH_LEN - 1)
  }

  function StandardReq(rootfs: string, fs: string, path: string): Req {
    Req(fs, fs, Under(rootfs, path), false, false)
  }

  function StandardReqs(rootfs: string): seq<Req> {
    [StandardReq(rootfs, "proc", "/proc"), StandardReq(rootfs, "sysfs", "/sys"),
     StandardReq(rootfs, "devtmpfs", "/dev"), StandardReq(rootfs, "devpts", "/dev/pts"),
     StandardReq(rootfs, "tmpfs", "/tmp"), StandardReq(rootfs, "tmpfs", "/run")]
  }

  function VolumeReq(rootfs: string, v: MountPoint): Req {
    Req(v.source, v.fstype, Under(rootfs, v.target), true, true)
  }

  function VolumeReqs(rootfs: string, volumes: seq<MountPoint>): (reqs: seq<Req>)
    ensures |reqs| == |volumes| && forall k | 0 <= k < |reqs| :: reqs[k] == VolumeReq(rootfs, volumes[k])
  {
    if volumes == [] then [] else [VolumeReq(rootfs, volumes[0])] + VolumeReqs(rootfs, volumes[1..])
  }

  /** Every volume is a plain bind, as the volume option stores it. */
  predicate Binds(volumes: seq<MountPoint>) {
    forall v :: v in volumes ==> v.flags == MS_BIND
  }

  lemma {:induction false} StoredVolumesBind(ts: seq<OptText>)
    ensures Binds(VolumeParses(ts))
  {
    if ts != [] {
      StoredVolumesBind(ts[1..]);
    }
  }

  function RootBind(rootfs: string): Mounted {
    Mounted(rootfs, "", Names(rootfs))
  }

  /** When the first of the standard mounts is tried. */
  function StandardFrom(readonly: bool, t: nat): nat {
    if readonly then t + 3 else t + 2
  }

  /** The root bind, and its remount when the root is to be read-only. */
  function Bound(s: Space, rootfs: string, readonly: bool): (s': Space)
    requires Matched(s)
    ensures Matched(s')
  {
    var bound := BindAll(s, RootBind(rootfs));
    if readonly then MadeReadonly(bound, Reaches(bound, Names(rootfs))) else bound
  }

  /** The whole setup: private propagation, the root bind, its read-only remount, then everything else in order. */
  function Setup(s: Space, rootfs: string, readonly: bool, volumes: seq<MountPoint>, t: nat,
      faults: nat -> bool): (r: RunResult)
    requires Matched(s)
    ensures Matched(r.space)
  {
    if faults(t) then RunResult(s, t + 1, false)
    else if faults(t + 1) then RunResult(s, t + 2, false)
    else if readonly && faults(t + 2) then RunResult(Bound(s, rootfs, false), t + 3, false)
    else
      RunReqs(Bound(s, rootfs, readonly), StandardReqs(rootfs) + VolumeReqs(rootfs, volumes),
              StandardFrom(readonly, t), faults)
  }

  class MountSpace {
    var mounts: seq<Mounted>
    var ro: seq<bool>
    var table: Table
    var clock: nat
    const faults: nat -> bool

    constructor (s: Space, faults: nat -> bool)
      requires Matched(s)
      ensures Valid() && Now() == s && clock == 0 && this.faults == faults
    {
      mounts, ro, table, clock, this.faults := s.mounts, s.ro, s.table, 0, faults;
    }

    ghost function Now(): Space
      reads this
    {
      Space(mounts, ro, table)
    }

    ghost predicate Valid()
      reads this
    {
      Matched(Now())
    }

    ghost function Rest(reqs: seq<Req>): RunResult
      requires Valid()
      reads this
    {
      RunReqs(Now(), reqs, clock, faults)
    }

    /** mount(2) of a file system, or of a bound source, on a path. */
    method Mount(source: string, fs: string, path: string, bind: bool) returns (ok: bool)
      requires Valid()
      modifies this
      ensures Valid() && clock == old(clock) + 1 && ok == !faults(old(clock))
      ensures Now() == if ok then MountReq(old(Now()), Req(source, fs, path, bind, false)) else old(Now())
    {
      ok := !faults(clock);
      clock := clock + 1;
      if ok {
        var now := bind && ro[Walk(table, Names(source)).mount];
        mounts, ro := mounts + [Mounted(source, fs, Names(path))], ro + [now];
        table := table + [AttachAt(table, Names(path))];
      }
    }

    /** The next of a list of mounts to make. */
    method MountNext(source: string, fs: string, path: string, bind: bool, ghost todo: seq<Req>)
      returns (ok: bool, ghost rest: seq<Req>)
      requires Valid() && todo != [] && todo[0] == Req(source, fs, path, bind, todo[0].required)
      modifies this
      ensures Valid() && rest == todo[1..] && clock == old(clock) + 1
      ensures ok || !todo[0].required ==> Rest(rest) == old(Rest(todo))
      ensures !ok && todo[0].required ==> RunResult(Now(), clock, false) == old(Rest(todo))
    {
      hide AttachAt, Walk, Names;
      ok := Mount(source, fs, path, bind);
      rest := todo[1..];
    }

    /** The propagation change of the whole tree; it attaches nothing. */
    method MakePrivate() returns (ok: bool)
      modifies this`clock
      ensures clock == old(clock) + 1 && ok == !faults(old(clock))
    {
      ok := !faults(clock);
      clock := clock + 1;
    }

    /** A path bound onto itself, with every mount attached inside. */
    method BindRecursively(path: string) returns (ok: bool)
      requires Valid()
      modifies this
      ensures Valid() && clock == old(clock) + 1 && ok == !faults(old(clock))
      ensures Now() == if ok then BindAll(old(Now()), RootBind(path)) else old(Now())
    {
      hide BoundTable, Originals, Walk, Names;
      ok := !faults(clock);
      clock := clock + 1;
      if ok {
        var at := Walk(table, Names(path));
        var olds := Originals(table, at, |table|);
        var after := BoundTable(table, Names(path));
        mounts, ro := mounts + [RootBind(path)] + Pick(mounts, olds), ro + [ro[at.mount]] + Pick(ro, olds);
        table := after;
      }
    }

    /** A remount that makes the mount a path leads to read-only. */
    method RemountReadonly(path: string) returns (ok: bool)
      requires Valid()
      modifies this`clock, this`ro
      ensures Valid() && clock == old(clock) + 1 && ok == !faults(old(clock))
      ensures Now() == if ok then MadeReadonly(old(Now()), Reaches(old(Now()), Names(path))) else old(Now())
    {
      ok := !faults(clock);
      clock := clock + 1;
      if ok {
        ro := ro[Walk(table, Names(path)).mount := true];
      }
    }
  }

  /** The volumes still to mount after the first `i`. */
  lemma VolumesLeft(rootfs: string, volumes: seq<MountPoint>, i: nat)
    requires i < |volumes|
    ensures var reqs, rest := VolumeReqs(rootfs, volumes[i..]), VolumeReqs(rootfs, volumes[i + 1..]);
            reqs[0] == VolumeReq(rootfs, volumes[i]) && reqs[1..] == rest
  {
  }

  lemma NothingLeft(s: Space, rootfs: string, volumes: seq<MountPoint>, t: nat, faults: nat -> bool)
    requires Matched(s)
    ensures RunReqs(s, VolumeReqs(rootfs, volumes[|volumes|..]), t, faults) == RunResult(s, t, true)
  {
  }

  method MountVolumes(ns: MountSpace, rootfs: string, volumes: seq<MountPoint>) returns (status: Status)
    requires ns.Valid() && Binds(volumes)
    modifies ns
    ensures ns.Valid() && RunResult(ns.Now(), ns.clock, status == Ok) == old(ns.Rest(VolumeReqs(rootfs, volumes)))
    ensures status == Ok || status == Esyscall
  {
    hide RunReqs, VolumeReqs, Under, Matched;
    ghost var todo := VolumeReqs(rootfs, volumes);
    assert volumes[0..] == volumes;
    for i := 0 to |volumes|
      invariant ns.Valid() && todo == VolumeReqs(rootfs, volumes[i..])
      invariant ns.Rest(todo) == old(ns.Rest(VolumeReqs(rootfs, volumes)))
    {
      VolumesLeft(rootfs, volumes, i);
      var v := volumes[i];
      var ok;
      ok, todo := ns.MountNext(v.source, v.fstype, Under(rootfs, v.target), true, todo);
      if !ok {
        return Esyscall;
      }
    }
    NothingLeft(ns.Now(), rootfs, volumes, ns.clock, ns.faults);
    status := Ok;
  }

  /** The standard file systems: a failure is only logged. */
  method MountStandard(ns: MountSpace, rootfs: string, ghost more: seq<Req>)
    requires ns.Valid()
    modifies ns
    ensures ns.Valid() && ns.Rest(more) == old(ns.Rest(StandardReqs(rootfs) + more))
  {
    hide RunReqs, Under, Matched, Names;
    ghost var todo := StandardReqs(rootfs) + more;
    var ok;
    ok, todo := ns.MountNext("proc", "proc", Under(rootfs, "/proc"), false, todo);
    ok, todo := ns.MountNext("sysfs", "sysfs", Under(rootfs, "/sys"), false, todo);
    ok, todo := ns.MountNext("devtmpfs", "devtmpfs", Under(rootfs, "/dev"), false, todo);
    ok, todo := ns.MountNext("devpts", "devpts", Under(rootfs, "/dev/pts"), false, todo);
    ok, todo := ns.MountNext("tmpfs", "tmpfs", Under(rootfs, "/tmp"), false, todo);
    ok, todo := ns.MountNext("tmpfs", "tmpfs", Under(rootfs, "/run"), false, todo);
    assert todo == more;
  }

  method SetupMounts(ns: MountSpace, rootfs: string, readonly: bool, volumes: seq<MountPoint>) returns (status: Status)
    requires ns.Valid() && Binds(volumes)
    modifies ns
    ensures ns.Valid() && (status == Ok || status == Esyscall)
    ensures RunResult(ns.Now(), ns.clock, status == Ok) ==
            Setup(old(ns.Now()), rootfs, readonly, volumes, old(ns.clock), ns.faults)
  {
    hide RunReqs, StandardReqs, VolumeReqs, Names, Reaches, BindAll, Matched, Binds;
    var ok := ns.MakePrivate();
    if !ok { return Esyscall; }
    ok := ns.BindRecursively(rootfs);
    if !ok { return Esyscall; }
    if readonly {
      ok := ns.RemountReadonly(rootfs);
      if !ok { return Esyscall; }
    }
    MountStandard(ns, rootfs, VolumeReqs(rootfs, volumes));
    status := MountVolumes(ns, rootfs, volumes);
  }

  /* ---- Which mount serves a path ---- */

  function Ways(ms: seq<Mounted>): (ws: seq<Way>)
    ensures |ws| == |ms| && forall k | 0 <= k < |ms| :: ws[k] == ms[k].way
  {
    if ms == [] then [] else Ways(ms[..|ms| - 1]) + [ms[|ms| - 1].way]
  }

  /** The first mount is the root. */
  predicate Rooted(ms: seq<Mounted>) {
    |ms| > 0 && ms[0].way == []
  }

  /** No other mount is made on the root itself. */
  predicate RootClear(ms: seq<Mounted>) {
    forall k | 1 <= k < |ms| :: ms[k].Target() != []
  }

  /** The mounts are attached as making them one after the other attaches them, with nothing else on the root. */
  predicate Built(s: Space) {
    Matched(s) && Rooted(s.mounts) && RootClear(s.mounts) && s.table == TableFor(Ways(s.mounts))
  }

  /** The mount lies on the way to the place that a path leads to. */
  predicate Covers(m: Mounted, w: Way) {
    m.Target() <= Resolved(w)
  }

  /** The last of the first `n` mounts that lies on the way. */
  function LastOn(ms: seq<Mounted>, w: Way, n: nat): (k: nat)
    requires 0 < n <= |ms|
    ensures k < n && forall l | k < l < n :: !Covers(ms[l], w)
    ensures k > 0 ==> Covers(ms[k], w)
  {
    if n == 1 || Covers(ms[n - 1], w) then n - 1 else LastOn(ms, w, n - 1)
  }

  lemma NowhereToGo()
    ensures Resolved([]) == []
  {
  }

  lemma RootCovers(ms: seq<Mounted>, w: Way)
    requires Rooted(ms)
    ensures Covers(ms[0], w)
  {
    NowhereToGo();
  }

  lemma {:induction false} LastOnIs(ms: seq<Mounted>, w: Way, n: nat, k: nat)
    requires k < n <= |ms| && Covers(ms[k], w) && forall l | k < l < n :: !Covers(ms[l], w)
    ensures LastOn(ms, w, n) == k
  {
    hide Covers;
    if k < n - 1 {
      LastOnIs(ms, w, n - 1, k);
    }
  }

  lemma WaysClear(ms: seq<Mounted>)
    requires Rooted(ms) && RootClear(ms)
    ensures OffRoot(Ways(ms)) && Ways(ms)[0] == []
    ensures |Places(Ways(ms))| == |ms| && Places(Ways(ms))[0] == []
    ensures forall k | 0 <= k < |ms| :: Places(Ways(ms))[k] == ms[k].Target()
  {
    hide Resolved;
    NowhereToGo();
    assert forall k | 0 <= k < |ms| :: Ways(ms)[k] == ms[k].way;
  }

  /** A path is served by the last-issued mount on its way. */
  lemma ServedByLastIssued(s: Space, w: Way)
    requires Built(s)
    ensures Reaches(s, w) == LastOn(s.mounts, w, |s.mounts|)
  {
    hide Walk, TableFor, Ways, Places, Resolved, OffRoot, RootClear;
    var ms := s.mounts;
    WaysClear(ms);
    LastIssuedServesIff(Ways(ms));
    RootCovers(ms, w);
    CoverIs(Places(Ways(ms)), Resolved(w), LastOn(ms, w, |ms|));
  }

  /** Adding mounts keeps what a shorter list says. */
  lemma {:induction false} LastOnLocal(a: seq<Mounted>, b: seq<Mounted>, w: Way, n: nat)
    requires 0 < n <= |a| && n <= |b| && forall k | 0 <= k < n :: a[k] == b[k]
    ensures LastOn(a, w, n) == LastOn(b, w, n)
  {
    hide Covers;
    if n > 1 && !Covers(a[n - 1], w) {
      LastOnLocal(a, b, w, n - 1);
    }
  }

  lemma AttachBuilt(s: Space, m: Mounted, ro: bool)
    requires Built(s) && m.Target() != []
    ensures Built(Attach(s, m, ro))
  {
    hide AttachAt, Resolved;
    var ms := s.mounts;
    assert (ms + [m])[..|ms|] == ms;
    assert Ways(ms + [m])[..|ms|] == Ways(ms);
    assert forall k | 1 <= k < |ms + [m]| :: (ms + [m])[k] == if k < |ms| then ms[k] else m;
  }

  /** The mounts that a recursive bind copies are those made after the one that serves the path, strictly below it. */
  lemma CopiedAre(s: Space, w: Way)
    requires Built(s)
    ensures forall j :: j in Copied(s, w) <==>
                        Reaches(s, w) < j < |s.mounts| && StrictlyBelow(Resolved(w), s.mounts[j].Target())
  {
    hide Walk, TableFor, TableOf, Ways, Places, Resolved, OffRoot, LastCover, StrictlyBelow, Originals, BoundTable;
    WaysClear(s.mounts);
    TableForPlaces(Ways(s.mounts));
    BindIsRemaking(Places(Ways(s.mounts)), w);
    WalkIsServed(Places(Ways(s.mounts)), w);
  }

  lemma BindBuilt(s: Space, m: Mounted)
    requires Built(s) && m.Target() != []
    ensures Built(BindAll(s, m))
  {
    hide Walk, TableFor, TableOf, Places, Resolved, OffRoot, LastCover, StrictlyBelow, Originals, BoundTable, Ways;
    var targets := Places(Ways(s.mounts));
    WaysClear(s.mounts);
    TableForPlaces(Ways(s.mounts));
    BindIsRemaking(targets, m.way);
    var after := BindAll(s, m).mounts;
    CopiedStayClear(s, m);
    WaysClear(after);
    TableForPlaces(Ways(after));
    PlacesOfBind(s, m);
  }

  lemma PlacesOfBind(s: Space, m: Mounted)
    requires Built(s)
    ensures |Places(Ways(s.mounts))| == |s.mounts|
    ensures Places(Ways(BindAll(s, m).mounts)) ==
            Remade(Places(Ways(s.mounts)), m.Target(), Copied(s, m.way), |Copied(s, m.way)|)
  {
    hide Copied, BoundTable, RootClear, ReadonlyAt, Remade, Places, Ways, Pick;
    var olds := Copied(s, m.way);
    PlacesRemade(s.mounts, m, olds, |olds|);
    assert olds[..|olds|] == olds;
  }

  lemma {:induction false} PlacesRemade(ms: seq<Mounted>, m: Mounted, olds: seq<nat>, n: nat)
    requires n <= |olds| && forall q | 0 <= q < |olds| :: olds[q] < |ms|
    ensures |Places(Ways(ms))| == |ms|
    ensures Places(Ways(ms + [m] + Pick(ms, olds[..n]))) == Remade(Places(Ways(ms)), m.Target(), olds, n)
    decreases n
  {
    hide Places, Ways, Resolved, Pick, Remade;
    if n == 0 {
      PickNothing(ms);
      OneMorePlace(ms, m);
      RemadeStart(Places(Ways(ms)), m.Target(), olds);
    } else {
      PlacesRemade(ms, m, olds, n - 1);
      var copied, next := Pick(ms, olds[..n - 1]), ms[olds[n - 1]];
      PickOneMore(ms, olds, n);
      OneMorePlace(ms + [m] + copied, next);
      Regroup3(ms + [m], copied, next);
      RemadeStep(Places(Ways(ms)), m.Target(), olds, n);
    }
  }

  lemma PickNothing(ms: seq<Mounted>)
    ensures Pick(ms, []) == []
    ensures forall m :: ms + [m] + [] == ms + [m]
  {
  }

  lemma PickOneMore(ms: seq<Mounted>, olds: seq<nat>, n: nat)
    requires 0 < n <= |olds| && forall q | 0 <= q < |olds| :: olds[q] < |ms|
    ensures Pick(ms, olds[..n]) == Pick(ms, olds[..n - 1]) + [ms[olds[n - 1]]]
  {
    assert olds[..n][..n - 1] == olds[..n - 1];
  }

  lemma Regroup3(a: seq<Mounted>, b: seq<Mounted>, x: Mounted)
    ensures a + (b + [x]) == a + b + [x]
  {
  }

  lemma RemadeStart(targets: seq<Place>, root: Place, olds: seq<nat>)
    requires forall q | 0 <= q < |olds| :: olds[q] < |targets|
    ensures Remade(targets, root, olds, 0) == targets + [root]
  {
  }

  lemma RemadeStep(targets: seq<Place>, root: Place, olds: seq<nat>, n: nat)
    requires 0 < n <= |olds| && forall q | 0 <= q < |olds| :: olds[q] < |targets|
    ensures Remade(targets, root, olds, n) == Remade(targets, root, olds, n - 1) + [targets[olds[n - 1]]]
  {
  }

  lemma OneMorePlace(ms: seq<Mounted>, m: Mounted)
    ensures Places(Ways(ms + [m])) == Places(Ways(ms)) + [m.Target()]
  {
    hide Resolved;
    assert (ms + [m])[..|ms|] == ms;
    assert (Ways(ms) + [m.way])[..|ms|] == Ways(ms);
  }

  lemma CopiedStayClear(s: Space, m: Mounted)
    requires Built(s) && m.Target() != []
    ensures Rooted(BindAll(s, m).mounts) && RootClear(BindAll(s, m).mounts)
  {
    hide BoundTable, StrictlyBelow, Resolved;
    CopiedAre(s, m.way);
    var olds := Copied(s, m.way);
    forall q | 0 <= q < |olds|
      ensures Pick(s.mounts, olds)[q].Target() != []
    {
      assert olds[q] in olds;
    }
  }

  /** The path that was bound leads to the bind. */
  lemma BindReached(s: Space, m: Mounted)
    requires Built(s) && m.Target() != []
    ensures Reaches(BindAll(s, m), m.way) == |s.mounts|
  {
    hide BoundTable, Resolved, Reaches, Built, Copied, Covers, Pick, LastOn, ReadonlyAt;
    assert Matched(s) by { BuiltMatches(s); }
    CopiesOffWay(s, m);
    BindBuilt(s, m);
    CoversItself(m.source, m.fs, m.way);
    LastBeforeOthers(s.mounts, m, Pick(s.mounts, Copied(s, m.way)), m.way);
    ServedByLastIssued(BindAll(s, m), m.way);
  }

  lemma CoversItself(source: string, fs: string, w: Way)
    ensures Covers(Mounted(source, fs, w), w)
  {
  }

  lemma CopiesOffWay(s: Space, m: Mounted)
    requires Built(s)
    ensures forall c :: c in Pick(s.mounts, Copied(s, m.way)) ==> !Covers(c, m.way)
  {
    hide Resolved, Built, Reaches, Copied, Pick;
    assert Matched(s) by { BuiltMatches(s); }
    CopiedAre(s, m.way);
    var olds := Copied(s, m.way);
    forall q | 0 <= q < |olds|
      ensures !Covers(Pick(s.mounts, olds)[q], m.way)
    {
      assert olds[q] in olds;
    }
  }

  lemma LastBeforeOthers(before: seq<Mounted>, m: Mounted, others: seq<Mounted>, w: Way)
    requires Covers(m, w) && forall c :: c in others ==> !Covers(c, w)
    ensures LastOn(before + [m] + others, w, |before + [m] + others|) == |before|
  {
    hide Covers, LastOn;
    var ms := before + [m] + others;
    forall l | |before| < l < |ms|
      ensures !Covers(ms[l], w)
    {
      assert ms[l] == others[l - |before| - 1];
    }
    LastOnIs(ms, w, |ms|, |before|);
  }

  /* ---- What a setup adds ---- */

  lemma {:induction false} RunReqsJoin(s: Space, a: seq<Req>, b: seq<Req>, t: nat, faults: nat -> bool)
    requires Matched(s)
    ensures var r := RunReqs(s, a, t, faults);
            RunReqs(s, a + b, t, faults) == if r.ok then RunReqs(r.space, b, r.clock, faults) else r
    decreases |a|
  {
    hide MountReq, Matched;
    if a == [] {
      assert a + b == b;
    } else {
      assert (a + b)[1..] == a[1..] + b;
      RunReqsJoin(if faults(t) then s else MountReq(s, a[0]), a[1..], b, t + 1, faults);
    }
  }

  /** The mounts of a list that do not fail, tried one after the other. */
  function Made(reqs: seq<Req>, t: nat, faults: nat -> bool): seq<Mounted>
    decreases |reqs|
  {
    if reqs == [] then []
    else (if faults(t) then [] else [MountedFor(reqs[0])]) + Made(reqs[1..], t + 1, faults)
  }

  /** Mounts whose failure is only logged: all are tried, and those that work are kept in order. */
  lemma {:induction false} OptionalRun(s: Space, reqs: seq<Req>, t: nat, faults: nat -> bool)
    requires Matched(s) && forall r :: r in reqs ==> !r.required
    ensures var r := RunReqs(s, reqs, t, faults);
            r.ok && r.clock == t + |reqs| && r.space.mounts == s.mounts + Made(reqs, t, faults)
    decreases |reqs|
  {
    hide Names, Matched, AttachAt, ReadonlyAt;
    if reqs == [] {
      assert s.mounts + [] == s.mounts;
    } else {
      assert reqs[0] in reqs;
      var rest := Made(reqs[1..], t + 1, faults);
      if faults(t) {
        OptionalRun(s, reqs[1..], t + 1, faults);
        assert [] + rest == rest;
      } else {
        var now := MountedFor(reqs[0]);
        OptionalRun(MountReq(s, reqs[0]), reqs[1..], t + 1, faults);
        assert s.mounts + [now] + rest == s.mounts + ([now] + rest);
      }
    }
  }

  function VolumeMounts(rootfs: string, volumes: seq<MountPoint>): (ms: seq<Mounted>)
    ensures |ms| == |volumes| && forall k | 0 <= k < |ms| :: ms[k] == VolumeMount(rootfs, volumes[k])
  {
    if volumes == [] then [] else [VolumeMount(rootfs, volumes[0])] + VolumeMounts(rootfs, volumes[1..])
  }

  function VolumeMount(rootfs: string, v: MountPoint): Mounted {
    Mounted(v.source, v.fstype, Names(Under(rootfs, v.target)))
  }

  /** None of `n` calls in a row fails. */
  predicate Faultless(t: nat, n: nat, faults: nat -> bool) {
    forall k | t <= k < t + n :: !faults(k)
  }

  lemma FaultlessStep(t: nat, n: nat, faults: nat -> bool)
    requires n > 0
    ensures Faultless(t, n, faults) == (!faults(t) && Faultless(t + 1, n - 1, faults))
  {
  }

  /** The volumes: either none fails and all are there in order, or the setup fails. */
  lemma {:induction false} VolumesRun(s: Space, rootfs: string, volumes: seq<MountPoint>, t: nat, faults: nat -> bool)
    requires Matched(s)
    ensures var r := RunReqs(s, VolumeReqs(rootfs, volumes), t, faults);
            && r.ok == Faultless(t, |volumes|, faults)
            && (r.ok ==> r.space.mounts == s.mounts + VolumeMounts(rootfs, volumes))
    decreases |volumes|
  {
    hide Matched, MountReq, VolumeReq, VolumeMount, RunReqs;
    var reqs := VolumeReqs(rootfs, volumes);
    if volumes == [] {
      RunNothing(s, t, faults);
      assert s.mounts + [] == s.mounts;
    } else {
      hide Faultless;
      hide VolumeReqs, VolumeMounts;
      VolumesStep(rootfs, volumes);
      VolumeMounted(s, rootfs, volumes[0]);
      RunRequired(s, reqs, t, faults);
      FaultlessStep(t, |volumes|, faults);
      VolumesRun(MountReq(s, reqs[0]), rootfs, volumes[1..], t + 1, faults);
      Regroup(s.mounts, VolumeMount(rootfs, volumes[0]), VolumeMounts(rootfs, volumes[1..]));
    }
  }

  lemma VolumesStep(rootfs: string, volumes: seq<MountPoint>)
    requires volumes != []
    ensures var reqs := VolumeReqs(rootfs, volumes);
            reqs[0] == VolumeReq(rootfs, volumes[0]) && reqs[1..] == VolumeReqs(rootfs, volumes[1..])
    ensures VolumeMounts(rootfs, volumes) == [VolumeMount(rootfs, volumes[0])] + VolumeMounts(rootfs, volumes[1..])
  {
    hide VolumeReq, VolumeMount;
  }

  lemma Regroup(a: seq<Mounted>, x: Mounted, b: seq<Mounted>)
    ensures a + [x] + b == a + ([x] + b)
  {
  }

  lemma RunNothing(s: Space, t: nat, faults: nat -> bool)
    requires Matched(s)
    ensures RunReqs(s, [], t, faults) == RunResult(s, t, true)
  {
  }

  lemma RunRequired(s: Space, reqs: seq<Req>, t: nat, faults: nat -> bool)
    requires Matched(s) && reqs != [] && reqs[0].required
    ensures RunReqs(s, reqs, t, faults) ==
            if faults(t) then RunResult(s, t + 1, false) else RunReqs(MountReq(s, reqs[0]), reqs[1..], t + 1, faults)
  {
    hide MountReq, Matched;
  }

  lemma VolumeMounted(s: Space, rootfs: string, v: MountPoint)
    requires Matched(s)
    ensures VolumeReq(rootfs, v).required
    ensures MountReq(s, VolumeReq(rootfs, v)).mounts == s.mounts + [VolumeMount(rootfs, v)]
  {
    hide AttachAt, ReadonlyAt, Under, Names;
  }

  /** The root bind and what it copies along. */
  function RootAndCopies(s: Space, rootfs: string): seq<Mounted>
    requires Matched(s)
  {
    [RootBind(rootfs)] + Pick(s.mounts, Copied(s, Names(rootfs)))
  }

  /**
   What a setup that ends well has added: the root bind with its copies, the standard file systems that
   worked, and every volume in order.
   */
  function Added(s: Space, rootfs: string, readonly: bool, volumes: seq<MountPoint>, t: nat,
      faults: nat -> bool): seq<Mounted>
    requires Matched(s)
  {
    RootAndCopies(s, rootfs) + Made(StandardReqs(rootfs), StandardFrom(readonly, t), faults)
      + VolumeMounts(rootfs, volumes)
  }

  lemma BoundMounts(s: Space, rootfs: string, readonly: bool)
    requires Matched(s)
    ensures Bound(s, rootfs, readonly).mounts == s.mounts + RootAndCopies(s, rootfs)
  {
    hide BoundTable, Names, Reaches;
  }

  /** The setup ends well exactly when none of its required mounts fails; the standard ones do not matter. */
  lemma SetupEndsWell(s: Space, rootfs: string, readonly: bool, volumes: seq<MountPoint>, t: nat, faults: nat -> bool)
    requires Matched(s)
    ensures var r, from := Setup(s, rootfs, readonly, volumes, t, faults), if readonly then t + 3 else t + 2;
            r.ok <==> Faultless(t, from - t, faults) && Faultless(from + 6, |volumes|, faults)
  {
    hide RunReqs, VolumeReqs, Made, Bound, Matched;
    var from, start := StandardFrom(readonly, t), Bound(s, rootfs, readonly);
    RunReqsJoin(start, StandardReqs(rootfs), VolumeReqs(rootfs, volumes), from, faults);
    OptionalRun(start, StandardReqs(rootfs), from, faults);
    VolumesRun(RunReqs(start, StandardReqs(rootfs), from, faults).space, rootfs, volumes, from + 6, faults);
    assert Faultless(t, from - t, faults) == (!faults(t) && !faults(t + 1) && (readonly ==> !faults(t + 2)));
  }

  lemma StandardOptional(rootfs: string)
    ensures |StandardReqs(rootfs)| == 6 && forall r :: r in StandardReqs(rootfs) ==> !r.required && !r.bind
  {
    hide Under;
  }

  /** A setup that ends well has added its mounts in order. */
  lemma SetupAddsInOrder(s: Space, rootfs: string, readonly: bool, volumes: seq<MountPoint>, t: nat,
      faults: nat -> bool)
    requires Matched(s) && Setup(s, rootfs, readonly, volumes, t, faults).ok
    ensures Setup(s, rootfs, readonly, volumes, t, faults).space.mounts ==
            s.mounts + Added(s, rootfs, readonly, volumes, t, faults)
  {
    hide RunReqs, VolumeReqs, VolumeMounts, Made, Bound, Matched, RootAndCopies, StandardReqs, Faultless;
    StandardOptional(rootfs);
    var from, start := StandardFrom(readonly, t), Bound(s, rootfs, readonly);
    BoundMounts(s, rootfs, readonly);
    RunReqsJoin(start, StandardReqs(rootfs), VolumeReqs(rootfs, volumes), from, faults);
    OptionalRun(start, StandardReqs(rootfs), from, faults);
    VolumesRun(RunReqs(start, StandardReqs(rootfs), from, faults).space, rootfs, volumes, from + 6, faults);
    AllInOrder(s.mounts, RootAndCopies(s, rootfs), Made(StandardReqs(rootfs), from, faults),
        VolumeMounts(rootfs, volumes));
  }

  lemma AllInOrder(a: seq<Mounted>, b: seq<Mounted>, c: seq<Mounted>, d: seq<Mounted>)
    ensures a + b + c + d == a + (b + c + d)
  {
  }

  /* ---- Nothing on the root itself ---- */

  /** Neither the mounts before, nor the root path, nor any volume lies on the root of the mount namespace. */
  predicate NothingOnRoot(s: Space, rootfs: string, volumes: seq<MountPoint>) {
    && Built(s) && |rootfs| < MAX_PATH_LEN && Resolved(Names(rootfs)) != []
    && forall v :: v in volumes ==> VolumeMount(rootfs, v).Target() != []
  }

  lemma {:induction false} DotlessNames(s: string)
    requires '.' !in s
    ensures Plain(Scan(s).names) && '.' !in Scan(s).last && Plain(Names(s))
  {
    if s != [] {
      var front := s[..|s| - 1];
      assert '.' !in front by { assert front <= s; }
      DotlessNames(front);
    }
  }

  /** A standard mount lies below the root path, or on it when its name does not fit. */
  lemma StandardBelow(rootfs: string, name: string)
    requires |rootfs| < MAX_PATH_LEN && '.' !in name
    ensures Resolved(Names(rootfs)) <= Resolved(Names(Under(rootfs, ['/'] + name)))
  {
    hide Names;
    if |rootfs| == MAX_PATH_LEN - 1 {
      assert Under(rootfs, ['/'] + name) == rootfs;
    } else {
      var part := Take(name, MAX_PATH_LEN - 2 - |rootfs|);
      assert Under(rootfs, ['/'] + name) == rootfs + ['/'] + part;
      NamesAppend(rootfs, part);
      DotlessNames(part);
      GoJoin([], Names(rootfs), Names(part));
      GoOrdinary(Resolved(Names(rootfs)), Names(part));
    }
  }

  lemma StandardOffRoot(rootfs: string, r: Req)
    requires |rootfs| < MAX_PATH_LEN && Resolved(Names(rootfs)) != [] && r in StandardReqs(rootfs)
    ensures MountedFor(r).Target() != []
  {
    hide Names, Under, Resolved;
    StandardBelow(rootfs, "proc");
    StandardBelow(rootfs, "sys");
    StandardBelow(rootfs, "dev");
    StandardBelow(rootfs, "dev/pts");
    StandardBelow(rootfs, "tmp");
    StandardBelow(rootfs, "run");
    assert "/proc" == ['/'] + "proc" && "/sys" == ['/'] + "sys" && "/dev" == ['/'] + "dev";
    assert "/dev/pts" == ['/'] + "dev/pts" && "/tmp" == ['/'] + "tmp" && "/run" == ['/'] + "run";
  }

  lemma {:induction false} RunBuilt(s: Space, reqs: seq<Req>, t: nat, faults: nat -> bool)
    requires Built(s) && forall r :: r in reqs ==> MountedFor(r).Target() != []
    ensures Built(RunReqs(s, reqs, t, faults).space)
    decreases |reqs|
  {
    hide Built, Attach, Names, Resolved, ReadonlyAt;
    if reqs != [] {
      assert reqs[0] in reqs;
      assert Matched(s) by { BuiltMatches(s); }
      if !faults(t) {
        AttachBuilt(s, MountedFor(reqs[0]), reqs[0].bind && ReadonlyAt(s, Names(reqs[0].source)));
        RunBuilt(MountReq(s, reqs[0]), reqs[1..], t + 1, faults);
      } else if !reqs[0].required {
        RunBuilt(s, reqs[1..], t + 1, faults);
      }
    }
  }

  lemma BuiltMatches(s: Space)
    requires Built(s)
    ensures Matched(s)
  {
  }

  lemma RemountBuilt(s: Space, k: nat)
    requires Built(s) && k < |s.mounts|
    ensures Built(MadeReadonly(s, k))
  {
  }

  /** The bind on the root path, remounted or not, is reached by the root path. */
  lemma RootBound(s: Space, rootfs: string, readonly: bool)
    requires Built(s) && Resolved(Names(rootfs)) != []
    ensures var bound, olds := Bound(s, rootfs, readonly), Copied(s, Names(rootfs));
            && Built(bound)
            && bound.ro == s.ro + [readonly || ReadonlyAt(s, Names(rootfs))] + Pick(s.ro, olds)
  {
    hide BoundTable, Names, Reaches, Copied, Resolved, Built;
    assert Matched(s) by { BuiltMatches(s); }
    var m := RootBind(rootfs);
    BindBuilt(s, m);
    BindReached(s, m);
    RemountBuilt(BindAll(s, m), |s.mounts|);
  }

  lemma SetupReqsOffRoot(rootfs: string, volumes: seq<MountPoint>)
    requires |rootfs| < MAX_PATH_LEN && Resolved(Names(rootfs)) != []
    requires forall v :: v in volumes ==> VolumeMount(rootfs, v).Target() != []
    ensures forall r :: r in StandardReqs(rootfs) || r in VolumeReqs(rootfs, volumes) ==> MountedFor(r).Target() != []
  {
    hide Names, Under, Resolved, StandardReqs;
    forall r | r in StandardReqs(rootfs) || r in VolumeReqs(rootfs, volumes)
      ensures MountedFor(r).Target() != []
    {
      if r in StandardReqs(rootfs) {
        StandardOffRoot(rootfs, r);
      } else {
        var k :| 0 <= k < |volumes| && VolumeReqs(rootfs, volumes)[k] == r;
        assert volumes[k] in volumes && MountedFor(r) == VolumeMount(rootfs, volumes[k]);
      }
    }
  }

  /**
   After the setup the mounts are attached as making them one after the other attaches them, and the root is
   clear.
   */
  lemma SetupBuilt(s: Space, rootfs: string, readonly: bool, volumes: seq<MountPoint>, t: nat, faults: nat -> bool)
    requires NothingOnRoot(s, rootfs, volumes)
    ensures Built(Setup(s, rootfs, readonly, volumes, t, faults).space)
  {
    hide Names, Resolved, Bound, Built, RunReqs, StandardReqs, VolumeReqs, VolumeMount;
    assert Matched(s) by { BuiltMatches(s); }
    RootBound(s, rootfs, readonly);
    RootBound(s, rootfs, false);
    SetupReqsOffRoot(rootfs, volumes);
    RunBuilt(Bound(s, rootfs, readonly), StandardReqs(rootfs) + VolumeReqs(rootfs, volumes),
        StandardFrom(readonly, t), faults);
  }

  /* ---- What serves a path after the setup ---- */

  /** Where the first volume is in the order of issue. */
  function VolumesFrom(s: Space, rootfs: string, readonly: bool, t: nat, faults: nat -> bool): nat
    requires Matched(s)
  {
    |s.mounts| + |RootAndCopies(s, rootfs)| + |Made(StandardReqs(rootfs), StandardFrom(readonly, t), faults)|
  }

  /** The order of issue: what was there, the root bind, its copies, the standard mounts that worked, the volumes. */
  predicate Laid(ms: seq<Mounted>, before: seq<Mounted>, root: Mounted, copies: seq<Mounted>, made: seq<Mounted>,
                 volumes: seq<Mounted>) {
    var b, n := |before|, |before| + 1 + |copies| + |made|;
    && |ms| == n + |volumes| && ms[..b] == before && ms[b] == root
    && (forall q | 0 <= q < |copies| :: ms[b + 1 + q] == copies[q])
    && (forall q | 0 <= q < |made| :: ms[b + 1 + |copies| + q] == made[q])
    && (forall q | 0 <= q < |volumes| :: ms[n + q] == volumes[q])
  }

  lemma Pieces(before: seq<Mounted>, root: Mounted, copies: seq<Mounted>, made: seq<Mounted>, volumes: seq<Mounted>)
    ensures Laid(before + ([root] + copies + made + volumes), before, root, copies, made, volumes)
  {
  }

  /** What is at each place of the order of issue after a good setup. */
  lemma SetupPlaces(s: Space, rootfs: string, readonly: bool, volumes: seq<MountPoint>, t: nat, faults: nat -> bool)
    requires Matched(s) && Setup(s, rootfs, readonly, volumes, t, faults).ok
    ensures var copies, made := Pick(s.mounts, Copied(s, Names(rootfs))),
            Made(StandardReqs(rootfs), StandardFrom(readonly, t), faults);
            && Laid(Setup(s, rootfs, readonly, volumes, t, faults).space.mounts,
                    s.mounts, RootBind(rootfs), copies, made, VolumeMounts(rootfs, volumes))
            && |RootAndCopies(s, rootfs)| == 1 + |copies|
            && VolumesFrom(s, rootfs, readonly, t, faults) == |s.mounts| + 1 + |copies| + |made|
  {
    hide Setup, Names, Made, StandardReqs, Matched, Copied, RootAndCopies, Added, Laid, Pick, VolumeMounts;
    SetupAddsInOrder(s, rootfs, readonly, volumes, t, faults);
    AddedIs(s, rootfs, readonly, volumes, t, faults);
    Pieces(s.mounts, RootBind(rootfs), Pick(s.mounts, Copied(s, Names(rootfs))),
           Made(StandardReqs(rootfs), StandardFrom(readonly, t), faults), VolumeMounts(rootfs, volumes));
  }

  lemma AddedIs(s: Space, rootfs: string, readonly: bool, volumes: seq<MountPoint>, t: nat, faults: nat -> bool)
    requires Matched(s)
    ensures var copies := Pick(s.mounts, Copied(s, Names(rootfs)));
            && |RootAndCopies(s, rootfs)| == 1 + |copies|
            && Added(s, rootfs, readonly, volumes, t, faults) ==
               [RootBind(rootfs)] + copies + Made(StandardReqs(rootfs), StandardFrom(readonly, t), faults)
               + VolumeMounts(rootfs, volumes)
  {
    hide Names, Made, StandardReqs, Matched, Copied, RootBind;
  }

  /** A later volume shadows everything mounted before it: a path is served by the last volume on its way. */
  lemma LaterVolumeShadows(s: Space, rootfs: string, readonly: bool, volumes: seq<MountPoint>,
                           t: nat, faults: nat -> bool, w: Way, i: nat)
    requires NothingOnRoot(s, rootfs, volumes) && Setup(s, rootfs, readonly, volumes, t, faults).ok
    requires i < |volumes| && Covers(VolumeMount(rootfs, volumes[i]), w)
    requires forall j | i < j < |volumes| :: !Covers(VolumeMount(rootfs, volumes[j]), w)
    ensures var after := Setup(s, rootfs, readonly, volumes, t, faults).space;
            && Reaches(after, w) == VolumesFrom(s, rootfs, readonly, t, faults) + i
            && ServedBy(after, w) == VolumeMount(rootfs, volumes[i])
  {
    hide Setup, Built, Covers, Reaches, VolumeMount, VolumesFrom, Copied, Made, Names, Resolved, Laid, LastOn, Pick,
        StandardReqs, VolumeMounts;
    assert Matched(s) by { BuiltMatches(s); }
    SetupBuilt(s, rootfs, readonly, volumes, t, faults);
    SetupPlaces(s, rootfs, readonly, volumes, t, faults);
    var after := Setup(s, rootfs, readonly, volumes, t, faults).space;
    LaidVolumeLast(after.mounts, s.mounts, RootBind(rootfs), Pick(s.mounts, Copied(s, Names(rootfs))),
                   Made(StandardReqs(rootfs), StandardFrom(readonly, t), faults), VolumeMounts(rootfs, volumes), w, i);
    ServedByLastIssued(after, w);
  }

  lemma LaidVolumeLast(ms: seq<Mounted>, before: seq<Mounted>, root: Mounted, copies: seq<Mounted>, made: seq<Mounted>,
                       volumes: seq<Mounted>, w: Way, i: nat)
    requires Laid(ms, before, root, copies, made, volumes) && i < |volumes| && Covers(volumes[i], w)
    requires forall j | i < j < |volumes| :: !Covers(volumes[j], w)
    ensures var k := |before| + 1 + |copies| + |made| + i;
            k < |ms| && ms[k] == volumes[i] && LastOn(ms, w, |ms|) == k
  {
    hide Covers, LastOn;
    var n := |before| + 1 + |copies| + |made|;
    assert ms[n + i] == volumes[i];
    forall l | n + i < l < |ms|
      ensures !Covers(ms[l], w)
    {
      assert ms[n + (l - n)] == volumes[l - n];
    }
    LastOnIs(ms, w, |ms|, n + i);
  }

  lemma LaidMadeLast(ms: seq<Mounted>, before: seq<Mounted>, root: Mounted, copies: seq<Mounted>, made: seq<Mounted>,
                     volumes: seq<Mounted>, w: Way, i: nat)
    requires Laid(ms, before, root, copies, made, volumes) && i < |made| && Covers(made[i], w)
    requires forall j | i < j < |made| :: !Covers(made[j], w)
    ensures var k := |before| + 1 + |copies| + i;
            && k < |ms| && ms[k] == made[i]
            && ((forall j | 0 <= j < |volumes| :: !Covers(volumes[j], w)) ==> LastOn(ms, w, |ms|) == k)
  {
    hide Covers, LastOn;
    var first, n := |before| + 1 + |copies|, |before| + 1 + |copies| + |made|;
    assert ms[first + i] == made[i];
    if forall j | 0 <= j < |volumes| :: !Covers(volumes[j], w) {
      forall l | first + i < l < |ms|
        ensures !Covers(ms[l], w)
      {
        if l < n {
          assert ms[first + (l - first)] == made[l - first];
        } else {
          assert ms[n + (l - n)] == volumes[l - n];
        }
      }
      LastOnIs(ms, w, |ms|, first + i);
    }
  }

  /** The last of the volumes on the way to a path. */
  lemma {:induction false} LastVolume(rootfs: string, volumes: seq<MountPoint>, w: Way, n: nat) returns (i: nat)
    requires n <= |volumes| && exists j | 0 <= j < n :: Covers(VolumeMount(rootfs, volumes[j]), w)
    ensures i < n && Covers(VolumeMount(rootfs, volumes[i]), w)
    ensures forall j | i < j < n :: !Covers(VolumeMount(rootfs, volumes[j]), w)
  {
    hide VolumeMount, Covers;
    if Covers(VolumeMount(rootfs, volumes[n - 1]), w) {
      i := n - 1;
    } else {
      i := LastVolume(rootfs, volumes, w, n - 1);
    }
  }

  function DevPts(rootfs: string): Way {
    Names(rootfs) + ["dev", "pts"]
  }

  /* ---- The standard file systems ---- */

  /** The `q`-th standard mount: which file system, on which names below the root path. */
  predicate IsStandard(q: nat, fs: string, names: Way) {
    || (q == 0 && fs == "proc" && names == ["proc"])
    || (q == 1 && fs == "sysfs" && names == ["sys"])
    || (q == 2 && fs == "devtmpfs" && names == ["dev"])
    || (q == 3 && fs == "devpts" && names == ["dev", "pts"])
    || (q == 4 && fs == "tmpfs" && names == ["tmp"])
    || (q == 5 && fs == "tmpfs" && names == ["run"])
  }

  lemma NamesUnder(rootfs: string, name: string)
    requires |rootfs| + 1 + |name| < MAX_PATH_LEN
    ensures Names(Under(rootfs, ['/'] + name)) == Names(rootfs) + Names(name)
  {
    NamesAppend(rootfs, name);
    assert rootfs + ['/'] + name == rootfs + (['/'] + name);
  }

  lemma StandardNames()
    ensures Names("proc") == ["proc"] && Names("sys") == ["sys"] && Names("dev") == ["dev"]
    ensures Names("dev/pts") == ["dev", "pts"] && Names("tmp") == ["tmp"] && Names("run") == ["run"]
  {
    hide Names, Scan;
    NamesAppend("dev", "pts");
    assert "dev/pts" == "dev" + ['/'] + "pts";
    OneName("proc");
    OneName("sys");
    OneName("dev");
    OneName("pts");
    OneName("tmp");
    OneName("run");
  }

  lemma StandardMounted(rootfs: string, q: nat, fs: string, names: Way)
    requires |rootfs| + 8 < MAX_PATH_LEN && IsStandard(q, fs, names)
    ensures |StandardReqs(rootfs)| == 6 && MountedFor(StandardReqs(rootfs)[q]) == Mounted(fs, fs, Names(rootfs) + names)
  {
    hide Names, Under;
    StandardNames();
    assert "/proc" == ['/'] + "proc" && "/sys" == ['/'] + "sys" && "/dev" == ['/'] + "dev";
    assert "/dev/pts" == ['/'] + "dev/pts" && "/tmp" == ['/'] + "tmp" && "/run" == ['/'] + "run";
    NamesUnder(rootfs, "proc");
    NamesUnder(rootfs, "sys");
    NamesUnder(rootfs, "dev");
    NamesUnder(rootfs, "dev/pts");
    NamesUnder(rootfs, "tmp");
    NamesUnder(rootfs, "run");
  }

  /** No standard mount lies on the way to an earlier one. */
  lemma LaterElsewhere(rootfs: string, q: nat, names: Way, r: nat, others: Way, fs: string, gs: string)
    requires IsStandard(q, fs, names) && IsStandard(r, gs, others) && q < r
    ensures !(Resolved(Names(rootfs) + others) <= Resolved(Names(rootfs) + names))
  {
    hide Names, Go, IsStandard;
    var root := Resolved(Names(rootfs));
    NotOnWay(q, names, r, others, fs, gs);
    GoJoin([], Names(rootfs), names);
    GoJoin([], Names(rootfs), others);
    GoOrdinary(root, names);
    GoOrdinary(root, others);
    SamePrefixBelow(root, others, names);
  }

  lemma NotOnWay(q: nat, names: Way, r: nat, others: Way, fs: string, gs: string)
    requires IsStandard(q, fs, names) && IsStandard(r, gs, others) && q < r
    ensures !(others <= names) && Plain(names) && Plain(others)
  {
    assert |others| <= |names| ==> others[0] != names[0];
  }

  lemma SamePrefixBelow(root: Place, p: Place, q: Place)
    ensures root + p <= root + q <==> p <= q
  {
    assert (root + p)[|root|..] == p && (root + q)[|root|..] == q;
    if root + p <= root + q {
      assert (root + q)[..|root + p|][|root|..] == q[..|p|];
    }
  }

  /** How many of the first `q` of a row of calls work. */
  function Working(from: nat, q: nat, faults: nat -> bool): nat {
    if q == 0 then 0 else Working(from, q - 1, faults) + (if faults(from + q - 1) then 0 else 1)
  }

  lemma {:induction false} MadeJoin(a: seq<Req>, b: seq<Req>, t: nat, faults: nat -> bool)
    ensures Made(a + b, t, faults) == Made(a, t, faults) + Made(b, t + |a|, faults)
    decreases |a|
  {
    hide Names;
    if a == [] {
      assert a + b == b;
    } else {
      assert (a + b)[1..] == a[1..] + b;
      MadeJoin(a[1..], b, t + 1, faults);
    }
  }

  lemma {:induction false} MadeCount(reqs: seq<Req>, t: nat, faults: nat -> bool)
    ensures |Made(reqs, t, faults)| == Working(t, |reqs|, faults)
    decreases |reqs|
  {
    hide MountedFor;
    if reqs != [] {
      var n := |reqs| - 1;
      MadeCount(reqs[..n], t, faults);
      MadeJoin(reqs[..n], [reqs[n]], t, faults);
      assert reqs == reqs[..n] + [reqs[n]];
      assert [reqs[n]][1..] == [];
    }
  }

  lemma {:induction false} MadeFromReqs(reqs: seq<Req>, t: nat, faults: nat -> bool, m: Mounted)
    requires m in Made(reqs, t, faults)
    ensures exists q :: q in reqs && m == MountedFor(q)
    decreases |reqs|
  {
    hide Names;
    if m == MountedFor(reqs[0]) {
      assert reqs[0] in reqs;
    } else {
      MadeFromReqs(reqs[1..], t + 1, faults, m);
    }
  }

  /** Where a mount of a list that works is among those that do, and what comes after it. */
  lemma MadeAt(reqs: seq<Req>, t: nat, faults: nat -> bool, q: nat)
    requires q < |reqs| && !faults(t + q)
    ensures var made, k := Made(reqs, t, faults), Working(t, q, faults);
            && k < |made| && made[k] == MountedFor(reqs[q])
            && forall l | k < l < |made| :: exists r | q < r < |reqs| :: made[l] == MountedFor(reqs[r])
  {
    hide MountedFor, Made;
    var early, late := Made(reqs[..q], t, faults), Made(reqs[q + 1..], t + q + 1, faults);
    MadeCount(reqs[..q], t, faults);
    MadeSplits(reqs, t, faults, q);
    var made, k := Made(reqs, t, faults), |early|;
    assert |reqs[..q]| == q && k == Working(t, q, faults);
    assert made[k] == MountedFor(reqs[q]);
    forall l | k < l < |made|
      ensures exists r | q < r < |reqs| :: made[l] == MountedFor(reqs[r])
    {
      assert made[l] == late[l - k - 1];
      FromRest(reqs, t, faults, q, late[l - k - 1]);
      var r :| q < r < |reqs| && late[l - k - 1] == MountedFor(reqs[r]);
      assert made[l] == MountedFor(reqs[r]);
    }
  }

  lemma MadeSplits(reqs: seq<Req>, t: nat, faults: nat -> bool, q: nat)
    requires q < |reqs| && !faults(t + q)
    ensures Made(reqs, t, faults) ==
            Made(reqs[..q], t, faults) + ([MountedFor(reqs[q])] + Made(reqs[q + 1..], t + q + 1, faults))
  {
    hide MountedFor;
    MadeJoin(reqs[..q], reqs[q..], t, faults);
    assert reqs == reqs[..q] + reqs[q..] && reqs[q..][0] == reqs[q] && reqs[q..][1..] == reqs[q + 1..];
  }

  lemma FromRest(reqs: seq<Req>, t: nat, faults: nat -> bool, q: nat, m: Mounted)
    requires q < |reqs| && m in Made(reqs[q + 1..], t + q + 1, faults)
    ensures exists r | q < r < |reqs| :: m == MountedFor(reqs[r])
  {
    hide MountedFor, Made;
    MadeFromReqs(reqs[q + 1..], t + q + 1, faults, m);
    var x :| x in reqs[q + 1..] && m == MountedFor(x);
    var j :| 0 <= j < |reqs[q + 1..]| && reqs[q + 1..][j] == x;
    assert reqs[q + 1 + j] == x;
  }

  /** A standard mount that works is there, and no later one is on its way. */
  lemma StandardAt(rootfs: string, from: nat, faults: nat -> bool, q: nat, fs: string, names: Way)
    requires |rootfs| + 8 < MAX_PATH_LEN && IsStandard(q, fs, names) && !faults(from + q)
    ensures var made, k := Made(StandardReqs(rootfs), from, faults), Working(from, q, faults);
            && k < |made| && made[k] == Mounted(fs, fs, Names(rootfs) + names)
            && forall l | k < l < |made| :: !Covers(made[l], Names(rootfs) + names)
  {
    hide Names, Made, StandardReqs, Resolved, MountedFor;
    StandardMounted(rootfs, q, fs, names);
    MadeAt(StandardReqs(rootfs), from, faults, q);
    var made, k := Made(StandardReqs(rootfs), from, faults), Working(from, q, faults);
    forall l | k < l < |made|
      ensures !Covers(made[l], Names(rootfs) + names)
    {
      var r :| q < r < 6 && made[l] == MountedFor(StandardReqs(rootfs)[r]);
      var gs, others := StandardIs(r);
      StandardMounted(rootfs, r, gs, others);
      LaterElsewhere(rootfs, q, names, r, others, fs, gs);
    }
  }

  lemma StandardIs(q: nat) returns (fs: string, names: Way)
    requires q < 6
    ensures IsStandard(q, fs, names)
  {
    fs := ["proc", "sysfs", "devtmpfs", "devpts", "tmpfs", "tmpfs"][q];
    names := [["proc"], ["sys"], ["dev"], ["dev", "pts"], ["tmp"], ["run"]][q];
  }

  /** A path with a volume on its way is served by a volume, one without by something mounted before. */
  lemma CoveredByVolume(s: Space, rootfs: string, readonly: bool, volumes: seq<MountPoint>,
                        t: nat, faults: nat -> bool, w: Way)
    requires NothingOnRoot(s, rootfs, volumes) && Setup(s, rootfs, readonly, volumes, t, faults).ok
    requires exists j | 0 <= j < |volumes| :: Covers(VolumeMount(rootfs, volumes[j]), w)
    ensures Reaches(Setup(s, rootfs, readonly, volumes, t, faults).space, w) >= VolumesFrom(s, rootfs, readonly, t,
            faults)
  {
    hide Setup, Names, Resolved, Covers, VolumeMount, Reaches, VolumesFrom, Built;
    var i := LastVolume(rootfs, volumes, w, |volumes|);
    LaterVolumeShadows(s, rootfs, readonly, volumes, t, faults, w, i);
  }

  /**
   Each standard file system - proc on proc, sysfs on sys, devtmpfs on dev, devpts on dev/pts, tmpfs on tmp and
   on run - serves its own path below the root exactly when no volume is mounted there or above, if it could be
   mounted at all: by the very mount, which comes after the root bind, its copies and the earlier ones that worked.
   */
  lemma StandardUnlessCovered(s: Space, rootfs: string, readonly: bool, volumes: seq<MountPoint>,
                              t: nat, faults: nat -> bool, q: nat, fs: string, names: Way)
    requires NothingOnRoot(s, rootfs, volumes) && Setup(s, rootfs, readonly, volumes, t, faults).ok
    requires |rootfs| + 8 < 4096 && IsStandard(q, fs, names) && !faults((if readonly then t + 3 else t + 2) + q)
    ensures var after, w := Setup(s, rootfs, readonly, volumes, t, faults).space, Names(rootfs) + names;
            var k := |s.mounts| + 1 + |Copied(s, Names(rootfs))|
                + Working(if readonly then t + 3 else t + 2, q, faults);
            && k < |after.mounts| && after.mounts[k] == Mounted(fs, fs, w)
            && (Reaches(after, w) == k <==> forall j | 0 <= j < |volumes| :: !Covers(VolumeMount(rootfs, volumes[j]),
                w))
  {
    hide Setup, Built, Covers, Reaches, VolumeMount, Copied, Made, Names, Resolved, StandardReqs, Working,
        Laid, LastOn, Pick, RootAndCopies, VolumesFrom, IsStandard;
    assert Matched(s) by { BuiltMatches(s); }
    SetupBuilt(s, rootfs, readonly, volumes, t, faults);
    SetupPlaces(s, rootfs, readonly, volumes, t, faults);
    var from, w := StandardFrom(readonly, t), Names(rootfs) + names;
    StandardAt(rootfs, from, faults, q, fs, names);
    CoversItself(fs, fs, w);
    var after := Setup(s, rootfs, readonly, volumes, t, faults).space;
    LaidMadeLast(after.mounts, s.mounts, RootBind(rootfs), Pick(s.mounts, Copied(s, Names(rootfs))),
                 Made(StandardReqs(rootfs), from, faults), VolumeMounts(rootfs, volumes), w, Working(from, q, faults));
    ServedByLastIssued(after, w);
    if exists j | 0 <= j < |volumes| :: Covers(VolumeMount(rootfs, volumes[j]), w) {
      CoveredByVolume(s, rootfs, readonly, volumes, t, faults, w);
    }
  }

  lemma LaidRootLast(ms: seq<Mounted>, before: seq<Mounted>, root: Mounted, copies: seq<Mounted>, made: seq<Mounted>,
                     volumes: seq<Mounted>, w: Way)
    requires Laid(ms, before, root, copies, made, volumes) && Covers(root, w)
    requires (forall c :: c in copies ==> !Covers(c, w)) && (forall m :: m in made ==> !Covers(m, w))
    requires forall j | 0 <= j < |volumes| :: !Covers(volumes[j], w)
    ensures LastOn(ms, w, |ms|) == |before|
  {
    hide Covers, LastOn;
    var b, first, n := |before|, |before| + 1 + |copies|, |before| + 1 + |copies| + |made|;
    forall l | b < l < |ms|
      ensures !Covers(ms[l], w)
    {
      if l < first {
        assert ms[b + 1 + (l - b - 1)] == copies[l - b - 1];
      } else if l < n {
        assert ms[first + (l - first)] == made[l - first];
      } else {
        assert ms[n + (l - n)] == volumes[l - n];
      }
    }
    LastOnIs(ms, w, |ms|, b);
  }

  lemma StandardOffRootWay(rootfs: string, from: nat, faults: nat -> bool)
    requires |rootfs| + 8 < MAX_PATH_LEN
    ensures forall m :: m in Made(StandardReqs(rootfs), from, faults) ==> !Covers(m, Names(rootfs))
  {
    hide Names, Made, StandardReqs, Resolved, MountedFor, IsStandard;
    forall m | m in Made(StandardReqs(rootfs), from, faults)
      ensures !Covers(m, Names(rootfs))
    {
      MadeFromReqs(StandardReqs(rootfs), from, faults, m);
      var x :| x in StandardReqs(rootfs) && m == MountedFor(x);
      assert |StandardReqs(rootfs)| == 6 by { StandardOptional(rootfs); }
      var q :| 0 <= q < 6 && StandardReqs(rootfs)[q] == x;
      var fs, names := StandardIs(q);
      StandardMounted(rootfs, q, fs, names);
      BelowIsLonger(rootfs, q, fs, names);
    }
  }

  lemma BelowIsLonger(rootfs: string, q: nat, fs: string, names: Way)
    requires IsStandard(q, fs, names)
    ensures |Resolved(Names(rootfs) + names)| > |Resolved(Names(rootfs))|
  {
    hide Names, Go;
    assert Plain(names) && |names| > 0;
    GoJoin([], Names(rootfs), names);
    GoOrdinary(Resolved(Names(rootfs)), names);
  }

  /** The root path itself is served by the root bind, exactly when no volume is mounted there or above. */
  lemma RootUnlessCovered(s: Space, rootfs: string, readonly: bool, volumes: seq<MountPoint>, t: nat,
      faults: nat -> bool)
    requires NothingOnRoot(s, rootfs, volumes) && Setup(s, rootfs, readonly, volumes, t, faults).ok
    requires |rootfs| + 8 < 4096
    ensures var after, w := Setup(s, rootfs, readonly, volumes, t, faults).space, Names(rootfs);
            && |s.mounts| < |after.mounts| && after.mounts[|s.mounts|] == Mounted(rootfs, "", w)
            && (Reaches(after, w) == |s.mounts|
                <==> forall j | 0 <= j < |volumes| :: !Covers(VolumeMount(rootfs, volumes[j]), w))
  {
    hide Setup, Built, Covers, Reaches, VolumeMount, Copied, Made, Names, Resolved, StandardReqs,
        Laid, LastOn, Pick, RootAndCopies, VolumesFrom, VolumeMounts;
    assert Matched(s) by { BuiltMatches(s); }
    SetupBuilt(s, rootfs, readonly, volumes, t, faults);
    SetupPlaces(s, rootfs, readonly, volumes, t, faults);
    var after, w := Setup(s, rootfs, readonly, volumes, t, faults).space, Names(rootfs);
    var copies, made := Pick(s.mounts, Copied(s, w)), Made(StandardReqs(rootfs), StandardFrom(readonly, t), faults);
    LaidRoot(after.mounts, s.mounts, RootBind(rootfs), copies, made, VolumeMounts(rootfs, volumes));
    CopiesOffWay(s, RootBind(rootfs));
    StandardOffRootWay(rootfs, StandardFrom(readonly, t), faults);
    CoversItself(rootfs, "", w);
    ServedByLastIssued(after, w);
    if exists j | 0 <= j < |volumes| :: Covers(VolumeMount(rootfs, volumes[j]), w) {
      CoveredByVolume(s, rootfs, readonly, volumes, t, faults, w);
    } else {
      LaidRootLast(after.mounts, s.mounts, RootBind(rootfs), copies, made, VolumeMounts(rootfs, volumes), w);
    }
  }

  /** When devpts itself could be mounted, /dev/pts is served by it exactly when no volume is mounted there or above. */
  lemma DevPtsUnlessCovered(s: Space, rootfs: string, readonly: bool, volumes: seq<MountPoint>, t: nat,
      faults: nat -> bool)
    requires NothingOnRoot(s, rootfs, volumes) && Setup(s, rootfs, readonly, volumes, t, faults).ok
    requires |rootfs| + 8 < MAX_PATH_LEN && !faults((if readonly then t + 3 else t + 2) + 3)
    ensures var after := Setup(s, rootfs, readonly, volumes, t, faults).space;
            var k := |s.mounts| + 1 + |Copied(s, Names(rootfs))|
                + Working(if readonly then t + 3 else t + 2, 3, faults);
            && k < |after.mounts| && after.mounts[k] == Mounted("devpts", "devpts", DevPts(rootfs))
            && (Reaches(after, DevPts(rootfs)) == k
                <==> forall j | 0 <= j < |volumes| :: !Covers(VolumeMount(rootfs, volumes[j]), DevPts(rootfs)))
  {
    hide Setup, Built, Covers, Reaches, VolumeMount, Copied, Names, Resolved, Working;
    StandardUnlessCovered(s, rootfs, readonly, volumes, t, faults, 3, "devpts", ["dev", "pts"]);
  }

  /* ---- What is read-only after the setup ---- */

  /** Later mounts change nothing about earlier ones. */
  lemma {:induction false} RunKeepsRo(s: Space, reqs: seq<Req>, t: nat, faults: nat -> bool)
    requires Matched(s)
    ensures var after := RunReqs(s, reqs, t, faults).space;
            s.ro <= after.ro && s.mounts <= after.mounts
    decreases |reqs|
  {
    hide Names, Matched, AttachAt, ReadonlyAt;
    if reqs != [] {
      if !faults(t) {
        RunKeepsRo(MountReq(s, reqs[0]), reqs[1..], t + 1, faults);
      } else if !reqs[0].required {
        RunKeepsRo(s, reqs[1..], t + 1, faults);
      }
    }
  }

  /** File systems are mounted writable. */
  lemma {:induction false} FileSystemsWritable(s: Space, reqs: seq<Req>, t: nat, faults: nat -> bool)
    requires Matched(s) && forall r :: r in reqs ==> !r.bind
    ensures var after := RunReqs(s, reqs, t, faults).space;
            |s.ro| <= |after.ro| && forall k | |s.ro| <= k < |after.ro| :: !after.ro[k]
    decreases |reqs|
  {
    hide Names, Matched, AttachAt, ReadonlyAt;
    if reqs != [] {
      assert reqs[0] in reqs;
      if !faults(t) {
        var s1 := MountReq(s, reqs[0]);
        FileSystemsWritable(s1, reqs[1..], t + 1, faults);
        RunKeepsRo(s1, reqs[1..], t + 1, faults);
      } else if !reqs[0].required {
        FileSystemsWritable(s, reqs[1..], t + 1, faults);
      }
    }
  }

  /** Each volume is read-only if the mount that served its source when it was bound is. */
  predicate VolumesFollowSources(after: Space, volumes: seq<MountPoint>, n: nat) {
    && 0 < n && |after.mounts| == |after.ro| == n + |volumes|
    && forall i | 0 <= i < |volumes| ::
         after.ro[n + i] == after.ro[LastOn(after.mounts, Names(volumes[i].source), n + i)]
  }

  lemma {:induction false} VolumesRo(s: Space, rootfs: string, volumes: seq<MountPoint>, t: nat, faults: nat -> bool)
    requires Built(s) && forall v :: v in volumes ==> VolumeMount(rootfs, v).Target() != []
    requires RunReqs(s, VolumeReqs(rootfs, volumes), t, faults).ok
    ensures VolumesFollowSources(RunReqs(s, VolumeReqs(rootfs, volumes), t, faults).space, volumes, |s.mounts|)
    decreases |volumes|
  {
    hide Names, Resolved, Under, LastOn, Reaches;
    if volumes != [] {
      hide Built;
      var reqs := VolumeReqs(rootfs, volumes);
      assert reqs[1..] == VolumeReqs(rootfs, volumes[1..]);
      assert volumes[0] in volumes;
      FirstVolumeRo(s, rootfs, volumes[0]);
      var s1 := MountReq(s, reqs[0]);
      VolumesRo(s1, rootfs, volumes[1..], t + 1, faults);
      RunKeepsRo(s1, reqs[1..], t + 1, faults);
      OneMoreFollows(s, RunReqs(s1, reqs[1..], t + 1, faults).space, volumes);
    }
  }

  lemma FirstVolumeRo(s: Space, rootfs: string, v: MountPoint)
    requires Built(s) && VolumeMount(rootfs, v).Target() != []
    ensures Matched(s) && |s.mounts| > 0
    ensures var s1 := MountReq(s, VolumeReq(rootfs, v));
            && Built(s1) && s1.mounts == s.mounts + [VolumeMount(rootfs, v)]
            && s1.ro == s.ro + [s.ro[LastOn(s.mounts, Names(v.source), |s.mounts|)]]
  {
    hide Names, Resolved, Under, LastOn, AttachAt;
    ServedByLastIssued(s, Names(v.source));
    AttachBuilt(s, VolumeMount(rootfs, v), ReadonlyAt(s, Names(v.source)));
  }

  lemma OneMoreFollows(s: Space, after: Space, volumes: seq<MountPoint>)
    requires volumes != [] && |s.mounts| > 0 && |s.ro| == |s.mounts| && s.mounts <= after.mounts && s.ro <= after.ro
    requires VolumesFollowSources(after, volumes[1..], |s.mounts| + 1)
    requires after.ro[|s.mounts|] == s.ro[LastOn(s.mounts, Names(volumes[0].source), |s.mounts|)]
    ensures VolumesFollowSources(after, volumes, |s.mounts|)
  {
    hide Names, LastOn;
    var n := |s.mounts|;
    LastOnLocal(s.mounts, after.mounts, Names(volumes[0].source), n);
    LastOnBelow(s.mounts, Names(volumes[0].source), n);
    forall i | 0 <= i < |volumes|
      ensures after.ro[n + i] == after.ro[LastOn(after.mounts, Names(volumes[i].source), n + i)]
    {
      if i > 0 {
        assert volumes[1..][i - 1] == volumes[i] && n + 1 + (i - 1) == n + i;
      }
    }
  }

  lemma LastOnBelow(ms: seq<Mounted>, w: Way, n: nat)
    requires 0 < n <= |ms|
    ensures LastOn(ms, w, n) < n
  {
  }

  /** Which mounts are read-only after a good setup. */
  lemma SetupReadonly(s: Space, rootfs: string, readonly: bool, volumes: seq<MountPoint>, t: nat, faults: nat -> bool)
    requires NothingOnRoot(s, rootfs, volumes) && Setup(s, rootfs, readonly, volumes, t, faults).ok
    ensures var after, n := Setup(s, rootfs, readonly, volumes, t, faults).space,
            VolumesFrom(s, rootfs, readonly, t, faults);
            var b, olds := |s.mounts|, Copied(s, Names(rootfs));
            && VolumesFollowSources(after, volumes, n) && b + 1 + |olds| <= n
            && after.ro[b] == (readonly || ReadonlyAt(s, Names(rootfs)))
            && (forall q | 0 <= q < |olds| :: after.ro[b + 1 + q] == s.ro[olds[q]])
            && (forall k | b + 1 + |olds| <= k < n :: !after.ro[k])
  {
    hide Names, Resolved, Bound, Built, RunReqs, VolumeReqs, VolumeMount, Copied, Made, Reaches, Under,
        VolumesFollowSources;
    assert Matched(s) by { BuiltMatches(s); }
    var from, bound := StandardFrom(readonly, t), Bound(s, rootfs, readonly);
    RootBound(s, rootfs, readonly);
    BoundMounts(s, rootfs, readonly);
    SetupReqsOffRoot(rootfs, volumes);
    RunReqsJoin(bound, StandardReqs(rootfs), VolumeReqs(rootfs, volumes), from, faults);
    OptionalRun(bound, StandardReqs(rootfs), from, faults);
    FileSystemsWritable(bound, StandardReqs(rootfs), from, faults);
    RunKeepsRo(bound, StandardReqs(rootfs), from, faults);
    RunBuilt(bound, StandardReqs(rootfs), from, faults);
    var r := RunReqs(bound, StandardReqs(rootfs), from, faults);
    VolumesRo(r.space, rootfs, volumes, r.clock, faults);
    RunKeepsRo(r.space, VolumeReqs(rootfs, volumes), r.clock, faults);
  }

  /**
   The `k`-th mount is the root bind at `b`, the copy of a mount that was read-only, or a volume bound from a
   read-only source.
   */
  predicate RootOrReadonly(before: seq<bool>, olds: seq<nat>, after: Space, volumes: seq<MountPoint>, b: nat, n: nat,
      k: nat)
    requires VolumesFollowSources(after, volumes, n) && k < |after.mounts|
    requires forall q | 0 <= q < |olds| :: olds[q] < |before|
  {
    || k == b
    || (b < k <= b + |olds| && before[olds[k - b - 1]])
    || (n <= k && after.ro[LastOn(after.mounts, Names(volumes[k - n].source), k)])
  }

  /**
   A read-only root: a path below it is read-only exactly when the last mount on its way is the root bind
   itself, the copy of a mount that was read-only before, or a volume whose source was read-only when bound.
   */
  lemma ReadonlyUnlessCovered(s: Space, rootfs: string, volumes: seq<MountPoint>, t: nat, faults: nat -> bool, w: Way)
    requires NothingOnRoot(s, rootfs, volumes) && Setup(s, rootfs, true, volumes, t, faults).ok
    requires Resolved(Names(rootfs)) <= Resolved(w)
    ensures var after, n := Setup(s, rootfs, true, volumes, t, faults).space, VolumesFrom(s, rootfs, true, t, faults);
            var b, olds, k := |s.mounts|, Copied(s, Names(rootfs)), LastOn(after.mounts, w, |after.mounts|);
            && VolumesFollowSources(after, volumes, n) && b <= k
            && (ReadonlyAt(after, w) <==> RootOrReadonly(s.ro, olds, after, volumes, b, n, k))
  {
    hide Setup, Names, Resolved, Built, Reaches, Copied, Made, VolumesFrom, LastOn, Laid, Pick, VolumeMounts,
        StandardReqs,
        RootAndCopies;
    assert Matched(s) by { BuiltMatches(s); }
    SetupBuilt(s, rootfs, true, volumes, t, faults);
    SetupPlaces(s, rootfs, true, volumes, t, faults);
    SetupReadonly(s, rootfs, true, volumes, t, faults);
    var after := Setup(s, rootfs, true, volumes, t, faults).space;
    ServedByLastIssued(after, w);
    LaidRoot(after.mounts, s.mounts, RootBind(rootfs), Pick(s.mounts, Copied(s, Names(rootfs))),
             Made(StandardReqs(rootfs), StandardFrom(true, t), faults), VolumeMounts(rootfs, volumes));
    RootBindOnWay(after.mounts, rootfs, w, |s.mounts|);
  }

  lemma LaidRoot(ms: seq<Mounted>, before: seq<Mounted>, root: Mounted, copies: seq<Mounted>, made: seq<Mounted>,
                 volumes: seq<Mounted>)
    requires Laid(ms, before, root, copies, made, volumes)
    ensures |before| < |ms| && ms[|before|] == root
  {
  }

  lemma RootBindOnWay(ms: seq<Mounted>, rootfs: string, w: Way, b: nat)
    requires b < |ms| && ms[b] == RootBind(rootfs) && Resolved(Names(rootfs)) <= Resolved(w)
    ensures b <= LastOn(ms, w, |ms|) < |ms|
  {
    hide Names, Resolved;
    if LastOn(ms, w, |ms|) < b {
      assert false;
    }
  }
}
