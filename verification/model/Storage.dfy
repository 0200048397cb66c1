/** The overlay driver: the mount options it writes, and committing a container as a layer. */
module Storage {
  import opened Wrappers
  import opened CStrings
  import opened Paths
  import opened Overlay
  import Mkdir
  import Faults

  const LOWERDIR_CAPACITY: nat := 4 * MAX_PATH_LEN
  const OPTIONS_CAPACITY: nat := 5 * MAX_PATH_LEN

  /** mount(2) takes over one page of its data and ends it with a NUL. */
  const PAGE_SIZE: nat := 4096

  /** One more path at the end of a colon list; an empty list takes no colon. */
  function AddPath(list: string, path: string): string {
    if list == "" then path else list + ":" + path
  }

  /** The whole list for layer paths given top first. */
  function PathList(paths: seq<string>): string {
    if paths == [] then "" else AddPath(PathList(paths[..|paths| - 1]), paths[|paths| - 1])
  }

  predicate NonEmptyPaths(paths: seq<string>) {
    forall p :: p in paths ==> p != ""
  }

  lemma {:induction false} JoinLonger(fs: seq<string>, x: string, d: char)
    requires |fs| > 0
    ensures Join(fs + [x], d) == Join(fs, d) + [d] + x
  {
    if |fs| == 1 {
      assert (fs + [x])[1..] == [x];
    } else {
      JoinLonger(fs[1..], x, d);
      assert (fs + [x])[1..] == fs[1..] + [x];
    }
  }

  /** Of nonempty paths the list is their colon join. */
  lemma {:induction false} PathListIsJoin(paths: seq<string>)
    requires NonEmptyPaths(paths)
    ensures PathList(paths) == Join(paths, ':')
    ensures paths != [] ==> PathList(paths) != ""
    decreases |paths|
  {
    if paths != [] {
      var front, last := paths[..|paths| - 1], paths[|paths| - 1];
      assert paths == front + [last] && last in paths;
      assert forall p :: p in front ==> p in paths;
      PathListIsJoin(front);
      if front != [] {
        JoinLonger(front, last, ':');
      }
    }
  }

  /** Splitting the list at its colons gives the paths back. */
  lemma PathListSplits(paths: seq<string>)
    requires NonEmptyPaths(paths) && paths != [] && forall p :: p in paths ==> ':' !in p
    ensures Fields(PathList(paths), ':') == paths
  {
    PathListIsJoin(paths);
    FieldsOfJoin(paths, ':');
  }

  function FullOptions(lower: string, upper: string, work: string): string {
    "lowerdir=" + lower + ",upperdir=" + upper + ",workdir=" + work
  }

  /** The three settings as the mount reads them off the options text. */
  function SettingAt(options: string, k: nat, key: string): Option<string> {
    var fs := Fields(options, ',');
    if k < |fs| && key <= fs[k] then Some(fs[k][|key|..]) else None
  }

  predicate PlainPath(p: string) {
    ',' !in p
  }

  lemma JoinOfThree(a: string, b: string, c: string, d: char)
    ensures Join([a, b, c], d) == a + [d] + (b + [d] + c)
  {
    JoinCons(b, [c], d);
    JoinCons(a, [b, c], d);
    assert [a, b, c] == [a] + [b, c] && [b, c] == [b] + [c];
  }

  lemma KeyCutOff(key: string, value: string)
    ensures key <= key + value && (key + value)[|key|..] == value
  {
  }

  lemma OptionsAreJoin(lower: string, upper: string, work: string)
    ensures FullOptions(lower, upper, work) == Join(["lowerdir=" + lower, "upperdir=" + upper, "workdir=" + work], ',')
  {
    hide Join;
    JoinOfThree("lowerdir=" + lower, "upperdir=" + upper, "workdir=" + work, ',');
    assert ",upperdir=" == [','] + "upperdir=" && ",workdir=" == [','] + "workdir=";
  }

  /** When the options fit and hold no further commas, each setting is read back. */
  lemma OptionsReadBack(lower: string, upper: string, work: string, text: string)
    requires PlainPath(lower) && PlainPath(upper) && PlainPath(work) && text == FullOptions(lower, upper, work)
    ensures ReadsBack(text, lower, upper, work)
  {
    hide Join, Fields, FullOptions;
    var fs := ["lowerdir=" + lower, "upperdir=" + upper, "workdir=" + work];
    OptionsAreJoin(lower, upper, work);
    FieldsOfJoin(fs, ',');
    KeyCutOff("lowerdir=", lower);
    KeyCutOff("upperdir=", upper);
    KeyCutOff("workdir=", work);
  }

  predicate ReadsBack(text: string, lower: string, upper: string, work: string) {
    && SettingAt(text, 0, "lowerdir=") == Some(lower)
    && SettingAt(text, 1, "upperdir=") == Some(upper)
    && SettingAt(text, 2, "workdir=") == Some(work)
  }

  lemma SettingIs(text: string, k: nat, key: string, value: string)
    requires SettingAt(text, k, key) == Some(value)
    ensures k < |Fields(text, ',')| && Fields(text, ',')[k] == key + value
  {
  }

  lemma JoinAtLeast(fs: seq<string>, d: char)
    requires |fs| >= 3
    ensures |Join(fs, d)| >= |fs[0]| + |fs[1]| + |fs[2]| + 2
  {
    assert Join(fs, d) == fs[0] + [d] + Join(fs[1..], d);
    assert Join(fs[1..], d) == fs[1] + [d] + Join(fs[2..], d);
    if |fs| > 3 {
      assert Join(fs[2..], d) == fs[2] + [d] + Join(fs[3..], d);
    }
  }

  lemma LengthOfOptions(lower: string, upper: string, work: string)
    ensures |FullOptions(lower, upper, work)| == |"lowerdir=" + lower| + |"upperdir=" + upper| + |"workdir=" + work| + 2
  {
  }

  /**
   The settings are read back from what mount(2) takes over exactly when the whole options text is shorter than
   a page.
   */
  lemma OptionsReadBackIff(lower: string, upper: string, work: string)
    requires PlainPath(lower) && PlainPath(upper) && PlainPath(work)
    ensures ReadsBack(MountData(lower, upper, work), lower, upper, work) <==>
            |FullOptions(lower, upper, work)| < PAGE_SIZE
  {
    hide Fields, Join, FullOptions;
    var full, text := FullOptions(lower, upper, work), MountData(lower, upper, work);
    if |full| < PAGE_SIZE {
      OptionsReadBack(lower, upper, work, text);
    } else if ReadsBack(text, lower, upper, work) {
      SettingIs(text, 0, "lowerdir=", lower);
      SettingIs(text, 1, "upperdir=", upper);
      SettingIs(text, 2, "workdir=", work);
      JoinOfFields(text, ',');
      JoinAtLeast(Fields(text, ','), ',');
      LengthOfOptions(lower, upper, work);
      assert false;
    }
  }

  /** What is left of the options after the bounded buffer and the page. */
  function MountData(lower: string, upper: string, work: string): string {
    Take(Take(FullOptions(lower, upper, work), OPTIONS_CAPACITY - 1), PAGE_SIZE - 1)
  }

  /* ---- The driver ---- */

  function UpperPath(imageDir: string, cid: string): string {
    Take(imageDir + "/overlay/" + cid + "/upper", MAX_PATH_LEN - 1)
  }

  function WorkPath(imageDir: string, cid: string): string {
    Take(imageDir + "/overlay/" + cid + "/work", MAX_PATH_LEN - 1)
  }

  function MergedPath(imageDir: string, cid: string): string {
    Take(imageDir + "/overlay/" + cid + "/merged", MAX_PATH_LEN - 1)
  }

  function LayerPath(imageDir: string, layerId: string): string {
    Take(imageDir + "/layers/" + layerId, MAX_PATH_LEN - 1)
  }

  /** The lowerdir text for an image's layer directories, the base layer first among them. */
  function LowerDir(paths: seq<string>): string {
    Take(PathList(Reverse(paths)), LOWERDIR_CAPACITY - 1)
  }

  function OptionsFor(imageDir: string, cid: string, paths: seq<string>): string {
    MountData(LowerDir(paths), UpperPath(imageDir, cid), WorkPath(imageDir, cid))
  }

  /** The path names a directory. */
  predicate IsDir(tree: Mkdir.Tree, cwd: Place, path: string) {
    Mkdir.IsDirectory(tree, Resolved(Mkdir.Leads(cwd, path)))
  }

  /**
   The driver works on a tree of directories. It knows what some of them hold, by path, and the options of each
   overlay mount by mount point; a directory that it did not make itself need not be known.
   */
  class Driver {
    const imageDir: string
    const fs: Mkdir.FileSystem
    var dirs: map<string, Layer>
    var mounts: map<string, string>

    constructor (imageDir: string, fs: Mkdir.FileSystem, dirs: map<string, Layer>)
      requires CText(imageDir) && TreeHolds(fs.tree, fs.cwd, dirs)
      ensures Valid() && this.imageDir == imageDir && this.fs == fs && this.dirs == dirs && mounts == map[]
    {
      this.imageDir, this.fs, this.dirs, mounts := imageDir, fs, dirs, map[];
    }

    /** Every directory whose content is known is there. */
    ghost predicate Valid()
      reads this, fs
    {
      CText(imageDir) && TreeHolds(fs.tree, fs.cwd, dirs)
    }

    /** mkdir_recursive on one path; what is known to be there stays there. */
    method MakePath(path: string) returns (status: Status)
      requires Valid() && path != "" && CText(path)
      modifies fs
      ensures Valid()
      ensures Mkdir.MkdirResult(fs.tree, fs.clock, status) ==
              MadeOne(old(fs.tree), fs.cwd, path, old(fs.clock), fs.faults)
    {
      hide Mkdir.MakeFrom, Mkdir.Walked, TreeHolds;
      HoldsAfterMaking(fs.tree, fs.cwd, dirs, path, fs.clock, fs.faults);
      status := fs.MkdirRecursive(path);
    }

    /** The same for a directory whose content the driver keeps track of: a new one is empty. */
    method MakeKnown(path: string) returns (status: Status)
      requires Valid() && path != "" && CText(path)
      modifies this`dirs, fs
      ensures Valid()
      ensures Mkdir.MkdirResult(fs.tree, fs.clock, status) ==
              MadeOne(old(fs.tree), fs.cwd, path, old(fs.clock), fs.faults)
      ensures dirs == KnownAfter(old(dirs), old(fs.tree), fs.tree, fs.cwd, path)
    {
      hide MadeOne, IsDir;
      var was := IsDir(fs.tree, fs.cwd, path);
      status := MakePath(path);
      if !was && IsDir(fs.tree, fs.cwd, path) {
        dirs := dirs[path := map[]];
      }
    }

    /** Builds the lowerdir list in a bounded buffer, from the last layer to the first. */
    method BuildLowerDir(paths: seq<string>) returns (lower: string)
      ensures lower == LowerDir(paths) == Take(PathList(Reverse(paths)), 16383)
    {
      hide Reverse, PathList;
      ghost var full := "";
      lower := "";
      var i := |paths| - 1;
      StartOfList();
      while i >= 0
        invariant -1 <= i < |paths|
        invariant full == PathList(Reverse(paths[i + 1..])) && lower == Take(full, LOWERDIR_CAPACITY - 1)
      {
        ReverseStep(paths, i);
        AddPathBounded(full, paths[i], LOWERDIR_CAPACITY - 1);
        full := AddPath(full, paths[i]);
        if |lower| > 0 {
          lower := lower + Take(":", LOWERDIR_CAPACITY - 1 - |lower|);
        }
        lower := lower + Take(paths[i], LOWERDIR_CAPACITY - 1 - |lower|);
        i := i - 1;
      }
      assert paths[0..] == paths;
    }

    /** The three directories of a container's workspace; nobody looks at the outcomes. */
    method MakeWorkspace(cid: string)
      requires Valid() && CText(cid)
      modifies this`dirs, fs
      ensures Valid()
      ensures var r := MadeAll(old(fs.tree), fs.cwd, Workspace(imageDir, cid), old(fs.clock), fs.faults);
              fs.tree == r.tree && fs.clock == r.clock
      ensures dirs == KnownAfterFirst(old(dirs), old(fs.tree), fs.cwd, UpperPath(imageDir, cid), old(fs.clock),
              fs.faults)
    {
      hide MadeOne, IsDir, KnownAfter, UpperPath, WorkPath, MergedPath, TreeHolds;
      PathsAreText(imageDir, cid);
      ThreeMade(fs.tree, fs.cwd, UpperPath(imageDir, cid), WorkPath(imageDir, cid), MergedPath(imageDir, cid),
                fs.clock, fs.faults);
      var status := MakeKnown(UpperPath(imageDir, cid));
      status := MakePath(WorkPath(imageDir, cid));
      status := MakePath(MergedPath(imageDir, cid));
    }

    /**
     storage_mount_overlay: the mount may fail, and then nothing is mounted and the caller's buffer stays as it
     was.
     */
    method MountOverlay(paths: seq<string>, cid: string, mountPoint: array<char>, mpLen: nat, fault: bool)
      returns (status: Status)
      requires Valid() && CText(cid) && mpLen <= mountPoint.Length
      modifies this`dirs, this`mounts, fs, mountPoint
      ensures Valid()
      ensures var r := MadeAll(old(fs.tree), fs.cwd, Workspace(imageDir, cid), old(fs.clock), fs.faults);
              fs.tree == r.tree && fs.clock == r.clock
      ensures dirs == KnownAfterFirst(old(dirs), old(fs.tree), fs.cwd, UpperPath(imageDir, cid), old(fs.clock),
              fs.faults)
      ensures status == if fault then Esyscall else Ok
      ensures mounts == if fault then old(mounts)
                        else old(mounts)[MergedPath(imageDir, cid) := OptionsFor(imageDir, cid, paths)]
      ensures mountPoint[..] == if fault then old(mountPoint[..])
                                else Padded(MergedPath(imageDir, cid), mpLen) + old(mountPoint[mpLen..])
    {
      hide UpperPath, WorkPath, MergedPath, MadeAll, KnownAfterFirst, Workspace, TreeHolds;
      MakeWorkspace(cid);
      var lower := BuildLowerDir(paths);
      var options := Take(FullOptions(lower, UpperPath(imageDir, cid), WorkPath(imageDir, cid)), OPTIONS_CAPACITY - 1);
      if fault {
        return Esyscall;
      }
      var merged := MergedPath(imageDir, cid);
      mounts := mounts[merged := Take(options, PAGE_SIZE - 1)];
      forall k | 0 <= k < mpLen {
        mountPoint[k] := Padded(merged, mpLen)[k];
      }
      status := Ok;
    }

    /** storage_commit_container: makes the layer's directory and copies into it; neither outcome is reported. */
    method CommitContainer(cid: string, layerId: string, copied: bool) returns (status: Status)
      requires Valid() && CText(layerId)
      modifies this`dirs, fs
      ensures Valid() && status == Ok
      ensures var layer := LayerPath(imageDir, layerId);
              var r := MadeOne(old(fs.tree), fs.cwd, layer, old(fs.clock), fs.faults);
              && fs.tree == r.tree && fs.clock == r.clock
              && Committed(old(dirs), dirs, UpperPath(imageDir, cid), layer,
                           NewDir(old(fs.tree), r.tree, fs.cwd, layer), copied)
    {
      hide MadeOne, IsDir, UpperPath, LayerPath, CopyStar;
      LayerIsText(imageDir, layerId);
      var upper, layer := UpperPath(imageDir, cid), LayerPath(imageDir, layerId);
      var made := MakeKnown(layer);
      if layer in dirs && upper in dirs && copied {
        dirs := dirs[layer := dirs[layer] + CopyStar(dirs[upper])];
      }
      EmptyCopy();
      status := Ok;
    }
  }

  lemma EmptyCopy()
    ensures CopyStar(map[]) == map[]
  {
  }

  ghost predicate TreeHolds(tree: Mkdir.Tree, cwd: Place, dirs: map<string, Layer>) {
    Mkdir.ParentClosed(tree) && cwd in tree && forall p :: p in dirs ==> IsDir(tree, cwd, p)
  }

  predicate NewDir(tree: Mkdir.Tree, tree': Mkdir.Tree, cwd: Place, path: string) {
    !IsDir(tree, cwd, path) && IsDir(tree', cwd, path)
  }

  /** What is known once a path has been made: a directory that was not there before is empty. */
  function KnownAfter(dirs: map<string, Layer>, tree: Mkdir.Tree, tree': Mkdir.Tree, cwd: Place,
      path: string): map<string, Layer> {
    if NewDir(tree, tree', cwd, path) then dirs[path := map[]] else dirs
  }

  function KnownAfterFirst(dirs: map<string, Layer>, tree: Mkdir.Tree, cwd: Place, path: string,
                           t: nat, faults: nat -> bool): map<string, Layer> {
    KnownAfter(dirs, tree, MadeOne(tree, cwd, path, t, faults).tree, cwd, path)
  }

  lemma HoldsAfterMaking(tree: Mkdir.Tree, cwd: Place, dirs: map<string, Layer>, path: string, t: nat,
      faults: nat -> bool)
    requires TreeHolds(tree, cwd, dirs)
    ensures TreeHolds(MadeOne(tree, cwd, path, t, faults).tree, cwd, dirs)
  {
    hide Mkdir.MakeFrom, Mkdir.Walked, Mkdir.Leads, Mkdir.ParentClosed, Mkdir.Extend, Resolved;
    Mkdir.MkdirRecursiveResult(tree, cwd, path, t, faults);
    var target := Mkdir.Leads(cwd, path);
    var n :| 0 <= n <= |target| && MadeOne(tree, cwd, path, t, faults).tree == Mkdir.Extend(tree, target[..n]);
    Mkdir.ExtendIs(tree, target[..n]);
  }

  lemma LayerIsText(imageDir: string, layerId: string)
    requires CText(imageDir) && CText(layerId)
    ensures LayerPath(imageDir, layerId) != "" && CText(LayerPath(imageDir, layerId))
  {
  }

  /** A directory is new when the call ends well, nothing was there, and no other end of it is a file. */
  lemma NewDirIff(tree: Mkdir.Tree, cwd: Place, path: string, t: nat, faults: nat -> bool)
    requires Mkdir.ParentClosed(tree) && cwd in tree && MadeOne(tree, cwd, path, t, faults).status == Ok
    ensures NewDir(tree, MadeOne(tree, cwd, path, t, faults).tree, cwd, path) <==>
            Resolved(Mkdir.Leads(cwd, path)) !in tree
  {
    hide Mkdir.MakeFrom, Mkdir.Walked, Mkdir.Leads, Mkdir.ParentClosed, Resolved;
    Mkdir.OkMeansDirectory(tree, cwd, path, t, faults);
  }

  /** A C string holds no NUL. */
  predicate CText(s: string) {
    NUL !in s
  }

  /** The first `n` characters, with NULs behind a shorter text: what strncpy writes. */
  function Padded(s: string, n: nat): (t: seq<char>)
    ensures |t| == n
  {
    Take(s, n) + seq(n - |Take(s, n)|, _ => NUL)
  }

  /** A buffer that was long enough holds the text; a shorter one holds its first characters and no terminator. */
  lemma PaddedHolds(s: string, n: nat, rest: seq<char>)
    requires CText(s)
    ensures |s| < n ==> StrAt(Padded(s, n) + rest, 0) == s
    ensures |s| >= n ==> Padded(s, n) == s[..n]
  {
    if |s| < n {
      StrAtLocal(Padded(s, n) + rest, 0, s);
    }
  }

  /** What a commit does: only the layer's directory changes, and it gets what `*` matches in the upper one. */
  predicate Committed(before: map<string, Layer>, after: map<string, Layer>, upper: string, layer: string,
                      made: bool, copied: bool) {
    && after.Keys == before.Keys + (if made then {layer} else {})
    && (forall d :: d in before && d != layer ==> after[d] == before[d])
    && (layer in after ==>
          after[layer] == (if layer in before then before[layer] else map[])
                          + (if copied && upper in before then CopyStar(before[upper]) else map[]))
  }

  /* ---- The workspace ---- */

  function Workspace(imageDir: string, cid: string): seq<string> {
    [UpperPath(imageDir, cid), WorkPath(imageDir, cid), MergedPath(imageDir, cid)]
  }

  lemma PathsAreText(imageDir: string, cid: string)
    requires CText(imageDir) && CText(cid)
    ensures UpperPath(imageDir, cid) != "" && WorkPath(imageDir, cid) != "" && MergedPath(imageDir, cid) != ""
    ensures CText(UpperPath(imageDir, cid)) && CText(WorkPath(imageDir, cid)) && CText(MergedPath(imageDir, cid))
  {
  }

  function MadeOne(tree: Mkdir.Tree, cwd: Place, path: string, t: nat, faults: nat -> bool): Mkdir.MkdirResult {
    Mkdir.MakeFrom(tree, cwd, Mkdir.Walked(path), 1, t, faults)
  }

  /** The directories of a list of paths made one after the other, whatever becomes of each. */
  function MadeAll(tree: Mkdir.Tree, cwd: Place, paths: seq<string>, t: nat, faults: nat -> bool): Mkdir.MkdirResult
    decreases |paths|
  {
    if paths == [] then Mkdir.MkdirResult(tree, t, Ok)
    else
      var r := MadeOne(tree, cwd, paths[0], t, faults);
      MadeAll(r.tree, cwd, paths[1..], r.clock, faults)
  }

  lemma MadeAllStep(tree: Mkdir.Tree, cwd: Place, path: string, rest: seq<string>, t: nat, faults: nat -> bool)
    ensures var r := MadeOne(tree, cwd, path, t, faults);
            MadeAll(tree, cwd, [path] + rest, t, faults) == MadeAll(r.tree, cwd, rest, r.clock, faults)
  {
    hide MadeOne;
    assert ([path] + rest)[1..] == rest;
  }

  lemma ThreeMade(tree: Mkdir.Tree, cwd: Place, a: string, b: string, c: string, t: nat, faults: nat -> bool)
    ensures var r1 := MadeOne(tree, cwd, a, t, faults);
            var r2 := MadeOne(r1.tree, cwd, b, r1.clock, faults);
            var r3 := MadeOne(r2.tree, cwd, c, r2.clock, faults);
            MadeAll(tree, cwd, [a, b, c], t, faults) == Mkdir.MkdirResult(r3.tree, r3.clock, Ok)
  {
    hide MadeOne;
    var r1 := MadeOne(tree, cwd, a, t, faults);
    var r2 := MadeOne(r1.tree, cwd, b, r1.clock, faults);
    assert [a, b, c] == [a] + ([b] + ([c] + []));
    MadeAllStep(tree, cwd, a, [b] + ([c] + []), t, faults);
    MadeAllStep(r1.tree, cwd, b, [c] + [], r1.clock, faults);
    MadeAllStep(r2.tree, cwd, c, [], r2.clock, faults);
  }

  /* ---- Where the paths lead ---- */

  /** The base directory of the driver's paths, from the root or from the working directory. */
  function Home(cwd: Place, imageDir: string): Way {
    Mkdir.BaseOf(cwd, imageDir + "/") + Names(imageDir)
  }

  lemma LeadsTo(cwd: Place, imageDir: string, rest: string)
    requires |imageDir| + 1 + |rest| < 4096
    ensures Mkdir.Leads(cwd, imageDir + "/" + rest) == Home(cwd, imageDir) + Names(rest)
  {
    hide Names;
    var path := imageDir + "/" + rest;
    NamesAppend(imageDir, rest);
    assert path == imageDir + ['/'] + rest;
    Mkdir.LeadsWhole(cwd, path);
    assert path[0] == (imageDir + "/")[0];
  }

  lemma TwoSlashes(a: string, b: string, c: string)
    ensures Names(a + "/" + b + "/" + c) == Names(a) + Names(b) + Names(c)
  {
    hide Names;
    NamesAppend(a, b);
    NamesAppend(a + ['/'] + b, c);
    assert a + "/" + b + "/" + c == (a + ['/'] + b) + ['/'] + c;
  }

  /** overlay/<id>/<name> below the image directory, and layers/<id>, when the text fits its buffer. */
  lemma WorkspaceLeads(cwd: Place, imageDir: string, cid: string)
    requires |imageDir| + |cid| < 4080
    ensures Mkdir.Leads(cwd, UpperPath(imageDir, cid)) == Home(cwd, imageDir) + ["overlay"] + Names(cid) + ["upper"]
    ensures Mkdir.Leads(cwd, WorkPath(imageDir, cid)) == Home(cwd, imageDir) + ["overlay"] + Names(cid) + ["work"]
    ensures Mkdir.Leads(cwd, MergedPath(imageDir, cid)) == Home(cwd, imageDir) + ["overlay"] + Names(cid) + ["merged"]
    ensures Mkdir.Leads(cwd, LayerPath(imageDir, cid)) == Home(cwd, imageDir) + ["layers"] + Names(cid)
  {
    hide Names, Home, Mkdir.Leads, UpperPath, WorkPath, MergedPath, LayerPath, Scan;
    OneName("overlay");
    OneName("layers");
    OneName("upper");
    OneName("work");
    OneName("merged");
    UpperLeads(cwd, imageDir, cid);
    WorkLeads(cwd, imageDir, cid);
    MergedLeads(cwd, imageDir, cid);
    LayersLead(cwd, imageDir, cid);
  }

  lemma UpperLeads(cwd: Place, imageDir: string, cid: string)
    requires |imageDir| + |cid| < 4080 && Names("upper") == ["upper"] && Names("overlay") == ["overlay"]
    ensures Mkdir.Leads(cwd, UpperPath(imageDir, cid)) == Home(cwd, imageDir) + ["overlay"] + Names(cid) + ["upper"]
  {
    hide Names, Home, Mkdir.Leads;
    OverlayLeads(cwd, imageDir, cid, "upper");
    assert imageDir + "/overlay/" + cid + "/upper" == imageDir + "/" + ("overlay/" + cid + "/" + "upper");
  }

  lemma WorkLeads(cwd: Place, imageDir: string, cid: string)
    requires |imageDir| + |cid| < 4080 && Names("work") == ["work"] && Names("overlay") == ["overlay"]
    ensures Mkdir.Leads(cwd, WorkPath(imageDir, cid)) == Home(cwd, imageDir) + ["overlay"] + Names(cid) + ["work"]
  {
    hide Names, Home, Mkdir.Leads;
    OverlayLeads(cwd, imageDir, cid, "work");
    assert imageDir + "/overlay/" + cid + "/work" == imageDir + "/" + ("overlay/" + cid + "/" + "work");
  }

  lemma MergedLeads(cwd: Place, imageDir: string, cid: string)
    requires |imageDir| + |cid| < 4080 && Names("merged") == ["merged"] && Names("overlay") == ["overlay"]
    ensures Mkdir.Leads(cwd, MergedPath(imageDir, cid)) == Home(cwd, imageDir) + ["overlay"] + Names(cid) + ["merged"]
  {
    hide Names, Home, Mkdir.Leads;
    OverlayLeads(cwd, imageDir, cid, "merged");
    assert imageDir + "/overlay/" + cid + "/merged" == imageDir + "/" + ("overlay/" + cid + "/" + "merged");
  }

  lemma OverlayLeads(cwd: Place, imageDir: string, cid: string, name: string)
    requires |imageDir| + |cid| < 4080 && name in {"upper", "work", "merged"} && Names(name) == [name]
    requires Names("overlay") == ["overlay"]
    ensures var rest := "overlay/" + cid + "/" + name;
            Mkdir.Leads(cwd, imageDir + "/" + rest) == Home(cwd, imageDir) + ["overlay"] + Names(cid) + [name]
  {
    hide Names, Home, Mkdir.Leads;
    var rest := "overlay/" + cid + "/" + name;
    assert "overlay/" + cid + "/" + name == "overlay" + "/" + cid + "/" + name;
    TwoSlashes("overlay", cid, name);
    LeadsTo(cwd, imageDir, rest);
    assert Home(cwd, imageDir) + (["overlay"] + Names(cid) + [name]) ==
        Home(cwd, imageDir) + ["overlay"] + Names(cid) + [name];
  }

  lemma LayersLead(cwd: Place, imageDir: string, layerId: string)
    requires |imageDir| + |layerId| < 4080 && Names("layers") == ["layers"]
    ensures Mkdir.Leads(cwd, LayerPath(imageDir, layerId)) == Home(cwd, imageDir) + ["layers"] + Names(layerId)
  {
    hide Names, Home, Mkdir.Leads;
    var rest := "layers" + ['/'] + layerId;
    NamesAppend("layers", layerId);
    LeadsTo(cwd, imageDir, rest);
    assert imageDir + "/layers/" + layerId == imageDir + "/" + rest;
    assert Home(cwd, imageDir) + (["layers"] + Names(layerId)) == Home(cwd, imageDir) + ["layers"] + Names(layerId);
  }

  /** An id that is one ordinary name. */
  predicate PlainId(id: string) {
    id != "" && '/' !in id && Ordinary(id)
  }

  /** Neither place is the other or inside it. */
  predicate Apart(p: Place, q: Place) {
    !(p <= q) && !(q <= p)
  }

  lemma ApartByName(home: Place, p: Place, q: Place, k: nat)
    requires k < |p| && k < |q| && p[k] != q[k]
    ensures Apart(home + p, home + q)
  {
    assert (home + p)[|home| + k] == p[k] && (home + q)[|home| + k] == q[k];
  }

  function PlaceOf(cwd: Place, path: string): Place {
    Resolved(Mkdir.Leads(cwd, path))
  }

  lemma PlacesOf(cwd: Place, imageDir: string, cid: string)
    requires |imageDir| + |cid| < 4080 && PlainId(cid)
    ensures var home := Resolved(Home(cwd, imageDir));
            && PlaceOf(cwd, UpperPath(imageDir, cid)) == home + ["overlay", cid, "upper"]
            && PlaceOf(cwd, WorkPath(imageDir, cid)) == home + ["overlay", cid, "work"]
            && PlaceOf(cwd, MergedPath(imageDir, cid)) == home + ["overlay", cid, "merged"]
            && PlaceOf(cwd, LayerPath(imageDir, cid)) == home + ["layers", cid]
  {
    hide Names, Home, Mkdir.Leads, UpperPath, WorkPath, MergedPath, LayerPath, Go;
    WorkspaceLeads(cwd, imageDir, cid);
    OneName(cid);
    var home := Home(cwd, imageDir);
    PlaceBelow(home, ["overlay", cid, "upper"]);
    PlaceBelow(home, ["overlay", cid, "work"]);
    PlaceBelow(home, ["overlay", cid, "merged"]);
    PlaceBelow(home, ["layers", cid]);
    assert home + ["overlay"] + [cid] + ["upper"] == home + ["overlay", cid, "upper"];
    assert home + ["overlay"] + [cid] + ["work"] == home + ["overlay", cid, "work"];
    assert home + ["overlay"] + [cid] + ["merged"] == home + ["overlay", cid, "merged"];
    assert home + ["layers"] + [cid] == home + ["layers", cid];
  }

  lemma PlaceBelow(home: Way, names: Way)
    requires Plain(names)
    ensures Resolved(home + names) == Resolved(home) + names
  {
    GoJoin([], home, names);
    GoOrdinary(Resolved(home), names);
  }

  /**
   The workspace directories of two containers with different ids are apart, so are the three of one
   container, and all of them are apart from every layer.
   */
  lemma WorkspacesApart(cwd: Place, imageDir: string, a: string, b: string, layerId: string)
    requires |imageDir| + |a| < 4080 && |imageDir| + |b| < 4080 && |imageDir| + |layerId| < 4080
    requires PlainId(a) && PlainId(b) && PlainId(layerId)
    ensures a != b ==> forall p, q | p in Workspace(imageDir, a) && q in Workspace(imageDir, b) ::
                         Apart(PlaceOf(cwd, p), PlaceOf(cwd, q))
    ensures forall i, j | 0 <= i < j < 3 ::
              Apart(PlaceOf(cwd, Workspace(imageDir, a)[i]), PlaceOf(cwd, Workspace(imageDir, a)[j]))
    ensures forall p | p in Workspace(imageDir, a) :: Apart(PlaceOf(cwd, p), PlaceOf(cwd, LayerPath(imageDir, layerId)))
  {
    hide PlaceOf, UpperPath, WorkPath, MergedPath, LayerPath, Home, Apart, Resolved;
    PlacesOf(cwd, imageDir, a);
    PlacesOf(cwd, imageDir, b);
    PlacesOf(cwd, imageDir, layerId);
    var home := Resolved(Home(cwd, imageDir));
    forall p, q | p in Workspace(imageDir, a) && q in Workspace(imageDir, b) && a != b
      ensures Apart(PlaceOf(cwd, p), PlaceOf(cwd, q))
    {
      var x :| x in {"upper", "work", "merged"} && PlaceOf(cwd, p) == home + ["overlay", a, x];
      var y :| y in {"upper", "work", "merged"} && PlaceOf(cwd, q) == home + ["overlay", b, y];
      ApartByName(home, ["overlay", a, x], ["overlay", b, y], 1);
    }
    ApartByName(home, ["overlay", a, "upper"], ["overlay", a, "work"], 2);
    ApartByName(home, ["overlay", a, "upper"], ["overlay", a, "merged"], 2);
    ApartByName(home, ["overlay", a, "work"], ["overlay", a, "merged"], 2);
    forall p | p in Workspace(imageDir, a)
      ensures Apart(PlaceOf(cwd, p), PlaceOf(cwd, LayerPath(imageDir, layerId)))
    {
      var x :| x in {"upper", "work", "merged"} && PlaceOf(cwd, p) == home + ["overlay", a, x];
      ApartByName(home, ["overlay", a, x], ["layers", layerId], 0);
    }
  }

  /** The way to a directory to make leads through no regular file. */
  predicate Free(tree: Mkdir.Tree, cwd: Place, path: string) {
    path != "" && path != "/" && Mkdir.NoFileOnWay(tree, Mkdir.Leads(cwd, path))
  }

  /** Making one directory keeps what was made before, and takes no other way away. */
  lemma OneMade(tree: Mkdir.Tree, cwd: Place, path: string, t: nat, faults: nat -> bool)
    requires Mkdir.ParentClosed(tree) && cwd in tree && Faults.NoFaults(faults) && Free(tree, cwd, path)
    ensures var r := MadeOne(tree, cwd, path, t, faults);
            && r.status == Ok && Mkdir.ParentClosed(r.tree) && cwd in r.tree
            && Mkdir.Reached(r.tree, Mkdir.Leads(cwd, path))
            && (forall w :: Mkdir.Reached(tree, w) ==> Mkdir.Reached(r.tree, w))
            && (forall q :: Free(tree, cwd, q) ==> Free(r.tree, cwd, q))
  {
    hide Mkdir.MakeFrom, Mkdir.Walked, Mkdir.Leads, Mkdir.ParentClosed, Mkdir.Extend, Resolved;
    Mkdir.MkdirRecursiveResult(tree, cwd, path, t, faults);
    Mkdir.ExtendIs(tree, Mkdir.Leads(cwd, path));
  }

  /** When no mkdir fails by itself and no file is in the way, every directory of the list is there afterwards. */
  lemma {:induction false} AllMade(tree: Mkdir.Tree, cwd: Place, paths: seq<string>, t: nat, faults: nat -> bool)
    requires Mkdir.ParentClosed(tree) && cwd in tree && Faults.NoFaults(faults)
    requires forall p :: p in paths ==> Free(tree, cwd, p)
    ensures var r := MadeAll(tree, cwd, paths, t, faults);
            && Mkdir.ParentClosed(r.tree)
            && (forall p :: p in paths ==> Mkdir.Reached(r.tree, Mkdir.Leads(cwd, p)))
            && (forall w :: Mkdir.Reached(tree, w) ==> Mkdir.Reached(r.tree, w))
    decreases |paths|
  {
    hide MadeOne, Free, Mkdir.ParentClosed, Mkdir.Reached, Mkdir.Leads, Mkdir.Walked;
    if paths != [] {
      var first := paths[0];
      assert first in paths;
      var r := MadeOne(tree, cwd, first, t, faults);
      OneMade(tree, cwd, first, t, faults);
      AllMade(r.tree, cwd, paths[1..], r.clock, faults);
      assert forall p :: p in paths ==> p == first || p in paths[1..];
    }
  }

  lemma StartOfList()
    ensures PathList(Reverse([])) == "" && forall n :: Take("", n) == ""
  {
  }

  /** The list read at its colons is the layers, last one first, exactly when it was not cut short. */
  lemma LowerDirReadsBackIff(paths: seq<string>)
    requires paths != [] && forall p :: p in paths ==> p != "" && ':' !in p
    ensures Fields(LowerDir(paths), ':') == Reverse(paths) <==> |PathList(Reverse(paths))| < 16384
  {
    hide Fields, PathList;
    var r := Reverse(paths);
    assert forall p :: p in r ==> p in paths;
    PathListIsJoin(r);
    PathListSplits(r);
    JoinOfFields(LowerDir(paths), ':');
  }

  lemma ReverseStep(paths: seq<string>, i: int)
    requires 0 <= i < |paths|
    ensures PathList(Reverse(paths[i..])) == AddPath(PathList(Reverse(paths[i + 1..])), paths[i])
  {
    var r, r1 := Reverse(paths[i..]), Reverse(paths[i + 1..]);
    assert r == r1 + [paths[i]];
    assert r[..|r| - 1] == r1;
  }

  lemma AddPathBounded(full: string, path: string, n: nat)
    requires n > 0
    ensures var lower := Take(full, n);
            var colon := if |lower| > 0 then lower + Take(":", n - |lower|) else lower;
            |lower| <= n && |colon| <= n && colon + Take(path, n - |colon|) == Take(AddPath(full, path), n)
  {
    BoundedAppend(full, ":", n);
    BoundedAppend(full + ":", path, n);
    BoundedAppend("", path, n);
  }

  /* ---- What a mount shows ---- */

  /** The layers found at a list of directories. */
  function LayersAt(dirs: map<string, Layer>, paths: seq<string>): seq<Layer>
    requires forall p :: p in paths ==> p in dirs
  {
    if paths == [] then [] else [dirs[paths[0]]] + LayersAt(dirs, paths[1..])
  }

  /** The stack that a mount's options name: the upper directory over the lowerdir list, left to right. */
  function StackOf(dirs: map<string, Layer>, options: string): Option<seq<Layer>> {
    match (SettingAt(options, 0, "lowerdir="), SettingAt(options, 1, "upperdir="))
    case (Some(lower), Some(upper)) =>
      var paths := Fields(lower, ':');
      if upper in dirs && forall p :: p in paths ==> p in dirs
      then Some([dirs[upper]] + LayersAt(dirs, paths))
      else None
    case _ => None
  }

  /** Paths that the mount options can carry: nonempty, present, and free of the options' separators. */
  predicate Mountable(dirs: map<string, Layer>, paths: seq<string>) {
    forall p :: p in paths ==> p in dirs && p != "" && ':' !in p && PlainPath(p)
  }

  /** The options text is shorter than a page, so neither it nor the lowerdir list in it is cut. */
  predicate Uncut(imageDir: string, cid: string, paths: seq<string>) {
    && |FullOptions(PathList(Reverse(paths)), UpperPath(imageDir, cid), WorkPath(imageDir, cid))| < PAGE_SIZE
    && PlainPath(UpperPath(imageDir, cid)) && PlainPath(WorkPath(imageDir, cid))
  }

  lemma {:induction false} LayersAtLonger(dirs: map<string, Layer>, paths: seq<string>, x: string)
    requires (forall p :: p in paths ==> p in dirs) && x in dirs
    ensures forall p :: p in paths + [x] ==> p in dirs
    ensures LayersAt(dirs, paths + [x]) == LayersAt(dirs, paths) + [dirs[x]]
  {
    if paths == [] {
      assert paths + [x] == [x];
    } else {
      LayersAtLonger(dirs, paths[1..], x);
      assert (paths + [x])[1..] == paths[1..] + [x];
    }
  }

  /** Reading the directories in reverse gives the layers in reverse. */
  lemma {:induction false} LayersAtReverse(dirs: map<string, Layer>, paths: seq<string>)
    requires forall p :: p in paths ==> p in dirs
    ensures forall p :: p in Reverse(paths) <==> p in paths
    ensures LayersAt(dirs, Reverse(paths)) == Reverse(LayersAt(dirs, paths))
    decreases |paths|
  {
    if paths != [] {
      var front, last := paths[..|paths| - 1], paths[|paths| - 1];
      assert paths == front + [last];
      assert forall p :: p in front ==> p in paths;
      LayersAtReverse(dirs, front);
      assert last in paths;
      LayersAtLonger(dirs, front, last);
      var ls := LayersAt(dirs, front);
      assert (ls + [dirs[last]])[..|ls|] == ls;
      assert Reverse(paths) == [last] + Reverse(front);
      assert Reverse(paths)[1..] == Reverse(front);
    }
  }

  lemma {:induction false} LayersAtSame(dirs: map<string, Layer>, dirs': map<string, Layer>, paths: seq<string>)
    requires forall p :: p in paths ==> p in dirs && p in dirs' && dirs[p] == dirs'[p]
    ensures LayersAt(dirs, paths) == LayersAt(dirs', paths)
  {
    if paths != [] {
      LayersAtSame(dirs, dirs', paths[1..]);
    }
  }

  lemma {:induction false} JoinPlain(fs: seq<string>)
    requires forall p :: p in fs ==> PlainPath(p)
    ensures PlainPath(Join(fs, ':'))
  {
    JoinHasNo(fs, ':', ',');
  }

  /** The options name exactly the upper directory over the image's layers, the last layer uppermost. */
  lemma OptionsNameStack(dirs: map<string, Layer>, imageDir: string, cid: string, paths: seq<string>)
    requires paths != [] && Mountable(dirs, paths) && Uncut(imageDir, cid, paths) && UpperPath(imageDir, cid) in dirs
    ensures StackOf(dirs, OptionsFor(imageDir, cid, paths)) ==
            Some([dirs[UpperPath(imageDir, cid)]] + Reverse(LayersAt(dirs, paths)))
  {
    hide UpperPath, WorkPath, FullOptions, PathList, SettingAt, Reverse, LayersAt, Fields;
    var r := Reverse(paths);
    LayersAtReverse(dirs, paths);
    PathListIsJoin(r);
    JoinPlain(r);
    PathListSplits(r);
    LengthOfOptions(PathList(r), UpperPath(imageDir, cid), WorkPath(imageDir, cid));
    TakeAll(PathList(r), LOWERDIR_CAPACITY - 1);
    OptionsReadBackIff(PathList(r), UpperPath(imageDir, cid), WorkPath(imageDir, cid));
  }

  /** The options name the three directories of the container. */
  lemma OptionsNameDirs(imageDir: string, cid: string, paths: seq<string>)
    requires Uncut(imageDir, cid, paths) && PlainPath(PathList(Reverse(paths)))
    ensures var text := OptionsFor(imageDir, cid, paths);
            && SettingAt(text, 0, "lowerdir=") == Some(PathList(Reverse(paths)))
            && SettingAt(text, 1, "upperdir=") == Some(UpperPath(imageDir, cid))
            && SettingAt(text, 2, "workdir=") == Some(WorkPath(imageDir, cid))
  {
    hide UpperPath, WorkPath, FullOptions, PathList, SettingAt, Reverse;
    var list := PathList(Reverse(paths));
    LengthOfOptions(list, UpperPath(imageDir, cid), WorkPath(imageDir, cid));
    TakeAll(list, LOWERDIR_CAPACITY - 1);
    OptionsReadBackIff(list, UpperPath(imageDir, cid), WorkPath(imageDir, cid));
  }

  lemma TakeAll(s: string, n: nat)
    requires |s| <= n
    ensures Take(s, n) == s
  {
  }

  lemma SearchTop(top: Layer, stack: seq<Layer>, p: Place)
    ensures Search([top] + stack, p) ==
            match Says(top, p) case Found(n) => Some(n) case Gone => None case Pass => Search(stack, p)
  {
    assert ([top] + stack)[1..] == stack;
  }

  /**
   A path looked up through the mount, layer by layer in the order its options give, is the path
   looked up in the layers laid over each other from index 0 on, the upper directory last.
   */
  lemma MountShowsMerged(dirs: map<string, Layer>, imageDir: string, cid: string, paths: seq<string>, p: Place)
    requires paths != [] && Mountable(dirs, paths) && Uncut(imageDir, cid, paths) && UpperPath(imageDir, cid) in dirs
    ensures var stack := StackOf(dirs, OptionsFor(imageDir, cid, paths));
            stack.Some? &&
            Search(stack.value, p) == Get(Lay(Merged(LayersAt(dirs, paths)), dirs[UpperPath(imageDir, cid)]), p)
  {
    hide UpperPath, OptionsFor, StackOf, Search, Merged, LayersAt, Reverse, Uncut;
    OptionsNameStack(dirs, imageDir, cid, paths);
    var layers, upper := LayersAt(dirs, paths), dirs[UpperPath(imageDir, cid)];
    SearchIsMerged(layers, p);
    SearchTop(upper, Reverse(layers), p);
    assert Says(upper, p).Found? ==> p in upper;
  }

  /**
   The same for a walk of the path, one merged directory after the other, when every layer's entries lie in
   directories of it.
   */
  lemma WalkShowsMerged(dirs: map<string, Layer>, imageDir: string, cid: string, paths: seq<string>, p: Place)
    requires paths != [] && Mountable(dirs, paths) && Uncut(imageDir, cid, paths) && UpperPath(imageDir, cid) in dirs
    requires p != [] && forall d :: d in dirs ==> ClosedLayer(dirs[d])
    ensures var stack := StackOf(dirs, OptionsFor(imageDir, cid, paths));
            stack.Some? &&
            WalkTo(stack.value, p) == Get(Lay(Merged(LayersAt(dirs, paths)), dirs[UpperPath(imageDir, cid)]), p)
  {
    hide UpperPath, OptionsFor, StackOf, Search, Merged, Reverse, Uncut, ClosedLayer, WalkTo, Lay;
    MountShowsMerged(dirs, imageDir, cid, paths, p);
    OptionsNameStack(dirs, imageDir, cid, paths);
    ClosedAt(dirs, paths);
    WalkIsSearch([dirs[UpperPath(imageDir, cid)]] + Reverse(LayersAt(dirs, paths)), p);
  }

  lemma {:induction false} ClosedAt(dirs: map<string, Layer>, paths: seq<string>)
    requires (forall p :: p in paths ==> p in dirs) && forall d :: d in dirs ==> ClosedLayer(dirs[d])
    ensures forall l :: l in LayersAt(dirs, paths) ==> ClosedLayer(l)
  {
    hide ClosedLayer;
    if paths != [] {
      assert paths[0] in paths;
      ClosedAt(dirs, paths[1..]);
    }
  }

  /**
   A container's upper directory committed to a fresh layer: a container with an empty upper directory
   on the image with that layer sees what the first container saw, path by path, when no top-level
   name of the upper directory starts with a dot - the condition of CommitFaithfulIff.
   */
  lemma CommitPreservesView(dirs: map<string, Layer>, committed: map<string, Layer>, imageDir: string, cid: string,
                            layerId: string, next: string, paths: seq<string>, p: Place)
    requires Committed(dirs, committed, UpperPath(imageDir, cid), LayerPath(imageDir, layerId), true, true)
    requires var upper, layer, upper2 := UpperPath(imageDir, cid), LayerPath(imageDir, layerId),
            UpperPath(imageDir, next);
             && paths != [] && Mountable(dirs, paths) && Uncut(imageDir, cid, paths) && upper in dirs
             && layer !in dirs && layer != "" && ':' !in layer && PlainPath(layer)
             && Uncut(imageDir, next, paths + [layer]) && upper2 !in paths && upper2 != layer
             && NoDotNames(dirs[upper])
    ensures var layer, upper2 := LayerPath(imageDir, layerId), UpperPath(imageDir, next);
            var after := committed[upper2 := map[]];
            var before, now := StackOf(dirs, OptionsFor(imageDir, cid, paths)),
                StackOf(after, OptionsFor(imageDir, next, paths + [layer]));
            before.Some? && now.Some? && Search(now.value, p) == Search(before.value, p)
  {
    hide UpperPath, LayerPath, OptionsFor, StackOf, Search, LayersAt, Uncut, Reverse, CopyStar;
    var upper, layer, upper2 := UpperPath(imageDir, cid), LayerPath(imageDir, layerId), UpperPath(imageDir, next);
    var after := committed[upper2 := map[]];
    assert map[] + CopyStar(dirs[upper]) == CopyStar(dirs[upper]);
    assert after[layer] == CopyStar(dirs[upper]);
    LayersAtSame(dirs, after, paths);
    LayersAtLonger(after, paths, layer);
    OptionsNameStack(dirs, imageDir, cid, paths);
    OptionsNameStack(after, imageDir, next, paths + [layer]);
    var layers := LayersAt(dirs, paths);
    ReverseLonger(layers, after[layer]);
    EmptyTop([after[layer]] + Reverse(layers), p);
    CommitFaithfulIff(dirs[upper]);
    assert Search([CopyStar(dirs[upper])] + Reverse(layers), p) == Search([dirs[upper]] + Reverse(layers), p);
  }

  lemma ReverseLonger<T>(s: seq<T>, x: T)
    ensures Reverse(s + [x]) == [x] + Reverse(s)
  {
    assert (s + [x])[..|s|] == s;
  }
}
