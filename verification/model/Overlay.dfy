/**
 Layers and what an overlay mount shows of them. A layer holds entries by path,
 a path being the names below the layer's root; a whiteout, a file or a directory
 marked as overriding hides what lies below it in lower layers.
 */
module Overlay {
  import opened Wrappers
  import opened Paths

  datatype Entry = Whiteout | FileEntry(content: string) | DirEntry(overrides: bool)

  datatype Node = File(content: string) | Dir

  type Layer = map<Place, Entry>

  datatype Verdict = Found(node: Node) | Gone | Pass

  predicate Hides(e: Entry) {
    match e
    case Whiteout => true
    case FileEntry(_) => true
    case DirEntry(overrides) => overrides
  }

  /** Some entry of the layer above the path, other than the root, hides what lower layers have there. */
  predicate Blocked(layer: Layer, p: Place) {
    exists k | 1 <= k < |p| :: p[..k] in layer && Hides(layer[p[..k]])
  }

  /** What one layer says about a path. */
  function Says(layer: Layer, p: Place): Verdict {
    if p in layer then
      match layer[p]
      case Whiteout => Gone
      case FileEntry(c) => Found(File(c))
      case DirEntry(_) => Found(Dir)
    else if Blocked(layer, p) then Gone
    else Pass
  }

  /** Lookup through a stack of layers, top first: the first layer that has something to say wins. */
  function Search(stack: seq<Layer>, p: Place): Option<Node> {
    if stack == [] then None
    else
      match Says(stack[0], p)
      case Found(n) => Some(n)
      case Gone => None
      case Pass => Search(stack[1..], p)
  }

  type View = map<Place, Node>

  /** One layer laid over a merged view: it hides some of it and adds its own files and directories. */
  function Lay(view: View, layer: Layer): View {
    (map p | p in view && Says(layer, p).Pass? :: view[p]) +
    (map p | p in layer && Says(layer, p).Found? :: Says(layer, p).node)
  }

  /** The layers laid one over the other, the first one at the bottom. */
  function Merged(layers: seq<Layer>): View {
    if layers == [] then map[] else Lay(Merged(layers[..|layers| - 1]), layers[|layers| - 1])
  }

  function Reverse<T>(s: seq<T>): (r: seq<T>)
    ensures |r| == |s| && forall k | 0 <= k < |s| :: r[k] == s[|s| - 1 - k]
  {
    if s == [] then [] else [s[|s| - 1]] + Reverse(s[..|s| - 1])
  }

  function Get(view: View, p: Place): Option<Node> {
    if p in view then Some(view[p]) else None
  }

  /** Searching the stack from the top is looking up the view merged from the bottom, for any number of layers. */
  lemma {:induction false} SearchIsMerged(layers: seq<Layer>, p: Place)
    ensures Search(Reverse(layers), p) == Get(Merged(layers), p)
    decreases |layers|
  {
    if layers != [] {
      var below, top := layers[..|layers| - 1], layers[|layers| - 1];
      SearchIsMerged(below, p);
      assert Reverse(layers)[1..] == Reverse(below);
      assert Says(top, p).Found? ==> p in top;
    }
  }

  /** An empty layer on top shows the stack below it. */
  lemma EmptyTop(stack: seq<Layer>, p: Place)
    ensures Search([map[]] + stack, p) == Search(stack, p)
  {
    assert ([map[]] + stack)[1..] == stack;
  }

  /* ---- Walking a path name by name ---- */

  /** Every entry of a layer lies in a directory of that layer, or in its root. */
  predicate ClosedLayer(layer: Layer) {
    forall p :: p in layer && p != [] && Above(p) != [] ==> Above(p) in layer && layer[Above(p)].DirEntry?
  }

  predicate ClosedLayers(stack: seq<Layer>) {
    forall l :: l in stack ==> ClosedLayer(l)
  }

  /** The layers, top first, whose directories at a path are merged, when those at the path above it are given. */
  function Narrowed(stack: seq<Layer>, p: Place): seq<Layer> {
    if stack == [] then []
    else if p !in stack[0] then Narrowed(stack[1..], p)
    else
      match stack[0][p]
      case DirEntry(overrides) => if overrides then [stack[0]] else [stack[0]] + Narrowed(stack[1..], p)
      case _ => []
  }

  /** The layers that make up the merged directory that a walk of the path ends in; none if that is no directory. */
  function MergedAt(stack: seq<Layer>, p: Place): seq<Layer>
    decreases |p|
  {
    if p == [] then stack else Narrowed(MergedAt(stack, p[..|p| - 1]), p)
  }

  /** What a merged directory shows under a name: the uppermost entry. */
  function TopEntry(stack: seq<Layer>, p: Place): Option<Node> {
    if stack == [] then None
    else if p !in stack[0] then TopEntry(stack[1..], p)
    else
      match stack[0][p]
      case Whiteout => None
      case FileEntry(c) => Some(File(c))
      case DirEntry(_) => Some(Dir)
  }

  /** A walk of the path, one directory after the other. */
  function WalkTo(stack: seq<Layer>, p: Place): Option<Node>
    requires p != []
  {
    TopEntry(MergedAt(stack, p[..|p| - 1]), p)
  }

  /** Nothing on the way to a path, or at it, hides lower layers. */
  predicate Open(layer: Layer, p: Place) {
    forall k | 1 <= k <= |p| :: p[..k] in layer ==> !Hides(layer[p[..k]])
  }

  /** Only the lowest of the layers can hide others. */
  predicate OpenAbove(stack: seq<Layer>, p: Place) {
    forall i | 0 <= i < |stack| - 1 :: Open(stack[i], p)
  }

  /** A layer without the path has nothing below it. */
  lemma {:induction false} AbsentBelow(layer: Layer, p: Place, q: Place)
    requires ClosedLayer(layer) && p != [] && p <= q && p !in layer
    ensures q !in layer
    decreases |q|
  {
    if |q| == |p| {
      assert p == q;
    } else if q in layer {
      assert Above(q) == q[..|q| - 1];
      assert p <= q[..|q| - 1];
      AbsentBelow(layer, p, q[..|q| - 1]);
      assert false;
    }
  }

  /** An open layer without the path says nothing about what is below. */
  lemma AbsentPasses(layer: Layer, p: Place, q: Place)
    requires ClosedLayer(layer) && p != [] && p <= q && p !in layer && Open(layer, p[..|p| - 1])
    ensures Says(layer, q) == Pass
  {
    AbsentBelow(layer, p, q);
    forall k | 1 <= k < |q|
      ensures q[..k] in layer ==> !Hides(layer[q[..k]])
    {
      if k >= |p| {
        AbsentBelow(layer, p, q[..k]);
      } else {
        assert q[..k] == p[..|p| - 1][..k];
      }
    }
  }

  /** Below an entry that hides, the layer has the last word. */
  lemma HiddenBelow(layer: Layer, p: Place, q: Place)
    requires p != [] && p < q && p in layer && Hides(layer[p])
    ensures Says(layer, q) != Pass
  {
    assert q[..|p|] == p;
  }

  lemma FileHasNothingBelow(layer: Layer, p: Place, q: Place)
    requires ClosedLayer(layer) && p != [] && p < q && p in layer && !layer[p].DirEntry?
    ensures Says(layer, q) == Gone
    decreases |q|
  {
    assert q[..|p|] == p;
    assert |q| == |p| + 1 ==> Above(q) == p;
    if q in layer {
      assert Above(q) == q[..|q| - 1];
      if |q| == |p| + 1 {
        assert false;
      } else {
        FileHasNothingBelow(layer, p, q[..|q| - 1]);
        assert false;
      }
    }
  }

  lemma LastHasTheWord(layer: Layer, p: Place)
    ensures Search([layer], p) == match Says(layer, p) case Found(n) => Some(n) case _ => None
  {
    assert [layer][1..] == [];
  }

  /** Going into a directory drops no layer that still matters, and keeps the rest in order. */
  lemma {:induction false} NarrowingKeeps(stack: seq<Layer>, p: Place, q: Place)
    requires ClosedLayers(stack) && p != [] && p < q && OpenAbove(stack, p[..|p| - 1])
    ensures Search(Narrowed(stack, p), q) == Search(stack, q)
  {
    hide Says, Hides, ClosedLayer;
    if stack != [] {
      var top, rest := stack[0], stack[1..];
      assert top in stack && ClosedLayers(rest) && OpenAbove(rest, p[..|p| - 1]);
      assert stack == [top] + rest;
      LastHasTheWord(top, q);
      if p !in top {
        if rest == [] {
          AbsentBelow(top, p, q);
          AbsentSays(top, q);
        } else {
          AbsentPasses(top, p, q);
          NarrowingKeeps(rest, p, q);
        }
      } else if !top[p].DirEntry? {
        FileHasNothingBelow(top, p, q);
      } else if top[p].overrides {
        assert Hides(top[p]) by { DirHides(top[p]); }
        HiddenBelow(top, p, q);
      } else {
        NarrowingKeeps(rest, p, q);
        assert ([top] + Narrowed(rest, p))[1..] == Narrowed(rest, p);
      }
    }
  }

  lemma DirHides(e: Entry)
    requires e.DirEntry?
    ensures Hides(e) == e.overrides
  {
  }

  lemma AbsentSays(layer: Layer, q: Place)
    requires q !in layer
    ensures !Says(layer, q).Found?
  {
  }

  lemma {:induction false} NarrowedFrom(stack: seq<Layer>, p: Place)
    requires ClosedLayers(stack) && p != [] && OpenAbove(stack, p[..|p| - 1])
    ensures ClosedLayers(Narrowed(stack, p)) && OpenAbove(Narrowed(stack, p), p)
  {
    hide ClosedLayer;
    if stack != [] {
      var top, rest := stack[0], stack[1..];
      assert ClosedLayers(rest) && OpenAbove(rest, p[..|p| - 1]) && top in stack;
      NarrowedFrom(rest, p);
      if p in top && top[p].DirEntry? && !top[p].overrides && Narrowed(rest, p) != [] {
        assert rest != [] && Open(top, p[..|p| - 1]);
        OpenOneMore(top, p);
      }
    }
  }

  lemma OpenOneMore(layer: Layer, p: Place)
    requires p != [] && p in layer && !Hides(layer[p]) && Open(layer, p[..|p| - 1])
    ensures Open(layer, p)
  {
    forall k | 1 <= k <= |p| && p[..k] in layer
      ensures !Hides(layer[p[..k]])
    {
      if k < |p| {
        assert p[..|p| - 1][..k] == p[..k];
      } else {
        assert p[..k] == p;
      }
    }
  }

  lemma {:induction false} MergedKeeps(stack: seq<Layer>, p: Place, q: Place)
    requires ClosedLayers(stack) && p < q
    ensures ClosedLayers(MergedAt(stack, p)) && OpenAbove(MergedAt(stack, p), p)
    ensures Search(MergedAt(stack, p), q) == Search(stack, q)
    decreases |p|
  {
    hide ClosedLayers, OpenAbove, Search;
    if p == [] {
      NothingAbove(stack);
    } else {
      MergedKeeps(stack, p[..|p| - 1], q);
      NarrowedFrom(MergedAt(stack, p[..|p| - 1]), p);
      NarrowingKeeps(MergedAt(stack, p[..|p| - 1]), p, q);
    }
  }

  lemma NothingAbove(stack: seq<Layer>)
    ensures OpenAbove(stack, [])
  {
  }

  /** In a merged directory the uppermost entry is what the layers say. */
  lemma {:induction false} TopIsSearch(stack: seq<Layer>, p: Place)
    requires ClosedLayers(stack) && p != [] && OpenAbove(stack, p[..|p| - 1])
    ensures TopEntry(stack, p) == Search(stack, p)
  {
    hide ClosedLayer;
    if stack != [] {
      var top, rest := stack[0], stack[1..];
      assert top in stack && ClosedLayers(rest) && OpenAbove(rest, p[..|p| - 1]);
      if p !in top {
        if rest != [] {
          AbsentPasses(top, p, p);
        }
        TopIsSearch(rest, p);
      }
    }
  }

  /**
   Walking a path name by name through the merged directories shows what searching the layers for the whole path
   shows.
   */
  lemma WalkIsSearch(stack: seq<Layer>, p: Place)
    requires ClosedLayers(stack) && p != []
    ensures WalkTo(stack, p) == Search(stack, p)
  {
    hide ClosedLayers, OpenAbove, Search, TopEntry;
    MergedKeeps(stack, p[..|p| - 1], p);
    TopIsSearch(MergedAt(stack, p[..|p| - 1]), p);
  }

  /* ---- Committing an upper directory ---- */

  /** A name that the shell's `*` does not match. */
  predicate Dotted(name: string) {
    name != "" && name[0] == '.'
  }

  predicate UnderDot(p: Place) {
    p != [] && Dotted(p[0])
  }

  /** What `cp -a upper/[*] layer/` copies. */
  function CopyStar(upper: Layer): Layer {
    map p | p in upper && !UnderDot(p) :: upper[p]
  }

  predicate NoDotNames(upper: Layer) {
    forall p :: p in upper ==> !UnderDot(p)
  }

  /** The committed layer shows what the upper directory showed, on top of any image. */
  ghost predicate CommitFaithful(upper: Layer) {
    forall image: seq<Layer>, p: Place :: Search([CopyStar(upper)] + image, p) == Search([upper] + image, p)
  }

  /** A path under a dotted name is neither in the copy nor hidden by it. */
  lemma CopyPassesDots(upper: Layer, p: Place)
    requires UnderDot(p)
    ensures Says(CopyStar(upper), p) == Pass
  {
    forall k | 1 <= k < |p|
      ensures p[..k] !in CopyStar(upper)
    {
      assert p[..k][0] == p[0];
    }
  }

  /** Commit is faithful exactly when no top-level name of the upper directory starts with a dot. */
  lemma CommitFaithfulIff(upper: Layer)
    ensures CommitFaithful(upper) <==> NoDotNames(upper)
  {
    if NoDotNames(upper) {
      assert CopyStar(upper) == upper;
    } else {
      var p :| p in upper && UnderDot(p);
      CopyPassesDots(upper, p);
      var image: seq<Layer> := if upper[p] == Whiteout then [map[p := FileEntry("")]] else [];
      assert ([upper] + image)[0] == upper && ([CopyStar(upper)] + image)[1..] == image;
      assert Search([CopyStar(upper)] + image, p) != Search([upper] + image, p);
    }
  }
}
