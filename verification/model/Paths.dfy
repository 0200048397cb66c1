/** Path texts, the names they spell, and the places those lead to. */
module Paths {

  const MAX_PATH_LEN: nat := 4096

  /** The names of a path as written, from the root on; `.` and `..` among them. */
  type Way = seq<string>

  /** A place in a directory tree: the names from the root down, none of them `.` or `..`. */
  type Place = seq<string>

  predicate Ordinary(name: string) {
    name != "." && name != ".."
  }

  predicate Plain(names: seq<string>) {
    forall x :: x in names ==> Ordinary(x)
  }

  /** One name further: `.` stays, `..` goes up, and the root is its own parent. No name is a symbolic link. */
  function GoOn(p: Place, x: string): Place {
    if x == "." then p
    else if x == ".." then Above(p)
    else p + [x]
  }

  function Above(p: Place): Place {
    if p == [] then [] else p[..|p| - 1]
  }

  function Go(p: Place, w: Way): Place {
    if w == [] then p else GoOn(Go(p, w[..|w| - 1]), w[|w| - 1])
  }

  /** The place that a way leads to from the root. */
  function Resolved(w: Way): Place {
    Go([], w)
  }

  lemma {:induction false} GoPlain(p: Place, w: Way)
    requires Plain(p)
    ensures Plain(Go(p, w))
    decreases |w|
  {
    if w != [] {
      GoPlain(p, w[..|w| - 1]);
    }
  }

  lemma {:induction false} GoJoin(p: Place, v: Way, w: Way)
    ensures Go(p, v + w) == Go(Go(p, v), w)
    decreases |w|
  {
    if w == [] {
      assert v + w == v;
    } else {
      GoJoin(p, v, w[..|w| - 1]);
      assert (v + w)[..|v + w| - 1] == v + w[..|w| - 1];
    }
  }

  lemma GoOne(p: Place, w: Way, x: string)
    ensures Go(p, w + [x]) == GoOn(Go(p, w), x)
  {
    assert (w + [x])[..|w|] == w;
  }

  /** A way of ordinary names leads to the place of the same names. */
  lemma {:induction false} GoOrdinary(p: Place, w: Way)
    requires Plain(w)
    ensures Go(p, w) == p + w
    decreases |w|
  {
    if w == [] {
      assert p + w == p;
    } else {
      GoOrdinary(p, w[..|w| - 1]);
      assert w[|w| - 1] in w;
      assert w == w[..|w| - 1] + [w[|w| - 1]];
    }
  }

  /** The finished names of a path and the one its end may still be in the middle of. */
  datatype Scanned = Scanned(names: seq<string>, last: string)

  function Scan(s: string): Scanned {
    if s == [] then Scanned([], "")
    else
      var before, c := Scan(s[..|s| - 1]), s[|s| - 1];
      if c == '/' then Scanned(Flush(before), "") else Scanned(before.names, before.last + [c])
  }

  function Flush(sc: Scanned): seq<string> {
    if sc.last == "" then sc.names else sc.names + [sc.last]
  }

  /** The names of a path; repeated and trailing slashes add none. */
  function Names(s: string): seq<string> {
    Flush(Scan(s))
  }

  /** One more character of the path. */
  lemma ScanStep(s: string, k: nat)
    requires k < |s|
    ensures Scan(s[..k + 1]) ==
            if s[k] == '/' then Scanned(Names(s[..k]), "") else Scanned(Scan(s[..k]).names, Scan(s[..k]).last + [s[k]])
  {
    assert s[..k + 1][..k] == s[..k];
  }

  /** A path continued after a slash names the place below. */
  lemma {:induction false} NamesAppend(a: string, b: string)
    ensures Scan(a + ['/'] + b).names == Names(a) + Scan(b).names && Scan(a + ['/'] + b).last == Scan(b).last
    ensures Names(a + ['/'] + b) == Names(a) + Names(b)
    decreases |b|
  {
    var s := a + ['/'] + b;
    if b == [] {
      assert s[..|s| - 1] == a;
    } else {
      var front := b[..|b| - 1];
      NamesAppend(a, front);
      assert s[..|s| - 1] == a + ['/'] + front;
    }
  }

  lemma {:induction false} OneName(s: string)
    requires s != "" && '/' !in s
    ensures Scan(s) == Scanned([], s) && Names(s) == [s]
  {
    if |s| == 1 {
      assert s[..0] == [];
    } else {
      var front := s[..|s| - 1];
      assert '/' !in front by { assert front <= s; }
      OneName(front);
      assert s == front + [s[|s| - 1]];
    }
  }
}
