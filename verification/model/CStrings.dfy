/**
 C strings. A buffer is a sequence of characters; the string that starts at an
 offset runs up to the first NUL. The same operations are given on plain
 strings (no NUL inside), where the proofs about text are done.
 */
module CStrings {

  const NUL: char := '\0'

  /** The first position from `i` on that holds `c`, or the end when there is none. */
  function Find(b: seq<char>, i: nat, c: char): (k: nat)
    requires i <= |b|
    ensures i <= k <= |b|
    ensures forall j | i <= j < k :: b[j] != c
    ensures k < |b| ==> b[k] == c
    decreases |b| - i
  {
    if i == |b| || b[i] == c then i else Find(b, i + 1, c)
  }

  lemma {:induction false} FindIs(b: seq<char>, i: nat, c: char, k: nat)
    requires i <= k <= |b| && (forall j | i <= j < k :: b[j] != c) && (k < |b| ==> b[k] == c)
    ensures Find(b, i, c) == k
    decreases k - i
  {
    if i < k {
      FindIs(b, i + 1, c, k);
    }
  }

  /** The string found at offset `i` of buffer `b`. */
  function StrAt(b: seq<char>, i: nat): (s: string)
    requires i <= |b|
    ensures i + |s| == Find(b, i, NUL)
    ensures NUL !in s
  {
    b[i..Find(b, i, NUL)]
  }

  /** Buffer `b` holds a NUL at or after offset `i`. */
  predicate Terminated(b: seq<char>, i: nat) {
    i <= |b| && Find(b, i, NUL) < |b|
  }

  /** A string and its terminator decide what StrAt reads; nothing else in the buffer matters. */
  lemma StrAtLocal(b: seq<char>, i: nat, s: string)
    requires i + |s| < |b| && b[i..i + |s|] == s && b[i + |s|] == NUL && NUL !in s
    ensures StrAt(b, i) == s && Terminated(b, i)
  {
    assert forall j | i <= j < i + |s| :: b[j] == s[j - i];
    FindIs(b, i, NUL, i + |s|);
  }

  /** Offset of the first `c` in `s`, or the length of `s` when there is none. */
  function IndexOf(s: string, c: char): (k: nat)
    ensures k <= |s|
    ensures forall j | 0 <= j < k :: s[j] != c
    ensures k < |s| <==> c in s
    ensures k < |s| ==> s[k] == c
  {
    Find(s, 0, c)
  }

  lemma IndexOfIs(s: string, c: char, k: nat)
    requires k <= |s| && (forall j | 0 <= j < k :: s[j] != c) && (k < |s| ==> s[k] == c)
    ensures IndexOf(s, c) == k
  {
    FindIs(s, 0, c, k);
  }

  function Before(s: string, c: char): string {
    s[..IndexOf(s, c)]
  }

  function After(s: string, c: char): string {
    if c in s then s[IndexOf(s, c) + 1..] else []
  }

  /** Cutting `a + c + b` at its first `c` gives the two sides back. */
  lemma CutJoined(a: string, c: char, b: string)
    requires c !in a
    ensures var s := a + [c] + b; c in s && Before(s, c) == a && After(s, c) == b
  {
    var s := a + [c] + b;
    assert s[..|a|] == a && s[|a|] == c;
    IndexOfIs(s, c, |a|);
    assert s[|a| + 1..] == b;
  }

  lemma CutAbsent(s: string, c: char)
    requires c !in s
    ensures Before(s, c) == s
  {
    IndexOfIs(s, c, |s|);
  }

  /** The fields of `s` between occurrences of `d`; always at least one. */
  function Fields(s: string, d: char): (fs: seq<string>)
    ensures |fs| > 0 && forall f :: f in fs ==> d !in f
    decreases |s|
  {
    if d in s then [Before(s, d)] + Fields(After(s, d), d) else [s]
  }

  function Join(fs: seq<string>, d: char): string {
    if |fs| == 0 then []
    else if |fs| == 1 then fs[0]
    else fs[0] + [d] + Join(fs[1..], d)
  }

  lemma JoinCons(f: string, fs: seq<string>, d: char)
    requires |fs| > 0
    ensures Join([f] + fs, d) == f + [d] + Join(fs, d)
  {
    assert ([f] + fs)[1..] == fs;
  }

  /** Splitting a join of delimiter-free fields gives the fields back. */
  lemma {:induction false} FieldsOfJoin(fs: seq<string>, d: char)
    requires |fs| > 0 && forall f :: f in fs ==> d !in f
    ensures Fields(Join(fs, d), d) == fs
  {
    if |fs| > 1 {
      CutJoined(fs[0], d, Join(fs[1..], d));
      FieldsOfJoin(fs[1..], d);
    }
  }

  lemma CutRejoined(s: string, d: char)
    requires d in s
    ensures s == Before(s, d) + [d] + After(s, d)
    ensures |After(s, d)| < |s|
  {
  }

  /** Joining the fields of a string gives the string back. */
  lemma {:induction false} JoinOfFields(s: string, d: char)
    ensures Join(Fields(s, d), d) == s
    decreases |s|
  {
    if d in s {
      CutRejoined(s, d);
      var a := After(s, d);
      JoinOfFields(a, d);
      JoinCons(Before(s, d), Fields(a, d), d);
    }
  }

  lemma {:induction false} JoinHasNo(fs: seq<string>, d: char, c: char)
    requires c != d && forall f :: f in fs ==> c !in f
    ensures c !in Join(fs, d)
  {
    if |fs| > 1 {
      JoinHasNo(fs[1..], d, c);
    }
  }

  /** The first `n` elements, or all of a shorter sequence: what a bounded copy of a string keeps. */
  function Take<T>(s: seq<T>, n: nat): (t: seq<T>)
    ensures |t| == if |s| <= n then |s| else n
    ensures t <= s
  {
    if |s| <= n then s else s[..n]
  }

  /** strncat into a buffer of `n` characters keeps a prefix of the whole text. */
  lemma BoundedAppend(s: string, x: string, n: nat)
    ensures Take(s, n) + Take(x, n - |Take(s, n)|) == Take(s + x, n)
  {
  }

  /** Writing a NUL inside a string ends it there. */
  lemma CutAt(b: seq<char>, p: nat, e: nat)
    requires p <= e < |b| && e <= Find(b, p, NUL)
    ensures StrAt(b[e := NUL], p) == b[p..e] && Terminated(b[e := NUL], p)
  {
    FindIs(b[e := NUL], p, NUL, e);
  }

  /** What a cut at the first delimiter leaves at `i`, and what follows the cut. */
  lemma CutField(b: seq<char>, i: nat, d: char, k: nat)
    requires Terminated(b, i) && d in StrAt(b, i) && k == i + IndexOf(StrAt(b, i), d)
    ensures i <= k < Find(b, i, NUL) == Find(b, k + 1, NUL)
    ensures Terminated(b, k + 1) && StrAt(b, k + 1) == After(StrAt(b, i), d)
    ensures Terminated(b[k := NUL], i) && StrAt(b[k := NUL], i) == Before(StrAt(b, i), d)
  {
    FindIs(b, k + 1, NUL, Find(b, i, NUL));
    CutAt(b, i, k);
    assert Before(StrAt(b, i), d) == b[i..k];
  }

  /** The string at `i` depends only on the buffer from `i` on. */
  lemma SameTail(b: seq<char>, c: seq<char>, i: nat)
    requires i <= |b| == |c| && forall k | i <= k < |b| :: b[k] == c[k]
    ensures StrAt(b, i) == StrAt(c, i) && Find(b, i, NUL) == Find(c, i, NUL)
    ensures Terminated(b, i) ==> Terminated(c, i)
  {
    FindIs(c, i, NUL, Find(b, i, NUL));
    assert b[i..Find(b, i, NUL)] == c[i..Find(b, i, NUL)];
  }

  /* ---- Library routines over a buffer ---- */

  /** strlen */
  method StrLen(b: array<char>, i: nat) returns (n: nat)
    requires Terminated(b[..], i)
    ensures n == |StrAt(b[..], i)|
  {
    var k := i;
    while b[k] != NUL
      invariant i <= k <= Find(b[..], i, NUL)
      decreases b.Length - k
    {
      k := k + 1;
    }
    FindIs(b[..], i, NUL, k);
    n := k - i;
  }

  /** strchr for a character other than NUL; the offset found is absolute. */
  method StrChr(b: array<char>, i: nat, c: char) returns (found: bool, k: nat)
    requires Terminated(b[..], i) && c != NUL
    ensures k == i + IndexOf(StrAt(b[..], i), c)
    ensures found == (c in StrAt(b[..], i))
  {
    k := i;
    while b[k] != NUL && b[k] != c
      invariant i <= k <= Find(b[..], i, NUL)
      invariant forall j | i <= j < k :: b[j] != c
      decreases b.Length - k
    {
      k := k + 1;
    }
    found := b[k] != NUL;
    ghost var s := StrAt(b[..], i);
    assert forall j | 0 <= j < |s| :: s[j] == b[i + j];
    IndexOfIs(s, c, k - i);
  }

  /** The string at an offset, as a routine that only reads it sees it. */
  method ReadString(b: array<char>, i: nat) returns (s: string)
    requires Terminated(b[..], i)
    ensures s == StrAt(b[..], i)
  {
    var n := StrLen(b, i);
    s := b[i..i + n];
  }
}
