/**
 In-place text processing: trimming and splitting a NUL-terminated buffer.
 `Trim` and `Fields` say on plain strings what the two methods do to the buffer.
 */
module Text {
  import opened CStrings

  predicate IsSpace(c: char) {
    c == ' ' || c == '\t' || c == '\n' || c == '\r'
  }

  /** Space, tab, newline and carriage return, and no other character. */
  lemma SpacesAre(c: char)
    ensures IsSpace(c) <==> c in " \t\n\r"
  {
  }

  /** The first position from `i` on that is not whitespace. */
  function SkipSpace(s: seq<char>, i: nat): (k: nat)
    requires i <= |s|
    ensures i <= k <= |s|
    ensures forall j | i <= j < k :: IsSpace(s[j])
    ensures k < |s| ==> !IsSpace(s[k])
    decreases |s| - i
  {
    if i < |s| && IsSpace(s[i]) then SkipSpace(s, i + 1) else i
  }

  /** The end of `s[lo..hi]` once trailing whitespace is dropped. */
  function DropSpace(s: seq<char>, lo: nat, hi: nat): (k: nat)
    requires lo <= hi <= |s|
    ensures lo <= k <= hi
    ensures forall j | k <= j < hi :: IsSpace(s[j])
    ensures lo < k ==> !IsSpace(s[k - 1])
    decreases hi - lo
  {
    if lo < hi && IsSpace(s[hi - 1]) then DropSpace(s, lo, hi - 1) else hi
  }

  function Trim(s: string): string {
    var lo := SkipSpace(s, 0);
    s[lo..DropSpace(s, lo, |s|)]
  }

  predicate AllSpace(s: string) {
    forall j | 0 <= j < |s| :: IsSpace(s[j])
  }

  /** No whitespace at either edge. */
  predicate Trimmed(s: string) {
    s != [] ==> !IsSpace(s[0]) && !IsSpace(s[|s| - 1])
  }

  lemma SkipSpaceIs(s: seq<char>, i: nat, k: nat)
    requires i <= k <= |s| && (forall j | i <= j < k :: IsSpace(s[j])) && (k < |s| ==> !IsSpace(s[k]))
    ensures SkipSpace(s, i) == k
    decreases k - i
  {
    if i < k {
      SkipSpaceIs(s, i + 1, k);
    }
  }

  lemma DropSpaceIs(s: seq<char>, lo: nat, k: nat, hi: nat)
    requires lo <= k <= hi <= |s| && (forall j | k <= j < hi :: IsSpace(s[j])) && (lo < k ==> !IsSpace(s[k - 1]))
    ensures DropSpace(s, lo, hi) == k
    decreases hi - k
  {
    if k < hi {
      DropSpaceIs(s, lo, k, hi - 1);
    }
  }

  /** Trim keeps one stretch of the string; what it drops on both sides is whitespace, and the edges are clean. */
  lemma TrimSplits(s: string) returns (before: string, after: string)
    ensures s == before + Trim(s) + after
    ensures AllSpace(before) && AllSpace(after) && Trimmed(Trim(s))
  {
    hide SkipSpace, DropSpace;
    var lo := SkipSpace(s, 0);
    var hi := DropSpace(s, lo, |s|);
    before, after := s[..lo], s[hi..];
    assert s == s[..lo] + s[lo..hi] + s[hi..];
  }

  /** The converse: any such decomposition has the trimmed string in its middle. */
  lemma {:induction false} TrimUnique(before: string, middle: string, after: string)
    requires AllSpace(before) && AllSpace(after) && Trimmed(middle)
    ensures Trim(before + middle + after) == middle
  {
    var s := before + middle + after;
    var lo, hi := |before|, |before| + |middle|;
    assert s[lo..hi] == middle;
    assert forall j | 0 <= j < lo :: s[j] == before[j];
    assert forall j | hi <= j < |s| :: s[j] == after[j - hi];
    if middle == [] {
      SkipSpaceIs(s, 0, |s|);
    } else {
      assert s[lo] == middle[0] && s[hi - 1] == middle[|middle| - 1];
      SkipSpaceIs(s, 0, lo);
      DropSpaceIs(s, lo, hi, |s|);
    }
  }

  /** Every stretch of `s` with clean edges lies inside the stretch that Trim keeps. */
  lemma TrimMaximal(s: string, x: nat, y: nat)
    requires x < y <= |s| && Trimmed(s[x..y])
    ensures SkipSpace(s, 0) <= x && y <= DropSpace(s, SkipSpace(s, 0), |s|)
  {
    assert !IsSpace(s[x..y][0]) && !IsSpace(s[x..y][y - x - 1]);
  }

  lemma TrimIdempotent(s: string)
    ensures Trim(Trim(s)) == Trim(s)
  {
    var _, _ := TrimSplits(s);
    TrimUnique([], Trim(s), []);
    assert [] + Trim(s) + [] == Trim(s);
  }

  lemma TrimOfTrimmed(s: string)
    requires Trimmed(s)
    ensures Trim(s) == s
  {
    TrimUnique([], s, []);
    assert [] + s + [] == s;
  }

  lemma CutTwice(b: seq<char>, start: nat, p: nat, e: nat, stop: nat)
    requires start <= p <= e <= stop <= |b|
    ensures b[start..stop] == b[start..p] + b[p..e] + b[e..stop]
  {
    assert b[start..stop] == b[start..p] + b[p..stop];
    assert b[p..stop] == b[p..e] + b[e..stop];
  }

  /** Trimming `b[start..stop]` keeps `b[p..e]` when everything around it is whitespace and its edges are clean. */
  lemma TrimSlice(b: seq<char>, start: nat, p: nat, e: nat, stop: nat)
    requires start <= p <= e <= stop <= |b|
    requires (forall j | start <= j < p :: IsSpace(b[j])) && (p < stop ==> !IsSpace(b[p]))
    requires (forall j | e <= j < stop :: IsSpace(b[j])) && (p < e ==> !IsSpace(b[e - 1]))
    ensures Trim(b[start..stop]) == b[p..e]
  {
    CutTwice(b, start, p, e, stop);
    TrimUnique(b[start..p], b[p..e], b[e..stop]);
  }

  /** `b[p..e]` is what is left of the string at `start` once whitespace is dropped on both sides. */
  ghost predicate Kept(b: seq<char>, start: nat, p: nat, e: nat) {
    && Terminated(b, start) && start <= p <= e <= Find(b, start, NUL)
    && (forall j | start <= j < p :: IsSpace(b[j])) && (p < Find(b, start, NUL) ==> !IsSpace(b[p]))
    && (forall j | e <= j < Find(b, start, NUL) :: IsSpace(b[j])) && (p < e ==> !IsSpace(b[e - 1]))
  }

  lemma TrimInBuffer(b: seq<char>, start: nat, p: nat, e: nat)
    requires Kept(b, start, p, e)
    ensures Terminated(b[e := NUL], p) && StrAt(b[e := NUL], p) == Trim(StrAt(b, start))
  {
    FindIs(b, p, NUL, Find(b, start, NUL));
    CutAt(b, p, e);
    TrimSlice(b, start, p, e, Find(b, start, NUL));
  }

  /** Cuts trailing whitespace off in the buffer and returns where the text begins. */
  method TrimWhitespace(buf: array<char>, start: nat) returns (p: nat)
    requires Terminated(buf[..], start)
    modifies buf
    ensures start <= p <= Find(old(buf[..]), start, NUL)
    ensures Terminated(buf[..], p) && StrAt(buf[..], p) == Trim(StrAt(old(buf[..]), start))
    ensures forall k | 0 <= k < buf.Length && !(start <= k < Find(old(buf[..]), start, NUL)) :: buf[k] == old(buf[k])
  {
    hide Find, Trim, StrAt;
    ghost var b := buf[..];
    ghost var stop := Find(b, start, NUL);
    p := start;
    while IsSpace(buf[p])
      invariant start <= p <= stop
      invariant forall j | start <= j < p :: IsSpace(b[j])
      decreases stop - p
    {
      p := p + 1;
    }
    if buf[p] == NUL {
      TrimInBuffer(b, start, p, p);
      assert buf[..] == b[p := NUL];
      return;
    }
    FindIs(b, p, NUL, stop);
    var n := StrLen(buf, p);
    var end := p + n - 1;
    while end > p && IsSpace(buf[end])
      invariant p <= end < stop
      invariant forall j | end < j < stop :: IsSpace(b[j])
    {
      end := end - 1;
    }
    TrimInBuffer(b, start, p, end + 1);
    buf[end + 1] := NUL;
    assert buf[..] == b[end + 1 := NUL];
  }

  /** `s` is held at offset `i`, terminator included, below `limit`. */
  ghost predicate Holds(b: seq<char>, i: nat, s: string, limit: nat) {
    i + |s| < limit <= |b| && b[i..i + |s|] == s && b[i + |s|] == NUL && NUL !in s
  }

  lemma HoldsAt(b: seq<char>, i: nat, k: nat)
    requires i <= k < |b| && b[k] == NUL
    ensures Holds(b, i, StrAt(b, i), k + 1)
  {
  }

  lemma HoldsBelow(b: seq<char>, c: seq<char>, i: nat, s: string, limit: nat, limit': nat)
    requires Holds(b, i, s, limit) && limit <= limit' <= |c|
    requires forall k | 0 <= k < limit :: b[k] == c[k]
    ensures Holds(c, i, s, limit')
  {
    assert b[i..i + |s|] == c[i..i + |s|];
  }

  /** `now` differs from `b` only inside `lo..hi`. */
  ghost predicate SameOutside(b: seq<char>, now: seq<char>, lo: nat, hi: nat) {
    |now| == |b| && forall k | 0 <= k < |b| && !(lo <= k < hi) :: now[k] == b[k]
  }

  /** The first `count` wanted tokens are held in the buffer below `limit`. */
  ghost predicate HoldsAll(now: seq<char>, toks: seq<nat>, want: seq<string>, limit: nat, count: nat) {
    count <= |want| && count <= |toks| && forall i | 0 <= i < count :: Holds(now, toks[i], want[i], limit)
  }

  /** Work at or after `limit` keeps the tokens found before, so one more token can be added. */
  lemma HoldsOneMore(b1: seq<char>, b3: seq<char>, toks: seq<nat>, want: seq<string>, limit: nat, limit': nat,
      count: nat, p: nat)
    requires HoldsAll(b1, toks, want, limit, count) && limit <= limit' && count < |want| && count < |toks|
    requires SameOutside(b1, b3, limit, limit') && Holds(b3, p, want[count], limit')
    ensures HoldsAll(b3, toks[count := p], want, limit', count + 1)
  {
    forall i | 0 <= i < count
      ensures Holds(b3, toks[i], want[i], limit')
    {
      HoldsBelow(b1, b3, toks[i], want[i], limit, limit');
    }
  }

  /** The fields from number `count` on are those of the text that starts at `limit`. */
  ghost predicate Remaining(b: seq<char>, fields: seq<string>, d: char, limit: nat, count: nat) {
    Terminated(b, limit) && count < |fields| && fields[count..] == Fields(StrAt(b, limit), d)
  }

  lemma NextField(b: seq<char>, fields: seq<string>, d: char, limit: nat, count: nat, next: nat)
    requires Remaining(b, fields, d, limit, count) && next == limit + IndexOf(StrAt(b, limit), d)
    ensures next <= Find(b, limit, NUL)
    ensures d !in StrAt(b, limit) ==>
              && count + 1 == |fields| && next == Find(b, limit, NUL)
              && fields[count] == StrAt(b, limit) == Before(StrAt(b, limit), d)
    ensures d in StrAt(b, limit) ==>
              && next < Find(b, limit, NUL) == Find(b, next + 1, NUL)
              && fields[count] == Before(StrAt(b, limit), d)
              && Remaining(b, fields, d, next + 1, count + 1)
  {
    assert fields[count] == fields[count..][0];
    assert fields[count + 1..] == fields[count..][1..];
    if d in StrAt(b, limit) {
      CutField(b, limit, d, next);
    }
  }

  /** The wanted tokens: the fields of the text, trimmed. */
  ghost function TrimAll(fields: seq<string>): (w: seq<string>)
    ensures |w| == |fields| && forall i | 0 <= i < |w| :: w[i] == Trim(fields[i])
  {
    seq(|fields|, i requires 0 <= i < |fields| => Trim(fields[i]))
  }

  /** One round of the splitting loop: cuts it off at the next delimiter, if there is one, and trims it. */
  method TakeToken(buf: array<char>, token: nat, delimiter: char) returns (found: bool, next: nat, p: nat)
    requires Terminated(buf[..], token) && delimiter != NUL
    modifies buf
    ensures var b := old(buf[..]);
            && next == token + IndexOf(StrAt(b, token), delimiter)
            && found == (delimiter in StrAt(b, token))
            && next < buf.Length && SameOutside(b, buf[..], token, next + 1)
            && buf[next] == NUL && (!found ==> b[next] == NUL)
            && Holds(buf[..], p, Trim(Before(StrAt(b, token), delimiter)), next + 1)
  {
    hide Find, Trim, IndexOf, StrAt, Before;
    ghost var b := buf[..];
    found, next := StrChr(buf, token, delimiter);
    if found {
      CutField(b, token, delimiter, next);
      buf[next] := NUL;
    } else {
      CutAbsent(StrAt(b, token), delimiter);
    }
    assert buf[..] == if found then b[next := NUL] else b;
    assert StrAt(buf[..], token) == Before(StrAt(b, token), delimiter);
    p := TrimWhitespace(buf, token);
    HoldsAt(buf[..], p, next);
  }

  /** Splits the string at `start`, one trimmed token per field, at most `maxTokens` of them. */
  method SplitString(buf: array<char>, start: nat, delimiter: char, tokens: array<nat>, maxTokens: int)
    returns (count: nat)
    requires Terminated(buf[..], start) && delimiter != NUL && maxTokens <= tokens.Length
    modifies buf, tokens
    ensures var fields := Fields(StrAt(old(buf[..]), start), delimiter);
            && count == (if maxTokens < 0 then 0 else if maxTokens < |fields| then maxTokens else |fields|)
            && forall i | 0 <= i < count ::
                 Terminated(buf[..], tokens[i]) && StrAt(buf[..], tokens[i]) == Trim(fields[i])
    ensures SameOutside(old(buf[..]), buf[..], start, Find(old(buf[..]), start, NUL) + 1)
    ensures forall k | count <= k < tokens.Length :: tokens[k] == old(tokens[k])
  {
    hide Find, Trim, Fields, StrAt, Before, IndexOf;
    ghost var b := buf[..];
    ghost var stop := Find(b, start, NUL);
    ghost var fields := Fields(StrAt(b, start), delimiter);
    ghost var want := TrimAll(fields);
    count := 0;
    var token: nat, more := start, true;
    while count < maxTokens && more
      invariant count <= |fields| && (count > 0 ==> count <= maxTokens)
      invariant more ==> Remaining(b, fields, delimiter, token, count) && Find(b, token, NUL) == stop
      invariant !more ==> count == |fields| && token == stop + 1
      invariant start <= token <= stop + 1 <= |b| && SameOutside(b, buf[..], start, token)
      invariant HoldsAll(buf[..], tokens[..], want, token, count)
      invariant forall k | count <= k < tokens.Length :: tokens[k] == old(tokens[k])
      decreases maxTokens - count
    {
      ghost var b1, toks := buf[..], tokens[..];
      SameTail(b, b1, token);
      var found, next, p := TakeToken(buf, token, delimiter);
      NextField(b, fields, delimiter, token, count, next);
      HoldsOneMore(b1, buf[..], toks, want, token, next + 1, count, p);
      tokens[count] := p;
      assert tokens[..] == toks[count := p];
      count := count + 1;
      token, more := next + 1, found;
    }
    forall i | 0 <= i < count
      ensures Terminated(buf[..], tokens[i]) && StrAt(buf[..], tokens[i]) == Trim(fields[i])
    {
      assert tokens[i] == tokens[..][i];
      StrAtLocal(buf[..], tokens[i], want[i]);
    }
  }

  /** What splitting a joined list yields: the fields trimmed, and unchanged when they were trimmed. */
  lemma SplitOfJoin(fs: seq<string>, d: char)
    requires |fs| > 0 && forall f :: f in fs ==> d !in f
    ensures Fields(Join(fs, d), d) == fs
    ensures forall i | 0 <= i < |fs| && Trimmed(fs[i]) :: Trim(Fields(Join(fs, d), d)[i]) == fs[i]
  {
    FieldsOfJoin(fs, d);
    forall i | 0 <= i < |fs| && Trimmed(fs[i])
      ensures Trim(fs[i]) == fs[i]
    {
      TrimOfTrimmed(fs[i]);
    }
  }
}
