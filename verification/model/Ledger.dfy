/**
 A ledger of the rules that containers and bridges have added and not yet
 deleted, in order of issue, and how it mirrors a chain that is appended to and
 deleted from by value.
 */
module Ledger {
  import opened HostNet

  datatype Owner = OfContainer(i: nat) | OfBridge(bridge: string)

  datatype Entry = Entry(owner: Owner, chain: Chain, rule: Rule)

  /** The entries of one owner, in order. */
  function Owned(led: seq<Entry>, o: Owner): (s: seq<Entry>)
    ensures forall e :: e in s <==> e in led && e.owner == o
  {
    if led == [] then []
    else if led[0].owner == o then [led[0]] + Owned(led[1..], o)
    else Owned(led[1..], o)
  }

  /** The rules the ledger puts on one chain, in order. */
  function RulesOn(led: seq<Entry>, ch: Chain): (rs: seq<Rule>)
    ensures forall r :: r in rs <==> exists e :: e in led && e.chain == ch && e.rule == r
  {
    if led == [] then []
    else
      var rest := RulesOn(led[1..], ch);
      assert forall e :: e in led <==> e == led[0] || e in led[1..];
      if led[0].chain == ch then
        [led[0].rule] + rest
      else rest
  }

  lemma {:induction false} OwnedJoin(a: seq<Entry>, b: seq<Entry>, o: Owner)
    ensures Owned(a + b, o) == Owned(a, o) + Owned(b, o)
  {
    if a == [] {
      assert a + b == b;
    } else {
      OwnedJoin(a[1..], b, o);
      assert (a + b)[1..] == a[1..] + b;
    }
  }

  lemma {:induction false} NoneOwned(led: seq<Entry>, o: Owner)
    requires forall e :: e in led ==> e.owner != o
    ensures Owned(led, o) == []
  {
    if led != [] {
      assert led[0] in led;
      NoneOwned(led[1..], o);
    }
  }

  lemma {:induction false} RulesOnJoin(a: seq<Entry>, b: seq<Entry>, ch: Chain)
    ensures RulesOn(a + b, ch) == RulesOn(a, ch) + RulesOn(b, ch)
  {
    if a == [] {
      assert a + b == b;
    } else {
      RulesOnJoin(a[1..], b, ch);
      assert (a + b)[1..] == a[1..] + b;
    }
  }

  lemma {:induction false} OwnedRemove(led: seq<Entry>, e: Entry, o: Owner)
    ensures Owned(RemoveFirst(led, e), o) == if e.owner == o then RemoveFirst(Owned(led, o), e) else Owned(led, o)
  {
    if led != [] && led[0] != e {
      OwnedRemove(led[1..], e, o);
      assert RemoveFirst(led, e)[1..] == RemoveFirst(led[1..], e);
    }
  }

  /** Deleting a rule by value deletes the entry that stands for it, when no other entry has that value. */
  lemma {:induction false} RulesOnRemove(led: seq<Entry>, e: Entry, ch: Chain)
    requires forall x :: x in led && x.chain == e.chain && x.rule == e.rule ==> x == e
    ensures RulesOn(RemoveFirst(led, e), ch) ==
            if e.chain == ch then RemoveFirst(RulesOn(led, ch), e.rule) else RulesOn(led, ch)
  {
    if led != [] && led[0] != e {
      assert led[0] in led;
      RulesOnRemove(led[1..], e, ch);
      assert RemoveFirst(led, e)[1..] == RemoveFirst(led[1..], e);
    }
  }

  lemma {:induction false} RemoveFirstPast<T>(a: seq<T>, b: seq<T>, x: T)
    requires x !in a
    ensures RemoveFirst(a + b, x) == a + RemoveFirst(b, x)
  {
    if a == [] {
      assert a + b == b;
    } else {
      RemoveFirstPast(a[1..], b, x);
      assert (a + b)[1..] == a[1..] + b;
    }
  }

  lemma {:induction false} RemoveFirstAbsent<T>(s: seq<T>, x: T)
    requires x !in s
    ensures RemoveFirst(s, x) == s
  {
    if s != [] {
      RemoveFirstAbsent(s[1..], x);
    }
  }

  /** One occurrence goes, if there is one. */
  lemma {:induction false} RemoveFirstMultiset<T>(s: seq<T>, x: T)
    ensures multiset(RemoveFirst(s, x)) == multiset(s) - multiset{x}
    ensures forall y :: y in RemoveFirst(s, x) ==> y in s
  {
    if s != [] {
      assert s == [s[0]] + s[1..];
      if s[0] != x {
        RemoveFirstMultiset(s[1..], x);
      }
    }
  }
}
