/**
 Port forwarding by itself: what a list of mappings adds to the chains, what its
 removal takes away, and when the two together leave the chains as they were.
 */
module Ports {
  import opened Wrappers
  import opened HostNet
  import opened Network
  import opened Ledger

  function DnatRules(ip: string, ports: seq<PortMapping>): seq<Rule> {
    if ports == [] then [] else [DnatRule(ip, ports[0])] + DnatRules(ip, ports[1..])
  }

  function AcceptRules(ip: string, ports: seq<PortMapping>): seq<Rule> {
    if ports == [] then [] else [AcceptRule(ip, ports[0])] + AcceptRules(ip, ports[1..])
  }

  /** Deletes the first occurrence of each rule of a list, one after the other. */
  function RemoveEach(rs: seq<Rule>, dead: seq<Rule>): seq<Rule>
    decreases |dead|
  {
    if dead == [] then rs else RemoveEach(RemoveFirst(rs, dead[0]), dead[1..])
  }

  /** With no rule refused, both chains grow by the rules of all mappings in order; nothing else changes. */
  lemma {:induction false} ForwardAdds(ip: string, ports: seq<PortMapping>, h: HostState, t: nat, faults: nat -> bool)
    requires Complete(ForwardProg(ip, ports), h, t, faults)
    ensures Run(ForwardProg(ip, ports), h, t, faults).status == Ok
    ensures Run(ForwardProg(ip, ports), h, t, faults).host ==
            h.(prerouting := h.prerouting + DnatRules(ip, ports), forward := h.forward + AcceptRules(ip, ports))
    decreases |ports|
  {
    if ports != [] {
      var h1 := h.(prerouting := h.prerouting + [DnatRule(ip, ports[0])]);
      var h2 := h1.(forward := h.forward + [AcceptRule(ip, ports[0])]);
      ForwardAdds(ip, ports[1..], h2, t + 2, faults);
      assert h2.prerouting + DnatRules(ip, ports[1..]) == h.prerouting + DnatRules(ip, ports);
      assert h2.forward + AcceptRules(ip, ports[1..]) == h.forward + AcceptRules(ip, ports);
    }
  }

  lemma RemoveOne(ip: string, ports: seq<PortMapping>, h: HostState, t: nat, faults: nat -> bool)
    requires ports != []
    ensures Run(RemoveProg(ip, ports), h, t, faults) ==
            Run(RemoveProg(ip, ports[1..]),
                h.(prerouting := RemoveFirst(h.prerouting, DnatRule(ip, ports[0])),
                   forward := RemoveFirst(h.forward, AcceptRule(ip, ports[0]))), t + 2, faults)
  {
    var d, a := DnatRule(ip, ports[0]), AcceptRule(ip, ports[0]);
    if d !in h.prerouting { RemoveFirstAbsent(h.prerouting, d); }
    if a !in h.forward { RemoveFirstAbsent(h.forward, a); }
  }

  /** Removal deletes the first occurrence of each mapping's rules, in the order of the list, whatever else fails. */
  lemma {:induction false} RemoveTakes(ip: string, ports: seq<PortMapping>, h: HostState, t: nat, faults: nat -> bool)
    ensures Run(RemoveProg(ip, ports), h, t, faults).status == Ok
    ensures Run(RemoveProg(ip, ports), h, t, faults).host ==
            h.(prerouting := RemoveEach(h.prerouting, DnatRules(ip, ports)),
                forward := RemoveEach(h.forward, AcceptRules(ip, ports)))
    decreases |ports|
  {
    if ports != [] {
      RemoveOne(ip, ports, h, t, faults);
      RemoveTakes(ip, ports[1..],
                  h.(prerouting := RemoveFirst(h.prerouting, DnatRule(ip, ports[0])),
                     forward := RemoveFirst(h.forward, AcceptRule(ip, ports[0]))), t + 2, faults);
    }
  }

  lemma {:induction false} RemoveEachMultiset(rs: seq<Rule>, dead: seq<Rule>)
    ensures multiset(RemoveEach(rs, dead)) == multiset(rs) - multiset(dead)
    decreases |dead|
  {
    if dead != [] {
      RemoveFirstMultiset(rs, dead[0]);
      RemoveEachMultiset(RemoveFirst(rs, dead[0]), dead[1..]);
      assert dead == [dead[0]] + dead[1..];
    }
  }

  /** A block of rules between others that share no rule with it before it is taken out whole. */
  lemma {:induction false} RemoveBlock(a: seq<Rule>, dead: seq<Rule>, b: seq<Rule>)
    requires forall r :: r in dead ==> r !in a
    ensures RemoveEach(a + dead + b, dead) == a + b
    decreases |dead|
  {
    hide RemoveFirst;
    if dead == [] {
      assert a + dead + b == a + b;
    } else {
      var x, rest := dead[0], dead[1..];
      assert x in dead;
      assert a + dead + b == a + ([x] + (rest + b));
      RemoveFirstPast(a, [x] + (rest + b), x);
      RemoveHead(x, rest + b);
      assert a + (rest + b) == a + rest + b;
      RemoveBlock(a, rest, b);
    }
  }

  lemma RemoveHead(x: Rule, rest: seq<Rule>)
    ensures RemoveFirst([x] + rest, x) == rest
  {
    assert ([x] + rest)[1..] == rest;
  }

  /**
   Forwarding a list of ports and removing it again, with no rule refused, preserves both chains as
   multisets from any start, and as sequences when none of the rules were there before.
   */
  lemma ForwardThenRemove(ip: string, ports: seq<PortMapping>, h: HostState, t: nat, faults: nat -> bool)
    requires Complete(ForwardProg(ip, ports), h, t, faults)
    ensures var up := Run(ForwardProg(ip, ports), h, t, faults);
            var down := Run(RemoveProg(ip, ports), up.host, up.clock, faults).host;
            && multiset(down.prerouting) == multiset(h.prerouting) && multiset(down.forward) == multiset(h.forward)
            && ((forall r :: r in DnatRules(ip, ports) ==> r !in h.prerouting) ==> down.prerouting == h.prerouting)
            && ((forall r :: r in AcceptRules(ip, ports) ==> r !in h.forward) ==> down.forward == h.forward)
            && down == h.(prerouting := down.prerouting, forward := down.forward)
  {
    hide Run, Complete, ForwardProg, RemoveProg, DnatRules, AcceptRules, RemoveEach;
    var d, a := DnatRules(ip, ports), AcceptRules(ip, ports);
    var up := Run(ForwardProg(ip, ports), h, t, faults);
    ForwardAdds(ip, ports, h, t, faults);
    RemoveTakes(ip, ports, up.host, up.clock, faults);
    BackAgain(h.prerouting, d);
    BackAgain(h.forward, a);
  }

  lemma BackAgain(rs: seq<Rule>, added: seq<Rule>)
    ensures multiset(RemoveEach(rs + added, added)) == multiset(rs)
    ensures (forall r :: r in added ==> r !in rs) ==> RemoveEach(rs + added, added) == rs
  {
    RemoveEachMultiset(rs + added, added);
    if forall r :: r in added ==> r !in rs {
      RemoveBlock(rs, added, []);
      assert rs + added + [] == rs + added;
      assert rs + [] == rs;
    }
  }

  predicate AllAre(rs: seq<Rule>, r: Rule) {
    forall j | 0 <= j < |rs| :: rs[j] == r
  }

  /** From the first copy of `r` on there is nothing but copies of `r`. */
  predicate OnlyCopiesFollow(rs: seq<Rule>, r: Rule) {
    if rs == [] then true
    else if rs[0] == r then AllAre(rs, r)
    else OnlyCopiesFollow(rs[1..], r)
  }

  lemma {:induction false} Rotated(rs: seq<Rule>, r: Rule)
    ensures rs + [r] == [r] + rs <==> AllAre(rs, r)
  {
    if rs != [] {
      Rotated(rs[1..], r);
      assert rs == [rs[0]] + rs[1..];
      if rs + [r] == [r] + rs {
        assert rs[0] == (rs + [r])[0] == r;
        assert rs[1..] + [r] == (rs + [r])[1..] == rs == [r] + rs[1..];
      }
    }
  }

  /**
   One rule added and deleted again: the chain keeps its order exactly when only copies of the rule follow its
   first copy.
   */
  lemma {:induction false} OneRuleBackAgain(rs: seq<Rule>, r: Rule)
    ensures RemoveFirst(rs + [r], r) == rs <==> OnlyCopiesFollow(rs, r)
  {
    if rs != [] {
      assert rs == [rs[0]] + rs[1..];
      assert (rs + [r])[1..] == rs[1..] + [r];
      if rs[0] == r {
        Rotated(rs[1..], r);
        assert AllAre(rs, r) <==> AllAre(rs[1..], r);
      } else {
        OneRuleBackAgain(rs[1..], r);
        assert RemoveFirst(rs + [r], r) == [rs[0]] + RemoveFirst(rs[1..] + [r], r);
      }
    }
  }

  /** The earliest mapping of a list that publishes the pair. */
  function FirstMapping(ports: seq<PortMapping>, proto: string, port: int): Option<PortMapping> {
    if ports == [] then None
    else if ports[0].protocol == proto && ports[0].hostPort == port then Some(ports[0])
    else FirstMapping(ports[1..], proto, port)
  }

  lemma {:induction false} FirstMappingIsMatch(ip: string, ports: seq<PortMapping>, proto: string, port: int)
    ensures FirstMatch(DnatRules(ip, ports), proto, port) ==
            match FirstMapping(ports, proto, port) case None => None case Some(m) => Some(DnatRule(ip, m))
  {
    if ports != [] {
      FirstMappingIsMatch(ip, ports[1..], proto, port);
      assert DnatRules(ip, ports)[1..] == DnatRules(ip, ports[1..]);
    }
  }
}
