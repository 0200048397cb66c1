/**
 A container's own part of the shared host is its `View`. `Sound` runs a program
 against the view alone, over every outcome of every command; module Sharing
 carries that over to the host that many containers work on at once.
 */
module Views {
  import opened Wrappers
  import opened HostNet
  import opened Network
  import opened Ledger

  /** The veth pair of a container: absent, both ends on the host, or the far end in the container. */
  datatype Pair = NoPair | InHost | Wired

  /** Its ledger entries in order, its pair, whether it made its bridge, and the bridge rules it may still add. */
  datatype View = View(own: seq<Entry>, pair: Pair, won: bool, budget: multiset<Entry>)

  predicate IsPortRule(r: Rule) {
    r.Dnat? || r.AcceptTo?
  }

  function RuleIp(r: Rule): string
    requires IsPortRule(r)
  {
    match r
    case Dnat(_, _, ip, _) => ip
    case AcceptTo(_, ip, _) => ip
  }

  function EntryFor(ch: Chain, r: Rule, pl: Plan, i: nat): Entry {
    Entry(if IsPortRule(r) then OfContainer(i) else OfBridge(pl.bridge), ch, r)
  }

  /** The entries of a container whose rules were all added, in order of issue. */
  function PortEntries(i: nat, ip: string, ports: seq<PortMapping>): seq<Entry> {
    if ports == [] then []
    else
      [Entry(OfContainer(i), Prerouting, DnatRule(ip, ports[0])),
          Entry(OfContainer(i), Forward, AcceptRule(ip, ports[0]))]
      + PortEntries(i, ip, ports[1..])
  }

  /** A rule that the container adds for its ports, under the address it was given or the one it has. */
  predicate OwnRule(pl: Plan, i: nat, ch: Chain, r: Rule) {
    var e := Entry(OfContainer(i), ch, r);
    e in PortEntries(i, pl.Ip(), pl.ports) || e in PortEntries(i, pl.given, pl.ports)
  }

  function BridgeEntries(bridge: string, subnet: string): seq<Entry> {
    [Entry(OfBridge(bridge), Postrouting, Masquerade(subnet, bridge)),
     Entry(OfBridge(bridge), Forward, AcceptBridge(bridge)),
     Entry(OfBridge(bridge), Forward, AcceptReturn(bridge))]
  }

  /** The commands a container may issue in a view: each touches only what is its own. */
  predicate May(c: Cmd, pl: Plan, i: nat, v: View) {
    match c
    case LinkShow(_) => true
    case NsLoopbackUp(_) => true
    case AddBridge(b) => b == pl.bridge
    case AddrAdd(b, _) => b == pl.bridge && v.won
    case EnableForwarding => v.won
    case LinkUp(n) => (n == pl.bridge && v.won) || (n == pl.veth && v.pair != NoPair)
    case Append(ch, r) =>
      var e := EntryFor(ch, r, pl, i);
      if IsPortRule(r) then pl.cidr.Some? && e in PortEntries(i, pl.Ip(), pl.ports) else v.won && e in v.budget
    case Delete(ch, r) => IsPortRule(r) && RuleIp(r) in {pl.Ip(), pl.given} && OwnRule(pl, i, ch, r)
    case AddVeth(n, m) => n == pl.veth && m == ETH0 && v.pair == NoPair
    case SetMaster(n, _) => n == pl.veth && v.pair != NoPair
    case SetNetns(n, p) => n == ETH0 && p == pl.pid && v.pair == InHost
    case NsAddrAdd(p, _, n) => n == ETH0 && p == pl.pid && v.pair == Wired
    case NsLinkUp(p, n) => n == ETH0 && p == pl.pid && v.pair == Wired
    case NsRoute(p, _, n) => n == ETH0 && p == pl.pid && v.pair == Wired
    case LinkDelete(n) => n == pl.veth
  }

  /** The view after a command that worked. */
  function After(c: Cmd, pl: Plan, i: nat, v: View): View {
    match c
    case Append(ch, r) =>
      if IsPortRule(r) then v.(own := v.own + [EntryFor(ch, r, pl, i)])
      else v.(budget := v.budget - multiset{EntryFor(ch, r, pl, i)})
    case Delete(ch, r) => v.(own := RemoveFirst(v.own, EntryFor(ch, r, pl, i)))
    case AddBridge(_) => v.(won := true, budget := multiset(BridgeEntries(pl.bridge, pl.subnet)))
    case AddVeth(_, _) => v.(pair := InHost)
    case SetNetns(_, _) => v.(pair := Wired)
    case LinkDelete(_) => v.(pair := NoPair)
    case _ => v
  }

  /** Can the command end this way? Only deletions have an outcome that the view decides. */
  predicate Possible(c: Cmd, ok: bool, pl: Plan, i: nat, v: View) {
    match c
    case Delete(ch, r) => ok == (EntryFor(ch, r, pl, i) in v.own)
    case LinkDelete(_) => ok == (v.pair != NoPair)
    case _ => true
  }

  datatype Goal = BridgeGoal | ConnectGoal | CleanGoal

  /** What has to hold when a program of each kind ends. */
  predicate Reached(g: Goal, status: Status, pl: Plan, i: nat, v: View, missed: bool) {
    match g
    case BridgeGoal => v.own == [] && v.pair == NoPair
    case ConnectGoal =>
      && multiset(v.own) <= multiset(PortEntries(i, pl.Ip(), pl.ports))
      && (status == Ok ==> v.pair == Wired && (!missed ==> v.own == PortEntries(i, pl.Ip(), pl.ports)))
    case CleanGoal => v.own == [] && v.pair == NoPair
  }

  /** Which commands a program of each kind issues. */
  predicate Fits(c: Cmd, g: Goal) {
    match c
    case AddBridge(_) => g == BridgeGoal
    case EnableForwarding => g == BridgeGoal
    case Append(_, r) => g == if IsPortRule(r) then ConnectGoal else BridgeGoal
    case Delete(_, _) => g == CleanGoal
    case LinkDelete(_) => g == CleanGoal
    case _ => true
  }

  /** Every run of the program from this view, whatever fails, issues only its own commands and ends at the goal. */
  predicate Sound(p: Prog, pl: Plan, i: nat, v: View, missed: bool, g: Goal) {
    match p
    case Done(s) => Reached(g, s, pl, i, v, missed)
    case Do(c, yes, no) =>
      && May(c, pl, i, v) && Fits(c, g)
      && (Possible(c, true, pl, i, v) ==> Sound(yes, pl, i, After(c, pl, i, v), missed, g))
      && (Possible(c, false, pl, i, v) ==> Sound(no, pl, i, v, missed || c.Append?, g))
  }

  /** The rule for one command: it is allowed, and every outcome it can have is sound. */
  lemma DoRule(c: Cmd, yes: Prog, no: Prog, pl: Plan, i: nat, v: View, missed: bool, g: Goal)
    requires May(c, pl, i, v) && Fits(c, g)
    requires Possible(c, true, pl, i, v) ==> Sound(yes, pl, i, After(c, pl, i, v), missed, g)
    requires Possible(c, false, pl, i, v) ==> Sound(no, pl, i, v, missed || c.Append?, g)
    ensures Sound(Do(c, yes, no), pl, i, v, missed, g)
  {
  }

  lemma DoneRule(s: Status, pl: Plan, i: nat, v: View, missed: bool, g: Goal)
    requires Reached(g, s, pl, i, v, missed)
    ensures Sound(Done(s), pl, i, v, missed, g)
  {
  }

  lemma ThenDo(c: Cmd, yes: Prog, no: Prog, q: Prog)
    ensures Then(Do(c, yes, no), q) == Do(c, Then(yes, q), Then(no, q))
    ensures Then(Done(Ok), q) == q && Then(Done(Error), q) == Done(Error)
  {
  }

  lemma SoundBridge(pl: Plan, i: nat, v: View, missed: bool)
    requires v.own == [] && v.pair == NoPair
    ensures Sound(BridgeProg(pl.bridge, pl.subnet, pl.bridgeCidr), pl, i, v, missed, BridgeGoal)
  {
    hide Sound;
    var b := pl.bridge;
    var w := v.(won := true, budget := multiset(BridgeEntries(b, pl.subnet)));
    DoneRule(Ok, pl, i, v, missed, BridgeGoal);
    DoneRule(Error, pl, i, v, missed, BridgeGoal);
    DoneRule(Error, pl, i, w, missed, BridgeGoal);
    DoneRule(Einval, pl, i, w, missed, BridgeGoal);
    match pl.bridgeCidr {
      case None =>
        DoRule(AddBridge(b), Done(Einval), Done(Error), pl, i, v, missed, BridgeGoal);
        DoRule(LinkShow(b), Done(Ok), Need(AddBridge(b), Done(Einval)), pl, i, v, missed, BridgeGoal);
      case Some(a) =>
        SoundBridgeRules(pl, i, w, missed);
        var p1 := BridgeRules(b, pl.subnet);
        DoRule(LinkUp(b), p1, Done(Error), pl, i, w, missed, BridgeGoal);
        var p2 := Need(LinkUp(b), p1);
        DoRule(AddrAdd(b, a), p2, Done(Error), pl, i, w, missed, BridgeGoal);
        var p3 := Need(AddrAdd(b, a), p2);
        DoRule(AddBridge(b), p3, Done(Error), pl, i, v, missed, BridgeGoal);
        DoRule(LinkShow(b), Done(Ok), Need(AddBridge(b), p3), pl, i, v, missed, BridgeGoal);
    }
  }

  /** Each bridge rule is added at most once, whether or not the others could be added. */
  lemma SoundBridgeRules(pl: Plan, i: nat, v: View, missed: bool)
    requires v.own == [] && v.pair == NoPair && v.won && v.budget == multiset(BridgeEntries(pl.bridge, pl.subnet))
    ensures Sound(BridgeRules(pl.bridge, pl.subnet), pl, i, v, missed, BridgeGoal)
  {
    hide Sound;
    var es := BridgeEntries(pl.bridge, pl.subnet);
    var c1, c2, c3 := Append(Postrouting, es[0].rule), Append(Forward, es[1].rule), Append(Forward, es[2].rule);
    var p3 := Try(c3, Done(Ok));
    var p2 := Try(c2, p3);
    var p1 := Try(c1, p2);
    forall w: View, m: bool | w.own == [] && w.pair == NoPair && w.won && es[2] in w.budget
      ensures Sound(p3, pl, i, w, m, BridgeGoal)
    {
      DoneRule(Ok, pl, i, After(c3, pl, i, w), m, BridgeGoal);
      DoneRule(Ok, pl, i, w, true, BridgeGoal);
      DoRule(c3, Done(Ok), Done(Ok), pl, i, w, m, BridgeGoal);
    }
    forall w: View, m: bool | w.own == [] && w.pair == NoPair && w.won && es[1] in w.budget && es[2] in w.budget
      ensures Sound(p2, pl, i, w, m, BridgeGoal)
    {
      DoRule(c2, p3, p3, pl, i, w, m, BridgeGoal);
    }
    DoRule(c1, p2, p2, pl, i, v, missed, BridgeGoal);
    DoRule(EnableForwarding, p1, p1, pl, i, v, missed, BridgeGoal);
  }

  lemma {:induction false} PortEntriesAre(i: nat, ip: string, ports: seq<PortMapping>, e: Entry)
    requires e in PortEntries(i, ip, ports)
    ensures e.owner == OfContainer(i) && IsPortRule(e.rule) && RuleIp(e.rule) == ip
    ensures exists m :: m in ports && (
                && (e.chain == Prerouting ==> e.rule == DnatRule(ip, m))
                && (e.chain == Forward ==> e.rule == AcceptRule(ip, m))
                && e.chain != Postrouting)
    decreases |ports|
  {
    var es := PortEntries(i, ip, ports);
    var m := ports[0];
    if e != es[0] && e != es[1] {
      PortEntriesAre(i, ip, ports[1..], e);
      m :| m in ports[1..] && (
                && (e.chain == Prerouting ==> e.rule == DnatRule(ip, m))
                && (e.chain == Forward ==> e.rule == AcceptRule(ip, m))
                && e.chain != Postrouting);
    }
    assert m in ports;
  }

  lemma PortEntriesStep(i: nat, ip: string, ports: seq<PortMapping>)
    requires ports != []
    ensures var es, rest := PortEntries(i, ip, ports), PortEntries(i, ip, ports[1..]);
            && |es| >= 2 && es == [es[0], es[1]] + rest
            && es[0] == Entry(OfContainer(i), Prerouting, DnatRule(ip, ports[0]))
            && es[1] == Entry(OfContainer(i), Forward, AcceptRule(ip, ports[0]))
            && multiset(es) == multiset{es[0], es[1]} + multiset(rest)
  {
  }

  /** The port rules, from any point of the list on. */
  lemma {:induction false} SoundForward(pl: Plan, i: nat, ports: seq<PortMapping>, v: View, missed: bool)
    requires v.pair == Wired && pl.cidr.Some?
    requires multiset(v.own) + multiset(PortEntries(i, pl.Ip(), ports)) <= multiset(PortEntries(i, pl.Ip(), pl.ports))
    requires !missed ==> v.own + PortEntries(i, pl.Ip(), ports) == PortEntries(i, pl.Ip(), pl.ports)
    ensures Sound(ForwardProg(pl.Ip(), ports), pl, i, v, missed, ConnectGoal)
    decreases |ports|
  {
    hide Sound, Plan.Ip;
    if ports == [] {
      assert v.own + [] == v.own;
      DoneRule(Ok, pl, i, v, missed, ConnectGoal);
    } else {
      SoundForwardStep(pl, i, ports, v, missed);
    }
  }

  lemma StillToCome<T>(own: seq<T>, todo: seq<T>, whole: seq<T>, x: T)
    requires multiset(own) + multiset(todo) <= multiset(whole) && x in todo
    ensures x in whole
  {
    assert x in multiset(todo);
    assert x in multiset(whole);
  }

  lemma {:induction false} SoundForwardStep(pl: Plan, i: nat, ports: seq<PortMapping>, v: View, missed: bool)
    requires v.pair == Wired && pl.cidr.Some? && ports != []
    requires multiset(v.own) + multiset(PortEntries(i, pl.Ip(), ports)) <= multiset(PortEntries(i, pl.Ip(), pl.ports))
    requires !missed ==> v.own + PortEntries(i, pl.Ip(), ports) == PortEntries(i, pl.Ip(), pl.ports)
    ensures Sound(ForwardProg(pl.Ip(), ports), pl, i, v, missed, ConnectGoal)
    decreases |ports|, 0
  {
    hide Sound, Plan.Ip, PortEntries, Reached;
    PortEntriesStep(i, pl.Ip(), ports);
    var es, rest := PortEntries(i, pl.Ip(), ports), PortEntries(i, pl.Ip(), ports[1..]);
    var d, a := es[0], es[1];
    var v1 := v.(own := v.own + [d]);
    var v2 := v1.(own := v1.own + [a]);
    assert v2.own + rest == v.own + es;
    StillToCome(v.own, es, PortEntries(i, pl.Ip(), pl.ports), d);
    StillToCome(v.own, es, PortEntries(i, pl.Ip(), pl.ports), a);
    SoundForward(pl, i, ports[1..], v, true);
    SoundForward(pl, i, ports[1..], v1, true);
    SoundForward(pl, i, ports[1..], v2, missed);
    var k := ForwardProg(pl.Ip(), ports[1..]);
    DoRule(Append(Forward, a.rule), k, k, pl, i, v1, missed, ConnectGoal);
    DoRule(Append(Prerouting, d.rule), Try(Append(Forward, a.rule), k), k, pl, i, v, missed, ConnectGoal);
  }

  /** A command that ends the setup when it fails, in front of a sound rest. */
  lemma NeedRule(c: Cmd, p: Prog, q: Prog, pl: Plan, i: nat, v: View)
    requires May(c, pl, i, v) && Fits(c, ConnectGoal) && !c.Append? && v.own == []
    requires Possible(c, true, pl, i, v) ==> Sound(Then(p, q), pl, i, After(c, pl, i, v), false, ConnectGoal)
    ensures Sound(Then(Need(c, p), q), pl, i, v, false, ConnectGoal)
  {
    hide Sound, Plan.Ip;
    ThenDo(c, p, Done(Error), q);
    DoneRule(Error, pl, i, v, false, ConnectGoal);
    DoRule(c, Then(p, q), Done(Error), pl, i, v, false, ConnectGoal);
  }

  lemma SoundAddress(pl: Plan, i: nat, v: View, p: Prog, q: Prog)
    requires v.own == [] && v.pair == Wired && pl.cidr.Some? && Sound(Then(p, q), pl, i, v, false, ConnectGoal)
    ensures Sound(Then(Need(NsAddrAdd(pl.pid, pl.cidr.value, ETH0), Need(NsLinkUp(pl.pid, ETH0), p)), q),
                  pl, i, v, false, ConnectGoal)
  {
    hide Sound, Then, Plan.Ip;
    var p3 := Need(NsLinkUp(pl.pid, ETH0), p);
    NeedRule(p3.cmd, p, q, pl, i, v);
    NeedRule(NsAddrAdd(pl.pid, pl.cidr.value, ETH0), p3, q, pl, i, v);
  }

  lemma SoundNamespace(pl: Plan, i: nat, v: View)
    requires v.own == [] && v.pair == Wired && pl.cidr.Some?
    ensures Sound(Then(NamespaceProg(pl.cidr.value, pl.gateway, pl.pid), ForwardProg(pl.Ip(), pl.ports)), pl, i, v,
            false, ConnectGoal)
  {
    hide Sound, Then, ForwardProg, Plan.Ip, PortEntries, Reached;
    var q := ForwardProg(pl.Ip(), pl.ports);
    assert [] + PortEntries(i, pl.Ip(), pl.ports) == PortEntries(i, pl.Ip(), pl.ports);
    SoundForward(pl, i, pl.ports, v, false);
    var c1 := NsLoopbackUp(pl.pid);
    ThenDo(c1, Done(Ok), Done(Ok), q);
    DoRule(c1, q, q, pl, i, v, false, ConnectGoal);
    var p1 := Try(c1, Done(Ok));
    var p2 := Need(NsRoute(pl.pid, pl.gateway, ETH0), p1);
    NeedRule(p2.cmd, p1, q, pl, i, v);
    SoundAddress(pl, i, v, p2, q);
  }

  lemma SoundConnect(pl: Plan, i: nat, v: View)
    requires v.own == [] && v.pair == NoPair
    ensures Sound(ConnectProg(pl), pl, i, v, false, ConnectGoal)
  {
    hide Sound, Then, ForwardProg, NamespaceProg, Plan.Ip, PortEntries;
    DoneRule(Error, pl, i, v, false, ConnectGoal);
    if pl.cidr.Some? {
      var v1, v2 := v.(pair := InHost), v.(pair := Wired);
      var q := ForwardProg(pl.Ip(), pl.ports);
      SoundNamespace(pl, i, v2);
      var p4 := NamespaceProg(pl.cidr.value, pl.gateway, pl.pid);
      var p5 := Need(SetNetns(ETH0, pl.pid), p4);
      NeedRule(p5.cmd, p4, q, pl, i, v1);
      var p6 := Need(LinkUp(pl.veth), p5);
      NeedRule(p6.cmd, p5, q, pl, i, v1);
      var p7 := Need(SetMaster(pl.veth, pl.bridge), p6);
      NeedRule(p7.cmd, p6, q, pl, i, v1);
      NeedRule(AddVeth(pl.veth, ETH0), p7, q, pl, i, v);
    }
  }

  /** The deletions of one port, in front of the rest of the cleanup. */
  lemma CleanupStep(veth: string, ip: string, ports: seq<PortMapping>)
    ensures ports == [] ==> CleanupProg(veth, ip, ports) == Try(LinkDelete(veth), Done(Ok))
    ensures ports != [] ==>
              CleanupProg(veth, ip, ports) ==
              Try(Delete(Prerouting, DnatRule(ip, ports[0])),
                  Try(Delete(Forward, AcceptRule(ip, ports[0])), CleanupProg(veth, ip, ports[1..])))
  {
    if ports != [] {
      var last := Try(LinkDelete(veth), Done(Ok));
      var k := RemoveProg(ip, ports[1..]);
      var d, a := Delete(Prerouting, DnatRule(ip, ports[0])), Delete(Forward, AcceptRule(ip, ports[0]));
      ThenDo(d, Try(a, k), Try(a, k), last);
      ThenDo(a, k, k, last);
    }
  }

  /** Cleanup takes away whatever part of the container's rules is there, and the pair. */
  lemma {:induction false} SoundCleanup(pl: Plan, i: nat, ip: string, ports: seq<PortMapping>, v: View, missed: bool)
    requires ip in {pl.Ip(), pl.given}
    requires forall e :: e in PortEntries(i, ip, ports) ==> e in PortEntries(i, ip, pl.ports)
    requires multiset(v.own) <= multiset(PortEntries(i, ip, ports))
    ensures Sound(CleanupProg(pl.veth, ip, ports), pl, i, v, missed, CleanGoal)
    decreases |ports|
  {
    hide Sound, CleanupProg, Plan.Ip;
    CleanupStep(pl.veth, ip, ports);
    if ports == [] {
      assert |multiset(v.own)| == 0;
      var c := LinkDelete(pl.veth);
      DoneRule(Ok, pl, i, After(c, pl, i, v), missed, CleanGoal);
      if v.pair == NoPair { DoneRule(Ok, pl, i, v, missed, CleanGoal); }
      DoRule(c, Done(Ok), Done(Ok), pl, i, v, missed, CleanGoal);
    } else {
      SoundCleanupStep(pl, i, ip, ports, v, missed);
    }
  }

  /** Deleting by value leaves the view without the entry whether or not it was there. */
  lemma DeleteRule(ch: Chain, r: Rule, k: Prog, pl: Plan, i: nat, v: View, missed: bool)
    requires IsPortRule(r) && RuleIp(r) in {pl.Ip(), pl.given} && OwnRule(pl, i, ch, r)
    requires Sound(k, pl, i, v.(own := RemoveFirst(v.own, EntryFor(ch, r, pl, i))), missed, CleanGoal)
    ensures Sound(Try(Delete(ch, r), k), pl, i, v, missed, CleanGoal)
  {
    hide Sound, Plan.Ip, OwnRule;
    var e := EntryFor(ch, r, pl, i);
    if e !in v.own {
      RemoveFirstAbsent(v.own, e);
    }
    DoRule(Delete(ch, r), k, k, pl, i, v, missed, CleanGoal);
  }

  lemma {:induction false} SoundCleanupStep(pl: Plan, i: nat, ip: string, ports: seq<PortMapping>, v: View,
      missed: bool)
    requires ip in {pl.Ip(), pl.given} && ports != []
    requires forall e :: e in PortEntries(i, ip, ports) ==> e in PortEntries(i, ip, pl.ports)
    requires multiset(v.own) <= multiset(PortEntries(i, ip, ports))
    ensures Sound(CleanupProg(pl.veth, ip, ports), pl, i, v, missed, CleanGoal)
    decreases |ports|, 0
  {
    hide Sound, CleanupProg, Plan.Ip, PortEntries, RemoveFirst, DnatRule, AcceptRule;
    CleanupStep(pl.veth, ip, ports);
    PortEntriesStep(i, ip, ports);
    var es := PortEntries(i, ip, ports);
    var d, a := es[0], es[1];
    assert d in es && a in es;
    PortEntriesAre(i, ip, ports, d);
    PortEntriesAre(i, ip, ports, a);
    var v1 := v.(own := RemoveFirst(v.own, d));
    var v2 := v1.(own := RemoveFirst(v1.own, a));
    RemoveFirstMultiset(v.own, d);
    RemoveFirstMultiset(v1.own, a);
    SoundCleanup(pl, i, ip, ports[1..], v2, missed);
    var k := CleanupProg(pl.veth, ip, ports[1..]);
    DeleteRule(Forward, a.rule, k, pl, i, v1, missed);
    DeleteRule(Prerouting, d.rule, Try(Delete(Forward, a.rule), k), pl, i, v, missed);
  }
}
