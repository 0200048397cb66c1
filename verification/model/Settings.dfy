/**
 What the network operations settle and issue, spelled out: names and addresses
 of a container's plan in terms of its configuration, and the commands of each
 operation, in order, when every command works.
 */
module Settings {
  import opened Wrappers
  import opened CStrings
  import opened Ipv4
  import opened HostNet
  import opened Network

  /** The host end's name is `veth` and the first eight characters of the id. */
  lemma VethNameIs(id: string)
    ensures VethName(id) == "veth" + (if |id| <= 8 then id else id[..8])
    ensures VethName(id) != "eth0"
  {
    assert VethName(id)[0] == 'v' && "eth0"[0] == 'e';
  }

  /** Two containers have the same name for it exactly when their ids agree in the first eight characters. */
  lemma VethNamesAgree(a: string, b: string)
    ensures VethName(a) == VethName(b) <==> Take(a, 8) == Take(b, 8)
  {
    assert VethName(a)[4..] == Take(a, 8) && VethName(b)[4..] == Take(b, 8);
  }

  /** What is given is kept. */
  lemma GivenIsKept(c: Container, draw: nat, junk: Junk)
    ensures var pl := c.PlanFor(draw, junk);
            && pl.veth == "veth" + Take(c.id, 8) && pl.bridge == c.bridgeName && pl.subnet == c.subnet
            && pl.pid == c.initPid && pl.ports == c.ports && pl.given == Before(c.ipAddress, '/')
            && (c.ipAddress != "" ==> pl.cidr == Some(c.ipAddress) && pl.Ip() == pl.given)
            && (c.gateway != "" ==> pl.gateway == c.gateway)
  {
    hide AllocText, GatewayText, Before;
  }

  /** What is not given comes from the subnet: the address drawn in it, and its first address as the gateway. */
  lemma MissingIsSettled(c: Container, draw: nat, junk: Junk)
    requires '/' in c.subnet && Pton(Before(c.subnet, '/')).Some?
    ensures var pl, base, suffix := c.PlanFor(draw, junk), Pton(Before(c.subnet, '/')).value, After(c.subnet, '/');
            var first := Ntop((base + 1) % 0x1_0000_0000);
            && pl.bridgeCidr == Some(first + "/" + suffix)
            && (c.gateway == "" ==> pl.gateway == first)
            && (c.ipAddress == "" ==>
                  && pl.cidr.Some? && Pton(pl.Ip()) == Some((base + (draw % 253 + 2)) % 0x1_0000_0000))
  {
    hide AllocText, GatewayText, BridgeCidr, Before, Pton, Ntop;
    FirstAddressText(c.subnet, junk.bridge);
    FirstAddressText(c.subnet, junk.gateway);
    AllocatedText(c.subnet, draw, junk.alloc);
    NtopText((Pton(Before(c.subnet, '/')).value + 1) % TWO32);
  }

  /** Without a slash in the subnet nothing can be settled. */
  lemma NothingToSettle(c: Container, draw: nat, junk: Junk)
    requires '/' !in c.subnet
    ensures var pl := c.PlanFor(draw, junk);
            && pl.bridgeCidr == None && pl.gateway == c.gateway
            && (c.ipAddress == "" ==> pl.cidr == None)
  {
    hide Pton, Ntop;
  }

  /* ---- Commands ---- */

  /** The commands of a program when every one of them works. */
  function Commands(p: Prog): seq<Cmd> {
    match p
    case Done(_) => []
    case Do(c, yes, _) => [c] + Commands(yes)
  }

  /** No command of this run fails. */
  predicate AllWork(p: Prog, h: HostState, t: nat, faults: nat -> bool) {
    match p
    case Done(_) => true
    case Do(c, yes, _) =>
      var o := Apply(c, h, faults(t));
      o.ok && AllWork(yes, o.host, t + 1, faults)
  }

  /** The effect of commands that all work, one after the other. */
  function Played(cmds: seq<Cmd>, h: HostState): HostState {
    if cmds == [] then h else Played(cmds[1..], Apply(cmds[0], h, false).host)
  }

  lemma WorksWithoutFault(c: Cmd, h: HostState, fault: bool)
    requires Apply(c, h, fault).ok
    ensures Apply(c, h, fault) == Apply(c, h, false)
  {
    hide LinkEffect;
  }

  /** A run in which every command works does what its list of commands does, and takes one moment for each. */
  lemma {:induction false} RunPlaysCommands(p: Prog, h: HostState, t: nat, faults: nat -> bool)
    requires AllWork(p, h, t, faults)
    ensures Run(p, h, t, faults).host == Played(Commands(p), h)
    ensures Run(p, h, t, faults).clock == t + |Commands(p)|
  {
    hide Apply;
    if p.Do? {
      var o := Apply(p.cmd, h, faults(t));
      WorksWithoutFault(p.cmd, h, faults(t));
      RunPlaysCommands(p.yes, o.host, t + 1, faults);
      assert ([p.cmd] + Commands(p.yes))[1..] == Commands(p.yes);
    }
  }

  lemma EndsNone()
    ensures Ends(Done(Ok))
  {
  }

  lemma CommandsNone(s: Status)
    ensures Commands(Done(s)) == []
  {
  }

  lemma {:induction false} CommandsThen(p: Prog, q: Prog)
    requires Ends(p)
    ensures Commands(Then(p, q)) == Commands(p) + Commands(q)
  {
    if p.Done? {
      assert [] + Commands(q) == Commands(q);
    } else {
      CommandsThen(p.yes, q);
      assert [p.cmd] + (Commands(p.yes) + Commands(q)) == [p.cmd] + Commands(p.yes) + Commands(q);
    }
  }

  /** The program ends well when every command works. */
  predicate Ends(p: Prog) {
    match p
    case Done(s) => s == Ok
    case Do(_, yes, _) => Ends(yes)
  }

  /** A bridge that is not there, for a subnet with a slash. */
  lemma BridgeCommands(bridge: string, subnet: string, cidr: string)
    ensures var p := BridgeProg(bridge, subnet, Some(cidr));
            && p.Do? && p.cmd == LinkShow(bridge) && p.yes == Done(Ok)
            && Commands(p.no) ==
               [AddBridge(bridge), AddrAdd(bridge, cidr), LinkUp(bridge), EnableForwarding,
                Append(Postrouting, Masquerade(subnet, bridge)),
                Append(Forward, AcceptBridge(bridge)), Append(Forward, AcceptReturn(bridge))]
  {
    var c3, c2, c1 := Append(Forward, AcceptReturn(bridge)), Append(Forward, AcceptBridge(bridge)),
                      Append(Postrouting, Masquerade(subnet, bridge));
    assert Commands(Try(c3, Done(Ok))) == [c3];
    assert Commands(Try(c2, Try(c3, Done(Ok)))) == [c2, c3];
    assert Commands(Try(c1, Try(c2, Try(c3, Done(Ok))))) == [c1, c2, c3];
    assert Commands(BridgeRules(bridge, subnet)) == [EnableForwarding, c1, c2, c3];
    var k := BridgeRules(bridge, subnet);
    assert Commands(Need(LinkUp(bridge), k)) == [LinkUp(bridge)] + Commands(k);
    assert Commands(Need(AddrAdd(bridge, cidr), Need(LinkUp(bridge), k))) ==
        [AddrAdd(bridge, cidr), LinkUp(bridge)] + Commands(k);
  }

  /** Without a slash in the subnet the bridge is made first, and stays, without an address. */
  lemma BridgeWithoutSlash(bridge: string, subnet: string, h: HostState, t: nat, faults: nat -> bool)
    requires Dev(Root, bridge) !in h.links && !faults(t + 1)
    ensures Run(BridgeProg(bridge, subnet, None), h, t, faults) ==
            Result(h.(links := h.links[Dev(Root, bridge) := BridgeLink([], false)]), t + 2, Einval)
  {
    var p := BridgeProg(bridge, subnet, None);
    assert !Apply(LinkShow(bridge), h, faults(t)).ok;
    assert Apply(AddBridge(bridge), h, faults(t + 1)).ok;
    assert Run(p.no, h, t + 1, faults) == Run(p.no.yes, Apply(AddBridge(bridge), h, faults(t + 1)).host, t + 2, faults);
  }

  /** A bridge that is there is taken as it is: no address, no rule, whatever an earlier step left undone. */
  lemma BridgeTakenAsIs(bridge: string, subnet: string, cidr: Option<string>, h: HostState, t: nat, faults: nat -> bool)
    requires Dev(Root, bridge) in h.links && !faults(t)
    ensures Run(BridgeProg(bridge, subnet, cidr), h, t, faults) == Result(h, t + 1, Ok)
  {
    assert h.(links := h.links) == h;
    assert Apply(LinkShow(bridge), h, faults(t)) == Outcome(h, true);
  }

  /**
   So after a bridge step that failed once the bridge itself was made, the next one ends well and completes
   nothing.
   */
  lemma HalfMadeBridgePasses(bridge: string, subnet: string, cidr: Option<string>, h: HostState, t: nat,
                             faults: nat -> bool, u: nat, later: nat -> bool)
    requires Dev(Root, bridge) !in h.links && !faults(t + 1) && !later(u)
    requires Run(BridgeProg(bridge, subnet, cidr), h, t, faults).status != Ok
    ensures var left := Run(BridgeProg(bridge, subnet, cidr), h, t, faults).host;
            && Dev(Root, bridge) in left.links && left == h.(links := left.links)
            && Run(BridgeProg(bridge, subnet, cidr), left, u, later) == Result(left, u + 1, Ok)
  {
    var left := Run(BridgeProg(bridge, subnet, cidr), h, t, faults).host;
    match cidr {
      case None =>
        BridgeWithoutSlash(bridge, subnet, h, t, faults);
      case Some(a) =>
        HalfMade(bridge, subnet, a, h, t, faults);
    }
    BridgeTakenAsIs(bridge, subnet, cidr, left, u, later);
  }

  lemma HalfMade(bridge: string, subnet: string, cidr: string, h: HostState, t: nat, faults: nat -> bool)
    requires Dev(Root, bridge) !in h.links && !faults(t + 1)
    requires Run(BridgeProg(bridge, subnet, Some(cidr)), h, t, faults).status != Ok
    ensures var left := Run(BridgeProg(bridge, subnet, Some(cidr)), h, t, faults).host;
            Dev(Root, bridge) in left.links && left == h.(links := left.links)
  {
    hide BridgeRules;
    var p := BridgeProg(bridge, subnet, Some(cidr));
    var b := Dev(Root, bridge);
    assert !Apply(LinkShow(bridge), h, faults(t)).ok;
    var h1 := Apply(AddBridge(bridge), h, faults(t + 1)).host;
    assert h1.links[b] == BridgeLink([], false);
    assert Run(p, h, t, faults) == Run(p.no.yes, h1, t + 2, faults);
    var o2 := Apply(AddrAdd(bridge, cidr), h1, faults(t + 2));
    assert b in o2.host.links && o2.host == h.(links := o2.host.links);
    var q := p.no.yes.yes;
    assert Run(p.no.yes, h1, t + 2, faults) ==
           if o2.ok then Run(q, o2.host, t + 3, faults) else Result(o2.host, t + 3, Error);
    if o2.ok {
      var o3 := Apply(LinkUp(bridge), o2.host, faults(t + 3));
      assert b in o3.host.links && o3.host == h.(links := o3.host.links);
      assert Run(q, o2.host, t + 3, faults) ==
             if o3.ok then Run(BridgeRules(bridge, subnet), o3.host, t + 4, faults) else Result(o3.host, t + 4, Error);
      RulesEndWell(bridge, subnet, o3.host, t + 4, faults);
    }
  }

  lemma RulesEndWell(bridge: string, subnet: string, h: HostState, t: nat, faults: nat -> bool)
    ensures Run(BridgeRules(bridge, subnet), h, t, faults).status == Ok
  {
    hide Apply;
    var c1, c2, c3 := Append(Postrouting, Masquerade(subnet, bridge)), Append(Forward, AcceptBridge(bridge)),
                      Append(Forward, AcceptReturn(bridge));
    var p3 := Try(c3, Done(Ok));
    var p2 := Try(c2, p3);
    forall h, t ensures Run(p3, h, t, faults).status == Ok {
    }
    forall h, t ensures Run(p2, h, t, faults).status == Ok {
    }
    forall h, t ensures Run(Try(c1, p2), h, t, faults).status == Ok {
    }
  }

  lemma VethCommands(veth: string, bridge: string, cidr: string, gateway: string, pid: int)
    ensures Commands(VethProg(veth, bridge, cidr, gateway, pid)) ==
            [AddVeth(veth, "eth0"), SetMaster(veth, bridge), LinkUp(veth), SetNetns("eth0", pid)]
            + [NsAddrAdd(pid, cidr, "eth0"), NsLinkUp(pid, "eth0"), NsRoute(pid, gateway, "eth0"), NsLoopbackUp(pid)]
    ensures Ends(VethProg(veth, bridge, cidr, gateway, pid))
  {
    var k := NamespaceProg(cidr, gateway, pid);
    NamespaceCommands(cidr, gateway, pid);
    hide NamespaceProg;
    assert Ends(Need(LinkUp(veth), Need(SetNetns(ETH0, pid), k)));
    assert Commands(Need(SetNetns(ETH0, pid), k)) == [SetNetns("eth0", pid)] + Commands(k);
    assert Commands(Need(LinkUp(veth), Need(SetNetns(ETH0, pid), k))) ==
        [LinkUp(veth), SetNetns("eth0", pid)] + Commands(k);
    assert Commands(Need(SetMaster(veth, bridge), Need(LinkUp(veth), Need(SetNetns(ETH0, pid), k)))) ==
           [SetMaster(veth, bridge), LinkUp(veth), SetNetns("eth0", pid)] + Commands(k);
  }

  lemma NamespaceCommands(cidr: string, gateway: string, pid: int)
    ensures Commands(NamespaceProg(cidr, gateway, pid)) ==
            [NsAddrAdd(pid, cidr, "eth0"), NsLinkUp(pid, "eth0"), NsRoute(pid, gateway, "eth0"), NsLoopbackUp(pid)]
    ensures Ends(NamespaceProg(cidr, gateway, pid))
  {
    var k := Try(NsLoopbackUp(pid), Done(Ok));
    assert Commands(k) == [NsLoopbackUp(pid)] && Ends(k);
    assert Ends(Need(NsLinkUp(pid, ETH0), Need(NsRoute(pid, gateway, ETH0), k)));
    assert Commands(Need(NsRoute(pid, gateway, ETH0), k)) == [NsRoute(pid, gateway, "eth0"), NsLoopbackUp(pid)];
    assert Commands(Need(NsLinkUp(pid, ETH0), Need(NsRoute(pid, gateway, ETH0), k))) ==
           [NsLinkUp(pid, "eth0"), NsRoute(pid, gateway, "eth0"), NsLoopbackUp(pid)];
  }

  lemma ForwardStep(ip: string, ports: seq<PortMapping>)
    ensures ports == [] ==> ForwardProg(ip, ports) == Done(Ok)
    ensures ports != [] ==>
              var m, rest := ports[0], ForwardProg(ip, ports[1..]);
              && Commands(ForwardProg(ip, ports)) ==
                 [Append(Prerouting, Dnat(m.protocol, m.hostPort, ip, m.containerPort)),
                  Append(Forward, AcceptTo(m.protocol, ip, m.containerPort))] + Commands(rest)
              && (Ends(rest) ==> Ends(ForwardProg(ip, ports)))
  {
    if ports != [] {
      var k := ForwardProg(ip, ports[1..]);
      var a := Append(Forward, AcceptRule(ip, ports[0]));
      assert Commands(Try(a, k)) == [a] + Commands(k) && (Ends(k) ==> Ends(Try(a, k)));
    }
  }

  /** Each mapping in turn: its DNAT rule, then its accept rule. */
  lemma {:induction false} ForwardCommands(ip: string, ports: seq<PortMapping>)
    ensures var cs := Commands(ForwardProg(ip, ports));
            && |cs| == 2 * |ports|
            && forall k | 0 <= k < |ports| ::
                 var m := ports[k];
                 && cs[2 * k] == Append(Prerouting, Dnat(m.protocol, m.hostPort, ip, m.containerPort))
                 && cs[2 * k + 1] == Append(Forward, AcceptTo(m.protocol, ip, m.containerPort))
    decreases |ports|
  {
    hide ForwardProg, Commands, Ends;
    ForwardStep(ip, ports);
    if ports == [] {
      CommandsNone(Ok);
      EndsNone();
    } else {
      ForwardCommands(ip, ports[1..]);
      var cs, rest := Commands(ForwardProg(ip, ports)), Commands(ForwardProg(ip, ports[1..]));
      forall k | 1 <= k < |ports|
        ensures cs[2 * k] == rest[2 * (k - 1)] && cs[2 * k + 1] == rest[2 * (k - 1) + 1]
                && ports[k] == ports[1..][k - 1]
      {
      }
    }
  }

  /**
   A refused DNAT rule skips its accept rule and goes on with the next mapping; a refused accept rule only
   misses itself.
   */
  lemma RefusedRules(ip: string, ports: seq<PortMapping>, h: HostState, t: nat, faults: nat -> bool)
    requires ports != []
    ensures var m, r := ports[0], Run(ForwardProg(ip, ports), h, t, faults);
            var dnat, accept := Dnat(m.protocol, m.hostPort, ip, m.containerPort),
                AcceptTo(m.protocol, ip, m.containerPort);
            var h1 := h.(prerouting := h.prerouting + [dnat]);
            r == if faults(t) then Run(ForwardProg(ip, ports[1..]), h, t + 1, faults)
                 else Run(ForwardProg(ip, ports[1..]),
                          if faults(t + 1) then h1 else h1.(forward := h.forward + [accept]), t + 2, faults)
  {
    hide LinkEffect;
    var k := ForwardProg(ip, ports[1..]);
    var second := Try(Append(Forward, AcceptRule(ip, ports[0])), k);
    assert ForwardProg(ip, ports) == Do(Append(Prerouting, DnatRule(ip, ports[0])), second, k);
  }

  lemma RemoveStep(ip: string, ports: seq<PortMapping>)
    ensures ports == [] ==> RemoveProg(ip, ports) == Done(Ok)
    ensures ports != [] ==>
              var m, rest := ports[0], RemoveProg(ip, ports[1..]);
              && Commands(RemoveProg(ip, ports)) ==
                 [Delete(Prerouting, Dnat(m.protocol, m.hostPort, ip, m.containerPort)),
                  Delete(Forward, AcceptTo(m.protocol, ip, m.containerPort))] + Commands(rest)
              && (Ends(rest) ==> Ends(RemoveProg(ip, ports)))
  {
    if ports != [] {
      var k := RemoveProg(ip, ports[1..]);
      var a := Delete(Forward, AcceptRule(ip, ports[0]));
      assert Commands(Try(a, k)) == [a] + Commands(k) && (Ends(k) ==> Ends(Try(a, k)));
    }
  }

  /** Each mapping in turn: both rules are deleted. */
  lemma {:induction false} RemoveCommands(ip: string, ports: seq<PortMapping>)
    ensures var cs := Commands(RemoveProg(ip, ports));
            && |cs| == 2 * |ports| && Ends(RemoveProg(ip, ports))
            && forall k | 0 <= k < |ports| ::
                 var m := ports[k];
                 && cs[2 * k] == Delete(Prerouting, Dnat(m.protocol, m.hostPort, ip, m.containerPort))
                 && cs[2 * k + 1] == Delete(Forward, AcceptTo(m.protocol, ip, m.containerPort))
    decreases |ports|
  {
    hide RemoveProg, Commands, Ends;
    RemoveStep(ip, ports);
    if ports == [] {
      CommandsNone(Ok);
      EndsNone();
    } else {
      RemoveCommands(ip, ports[1..]);
      var cs, rest := Commands(RemoveProg(ip, ports)), Commands(RemoveProg(ip, ports[1..]));
      forall k | 1 <= k < |ports|
        ensures cs[2 * k] == rest[2 * (k - 1)] && cs[2 * k + 1] == rest[2 * (k - 1) + 1]
                && ports[k] == ports[1..][k - 1]
      {
      }
    }
  }

  /** Cleanup deletes the rules of every mapping and then the host end of the pair. */
  lemma CleanupCommands(veth: string, ip: string, ports: seq<PortMapping>)
    ensures Commands(CleanupProg(veth, ip, ports)) == Commands(RemoveProg(ip, ports)) + [LinkDelete(veth)]
  {
    RemoveCommands(ip, ports);
    CommandsThen(RemoveProg(ip, ports), Try(LinkDelete(veth), Done(Ok)));
    assert Commands(Try(LinkDelete(veth), Done(Ok))) == [LinkDelete(veth)];
  }

  /** Connecting a container to its bridge: the pair, and then the rules of its ports. */
  lemma ConnectCommands(pl: Plan)
    requires pl.cidr.Some?
    ensures Commands(ConnectProg(pl)) ==
            Commands(VethProg(pl.veth, pl.bridge, pl.cidr.value, pl.gateway, pl.pid))
                + Commands(ForwardProg(pl.Ip(), pl.ports))
  {
    hide VethProg, ForwardProg, Plan.Ip;
    VethCommands(pl.veth, pl.bridge, pl.cidr.value, pl.gateway, pl.pid);
    CommandsThen(VethProg(pl.veth, pl.bridge, pl.cidr.value, pl.gateway, pl.pid), ForwardProg(pl.Ip(), pl.ports));
  }

  /** A bridge step that makes the bridge and in which every command works turns forwarding on. */
  lemma ForwardingOn(bridge: string, subnet: string, cidr: string, h: HostState, t: nat, faults: nat -> bool)
    requires AllWork(BridgeProg(bridge, subnet, Some(cidr)).no, h, t, faults)
    ensures Run(BridgeProg(bridge, subnet, Some(cidr)).no, h, t, faults).host.forwarding
  {
    hide LinkEffect;
    BridgeCommands(bridge, subnet, cidr);
    var p := BridgeProg(bridge, subnet, Some(cidr)).no;
    RunPlaysCommands(p, h, t, faults);
    var cs := Commands(p);
    var h3 := Played(cs[..3], h);
    PlayedJoin(cs[..3], cs[3..], h);
    assert cs[..3] + cs[3..] == cs;
    assert cs[3..][0] == EnableForwarding;
    assert cs[3..][1..] == cs[4..];
    StaysOn(cs[4..], Apply(EnableForwarding, h3, false).host);
  }

  lemma {:induction false} PlayedJoin(a: seq<Cmd>, b: seq<Cmd>, h: HostState)
    ensures Played(a + b, h) == Played(b, Played(a, h))
  {
    hide Apply;
    if a == [] {
      assert a + b == b;
    } else {
      PlayedJoin(a[1..], b, Apply(a[0], h, false).host);
      assert (a + b)[1..] == a[1..] + b;
    }
  }

  lemma {:induction false} StaysOn(cmds: seq<Cmd>, h: HostState)
    requires h.forwarding
    ensures Played(cmds, h).forwarding
  {
    hide LinkEffect;
    if cmds != [] {
      StaysOn(cmds[1..], Apply(cmds[0], h, false).host);
    }
  }
}
