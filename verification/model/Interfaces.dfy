/**
 What a setup that ends well leaves on the interfaces, and exactly when it ends
 well if no command fails by itself.
 */
module Interfaces {
  import opened Wrappers
  import opened CStrings
  import opened Ipv4
  import opened HostNet
  import opened Network
  import opened Faults

  /** Commands on interfaces, each of which has to work. */
  function NeedAll(cmds: seq<Cmd>, k: Prog): Prog {
    if cmds == [] then k else Need(cmds[0], NeedAll(cmds[1..], k))
  }

  predicate OnLinks(c: Cmd) {
    !c.Append? && !c.Delete? && !c.EnableForwarding? && !c.LinkDelete?
  }

  /** Their effect one after the other, if each of them can work. */
  function Effects(cmds: seq<Cmd>, links: Links): Option<Links> {
    if cmds == [] then Some(links)
    else
      match LinkEffect(cmds[0], links)
      case None => None
      case Some(l) => Effects(cmds[1..], l)
  }

  /** Without faults a list of needed commands works exactly when the effects exist; with faults it may also stop. */
  lemma {:induction false} NeedAllRuns(cmds: seq<Cmd>, k: Prog, h: HostState, t: nat, faults: nat -> bool)
    requires forall c :: c in cmds ==> OnLinks(c)
    ensures var r, e := Run(NeedAll(cmds, k), h, t, faults), Effects(cmds, h.links);
            && (r.status == Ok ==> e.Some? && r == Run(k, h.(links := e.value), t + |cmds|, faults))
            && (NoFaults(faults) && e.Some? ==> r == Run(k, h.(links := e.value), t + |cmds|, faults))
  {
    hide LinkEffect;
    if cmds == [] {
      assert h.(links := h.links) == h;
    } else {
      var c := cmds[0];
      assert OnLinks(c);
      var o := Apply(c, h, faults(t));
      if o.ok {
        NeedAllRuns(cmds[1..], k, o.host, t + 1, faults);
        assert o.host.(links := o.host.links) == o.host;
      }
    }
  }

  lemma EffectsStep(c: Cmd, cs: seq<Cmd>, links: Links)
    ensures Effects([c] + cs, links) ==
            match LinkEffect(c, links) case None => None case Some(l) => Effects(cs, l)
  {
    hide LinkEffect;
    assert ([c] + cs)[1..] == cs;
  }

  /* ---- The pair ---- */

  /** What the pair needs: a gateway, free names on both sides and in the namespace, and a bridge to join. */
  predicate PairCanJoin(veth: string, bridge: string, gateway: string, pid: int, links: Links) {
    && gateway != "" && veth != ETH0 && Dev(Root, veth) !in links && Dev(Root, ETH0) !in links
        && Dev(Pid(pid), ETH0) !in links
    && Dev(Root, bridge) in links && links[Dev(Root, bridge)].BridgeLink?
  }

  /** The interfaces once the pair is in place. */
  function JoinedLinks(veth: string, bridge: string, cidr: string, gateway: string, pid: int, links: Links): Links {
    var v, e := Dev(Root, veth), Dev(Pid(pid), ETH0);
    links[v := VethLink(e, Some(bridge), [], true, None)][e := VethLink(v, None, [cidr], true, Some(gateway))]
  }

  lemma HostEffects(veth: string, bridge: string, links: Links, k: seq<Cmd>)
    requires veth != ETH0 && Dev(Root, veth) !in links && Dev(Root, ETH0) !in links && veth != bridge && bridge != ETH0
    ensures var v, e := Dev(Root, veth), Dev(Root, ETH0);
            var b := Dev(Root, bridge);
            Effects([AddVeth(veth, ETH0)] + ([SetMaster(veth, bridge)] + ([LinkUp(veth)] + k)), links) ==
            if b in links && links[b].BridgeLink?
            then Effects(k, links[v := VethLink(e, Some(bridge), [], true, None)]
                                 [e := VethLink(v, None, [], false, None)])
            else None
  {
    var v, e, b := Dev(Root, veth), Dev(Root, ETH0), Dev(Root, bridge);
    var far := VethLink(v, None, [], false, None);
    var l1 := links[v := VethLink(e, None, [], false, None)][e := far];
    EffectsStep(AddVeth(veth, ETH0), [SetMaster(veth, bridge)] + ([LinkUp(veth)] + k), links);
    EffectsStep(SetMaster(veth, bridge), [LinkUp(veth)] + k, l1);
    if b in links && links[b].BridgeLink? {
      var l2 := links[v := VethLink(e, Some(bridge), [], false, None)][e := far];
      assert l1[v := VethLink(e, Some(bridge), [], false, None)] == l2;
      EffectsStep(LinkUp(veth), k, l2);
      var l3 := links[v := VethLink(e, Some(bridge), [], true, None)][e := far];
      assert l2[v := VethLink(e, Some(bridge), [], true, None)] == l3;
    }
  }

  lemma MoveEffect(veth: string, bridge: string, pid: int, links: Links, k: seq<Cmd>)
    requires veth != ETH0 && Dev(Root, veth) !in links && Dev(Root, ETH0) !in links
    ensures var v, e, e' := Dev(Root, veth), Dev(Root, ETH0), Dev(Pid(pid), ETH0);
            Effects([SetNetns(ETH0, pid)] + k,
                    links[v := VethLink(e, Some(bridge), [], true, None)][e := VethLink(v, None, [], false, None)]) ==
            if e' in links then None
            else Effects(k, links[v := VethLink(e', Some(bridge), [], true, None)]
                                 [e' := VethLink(v, None, [], false, None)])
  {
    var v, e, e' := Dev(Root, veth), Dev(Root, ETH0), Dev(Pid(pid), ETH0);
    var l := links[v := VethLink(e, Some(bridge), [], true, None)][e := VethLink(v, None, [], false, None)];
    EffectsStep(SetNetns(ETH0, pid), k, l);
    if e' !in links {
      assert Move(l, e, e') == links[v := VethLink(e', Some(bridge), [], true, None)]
                                    [e' := VethLink(v, None, [], false, None)];
    }
  }

  lemma NamespaceEffects(cidr: string, gateway: string, pid: int, links: Links, v: Dev)
    requires v != Dev(Pid(pid), ETH0)
    ensures var e := Dev(Pid(pid), ETH0);
            Effects([NsAddrAdd(pid, cidr, ETH0)] + ([NsLinkUp(pid, ETH0)] + ([NsRoute(pid, gateway, ETH0)] + [])),
                    links[e := VethLink(v, None, [], false, None)]) ==
            if gateway == "" then None else Some(links[e := VethLink(v, None, [cidr], true, Some(gateway))])
  {
    var e := Dev(Pid(pid), ETH0);
    var l1 := links[e := VethLink(v, None, [], false, None)];
    EffectsStep(NsAddrAdd(pid, cidr, ETH0), [NsLinkUp(pid, ETH0)] + ([NsRoute(pid, gateway, ETH0)] + []), l1);
    var l2 := links[e := VethLink(v, None, [cidr], false, None)];
    assert [] + [cidr] == [cidr] && l1[e := VethLink(v, None, [cidr], false, None)] == l2;
    EffectsStep(NsLinkUp(pid, ETH0), [NsRoute(pid, gateway, ETH0)] + [], l2);
    var l3 := links[e := VethLink(v, None, [cidr], true, None)];
    assert l2[e := VethLink(v, None, [cidr], true, None)] == l3;
    EffectsStep(NsRoute(pid, gateway, ETH0), [], l3);
    assert l3[e := VethLink(v, None, [cidr], true, Some(gateway))] ==
           links[e := VethLink(v, None, [cidr], true, Some(gateway))];
  }

  function VethCmds(veth: string, bridge: string, cidr: string, gateway: string, pid: int): seq<Cmd> {
    [AddVeth(veth, ETH0)] + ([SetMaster(veth, bridge)] + ([LinkUp(veth)] + ([SetNetns(ETH0, pid)] +
    ([NsAddrAdd(pid, cidr, ETH0)] + ([NsLinkUp(pid, ETH0)] + ([NsRoute(pid, gateway, ETH0)] + []))))))
  }

  lemma NeedAllStep(c: Cmd, cs: seq<Cmd>, k: Prog)
    ensures NeedAll([c] + cs, k) == Need(c, NeedAll(cs, k))
  {
    assert ([c] + cs)[1..] == cs;
  }

  lemma VethIsNeedAll(veth: string, bridge: string, cidr: string, gateway: string, pid: int)
    ensures VethProg(veth, bridge, cidr, gateway, pid) ==
            NeedAll(VethCmds(veth, bridge, cidr, gateway, pid), Try(NsLoopbackUp(pid), Done(Ok)))
    ensures forall c :: c in VethCmds(veth, bridge, cidr, gateway, pid) ==> OnLinks(c)
    ensures |VethCmds(veth, bridge, cidr, gateway, pid)| == 7
  {
    hide NeedAll;
    var k := Try(NsLoopbackUp(pid), Done(Ok));
    assert NeedAll([], k) == k by { NeedAllNone(k); }
    var c7 := [NsRoute(pid, gateway, ETH0)] + [];
    NeedAllStep(NsRoute(pid, gateway, ETH0), [], k);
    var c6 := [NsLinkUp(pid, ETH0)] + c7;
    NeedAllStep(NsLinkUp(pid, ETH0), c7, k);
    var c5 := [NsAddrAdd(pid, cidr, ETH0)] + c6;
    NeedAllStep(NsAddrAdd(pid, cidr, ETH0), c6, k);
    var c4 := [SetNetns(ETH0, pid)] + c5;
    NeedAllStep(SetNetns(ETH0, pid), c5, k);
    var c3 := [LinkUp(veth)] + c4;
    NeedAllStep(LinkUp(veth), c4, k);
    var c2 := [SetMaster(veth, bridge)] + c3;
    NeedAllStep(SetMaster(veth, bridge), c3, k);
    NeedAllStep(AddVeth(veth, ETH0), c2, k);
  }

  lemma NeedAllNone(k: Prog)
    ensures NeedAll([], k) == k
  {
  }

  lemma VethEffects(veth: string, bridge: string, cidr: string, gateway: string, pid: int, links: Links)
    requires Dev(Root, bridge) in links
    ensures Effects(VethCmds(veth, bridge, cidr, gateway, pid), links) ==
            if PairCanJoin(veth, bridge, gateway, pid, links)
            then Some(JoinedLinks(veth, bridge, cidr, gateway, pid, links))
            else None
  {
    hide Effects;
    var v, e, e' := Dev(Root, veth), Dev(Root, ETH0), Dev(Pid(pid), ETH0);
    var rest := [NsAddrAdd(pid, cidr, ETH0)] + ([NsLinkUp(pid, ETH0)] + ([NsRoute(pid, gateway, ETH0)] + []));
    if veth == ETH0 || v in links || e in links {
      EffectsStep(AddVeth(veth, ETH0), [SetMaster(veth, bridge)] + ([LinkUp(veth)] + ([SetNetns(ETH0, pid)] + rest)),
          links);
    } else {
      HostEffects(veth, bridge, links, [SetNetns(ETH0, pid)] + rest);
      MoveEffect(veth, bridge, pid, links, rest);
      NamespaceEffects(cidr, gateway, pid, links[v := VethLink(e', Some(bridge), [], true, None)], v);
    }
  }

  /** The loopback interface comes last, and its status is ignored. */
  lemma LoopbackLast(pid: int, h: HostState, t: nat, faults: nat -> bool)
    ensures Run(Try(NsLoopbackUp(pid), Done(Ok)), h, t, faults) == Result(h, t + 1, Ok)
  {
  }

  /** The veth step ends well only when the pair can join, then with the pair in place; without faults it then does. */
  lemma VethOutcome(veth: string, bridge: string, cidr: string, gateway: string, pid: int,
                    h: HostState, t: nat, faults: nat -> bool)
    requires Dev(Root, bridge) in h.links
    ensures var r := Run(VethProg(veth, bridge, cidr, gateway, pid), h, t, faults);
            && (r.status == Ok ==>
                  PairCanJoin(veth, bridge, gateway, pid, h.links)
                  && r.host == h.(links := JoinedLinks(veth, bridge, cidr, gateway, pid, h.links)))
            && (NoFaults(faults) ==> (r.status == Ok <==> PairCanJoin(veth, bridge, gateway, pid, h.links)))
  {
    hide Run, NeedAll, Effects, VethProg, VethCmds, PairCanJoin, JoinedLinks;
    var cmds, k := VethCmds(veth, bridge, cidr, gateway, pid), Try(NsLoopbackUp(pid), Done(Ok));
    VethIsNeedAll(veth, bridge, cidr, gateway, pid);
    VethEffects(veth, bridge, cidr, gateway, pid, h.links);
    NeedAllRuns(cmds, k, h, t, faults);
    if Effects(cmds, h.links).Some? {
      LoopbackLast(pid, h.(links := Effects(cmds, h.links).value), t + 7, faults);
    }
  }

  /* ---- The bridge ---- */

  /** Making a bridge: its name is free and the subnet has a slash. */
  function BridgeLinks(pl: Plan, links: Links): Links
    requires pl.bridgeCidr.Some?
  {
    links[Dev(Root, pl.bridge) := BridgeLink([pl.bridgeCidr.value], true)]
  }

  predicate BridgeCanBe(pl: Plan, links: Links) {
    Dev(Root, pl.bridge) in links || pl.bridgeCidr.Some?
  }

  /** The interfaces after a bridge step that ends well. */
  function AfterBridge(pl: Plan, links: Links): Links
    requires BridgeCanBe(pl, links)
  {
    if Dev(Root, pl.bridge) in links then links else BridgeLinks(pl, links)
  }

  lemma BridgeEffects(pl: Plan, links: Links)
    requires pl.bridgeCidr.Some?
    ensures var b := pl.bridge;
            Effects([AddBridge(b)] + ([AddrAdd(b, pl.bridgeCidr.value)] + ([LinkUp(b)] + [])), links) ==
            if Dev(Root, pl.bridge) in links then None else Some(BridgeLinks(pl, links))
  {
    var b, a := Dev(Root, pl.bridge), pl.bridgeCidr.value;
    EffectsStep(AddBridge(pl.bridge), [AddrAdd(pl.bridge, a)] + ([LinkUp(pl.bridge)] + []), links);
    if b !in links {
      var l1 := links[b := BridgeLink([], false)];
      EffectsStep(AddrAdd(pl.bridge, a), [LinkUp(pl.bridge)] + [], l1);
      var l2 := links[b := BridgeLink([a], false)];
      assert [] + [a] == [a] && l1[b := BridgeLink([a], false)] == l2;
      EffectsStep(LinkUp(pl.bridge), [], l2);
      assert l2[b := BridgeLink([a], true)] == BridgeLinks(pl, links);
    }
  }

  /** The rules of a new bridge leave the interfaces alone and always end well. */
  lemma BridgeRulesOutcome(bridge: string, subnet: string, h: HostState, t: nat, faults: nat -> bool)
    ensures var r := Run(BridgeRules(bridge, subnet), h, t, faults); r.status == Ok && r.host.links == h.links
  {
    hide LinkEffect;
    var c1, c2, c3 := Append(Postrouting, Masquerade(subnet, bridge)), Append(Forward, AcceptBridge(bridge)),
                      Append(Forward, AcceptReturn(bridge));
    var p3 := Try(c3, Done(Ok));
    var p2 := Try(c2, p3);
    var p1 := Try(c1, p2);
    forall h, t ensures Run(p3, h, t, faults).status == Ok && Run(p3, h, t, faults).host.links == h.links {
    }
    forall h, t ensures Run(p2, h, t, faults).status == Ok && Run(p2, h, t, faults).host.links == h.links {
    }
    forall h, t ensures Run(p1, h, t, faults).status == Ok && Run(p1, h, t, faults).host.links == h.links {
    }
  }

  lemma BridgeOutcome(pl: Plan, h: HostState, t: nat, faults: nat -> bool)
    ensures var r := Run(BridgeProg(pl.bridge, pl.subnet, pl.bridgeCidr), h, t, faults);
            && (r.status == Ok ==> BridgeCanBe(pl, h.links) && r.host.links == AfterBridge(pl, h.links))
            && (NoFaults(faults) ==> (r.status == Ok <==> BridgeCanBe(pl, h.links)))
  {
    hide LinkEffect, BridgeRules, Effects, NeedAll;
    var b := pl.bridge;
    var shown := Apply(LinkShow(b), h, faults(t));
    assert shown.host == h && (shown.ok <==> Dev(Root, b) in h.links && !faults(t)) by { ShowOutcome(b, h, faults(t)); }
    if !shown.ok {
      match pl.bridgeCidr {
        case None =>
          NoCidrOutcome(b, h, t + 1, faults);
        case Some(a) =>
          var k := BridgeRules(b, pl.subnet);
          var cmds := [AddBridge(b)] + ([AddrAdd(b, a)] + ([LinkUp(b)] + []));
          NeedAllNone(k);
          NeedAllStep(LinkUp(b), [], k);
          NeedAllStep(AddrAdd(b, a), [LinkUp(b)] + [], k);
          NeedAllStep(AddBridge(b), [AddrAdd(b, a)] + ([LinkUp(b)] + []), k);
          BridgeEffects(pl, h.links);
          NeedAllRuns(cmds, k, h, t + 1, faults);
          if Effects(cmds, h.links).Some? {
            BridgeRulesOutcome(b, pl.subnet, h.(links := BridgeLinks(pl, h.links)), t + 4, faults);
          }
      }
    }
  }

  lemma ShowOutcome(b: string, h: HostState, fault: bool)
    ensures Apply(LinkShow(b), h, fault) == Outcome(h, Dev(Root, b) in h.links && !fault)
  {
    assert h.(links := h.links) == h;
  }

  lemma NoCidrOutcome(b: string, h: HostState, t: nat, faults: nat -> bool)
    ensures Run(Need(AddBridge(b), Done(Einval)), h, t, faults).status != Ok
  {
    hide Apply;
  }

  /* ---- The whole setup ---- */

  /** The port rules leave the interfaces alone and always end well. */
  lemma {:induction false} ForwardOutcome(ip: string, ports: seq<PortMapping>, h: HostState, t: nat,
      faults: nat -> bool)
    ensures var r := Run(ForwardProg(ip, ports), h, t, faults); r.status == Ok && r.host.links == h.links
    decreases |ports|
  {
    hide LinkEffect;
    if ports != [] {
      var p := ForwardProg(ip, ports);
      var o := Apply(p.cmd, h, faults(t));
      if o.ok {
        var o2 := Apply(p.yes.cmd, o.host, faults(t + 1));
        ForwardOutcome(ip, ports[1..], o2.host, t + 2, faults);
        assert Run(p.yes, o.host, t + 1, faults) == Run(ForwardProg(ip, ports[1..]), o2.host, t + 2, faults);
      } else {
        ForwardOutcome(ip, ports[1..], o.host, t + 1, faults);
      }
    }
  }

  /** Everything a setup needs of the host's interfaces and of its own configuration. */
  predicate CanSetUp(pl: Plan, links: Links) {
    pl.cidr.Some? && BridgeCanBe(pl, links)
        && PairCanJoin(pl.veth, pl.bridge, pl.gateway, pl.pid, AfterBridge(pl, links))
  }

  /**
   Setup ends well only when all that holds, and then the pair is in place on the bridge; when no
   command fails by itself, it ends well exactly then.
   */
  lemma SetupOutcome(pl: Plan, h: HostState, t: nat, faults: nat -> bool)
    ensures var r := Run(SetupProg(pl), h, t, faults);
            && (r.status == Ok ==>
                  CanSetUp(pl, h.links)
                  && r.host.links ==
                     JoinedLinks(pl.veth, pl.bridge, pl.cidr.value, pl.gateway, pl.pid, AfterBridge(pl, h.links)))
            && (NoFaults(faults) ==> (r.status == Ok <==> CanSetUp(pl, h.links)))
  {
    hide Run, Complete, BridgeProg, VethProg, ForwardProg, Plan.Ip, PairCanJoin, JoinedLinks;
    var bp := BridgeProg(pl.bridge, pl.subnet, pl.bridgeCidr);
    RunThen(bp, ConnectProg(pl), h, t, faults);
    var b := Run(bp, h, t, faults);
    BridgeOutcome(pl, h, t, faults);
    if b.status == Ok {
      RunDone(Error, b.host, b.clock, faults);
      if pl.cidr.Some? {
        var vp, fp := VethProg(pl.veth, pl.bridge, pl.cidr.value, pl.gateway, pl.pid), ForwardProg(pl.Ip(), pl.ports);
        RunThen(vp, fp, b.host, b.clock, faults);
        VethOutcome(pl.veth, pl.bridge, pl.cidr.value, pl.gateway, pl.pid, b.host, b.clock, faults);
        var v := Run(vp, b.host, b.clock, faults);
        ForwardOutcome(pl.Ip(), pl.ports, v.host, v.clock, faults);
      }
    }
  }

  /**
   The far end of every new pair is first named `eth0` on the host, so a host with an `eth0` of its own connects
   no container.
   */
  lemma HostEth0Blocks(pl: Plan, h: HostState, t: nat, faults: nat -> bool)
    requires Dev(Root, ETH0) in h.links
    ensures Run(SetupProg(pl), h, t, faults).status != Ok
  {
    hide Run;
    SetupOutcome(pl, h, t, faults);
  }

  /** With no gateway given and no slash in the subnet there is none to route to, and no container is connected. */
  lemma NoGatewayBlocks(pl: Plan, h: HostState, t: nat, faults: nat -> bool)
    requires pl.gateway == ""
    ensures Run(SetupProg(pl), h, t, faults).status != Ok
  {
    hide Run;
    SetupOutcome(pl, h, t, faults);
  }

  /** A settled gateway is empty exactly when none is given and the subnet has no slash. */
  lemma SettledGateway(c: Container, draw: nat, junk: Junk)
    ensures c.PlanFor(draw, junk).gateway == "" <==> c.gateway == "" && '/' !in c.subnet
  {
    hide Ntop, Pton;
    NtopText((Base(c.subnet, junk.gateway) + 1) % TWO32);
  }

  /**
   With no gateway given, setup that makes the bridge gives the container the bridge's own address as
   its default route exactly when both computations start from the same base; they do whenever the
   subnet is well formed, and otherwise depend on uninitialised memory.
   */
  lemma DefaultRouteIsBridge(pl: Plan, h: HostState, t: nat, faults: nat -> bool, bridgeJunk: Addr, gatewayJunk: Addr)
    requires pl.bridgeCidr == BridgeCidr(pl.subnet, bridgeJunk) && pl.gateway == GatewayText(pl.subnet, gatewayJunk)
    requires Dev(Root, pl.bridge) !in h.links && Run(SetupProg(pl), h, t, faults).status == Ok
    ensures var links := Run(SetupProg(pl), h, t, faults).host.links;
            var bridge, far := Dev(Root, pl.bridge), Dev(Pid(pl.pid), ETH0);
            && bridge in links && far in links && links[far].VethLink? && links[far].route == Some(pl.gateway)
            && links[bridge].BridgeLink? && |links[bridge].addrs| == 1
            && (StripSuffix(links[bridge].addrs[0]) == pl.gateway
                <==> Base(pl.subnet, bridgeJunk) == Base(pl.subnet, gatewayJunk))
    ensures Pton(Before(pl.subnet, '/')).Some? ==> Base(pl.subnet, bridgeJunk) == Base(pl.subnet, gatewayJunk)
  {
    hide Run, Ntop, Pton;
    SetupOutcome(pl, h, t, faults);
    var links := Run(SetupProg(pl), h, t, faults).host.links;
    assert links[Dev(Root, pl.bridge)] == BridgeLink([pl.bridgeCidr.value], true);
    BridgeTextIsGateway(pl.subnet, bridgeJunk);
    var a, g := (Base(pl.subnet, bridgeJunk) + 1) % TWO32, (Base(pl.subnet, gatewayJunk) + 1) % TWO32;
    PtonOfNtop(a);
    PtonOfNtop(g);
  }

  /**
   Whatever uninitialised memory holds: the address put on the bridge and the default route are the same for all
   its contents exactly when the text before the subnet's slash is an address.
   */
  lemma RouteAgreesIff(subnet: string)
    requires '/' in subnet
    ensures (forall j1: Addr, j2: Addr :: StripSuffix(BridgeCidr(subnet, j1).value) == GatewayText(subnet, j2))
            <==> Pton(Before(subnet, '/')).Some?
  {
    hide Ntop, Pton, StripSuffix, GatewayText;
    forall j1: Addr, j2: Addr
      ensures StripSuffix(BridgeCidr(subnet, j1).value) == GatewayText(subnet, j1)
      ensures Pton(Before(subnet, '/')).Some? ==> GatewayText(subnet, j1) == GatewayText(subnet, j2)
    {
      BridgeTextIsGateway(subnet, j1);
      GatewayOfBase(subnet, j1);
      GatewayOfBase(subnet, j2);
    }
    if Pton(Before(subnet, '/')).None? {
      GatewayOfBase(subnet, 0);
      GatewayOfBase(subnet, 1);
      PtonOfNtop(1);
      PtonOfNtop(2);
      assert GatewayText(subnet, 0) != GatewayText(subnet, 1);
      assert StripSuffix(BridgeCidr(subnet, 0).value) != GatewayText(subnet, 1);
    }
  }

  lemma GatewayOfBase(subnet: string, junk: Addr)
    ensures GatewayText(subnet, junk) == Ntop((Base(subnet, junk) + 1) % TWO32)
    ensures Base(subnet, junk) == match Pton(Before(subnet, '/')) case Some(a) => a case None => junk
  {
    hide Ntop, Pton;
  }

  lemma BridgeTextIsGateway(subnet: string, junk: Addr)
    requires '/' in subnet
    ensures StripSuffix(BridgeCidr(subnet, junk).value) == GatewayText(subnet, junk)
  {
    hide Ntop, Pton;
    var g := GatewayText(subnet, junk);
    NtopText((Base(subnet, junk) + 1) % TWO32);
    assert BridgeCidr(subnet, junk).value == g + ['/'] + After(subnet, '/');
    CutJoined(g, '/', After(subnet, '/'));
  }
}
