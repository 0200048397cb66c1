/**
 Container networking: the command programs of each operation, and the
 operations themselves as methods that issue the commands one by one.
 */
module Network {
  import opened Wrappers
  import opened CStrings
  import opened Ipv4
  import opened HostNet

  datatype PortMapping = PortMapping(hostPort: nat, containerPort: nat, protocol: string)

  function DnatRule(ip: string, m: PortMapping): Rule {
    Dnat(m.protocol, m.hostPort, ip, m.containerPort)
  }

  function AcceptRule(ip: string, m: PortMapping): Rule {
    AcceptTo(m.protocol, ip, m.containerPort)
  }

  const ETH0 := "eth0"

  /** The host end is named after the first eight characters of the container's id. */
  function VethName(id: string): string {
    "veth" + Take(id, 8)
  }

  /* ---- Programs ---- */

  /** A command whose status is ignored. */
  function Try(c: Cmd, k: Prog): Prog {
    Do(c, k, k)
  }

  /** A command whose failure ends the operation. */
  function Need(c: Cmd, k: Prog): Prog {
    Do(c, k, Done(Error))
  }

  function BridgeRules(bridge: string, subnet: string): Prog {
    Try(EnableForwarding,
        Try(Append(Postrouting, Masquerade(subnet, bridge)),
            Try(Append(Forward, AcceptBridge(bridge)),
                Try(Append(Forward, AcceptReturn(bridge)), Done(Ok)))))
  }

  /** The bridge is made only when it is not there; a subnet without slash is found out after that. */
  function BridgeProg(bridge: string, subnet: string, cidr: Option<string>): Prog {
    Do(LinkShow(bridge), Done(Ok),
       Need(AddBridge(bridge),
            match cidr
            case None => Done(Einval)
            case Some(a) => Need(AddrAdd(bridge, a), Need(LinkUp(bridge), BridgeRules(bridge, subnet)))))
  }

  function VethProg(veth: string, bridge: string, cidr: string, gateway: string, pid: int): Prog {
    Need(AddVeth(veth, ETH0),
         Need(SetMaster(veth, bridge),
              Need(LinkUp(veth),
                   Need(SetNetns(ETH0, pid), NamespaceProg(cidr, gateway, pid)))))
  }

  function NamespaceProg(cidr: string, gateway: string, pid: int): Prog {
    Need(NsAddrAdd(pid, cidr, ETH0),
         Need(NsLinkUp(pid, ETH0),
              Need(NsRoute(pid, gateway, ETH0),
                   Try(NsLoopbackUp(pid), Done(Ok)))))
  }

  /** A DNAT rule that cannot be added skips the accept rule of its port. */
  function ForwardProg(ip: string, ports: seq<PortMapping>): Prog {
    if ports == [] then Done(Ok)
    else
      var k := ForwardProg(ip, ports[1..]);
      Do(Append(Prerouting, DnatRule(ip, ports[0])), Try(Append(Forward, AcceptRule(ip, ports[0])), k), k)
  }

  lemma NothingToForward(ip: string, h: HostState, t: nat, faults: nat -> bool)
    ensures Run(ForwardProg(ip, []), h, t, faults) == Result(h, t, Ok)
  {
  }

  function RemoveProg(ip: string, ports: seq<PortMapping>): Prog {
    if ports == [] then Done(Ok)
    else
      Try(Delete(Prerouting, DnatRule(ip, ports[0])),
          Try(Delete(Forward, AcceptRule(ip, ports[0])), RemoveProg(ip, ports[1..])))
  }

  /** Everything the operations on one container depend on: the address it came with and the settled ones. */
  datatype Plan = Plan(
    veth: string, bridge: string, subnet: string, bridgeCidr: Option<string>,
    given: string, cidr: Option<string>, gateway: string, pid: int, ports: seq<PortMapping>)
  {
    /** The address in the container's rules; empty when no address could be allocated. */
    function Ip(): string {
      if cidr.Some? then StripSuffix(cidr.value) else ""
    }
  }

  function SetupProg(pl: Plan): Prog {
    Then(BridgeProg(pl.bridge, pl.subnet, pl.bridgeCidr), ConnectProg(pl))
  }

  function ConnectProg(pl: Plan): Prog {
    match pl.cidr
    case None => Done(Error)
    case Some(a) => Then(VethProg(pl.veth, pl.bridge, a, pl.gateway, pl.pid), ForwardProg(pl.Ip(), pl.ports))
  }

  function CleanupProg(veth: string, ip: string, ports: seq<PortMapping>): Prog {
    Then(RemoveProg(ip, ports), Try(LinkDelete(veth), Done(Ok)))
  }

  /* ---- Operations ---- */

  type Text64 = s: string | |s| < 64 witness ""

  /** What uninitialised address variables hold when inet_pton rejects the text, one for each use. */
  datatype Junk = Junk(bridge: Addr, alloc: Addr, gateway: Addr)

  class Container {
    const id: string
    const initPid: int
    const ports: seq<PortMapping>
    var bridgeName: Text64
    var subnet: Text64
    var ipAddress: Text64
    var gateway: Text64

    constructor (id: string, pid: int, ports: seq<PortMapping>, bridge: Text64, subnet: Text64, ip: Text64,
        gateway: Text64)
      ensures this.id == id && initPid == pid && this.ports == ports
      ensures bridgeName == bridge && this.subnet == subnet && ipAddress == ip && this.gateway == gateway
    {
      this.id, initPid, this.ports := id, pid, ports;
      bridgeName, this.subnet, ipAddress, this.gateway := bridge, subnet, ip, gateway;
    }

    /** The settled form: an address that is not given is allocated, a gateway that is not given is computed. */
    ghost function PlanFor(draw: nat, junk: Junk): Plan
      reads this
    {
      Plan(VethName(id), bridgeName, subnet, BridgeCidr(subnet, junk.bridge), StripSuffix(ipAddress),
           if ipAddress == "" then AllocText(subnet, draw, junk.alloc) else Some(ipAddress),
           if gateway == "" && '/' in subnet then GatewayText(subnet, junk.gateway) else gateway,
           initPid, ports)
    }
  }

  method CreateBridge(h: Host, bridge: string, subnet: string, junk: Addr) returns (status: Status)
    modifies h
    ensures Result(h.State(), h.clock, status) == old(h.Rest(BridgeProg(bridge, subnet, BridgeCidr(subnet, junk))))
  {
    hide GatewayText, IndexOf;
    ghost var p := BridgeProg(bridge, subnet, BridgeCidr(subnet, junk));
    var ok;
    ok, p := h.Exec(LinkShow(bridge), p);
    if ok { return Ok; }
    ok, p := h.Exec(AddBridge(bridge), p);
    if !ok { return Error; }
    var slash := IndexOf(subnet, '/');
    if slash == |subnet| { return Einval; }
    var gateway := FirstAddress(subnet, slash, junk);
    ok, p := h.Exec(AddrAdd(bridge, gateway + "/" + subnet[slash + 1..]), p);
    if !ok { return Error; }
    ok, p := h.Exec(LinkUp(bridge), p);
    if !ok { return Error; }
    ok, p := h.Exec(EnableForwarding, p);
    ok, p := h.Exec(Append(Postrouting, Masquerade(subnet, bridge)), p);
    ok, p := h.Exec(Append(Forward, AcceptBridge(bridge)), p);
    ok, p := h.Exec(Append(Forward, AcceptReturn(bridge)), p);
    return Ok;
  }

  method SetupVeth(h: Host, id: string, bridge: string, cidr: string, gateway: string, pid: int)
      returns (status: Status)
    modifies h
    ensures Result(h.State(), h.clock, status) == old(h.Rest(VethProg(VethName(id), bridge, cidr, gateway, pid)))
  {
    var veth := VethName(id);
    ghost var p := VethProg(veth, bridge, cidr, gateway, pid);
    var ok;
    ok, p := h.Exec(AddVeth(veth, ETH0), p);
    if !ok { return Error; }
    ok, p := h.Exec(SetMaster(veth, bridge), p);
    if !ok { return Error; }
    ok, p := h.Exec(LinkUp(veth), p);
    if !ok { return Error; }
    ok, p := h.Exec(SetNetns(ETH0, pid), p);
    if !ok { return Error; }
    ok, p := h.Exec(NsAddrAdd(pid, cidr, ETH0), p);
    if !ok { return Error; }
    ok, p := h.Exec(NsLinkUp(pid, ETH0), p);
    if !ok { return Error; }
    ok, p := h.Exec(NsRoute(pid, gateway, ETH0), p);
    if !ok { return Error; }
    ok, p := h.Exec(NsLoopbackUp(pid), p);
    return Ok;
  }

  method SetupPortForwarding(h: Host, ip: string, ports: seq<PortMapping>) returns (status: Status)
    modifies h
    ensures status == Ok && Result(h.State(), h.clock, status) == old(h.Rest(ForwardProg(ip, ports)))
  {
    ghost var p := ForwardProg(ip, ports);
    for i := 0 to |ports|
      invariant p == ForwardProg(ip, ports[i..]) && h.Rest(p) == old(h.Rest(ForwardProg(ip, ports)))
    {
      var ok;
      ok, p := h.Exec(Append(Prerouting, DnatRule(ip, ports[i])), p);
      if !ok { continue; }
      ok, p := h.Exec(Append(Forward, AcceptRule(ip, ports[i])), p);
    }
    return Ok;
  }

  method RemovePortForwarding(h: Host, ip: string, ports: seq<PortMapping>) returns (status: Status)
    modifies h
    ensures status == Ok && Result(h.State(), h.clock, status) == old(h.Rest(RemoveProg(ip, ports)))
  {
    ghost var p := RemoveProg(ip, ports);
    for i := 0 to |ports|
      invariant p == RemoveProg(ip, ports[i..]) && h.Rest(p) == old(h.Rest(RemoveProg(ip, ports)))
    {
      var ok;
      ok, p := h.Exec(Delete(Prerouting, DnatRule(ip, ports[i])), p);
      ok, p := h.Exec(Delete(Forward, AcceptRule(ip, ports[i])), p);
    }
    return Ok;
  }

  /**
   The addresses are written back into the container once the bridge is there, so
   that cleanup finds them; they stay as they were when the bridge step fails.
   */
  method SetupContainer(h: Host, c: Container, draw: nat, junk: Junk) returns (status: Status)
    modifies h, c
    ensures status == Ok || status == Error
    ensures Result(h.State(), h.clock, status) == old(h.Rest(SetupProg(c.PlanFor(draw, junk))))
    ensures c.bridgeName == old(c.bridgeName) && c.subnet == old(c.subnet)
    ensures var pl := old(c.PlanFor(draw, junk));
            var bridged := old(h.Rest(BridgeProg(pl.bridge, pl.subnet, pl.bridgeCidr))).status == Ok;
            && c.ipAddress == (if bridged && pl.cidr.Some? then pl.cidr.value else old(c.ipAddress))
            && c.gateway == (if bridged && pl.cidr.Some? then pl.gateway else old(c.gateway))
  {
    hide BridgeProg, VethProg, ForwardProg, Run, AllocText, GatewayText, IndexOf, StripSuffix;
    ghost var pl := c.PlanFor(draw, junk);
    RunThen(BridgeProg(pl.bridge, pl.subnet, pl.bridgeCidr), ConnectProg(pl), h.State(), h.clock, h.faults);
    status := CreateBridge(h, c.bridgeName, c.subnet, junk.bridge);
    if status != Ok { return Error; }
    if |c.ipAddress| == 0 {
      var ip;
      RunDone(Error, h.State(), h.clock, h.faults);
      AllocatedText(c.subnet, draw, junk.alloc);
      status, ip := AllocateIp(c.subnet, draw, junk.alloc);
      if status != Ok { return Error; }
      c.ipAddress := ip;
    }
    if |c.gateway| == 0 {
      var slash := IndexOf(c.subnet, '/');
      if slash < |c.subnet| {
        c.gateway := FirstAddress(c.subnet, slash, junk.gateway);
      }
    }
    RunThen(VethProg(pl.veth, pl.bridge, c.ipAddress, pl.gateway, pl.pid), ForwardProg(pl.Ip(), pl.ports),
            h.State(), h.clock, h.faults);
    status := SetupVeth(h, c.id, c.bridgeName, c.ipAddress, c.gateway, c.initPid);
    if status != Ok { return Error; }
    NothingToForward(pl.Ip(), h.State(), h.clock, h.faults);
    if |c.ports| > 0 {
      var _ := SetupPortForwarding(h, StripSuffix(c.ipAddress), c.ports);
    }
    return Ok;
  }

  method CleanupContainer(h: Host, c: Container) returns (status: Status)
    modifies h
    ensures Result(h.State(), h.clock, status) ==
            old(h.Rest(CleanupProg(VethName(c.id), StripSuffix(c.ipAddress), c.ports)))
  {
    var veth := VethName(c.id);
    ghost var last := Try(LinkDelete(veth), Done(Ok));
    RunThen(RemoveProg(StripSuffix(c.ipAddress), c.ports), last, h.State(), h.clock, h.faults);
    if |c.ports| > 0 {
      var _ := RemovePortForwarding(h, StripSuffix(c.ipAddress), c.ports);
    }
    var _, _ := h.Exec(LinkDelete(veth), last);
    return Ok;
  }
}
