/**
 The host that the network commands act on: three ordered iptables chains, the
 network interfaces of the host and of the containers' namespaces, and the
 forwarding switch. `Apply` says what one command does; `Prog` is a sequence of
 commands that branches on their exit status, and `Run` executes one.
 */
module HostNet {
  import opened Wrappers

  datatype Rule =
    | Dnat(proto: string, dport: int, toIp: string, toPort: int)
    | AcceptTo(proto: string, dst: string, dport: int)
    | Masquerade(src: string, notOut: string)
    | AcceptBridge(bridge: string)
    | AcceptReturn(bridge: string)
    | Foreign(name: string, hits: set<(string, int)>)  // a rule of another program, and the packets it takes
  {
    /** Does the rule take a packet of this protocol to this port? */
    predicate Takes(proto: string, port: int) {
      match this
      case Dnat(q, d, _, _) => q == proto && d == port
      case Foreign(_, hits) => (proto, port) in hits
      case _ => false
    }
  }

  datatype Chain = Prerouting | Postrouting | Forward

  datatype Ns = Root | Pid(pid: int)

  /** An interface: its namespace and name. */
  datatype Dev = Dev(ns: Ns, name: string)

  datatype Link =
    | BridgeLink(addrs: seq<string>, up: bool)
    | VethLink(peer: Dev, master: Option<string>, addrs: seq<string>, up: bool, route: Option<string>)
    | OtherLink

  type Links = map<Dev, Link>

  datatype HostState = HostState(
    prerouting: seq<Rule>, postrouting: seq<Rule>, forward: seq<Rule>, links: Links, forwarding: bool)
  {
    function Rules(ch: Chain): seq<Rule> {
      match ch
      case Prerouting => prerouting
      case Postrouting => postrouting
      case Forward => forward
    }

    function WithRules(ch: Chain, rs: seq<Rule>): HostState {
      match ch
      case Prerouting => this.(prerouting := rs)
      case Postrouting => this.(postrouting := rs)
      case Forward => this.(forward := rs)
    }
  }

  datatype Cmd =
    | LinkShow(name: string)
    | AddBridge(name: string)
    | AddrAdd(name: string, cidr: string)
    | LinkUp(name: string)
    | EnableForwarding
    | Append(chain: Chain, rule: Rule)
    | Delete(chain: Chain, rule: Rule)
    | AddVeth(name: string, peerName: string)
    | SetMaster(name: string, bridge: string)
    | SetNetns(name: string, pid: int)
    | NsAddrAdd(pid: int, cidr: string, name: string)
    | NsLinkUp(pid: int, name: string)
    | NsRoute(pid: int, gateway: string, name: string)
    | NsLoopbackUp(pid: int)
    | LinkDelete(name: string)

  function RemoveFirst<T(==)>(s: seq<T>, x: T): seq<T> {
    if s == [] then []
    else if s[0] == x then s[1..]
    else [s[0]] + RemoveFirst(s[1..], x)
  }

  /** The first rule that takes the packet, as iptables reads a chain. */
  function FirstMatch(rs: seq<Rule>, proto: string, port: int): Option<Rule> {
    if rs == [] then None
    else if rs[0].Takes(proto, port) then Some(rs[0])
    else FirstMatch(rs[1..], proto, port)
  }

  function AddAddr(l: Link, cidr: string): Option<Link> {
    match l
    case OtherLink => Some(l)
    case BridgeLink(addrs, up) => if cidr in addrs then None else Some(BridgeLink(addrs + [cidr], up))
    case VethLink(peer, master, addrs, up, route) =>
      if cidr in addrs then None else Some(VethLink(peer, master, addrs + [cidr], up, route))
  }

  function BringUp(l: Link): Link {
    match l
    case OtherLink => l
    case BridgeLink(addrs, _) => BridgeLink(addrs, true)
    case VethLink(peer, master, addrs, _, route) => VethLink(peer, master, addrs, true, route)
  }

  /** An interface goes away; a veth takes its peer with it. */
  function Unplug(links: Links, d: Dev): Links
    requires d in links
  {
    links - (if links[d].VethLink? then {d, links[d].peer} else {d})
  }

  /** A veth end moves to another namespace: it loses its settings there, and its peer follows it. */
  function Move(links: Links, d: Dev, d': Dev): Links
    requires d in links && links[d].VethLink?
  {
    var l := links[d].(master := None, addrs := [], up := false, route := None);
    var moved := (links - {d})[d' := l];
    if l.peer in moved && moved[l.peer].VethLink? then moved[l.peer := moved[l.peer].(peer := d')] else moved
  }

  datatype Outcome = Outcome(host: HostState, ok: bool)

  /** The links after a command on one interface, if it succeeds. */
  function LinkEffect(c: Cmd, links: Links): Option<Links> {
    match c
    case AddBridge(n) =>
      if Dev(Root, n) in links then None else Some(links[Dev(Root, n) := BridgeLink([], false)])
    case AddrAdd(n, a) =>
      var d := Dev(Root, n);
      if d !in links || AddAddr(links[d], a).None? then None else Some(links[d := AddAddr(links[d], a).value])
    case LinkUp(n) =>
      var d := Dev(Root, n);
      if d !in links then None else Some(links[d := BringUp(links[d])])
    case AddVeth(n, m) =>
      var d, e := Dev(Root, n), Dev(Root, m);
      if n == m || d in links || e in links then None
      else Some(links[d := VethLink(e, None, [], false, None)][e := VethLink(d, None, [], false, None)])
    case SetMaster(n, b) =>
      var d := Dev(Root, n);
      if d !in links || !links[d].VethLink? || Dev(Root, b) !in links || !links[Dev(Root, b)].BridgeLink? then None
      else Some(links[d := links[d].(master := Some(b))])
    case SetNetns(n, pid) =>
      var d, d' := Dev(Root, n), Dev(Pid(pid), n);
      if d !in links || !links[d].VethLink? || d' in links then None else Some(Move(links, d, d'))
    case NsAddrAdd(pid, a, n) =>
      var d := Dev(Pid(pid), n);
      if d !in links || AddAddr(links[d], a).None? then None else Some(links[d := AddAddr(links[d], a).value])
    case NsLinkUp(pid, n) =>
      var d := Dev(Pid(pid), n);
      if d !in links then None else Some(links[d := BringUp(links[d])])
    case NsRoute(pid, g, n) =>
      var d := Dev(Pid(pid), n);
      if d !in links || !links[d].VethLink? || links[d].route.Some? || g == "" then None
      else Some(links[d := links[d].(route := Some(g))])
    case LinkShow(n) => if Dev(Root, n) in links then Some(links) else None
    case LinkDelete(n) => if Dev(Root, n) in links then Some(Unplug(links, Dev(Root, n))) else None
    case _ => Some(links)
  }

  /**
   One command. A deletion succeeds exactly when the thing is there; any other
   command also fails when `fault` says so. A command that fails changes nothing.
   */
  function Apply(c: Cmd, h: HostState, fault: bool): Outcome {
    match c
    case Delete(ch, r) =>
      if r in h.Rules(ch) then Outcome(h.WithRules(ch, RemoveFirst(h.Rules(ch), r)), true) else Outcome(h, false)
    case Append(ch, r) =>
      if fault then Outcome(h, false) else Outcome(h.WithRules(ch, h.Rules(ch) + [r]), true)
    case EnableForwarding =>
      if fault then Outcome(h, false) else Outcome(h.(forwarding := true), true)
    case _ =>
      var links := LinkEffect(c, h.links);
      if links.None? || (fault && !c.LinkDelete?) then Outcome(h, false) else Outcome(h.(links := links.value), true)
  }

  /** Commands, each followed by one of two continuations according to its exit status. */
  datatype Prog = Done(status: Status) | Do(cmd: Cmd, yes: Prog, no: Prog)

  datatype Result = Result(host: HostState, clock: nat, status: Status)

  /** Runs a program from a host state; `faults` says for each moment whether a command fails. */
  function Run(p: Prog, h: HostState, t: nat, faults: nat -> bool): Result {
    match p
    case Done(s) => Result(h, t, s)
    case Do(c, yes, no) =>
      var o := Apply(c, h, faults(t));
      Run(if o.ok then yes else no, o.host, t + 1, faults)
  }

  lemma RunDone(s: Status, h: HostState, t: nat, faults: nat -> bool)
    ensures Run(Done(s), h, t, faults) == Result(h, t, s)
  {
  }

  /** In this run, no rule failed to be added. */
  predicate Complete(p: Prog, h: HostState, t: nat, faults: nat -> bool) {
    match p
    case Done(_) => true
    case Do(c, yes, no) =>
      var o := Apply(c, h, faults(t));
      (c.Append? ==> o.ok) && Complete(if o.ok then yes else no, o.host, t + 1, faults)
  }

  /** `p`, and when it ends well `q`; any failure of `p` becomes the general error. */
  function Then(p: Prog, q: Prog): Prog {
    match p
    case Done(s) => if s == Ok then q else Done(Error)
    case Do(c, yes, no) => Do(c, Then(yes, q), Then(no, q))
  }

  lemma {:induction false} RunThen(p: Prog, q: Prog, h: HostState, t: nat, faults: nat -> bool)
    ensures var r := Run(p, h, t, faults);
            Run(Then(p, q), h, t, faults) ==
            if r.status == Ok then Run(q, r.host, r.clock, faults) else r.(status := Error)
    ensures var r := Run(p, h, t, faults);
            Complete(Then(p, q), h, t, faults) <==>
            Complete(p, h, t, faults) && (r.status == Ok ==> Complete(q, r.host, r.clock, faults))
  {
    if p.Do? {
      var o := Apply(p.cmd, h, faults(t));
      RunThen(if o.ok then p.yes else p.no, q, o.host, t + 1, faults);
    }
  }

  /** The host as the runtime's commands change it. */
  class Host {
    var prerouting: seq<Rule>
    var postrouting: seq<Rule>
    var forward: seq<Rule>
    var links: Links
    var forwarding: bool
    var clock: nat
    const faults: nat -> bool

    constructor (h: HostState, faults: nat -> bool)
      ensures State() == h && clock == 0 && this.faults == faults
    {
      prerouting, postrouting, forward := h.prerouting, h.postrouting, h.forward;
      links, forwarding := h.links, h.forwarding;
      clock := 0;
      this.faults := faults;
    }

    ghost function State(): HostState
      reads this
    {
      HostState(prerouting, postrouting, forward, links, forwarding)
    }

    /** What the rest of a program will come to from this host. */
    ghost function Rest(p: Prog): Result
      reads this
    {
      Run(p, State(), clock, faults)
    }

    /** exec_cmd and system: one command, which is the next one of program `p`; `rest` is what remains of `p`. */
    method Exec(c: Cmd, ghost p: Prog) returns (ok: bool, ghost rest: Prog)
      requires p.Do? && p.cmd == c
      modifies this
      ensures Outcome(State(), ok) == Apply(c, old(State()), faults(old(clock))) && clock == old(clock) + 1
      ensures rest == (if ok then p.yes else p.no) && Rest(rest) == old(Rest(p))
    {
      var fault := faults(clock);
      clock := clock + 1;
      match c {
        case Append(ch, r) =>
          ok := !fault;
          if ok {
            match ch {
              case Prerouting => prerouting := prerouting + [r];
              case Postrouting => postrouting := postrouting + [r];
              case Forward => forward := forward + [r];
            }
          }
        case Delete(ch, r) =>
          match ch {
            case Prerouting => ok := r in prerouting; if ok { prerouting := RemoveFirst(prerouting, r); }
            case Postrouting => ok := r in postrouting; if ok { postrouting := RemoveFirst(postrouting, r); }
            case Forward => ok := r in forward; if ok { forward := RemoveFirst(forward, r); }
          }
        case EnableForwarding =>
          ok := !fault;
          forwarding := forwarding || ok;
        case _ =>
          var effect := LinkEffect(c, links);
          ok := effect.Some? && (!fault || c.LinkDelete?);
          if ok {
            links := effect.value;
          }
      }
      rest := if ok then p.yes else p.no;
    }
  }
}
