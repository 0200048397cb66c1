/**
 Whole-call histories: containers set up completely and cleaned up one call after
 the other, in any order. The chains are read off a log of live containers and
 bridges, and the owner of a port is the first live container that publishes it.
 */
module History {
  import opened Wrappers
  import opened HostNet
  import opened Network
  import opened Ledger
  import opened Views
  import opened Sharing
  import opened Interleaving
  import opened Ports

  datatype Op = Up(i: nat) | Down(i: nat)

  /** A bridge made during the setup of container `i`, or the live container `i`. */
  datatype Item = Made(i: nat) | Live(i: nat)

  predicate InRange(pls: seq<Plan>, log: seq<Item>) {
    forall k | 0 <= k < |log| :: log[k].i < |pls|
  }

  function ItemRules(pl: Plan, item: Item, ch: Chain): seq<Rule> {
    match (item, ch)
    case (Made(_), Postrouting) => [Masquerade(pl.subnet, pl.bridge)]
    case (Made(_), Forward) => [AcceptBridge(pl.bridge), AcceptReturn(pl.bridge)]
    case (Live(_), Prerouting) => DnatRules(pl.Ip(), pl.ports)
    case (Live(_), Forward) => AcceptRules(pl.Ip(), pl.ports)
    case _ => []
  }

  /** The rules of the log on one chain, in order of issue. */
  function LogRules(pls: seq<Plan>, log: seq<Item>, ch: Chain): seq<Rule>
    requires InRange(pls, log)
  {
    if log == [] then [] else ItemRules(pls[log[0].i], log[0], ch) + LogRules(pls, log[1..], ch)
  }

  lemma {:induction false} LogRulesJoin(pls: seq<Plan>, a: seq<Item>, b: seq<Item>, ch: Chain)
    requires InRange(pls, a) && InRange(pls, b)
    ensures InRange(pls, a + b) && LogRules(pls, a + b, ch) == LogRules(pls, a, ch) + LogRules(pls, b, ch)
  {
    hide ItemRules;
    if a == [] {
      assert a + b == b;
    } else {
      LogRulesJoin(pls, a[1..], b, ch);
      assert (a + b)[1..] == a[1..] + b;
    }
  }

  /* ---- Setup ---- */

  /** A program that issues no command on a chain. */
  predicate OffChains(p: Prog) {
    p.Do? ==> !p.cmd.Append? && !p.cmd.Delete? && OffChains(p.yes) && OffChains(p.no)
  }

  lemma {:induction false} OffChainsKeeps(p: Prog, h: HostState, t: nat, faults: nat -> bool, ch: Chain)
    requires OffChains(p)
    ensures Run(p, h, t, faults).host.Rules(ch) == h.Rules(ch)
  {
    hide LinkEffect;
    if p.Do? {
      var o := Apply(p.cmd, h, faults(t));
      OffChainsKeeps(if o.ok then p.yes else p.no, o.host, t + 1, faults, ch);
    }
  }

  lemma VethOffChains(veth: string, bridge: string, cidr: string, gateway: string, pid: int)
    ensures OffChains(VethProg(veth, bridge, cidr, gateway, pid))
  {
    var p0 := Try(NsLoopbackUp(pid), Done(Ok));
    assert OffChains(p0);
    var p1 := Need(NsRoute(pid, gateway, ETH0), p0);
    assert OffChains(p1);
    var p2 := Need(NsAddrAdd(pid, cidr, ETH0), Need(NsLinkUp(pid, ETH0), p1));
    assert OffChains(p2);
    var p3 := Need(LinkUp(veth), Need(SetNetns(ETH0, pid), p2));
    assert OffChains(p3);
  }

  /** Does a setup that ends well make the bridge? Exactly when it is not there. */
  function BridgeItems(pl: Plan, i: nat, links: Links): seq<Item> {
    if Dev(Root, pl.bridge) in links then [] else [Made(i)]
  }

  /** One command of a program that ends well, where failure would end it badly. */
  lemma NeedWorked(c: Cmd, k: Prog, h: HostState, t: nat, faults: nat -> bool)
    requires Run(Need(c, k), h, t, faults).status == Ok
    ensures var o := Apply(c, h, faults(t));
            && o.ok && Run(Need(c, k), h, t, faults) == Run(k, o.host, t + 1, faults)
            && (Complete(Need(c, k), h, t, faults) ==> Complete(k, o.host, t + 1, faults))
  {
    hide Apply;
  }

  /** A command on interfaces that works changes no chain. */
  lemma LinkCommandChains(c: Cmd, h: HostState, fault: bool)
    requires !c.Append? && !c.Delete?
    ensures forall ch :: Apply(c, h, fault).host.Rules(ch) == h.Rules(ch)
  {
    hide LinkEffect;
  }

  lemma BridgeRulesAdd(pl: Plan, i: nat, h: HostState, t: nat, faults: nat -> bool, ch: Chain)
    requires Complete(BridgeRules(pl.bridge, pl.subnet), h, t, faults)
    ensures Run(BridgeRules(pl.bridge, pl.subnet), h, t, faults).host.Rules(ch) ==
            h.Rules(ch) + ItemRules(pl, Made(i), ch)
  {
    hide LinkEffect;
    var c1, c2, c3 := Append(Postrouting, Masquerade(pl.subnet, pl.bridge)), Append(Forward, AcceptBridge(pl.bridge)),
                      Append(Forward, AcceptReturn(pl.bridge));
    var p3 := Try(c3, Done(Ok));
    var p2 := Try(c2, p3);
    var p1 := Try(c1, p2);
    var h0 := Apply(EnableForwarding, h, faults(t)).host;
    var h1 := Apply(c1, h0, faults(t + 1)).host;
    var h2 := Apply(c2, h1, faults(t + 2)).host;
    var h3 := Apply(c3, h2, faults(t + 3)).host;
    assert Complete(p1, h0, t + 1, faults) && Complete(p2, h1, t + 2, faults) && Complete(p3, h2, t + 3, faults);
    assert Run(p3, h2, t + 3, faults).host == h3;
    assert Run(p2, h1, t + 2, faults).host == h3;
    assert Run(p1, h0, t + 1, faults).host == h3;
    assert h3.forward == h.forward + [c2.rule] + [c3.rule];
  }

  lemma BridgeAdds(pl: Plan, i: nat, h: HostState, t: nat, faults: nat -> bool, ch: Chain)
    requires var p := BridgeProg(pl.bridge, pl.subnet, pl.bridgeCidr);
             Run(p, h, t, faults).status == Ok && Complete(p, h, t, faults)
    ensures Run(BridgeProg(pl.bridge, pl.subnet, pl.bridgeCidr), h, t, faults).host.Rules(ch) ==
            h.Rules(ch) + LogRules([pl], BridgeItems(pl, 0, h.links), ch)
  {
    hide BridgeRules, ItemRules;
    var b := pl.bridge;
    if Dev(Root, b) in h.links && !faults(t) {
      assert Run(BridgeProg(b, pl.subnet, pl.bridgeCidr), h, t, faults) == Result(h, t + 1, Ok);
    } else {
      var rest := BridgeProg(b, pl.subnet, pl.bridgeCidr).no;
      assert Run(rest, h, t + 1, faults) == Run(BridgeProg(b, pl.subnet, pl.bridgeCidr), h, t, faults);
      NeedWorked(AddBridge(b), rest.yes, h, t + 1, faults);
      assert Dev(Root, b) !in h.links;
      var h1 := Apply(AddBridge(b), h, faults(t + 1)).host;
      var a := pl.bridgeCidr.value;
      var k := BridgeRules(b, pl.subnet);
      NeedWorked(AddrAdd(b, a), Need(LinkUp(b), k), h1, t + 2, faults);
      var h2 := Apply(AddrAdd(b, a), h1, faults(t + 2)).host;
      NeedWorked(LinkUp(b), k, h2, t + 3, faults);
      var h3 := Apply(LinkUp(b), h2, faults(t + 3)).host;
      LinkCommandChains(AddBridge(b), h, faults(t + 1));
      LinkCommandChains(AddrAdd(b, a), h1, faults(t + 2));
      LinkCommandChains(LinkUp(b), h2, faults(t + 3));
      BridgeRulesAdd(pl, 0, h3, t + 4, faults, ch);
      assert LogRules([pl], [Made(0)], ch) == ItemRules(pl, Made(0), ch) + [];
    }
  }

  /** A complete setup appends the rules of its bridge, if it made it, and then those of its ports. */
  lemma SetupAdds(pl: Plan, h: HostState, t: nat, faults: nat -> bool, ch: Chain)
    requires Run(SetupProg(pl), h, t, faults).status == Ok && Complete(SetupProg(pl), h, t, faults)
    ensures pl.cidr.Some?
    ensures Run(SetupProg(pl), h, t, faults).host.Rules(ch) ==
            h.Rules(ch) + LogRules([pl], BridgeItems(pl, 0, h.links) + [Live(0)], ch)
  {
    hide Run, Complete, BridgeProg, VethProg, ForwardProg, Plan.Ip, DnatRules, AcceptRules, LogRules;
    var bp := BridgeProg(pl.bridge, pl.subnet, pl.bridgeCidr);
    RunThen(bp, ConnectProg(pl), h, t, faults);
    var b := Run(bp, h, t, faults);
    BridgeAdds(pl, 0, h, t, faults, ch);
    RunDone(Error, b.host, b.clock, faults);
    var vp, fp := VethProg(pl.veth, pl.bridge, pl.cidr.value, pl.gateway, pl.pid), ForwardProg(pl.Ip(), pl.ports);
    RunThen(vp, fp, b.host, b.clock, faults);
    var v := Run(vp, b.host, b.clock, faults);
    VethOffChains(pl.veth, pl.bridge, pl.cidr.value, pl.gateway, pl.pid);
    OffChainsKeeps(vp, b.host, b.clock, faults, ch);
    ForwardAdds(pl.Ip(), pl.ports, v.host, v.clock, faults);
    LogRulesJoin([pl], BridgeItems(pl, 0, h.links), [Live(0)], ch);
    OneItem([pl], Live(0), ch);
  }

  lemma OneItem(pls: seq<Plan>, item: Item, ch: Chain)
    requires item.i < |pls|
    ensures LogRules(pls, [item], ch) == ItemRules(pls[item.i], item, ch)
  {
    assert LogRules(pls, [item], ch) == ItemRules(pls[item.i], item, ch) + [];
  }

  /** A cleanup deletes the first occurrences of the container's rules. */
  lemma CleanupTakes(pl: Plan, h: HostState, t: nat, faults: nat -> bool, ch: Chain)
    ensures Run(CleanupProg(pl.veth, pl.Ip(), pl.ports), h, t, faults).host.Rules(ch) ==
            RemoveEach(h.Rules(ch), ItemRules(pl, Live(0), ch))
  {
    hide Plan.Ip, RemoveProg, DnatRules, AcceptRules;
    var last := Try(LinkDelete(pl.veth), Done(Ok));
    RunThen(RemoveProg(pl.Ip(), pl.ports), last, h, t, faults);
    RemoveTakes(pl.Ip(), pl.ports, h, t, faults);
    var r := Run(RemoveProg(pl.Ip(), pl.ports), h, t, faults);
    OffChainsKeeps(last, r.host, r.clock, faults, ch);
  }

  /* ---- Histories ---- */

  function OpResult(pls: seq<Plan>, h: HostState, t: nat, faults: nat -> bool, op: Op): Result
    requires op.i < |pls|
  {
    var pl := pls[op.i];
    Run(if op.Up? then SetupProg(pl) else CleanupProg(pl.veth, pl.Ip(), pl.ports), h, t, faults)
  }

  function LogAfter(pls: seq<Plan>, log: seq<Item>, links: Links, op: Op): seq<Item>
    requires op.i < |pls|
  {
    if op.Up? then log + (BridgeItems(pls[op.i], op.i, links) + [Live(op.i)]) else RemoveFirst(log, Live(op.i))
  }

  /**
   A container is set up only while it is not live, with success and no rule refused, and cleaned up only while
   it is live.
   */
  predicate GoodOp(pls: seq<Plan>, log: seq<Item>, h: HostState, t: nat, faults: nat -> bool, op: Op) {
    && op.i < |pls|
    && (op.Up? <==> Live(op.i) !in log)
    && (op.Up? ==> Run(SetupProg(pls[op.i]), h, t, faults).status == Ok && Complete(SetupProg(pls[op.i]), h, t, faults))
  }

  predicate GoodHistory(pls: seq<Plan>, log: seq<Item>, h: HostState, t: nat, faults: nat -> bool, ops: seq<Op>)
    decreases |ops|
  {
    ops == [] ||
    (GoodOp(pls, log, h, t, faults, ops[0]) &&
     var r := OpResult(pls, h, t, faults, ops[0]);
     GoodHistory(pls, LogAfter(pls, log, h.links, ops[0]), r.host, r.clock, faults, ops[1..]))
  }

  /** The log and the host after a history. */
  function FinalLog(pls: seq<Plan>, log: seq<Item>, h: HostState, t: nat, faults: nat -> bool, ops: seq<Op>): seq<Item>
    requires GoodHistory(pls, log, h, t, faults, ops)
    decreases |ops|
  {
    if ops == [] then log
    else
      var r := OpResult(pls, h, t, faults, ops[0]);
      FinalLog(pls, LogAfter(pls, log, h.links, ops[0]), r.host, r.clock, faults, ops[1..])
  }

  function FinalHost(pls: seq<Plan>, log: seq<Item>, h: HostState, t: nat, faults: nat -> bool, ops: seq<Op>): HostState
    requires GoodHistory(pls, log, h, t, faults, ops)
    decreases |ops|
  {
    if ops == [] then h
    else
      var r := OpResult(pls, h, t, faults, ops[0]);
      FinalHost(pls, LogAfter(pls, log, h.links, ops[0]), r.host, r.clock, faults, ops[1..])
  }

  /** The log lists each live container once, with an address; each chain is its start followed by the log's rules. */
  ghost predicate LogInv(pls: seq<Plan>, init: HostState, log: seq<Item>, h: HostState) {
    && InRange(pls, log)
    && (forall k, l | 0 <= k < l < |log| && log[k].Live? :: log[k] != log[l])
    && (forall k | 0 <= k < |log| && log[k].Live? :: pls[log[k].i].cidr.Some?)
    && forall ch :: h.Rules(ch) == init.Rules(ch) + LogRules(pls, log, ch)
  }

  lemma BridgeItemRules(pls: seq<Plan>, i: nat, links: Links, ch: Chain)
    requires i < |pls|
    ensures var items := BridgeItems(pls[i], i, links) + [Live(i)];
            InRange(pls, items)
            && LogRules(pls, items, ch) == LogRules([pls[i]], BridgeItems(pls[i], 0, links) + [Live(0)], ch)
  {
    hide DnatRules, AcceptRules, Plan.Ip;
    LogRulesJoin(pls, BridgeItems(pls[i], i, links), [Live(i)], ch);
    LogRulesJoin([pls[i]], BridgeItems(pls[i], 0, links), [Live(0)], ch);
    OneItem(pls, Live(i), ch);
    OneItem([pls[i]], Live(0), ch);
    OneItem(pls, Made(i), ch);
    OneItem([pls[i]], Made(0), ch);
  }

  lemma UpKeeps(pls: seq<Plan>, init: HostState, log: seq<Item>, h: HostState, t: nat, faults: nat -> bool, op: Op)
    requires LogInv(pls, init, log, h) && GoodOp(pls, log, h, t, faults, op) && op.Up?
    ensures LogInv(pls, init, LogAfter(pls, log, h.links, op), OpResult(pls, h, t, faults, op).host)
  {
    hide Run, Complete, LogRules, SetupProg, Plan.Ip;
    var pl, items := pls[op.i], BridgeItems(pls[op.i], op.i, h.links) + [Live(op.i)];
    SetupAdds(pl, h, t, faults, Prerouting);
    forall ch: Chain
      ensures InRange(pls, log + items)
      ensures OpResult(pls, h, t, faults, op).host.Rules(ch) == init.Rules(ch) + LogRules(pls, log + items, ch)
    {
      SetupAdds(pl, h, t, faults, ch);
      BridgeItemRules(pls, op.i, h.links, ch);
      LogRulesJoin(pls, log, items, ch);
    }
  }

  lemma {:induction false} PortRulesNameIp(ip: string, ports: seq<PortMapping>)
    ensures forall r :: r in DnatRules(ip, ports) || r in AcceptRules(ip, ports) ==> IsPortRule(r) && RuleIp(r) == ip
  {
    if ports != [] {
      PortRulesNameIp(ip, ports[1..]);
    }
  }

  lemma ItemRulesName(pl: Plan, item: Item, ch: Chain)
    ensures forall r :: r in ItemRules(pl, item, ch) ==>
            if item.Live? then IsPortRule(r) && RuleIp(r) == pl.Ip() else !IsPortRule(r)
  {
    hide Plan.Ip;
    PortRulesNameIp(pl.Ip(), pl.ports);
  }

  /** Rules of other items do not carry this container's address. */
  lemma {:induction false} OthersRules(pls: seq<Plan>, init: HostState, log: seq<Item>, i: nat, ch: Chain)
    requires Roster(pls, init) && InRange(pls, log) && i < |pls| && Live(i) !in log
    requires forall k | 0 <= k < |log| && log[k].Live? :: pls[log[k].i].cidr.Some?
    ensures forall r :: r in LogRules(pls, log, ch) && IsPortRule(r) ==> RuleIp(r) != pls[i].Ip()
  {
    hide Plan.Ip, ItemRules;
    if log != [] {
      ItemRulesName(pls[log[0].i], log[0], ch);
      assert forall k | 0 <= k < |log[1..]| :: log[1..][k] == log[k + 1];
      OthersRules(pls, init, log[1..], i, ch);
    }
  }

  /** Where an item stands in the log. */
  lemma {:induction false} SplitAt(log: seq<Item>, x: Item) returns (a: seq<Item>, b: seq<Item>)
    requires x in log
    ensures log == a + [x] + b && x !in a && RemoveFirst(log, x) == a + b
  {
    if log[0] == x {
      a, b := [], log[1..];
    } else {
      a, b := SplitAt(log[1..], x);
      a := [log[0]] + a;
    }
  }

  lemma {:induction false} RulesAreEntries(i: nat, ip: string, ports: seq<PortMapping>)
    ensures forall r :: r in DnatRules(ip, ports) ==> Entry(OfContainer(i), Prerouting, r) in PortEntries(i, ip, ports)
    ensures forall r :: r in AcceptRules(ip, ports) ==> Entry(OfContainer(i), Forward, r) in PortEntries(i, ip, ports)
  {
    if ports != [] {
      RulesAreEntries(i, ip, ports[1..]);
    }
  }

  lemma ItemRulesOwn(pl: Plan, i: nat, ch: Chain)
    ensures forall r :: r in ItemRules(pl, Live(i), ch) ==> OwnRule(pl, i, ch, r)
  {
    hide Plan.Ip, DnatRules, AcceptRules, PortEntries;
    RulesAreEntries(i, pl.Ip(), pl.ports);
  }

  /** None of a container's rules comes before its own place in the log. */
  lemma NotBefore(pls: seq<Plan>, init: HostState, a: seq<Item>, i: nat, ch: Chain)
    requires Roster(pls, init) && InRange(pls, a) && i < |pls| && Live(i) !in a
    requires forall k | 0 <= k < |a| && a[k].Live? :: pls[a[k].i].cidr.Some?
    ensures forall r :: r in ItemRules(pls[i], Live(i), ch) ==> r !in init.Rules(ch) + LogRules(pls, a, ch)
  {
    hide Plan.Ip, ItemRules, LogRules, OwnRule;
    ItemRulesName(pls[i], Live(i), ch);
    ItemRulesOwn(pls[i], i, ch);
    OthersRules(pls, init, a, i, ch);
    assert NoOwnRules(init, pls[i], i);
  }

  lemma LogRulesSplit(pls: seq<Plan>, log: seq<Item>, a: seq<Item>, b: seq<Item>, i: nat, ch: Chain)
    requires InRange(pls, log) && log == a + [Live(i)] + b
    ensures i < |pls| && InRange(pls, a) && InRange(pls, b) && InRange(pls, a + b)
    ensures LogRules(pls, log, ch) == LogRules(pls, a, ch) + ItemRules(pls[i], Live(i), ch) + LogRules(pls, b, ch)
    ensures LogRules(pls, a + b, ch) == LogRules(pls, a, ch) + LogRules(pls, b, ch)
  {
    hide ItemRules, LogRules;
    assert log[|a|] == Live(i);
    assert forall k | 0 <= k < |a| :: a[k] == log[k];
    assert forall k | 0 <= k < |b| :: b[k] == log[|a| + 1 + k];
    LogRulesJoin(pls, a, [Live(i)], ch);
    LogRulesJoin(pls, a + [Live(i)], b, ch);
    LogRulesJoin(pls, a, b, ch);
    OneItem(pls, Live(i), ch);
  }

  lemma DownChain(pls: seq<Plan>, init: HostState, log: seq<Item>, a: seq<Item>, b: seq<Item>, i: nat, ch: Chain)
    requires Roster(pls, init) && InRange(pls, log) && log == a + [Live(i)] + b && Live(i) !in a && i < |pls|
    requires forall k | 0 <= k < |log| && log[k].Live? :: pls[log[k].i].cidr.Some?
    ensures InRange(pls, a + b)
    ensures RemoveEach(init.Rules(ch) + LogRules(pls, log, ch), ItemRules(pls[i], Live(i), ch)) ==
            init.Rules(ch) + LogRules(pls, a + b, ch)
  {
    hide Plan.Ip, ItemRules, LogRules, RemoveEach, Roster;
    LogRulesSplit(pls, log, a, b, i, ch);
    assert forall k | 0 <= k < |a| :: a[k] == log[k];
    NotBefore(pls, init, a, i, ch);
    var start, x, mine, y := init.Rules(ch), LogRules(pls, a, ch), ItemRules(pls[i], Live(i), ch), LogRules(pls, b, ch);
    assert start + (x + mine + y) == (start + x) + mine + y;
    assert start + (x + y) == (start + x) + y;
    RemoveBlock(start + x, mine, y);
  }

  /** Taking one item out keeps the log free of repetitions. */
  lemma LogShrinks(pls: seq<Plan>, log: seq<Item>, a: seq<Item>, b: seq<Item>, x: Item)
    requires log == a + [x] + b
    requires forall k, l | 0 <= k < l < |log| && log[k].Live? :: log[k] != log[l]
    ensures forall k, l | 0 <= k < l < |a + b| && (a + b)[k].Live? :: (a + b)[k] != (a + b)[l]
    ensures forall k | 0 <= k < |a + b| :: (a + b)[k] in log
  {
    assert forall k | 0 <= k < |a + b| :: (a + b)[k] == if k < |a| then log[k] else log[k + 1];
    forall k, l | 0 <= k < l < |a + b| && (a + b)[k].Live?
      ensures (a + b)[k] != (a + b)[l]
    {
      var k', l' := if k < |a| then k else k + 1, if l < |a| then l else l + 1;
      assert log[k'] != log[l'];
    }
  }

  lemma DownKeeps(pls: seq<Plan>, init: HostState, log: seq<Item>, h: HostState, t: nat, faults: nat -> bool, op: Op)
    requires Roster(pls, init) && LogInv(pls, init, log, h) && GoodOp(pls, log, h, t, faults, op) && op.Down?
    ensures LogInv(pls, init, LogAfter(pls, log, h.links, op), OpResult(pls, h, t, faults, op).host)
  {
    hide Run, LogRules, CleanupProg, Plan.Ip, ItemRules, RemoveEach, SetupProg, Complete, Roster, RemoveFirst;
    var a, b := SplitAt(log, Live(op.i));
    LogShrinks(pls, log, a, b, Live(op.i));
    LogRulesSplit(pls, log, a, b, op.i, Prerouting);
    forall ch: Chain
      ensures OpResult(pls, h, t, faults, op).host.Rules(ch) == init.Rules(ch) + LogRules(pls, a + b, ch)
    {
      CleanupTakes(pls[op.i], h, t, faults, ch);
      SameLive(pls[op.i], op.i, ch);
      DownChain(pls, init, log, a, b, op.i, ch);
    }
  }

  lemma SameLive(pl: Plan, i: nat, ch: Chain)
    ensures ItemRules(pl, Live(i), ch) == ItemRules(pl, Live(0), ch)
  {
  }

  /**
   After any history of complete setups and cleanups, each chain equals its initial contents followed,
   in order of issue, by the rules of the bridges made and of exactly the containers still live.
   */
  lemma {:induction false} ChainsFollowLog(pls: seq<Plan>, init: HostState, log: seq<Item>, h: HostState, t: nat,
                                           faults: nat -> bool, ops: seq<Op>)
    requires Roster(pls, init) && LogInv(pls, init, log, h) && GoodHistory(pls, log, h, t, faults, ops)
    ensures LogInv(pls, init, FinalLog(pls, log, h, t, faults, ops), FinalHost(pls, log, h, t, faults, ops))
    decreases |ops|
  {
    hide LogInv, LogAfter, OpResult, Roster, Run, Complete, SetupProg;
    if ops != [] {
      assert GoodOp(pls, log, h, t, faults, ops[0]);
      if ops[0].Up? {
        UpKeeps(pls, init, log, h, t, faults, ops[0]);
      } else {
        DownKeeps(pls, init, log, h, t, faults, ops[0]);
      }
      var r := OpResult(pls, h, t, faults, ops[0]);
      ChainsFollowLog(pls, init, LogAfter(pls, log, h.links, ops[0]), r.host, r.clock, faults, ops[1..]);
    }
  }

  /* ---- The owner of a port ---- */

  datatype Claim = Claim(i: nat, mapping: PortMapping)

  /** The earliest-set-up live container that publishes the pair, with its earliest mapping for it. */
  function OwnerOf(pls: seq<Plan>, log: seq<Item>, proto: string, port: int): Option<Claim>
    requires InRange(pls, log)
  {
    if log == [] then None
    else
      var m := FirstMapping(pls[log[0].i].ports, proto, port);
      if log[0].Live? && m.Some? then Some(Claim(log[0].i, m.value)) else OwnerOf(pls, log[1..], proto, port)
  }

  lemma {:induction false} OwnerIsMatch(pls: seq<Plan>, log: seq<Item>, proto: string, port: int)
    requires InRange(pls, log)
    ensures FirstMatch(LogRules(pls, log, Prerouting), proto, port) ==
            match OwnerOf(pls, log, proto, port)
            case None => None
            case Some(c) => if c.i < |pls| then Some(DnatRule(pls[c.i].Ip(), c.mapping)) else None
    ensures OwnerOf(pls, log, proto, port).Some? ==> OwnerOf(pls, log, proto, port).value.i < |pls|
  {
    hide DnatRules, FirstMapping, FirstMatch, Plan.Ip;
    if log == [] {
      FirstMatchNone(proto, port);
    } else {
      var pl := pls[log[0].i];
      FirstMatchJoin(ItemRules(pl, log[0], Prerouting), LogRules(pls, log[1..], Prerouting), proto, port);
      FirstMappingIsMatch(pl.Ip(), pl.ports, proto, port);
      FirstMatchNone(proto, port);
      OwnerIsMatch(pls, log[1..], proto, port);
    }
  }

  lemma FirstMatchNone(proto: string, port: int)
    ensures FirstMatch([], proto, port) == None
  {
  }

  /** First-match lookup in PREROUTING: an initial rule if one takes the packet, else the rule of the pair's owner. */
  lemma LookupIsOwner(pls: seq<Plan>, init: HostState, log: seq<Item>, h: HostState, proto: string, port: int)
    requires LogInv(pls, init, log, h)
    ensures FirstMatch(h.prerouting, proto, port) ==
            if FirstMatch(init.prerouting, proto, port).Some? then FirstMatch(init.prerouting, proto, port)
            else
              match OwnerOf(pls, log, proto, port)
              case None => None
              case Some(c) => if c.i < |pls| then Some(DnatRule(pls[c.i].Ip(), c.mapping)) else None
  {
    hide LogRules, FirstMatch, OwnerOf, Plan.Ip;
    assert h.Rules(Prerouting) == init.Rules(Prerouting) + LogRules(pls, log, Prerouting);
    FirstMatchJoin(init.prerouting, LogRules(pls, log, Prerouting), proto, port);
    OwnerIsMatch(pls, log, proto, port);
  }

  /** The owner in a log: that of its first part, or else that of the rest. */
  lemma {:induction false} OwnerJoin(pls: seq<Plan>, a: seq<Item>, b: seq<Item>, proto: string, port: int)
    requires InRange(pls, a) && InRange(pls, b)
    ensures InRange(pls, a + b)
    ensures OwnerOf(pls, a + b, proto, port) ==
            if OwnerOf(pls, a, proto, port).Some? then OwnerOf(pls, a, proto, port) else OwnerOf(pls, b, proto, port)
  {
    if a == [] {
      assert a + b == b;
    } else {
      OwnerJoin(pls, a[1..], b, proto, port);
      assert (a + b)[1..] == a[1..] + b;
    }
  }

  /**
   Cleaning up a container, live between `a` and `b` in the log: a pair that somebody in `a` owns stays
   theirs; a pair that the container owned passes to its owner among those set up later, if any.
   */
  lemma OwnerAfterCleanup(pls: seq<Plan>, a: seq<Item>, b: seq<Item>, i: nat, proto: string, port: int)
    requires InRange(pls, a) && InRange(pls, b) && i < |pls| && Live(i) !in a
    ensures var log := a + [Live(i)] + b;
            var earlier, own, later := OwnerOf(pls, a, proto, port), FirstMapping(pls[i].ports, proto, port),
                OwnerOf(pls, b, proto, port);
            && InRange(pls, log) && InRange(pls, RemoveFirst(log, Live(i)))
            && OwnerOf(pls, log, proto, port) ==
               (if earlier.Some? then earlier else if own.Some? then Some(Claim(i, own.value)) else later)
            && OwnerOf(pls, RemoveFirst(log, Live(i)), proto, port) == (if earlier.Some? then earlier else later)
  {
    hide OwnerOf, FirstMapping, RemoveFirst;
    var x := Live(i);
    RemoveFirstPast(a, [x] + b, x);
    assert a + [x] + b == a + ([x] + b);
    OwnerOfOne(pls, b, i, proto, port);
    OwnerJoin(pls, a, [x] + b, proto, port);
    OwnerJoin(pls, a, b, proto, port);
  }

  lemma OwnerOfOne(pls: seq<Plan>, b: seq<Item>, i: nat, proto: string, port: int)
    requires InRange(pls, b) && i < |pls|
    ensures var own := FirstMapping(pls[i].ports, proto, port);
            && InRange(pls, [Live(i)] + b) && RemoveFirst([Live(i)] + b, Live(i)) == b
            && OwnerOf(pls, [Live(i)] + b, proto, port) ==
               if own.Some? then Some(Claim(i, own.value)) else OwnerOf(pls, b, proto, port)
  {
    assert ([Live(i)] + b)[1..] == b;
  }

  /** The owner is the first live publisher in the order of setup, with the first of its mappings for the pair. */
  lemma {:induction false} OwnerIsEarliest(pls: seq<Plan>, log: seq<Item>, proto: string, port: int, k: nat)
    requires InRange(pls, log) && k < |log| && log[k].Live?
    requires FirstMapping(pls[log[k].i].ports, proto, port).Some?
    requires forall l | 0 <= l < k && log[l].Live? :: FirstMapping(pls[log[l].i].ports, proto, port).None?
    ensures OwnerOf(pls, log, proto, port) ==
            Some(Claim(log[k].i, FirstMapping(pls[log[k].i].ports, proto, port).value))
  {
    if k > 0 {
      assert forall l | 0 <= l < |log[1..]| :: log[1..][l] == log[l + 1];
      OwnerIsEarliest(pls, log[1..], proto, port, k - 1);
    }
  }
}
