/**
 Many containers set up and clean up at once: each one's process issues its
 commands one at a time, in any interleaving with the others, and any command
 that adds or changes something may fail. The theorems hold in every state that
 some sequence of events reaches.
 */
module Interleaving {
  import opened Wrappers
  import opened HostNet
  import opened Network
  import opened Ledger
  import opened Views
  import opened Sharing
  import opened Ports

  /** Where a container stands; `addressed` tells whether setup got past the bridge and wrote the addresses back. */
  datatype Phase =
    | Idle
    | Running(prog: Prog, goal: Goal, missed: bool)
    | Settled(status: Status, addressed: bool, missed: bool)

  datatype World = World(shared: Shared, phases: seq<Phase>)

  /** `kept` tells whether the container still has the addresses that an earlier setup wrote back. */
  datatype Event = Begin(i: nat) | Tick(i: nat, fault: bool) | BeginCleanup(i: nat, kept: bool)

  function Start(init: HostState, n: nat): World {
    World(Shared(init, [], map[]), seq(n, _ => Idle))
  }

  function CleanupFor(pl: Plan, addressed: bool): Prog {
    CleanupProg(pl.veth, if addressed then pl.Ip() else pl.given, pl.ports)
  }

  /** A finished program gives way to the next one. */
  function Finish(goal: Goal, status: Status, missed: bool, pl: Plan): Phase {
    match goal
    case BridgeGoal => if status == Ok then Running(ConnectProg(pl), ConnectGoal, false)
        else Settled(Error, false, true)
    case ConnectGoal => Settled(status, true, missed)
    case CleanGoal => Idle
  }

  /** One event; an event that does not apply changes nothing. */
  function Step(pls: seq<Plan>, w: World, e: Event): (w': World)
    requires |w.phases| == |pls|
    ensures |w'.phases| == |pls|
  {
    if e.i >= |pls| then w
    else
      var pl, phase := pls[e.i], w.phases[e.i];
      match (e, phase)
      case (Begin(_), Idle) =>
        w.(phases := w.phases[e.i := Running(BridgeProg(pl.bridge, pl.subnet, pl.bridgeCidr), BridgeGoal, false)])
      case (BeginCleanup(_, kept), Settled(_, addressed, _)) =>
        w.(phases := w.phases[e.i := Running(CleanupFor(pl, addressed || kept), CleanGoal, false)])
      case (Tick(_, fault), Running(Done(s), g, missed)) =>
        w.(phases := w.phases[e.i := Finish(g, s, missed, pl)])
      case (Tick(_, fault), Running(Do(c, yes, no), g, missed)) =>
        var (s', ok) := Issue(c, w.shared, pl, e.i, fault);
        World(s', w.phases[e.i := Running(if ok then yes else no, g, missed || (c.Append? && !ok))])
      case _ => w
  }

  /** The state after a sequence of events. */
  function Play(pls: seq<Plan>, w: World, es: seq<Event>): (w': World)
    requires |w.phases| == |pls|
    ensures |w'.phases| == |pls|
    decreases |es|
  {
    if es == [] then w else Play(pls, Step(pls, w, es[0]), es[1..])
  }

  /* ---- The invariant ---- */

  ghost predicate PhaseOk(phase: Phase, pl: Plan, i: nat, v: View) {
    match phase
    case Idle => v.own == [] && v.pair == NoPair
    case Running(p, g, missed) => Sound(p, pl, i, v, missed, g)
    case Settled(status, addressed, missed) =>
      if addressed then Reached(ConnectGoal, status, pl, i, v, missed)
      else status == Error && v.own == [] && v.pair == NoPair
  }

  ghost predicate WorldInv(pls: seq<Plan>, init: HostState, w: World) {
    && |w.phases| == |pls| && Inv(pls, init, w.shared)
    && forall i | 0 <= i < |pls| :: PhaseOk(w.phases[i], pls[i], i, ViewOf(w.shared, pls[i], i))
  }

  lemma StartInv(pls: seq<Plan>, init: HostState)
    requires Roster(pls, init)
    ensures WorldInv(pls, init, Start(init, |pls|))
  {
    var s := Start(init, |pls|).shared;
    assert forall ch :: s.host.Rules(ch) == init.Rules(ch) + RulesOn([], ch);
    assert forall i | 0 <= i < |pls| :: PairOf(init.links, pls[i]) == NoPair;
  }

  /** A program that follows another one starts soundly from where that one ended. */
  lemma FinishOk(pl: Plan, i: nat, v: View, g: Goal, status: Status, missed: bool)
    requires Reached(g, status, pl, i, v, missed)
    ensures PhaseOk(Finish(g, status, missed, pl), pl, i, v)
  {
    hide Sound;
    if g == BridgeGoal && status == Ok {
      SoundConnect(pl, i, v);
    }
  }

  lemma CleanupOk(pl: Plan, i: nat, v: View, status: Status, addressed: bool, kept: bool, missed: bool)
    requires PhaseOk(Settled(status, addressed, missed), pl, i, v)
    ensures Sound(CleanupFor(pl, addressed || kept), pl, i, v, false, CleanGoal)
  {
    hide Sound;
    SoundCleanup(pl, i, if addressed || kept then pl.Ip() else pl.given, pl.ports, v, false);
  }

  lemma StepKeeps(pls: seq<Plan>, init: HostState, w: World, e: Event)
    requires Roster(pls, init) && WorldInv(pls, init, w)
    ensures WorldInv(pls, init, Step(pls, w, e))
  {
    hide Inv, Roster, Issue, After, May, Possible, ViewOf, BridgeProg, CleanupFor, Finish, Reached;
    if e.i < |pls| {
      var i, pl := e.i, pls[e.i];
      var v := ViewOf(w.shared, pl, i);
      assert PhaseOk(w.phases[i], pl, i, v);
      match (e, w.phases[i]) {
        case (Begin(_), Idle) =>
          SoundBridge(pl, i, v, false);
        case (BeginCleanup(_, kept), Settled(status, addressed, missed)) =>
          CleanupOk(pl, i, v, status, addressed, kept, missed);
        case (Tick(_, fault), Running(Done(s), g, missed)) =>
          FinishOk(pl, i, v, g, s, missed);
        case (Tick(_, fault), Running(Do(c, yes, no), g, missed)) =>
          CommandKeeps(pls, init, w.shared, i, c, fault);
        case _ =>
      }
    }
  }

  /** Every reachable state meets the invariant. */
  lemma {:induction false} Reachable(pls: seq<Plan>, init: HostState, w: World, es: seq<Event>)
    requires Roster(pls, init) && WorldInv(pls, init, w)
    ensures WorldInv(pls, init, Play(pls, w, es))
    decreases |es|
  {
    if es != [] {
      StepKeeps(pls, init, w, es[0]);
      Reachable(pls, init, Step(pls, w, es[0]), es[1..]);
    }
  }

  /* ---- Theorems about every reachable state ---- */

  ghost predicate IsReachable(pls: seq<Plan>, init: HostState, w: World) {
    exists es :: w == Play(pls, Start(init, |pls|), es)
  }

  lemma ReachableInv(pls: seq<Plan>, init: HostState, w: World)
    requires Roster(pls, init) && IsReachable(pls, init, w)
    ensures WorldInv(pls, init, w)
  {
    var es :| w == Play(pls, Start(init, |pls|), es);
    StartInv(pls, init);
    Reachable(pls, init, Start(init, |pls|), es);
  }

  /**
   A rule for a published port of a container that is not idle, or one of the three of a bridge that some
   container made.
   */
  predicate LiveEntry(pls: seq<Plan>, w: World, e: Entry)
    requires |w.phases| == |pls|
  {
    match e.owner
    case OfContainer(i) => i < |pls| && w.phases[i] != Idle && e in PortEntries(i, pls[i].Ip(), pls[i].ports)
    case OfBridge(b) =>
      var makers := w.shared.makers;
      b in makers && makers[b] < |pls| && e in BridgeEntries(b, pls[makers[b]].subnet)
  }

  /**
   A container whose setup has ended has some of its rules in the ledger, and all of them in order when none was
   refused.
   */
  predicate SettledRules(pls: seq<Plan>, w: World, i: nat)
    requires |w.phases| == |pls| && i < |pls| && w.phases[i].Settled?
  {
    var own, all := Owned(w.shared.ledger, OfContainer(i)), PortEntries(i, pls[i].Ip(), pls[i].ports);
    multiset(own) <= multiset(all) && (w.phases[i].status == Ok && !w.phases[i].missed ==> own == all)
  }

  /**
   Each chain is its initial contents followed by the ledger's rules in order of issue; the ledger
   holds nothing of an idle container, only rules for published ports of the others, and exactly
   the rules of all its ports, in order, for a container whose setup ended well with no rule refused.
   */
  lemma ChainsHoldLiveRules(pls: seq<Plan>, init: HostState, w: World)
    requires Roster(pls, init) && IsReachable(pls, init, w)
    ensures forall ch :: w.shared.host.Rules(ch) == init.Rules(ch) + RulesOn(w.shared.ledger, ch)
    ensures forall e :: e in w.shared.ledger ==> LiveEntry(pls, w, e)
    ensures forall i | 0 <= i < |pls| && w.phases[i].Settled? :: SettledRules(pls, w, i)
  {
    hide RulesOn, Owned, PhaseOk, ViewOf, LinksInv, MakersInv, LiveEntry, SettledRules, Roster, IsReachable;
    ReachableInv(pls, init, w);
    forall e | e in w.shared.ledger
      ensures LiveEntry(pls, w, e)
    {
      EntryIsLive(pls, init, w, e);
    }
    forall i | 0 <= i < |pls| && w.phases[i].Settled?
      ensures SettledRules(pls, w, i)
    {
      RulesOfSettled(pls, init, w, i);
    }
  }

  lemma EntryIsLive(pls: seq<Plan>, init: HostState, w: World, e: Entry)
    requires WorldInv(pls, init, w) && e in w.shared.ledger
    ensures LiveEntry(pls, w, e)
  {
    hide RulesOn, PhaseOk, PairOf, PortEntries, Plan.Ip, BridgeEntries, LinksInv, MakersInv, Owned;
    assert WellOwned(pls, w.shared.makers, e);
    match e.owner {
      case OfContainer(i) =>
        InItsOwners(w.shared.ledger, e);
        IdleOwnsNothing(w.phases[i], pls[i], i, ViewOf(w.shared, pls[i], i));
      case OfBridge(b) =>
        BridgeEntryIsOne(pls, init, w.shared, e);
    }
  }

  lemma InItsOwners(led: seq<Entry>, e: Entry)
    requires e in led
    ensures e in Owned(led, e.owner) && Owned(led, e.owner) != []
  {
    hide Owned;
  }

  /** An entry of a bridge that some container made is one of its three. */
  lemma BridgeEntryIsOne(pls: seq<Plan>, init: HostState, s: Shared, e: Entry)
    requires MakersInv(pls, init, s) && e in s.ledger && e.owner.OfBridge? && e.owner.bridge in s.makers
    ensures var b := e.owner.bridge;
            s.makers[b] < |pls| && e in BridgeEntries(b, pls[s.makers[b]].subnet)
  {
    hide BridgeEntries, Owned;
    var own := Owned(s.ledger, e.owner);
    assert e in own;
    assert e in multiset(own);
  }

  lemma IdleOwnsNothing(phase: Phase, pl: Plan, i: nat, v: View)
    requires PhaseOk(phase, pl, i, v) && v.own != []
    ensures phase != Idle
  {
    hide Sound, Reached;
  }

  lemma RulesOfSettled(pls: seq<Plan>, init: HostState, w: World, i: nat)
    requires WorldInv(pls, init, w) && i < |pls| && w.phases[i].Settled?
    ensures SettledRules(pls, w, i)
  {
    hide Inv, Owned, PairOf, PortEntries, Plan.Ip, BridgeEntries;
    assert PhaseOk(w.phases[i], pls[i], i, ViewOf(w.shared, pls[i], i));
  }

  /**
   A bridge's own rules are added at most once each, however many containers share it, and never for a bridge
   found there.
   */
  lemma BridgeRulesOnce(pls: seq<Plan>, init: HostState, w: World, b: string)
    requires Roster(pls, init) && IsReachable(pls, init, w)
    ensures forall e :: multiset(Owned(w.shared.ledger, OfBridge(b)))[e] <= 1
    ensures Dev(Root, b) in init.links ==> Owned(w.shared.ledger, OfBridge(b)) == []
  {
    hide RulesOn, Owned, PortEntries, Plan.Ip, Sound, PhaseOk;
    ReachableInv(pls, init, w);
    if b in w.shared.makers {
      BridgeEntriesDiffer(b, pls[w.shared.makers[b]].subnet);
    } else {
      NoBridgeRules(pls, init, w.shared, b);
    }
  }

  lemma BridgeEntriesDiffer(b: string, subnet: string)
    ensures forall e :: multiset(BridgeEntries(b, subnet))[e] <= 1
  {
    var es := BridgeEntries(b, subnet);
    assert multiset(es) == multiset{es[0], es[1], es[2]};
  }

  /** The pair of a container: gone when it is idle, joined to its own namespace when its setup ended well. */
  predicate WiredAs(pls: seq<Plan>, w: World, i: nat)
    requires |w.phases| == |pls| && i < |pls|
  {
    var links, veth := w.shared.host.links, Dev(Root, pls[i].veth);
    match PairOf(links, pls[i])
    case NoPair => veth !in links && (w.phases[i].Settled? ==> w.phases[i].status != Ok)
    case InHost => w.phases[i] != Idle && (w.phases[i].Settled? ==> w.phases[i].status != Ok)
        && Joined(links, veth, Dev(Root, ETH0))
    case Wired => w.phases[i] != Idle && Joined(links, veth, Dev(Pid(pls[i].pid), ETH0))
  }

  /** An interface of a container that is not idle. */
  ghost predicate OfLiveContainer(pls: seq<Plan>, w: World, d: Dev)
    requires |w.phases| == |pls|
  {
    exists i :: 0 <= i < |pls| && w.phases[i] != Idle && PartOfPair(w.shared.host.links, pls[i], d)
  }

  /**
   The host has its initial interfaces, unchanged, the bridges made since, and the pairs of
   containers that are not idle; `eth0` on the host is the far end of at most one pair at a time,
   and a far end that has moved is in its own container's namespace.
   */
  lemma Wiring(pls: seq<Plan>, init: HostState, w: World)
    requires Roster(pls, init) && IsReachable(pls, init, w)
    ensures forall d :: d in init.links ==> d in w.shared.host.links && w.shared.host.links[d] == init.links[d]
    ensures forall d :: d in w.shared.host.links ==>
              d in init.links || (d.ns == Root && d.name in w.shared.makers) || OfLiveContainer(pls, w, d)
    ensures forall i | 0 <= i < |pls| :: WiredAs(pls, w, i)
    ensures forall i, j | 0 <= i < j < |pls| ::
              PairOf(w.shared.host.links, pls[i]) != InHost || PairOf(w.shared.host.links, pls[j]) != InHost
  {
    hide RulesOn, Owned, PortEntries, Plan.Ip, Sound, BridgeEntries, WellOwned;
    ReachableInv(pls, init, w);
    var links := w.shared.host.links;
    forall i | 0 <= i < |pls|
      ensures WiredAs(pls, w, i)
    {
      WiredNow(pls, init, w, i);
    }
    forall i, j | 0 <= i < j < |pls|
      ensures PairOf(links, pls[i]) != InHost || PairOf(links, pls[j]) != InHost
    {
      if PairOf(links, pls[i]) == InHost {
        OneInHost(pls, init.links, links, w.shared.makers.Keys, i, j);
      }
    }
    forall d | d in links && d !in init.links && !(d.ns == Root && d.name in w.shared.makers)
      ensures OfLiveContainer(pls, w, d)
    {
      var i :| 0 <= i < |pls| && PartOfPair(links, pls[i], d);
      assert WiredAs(pls, w, i);
    }
  }

  lemma PhasePair(phase: Phase, pl: Plan, i: nat, v: View)
    requires PhaseOk(phase, pl, i, v)
    ensures (phase == Idle ==> v.pair == NoPair) && (phase.Settled? && phase.status == Ok ==> v.pair == Wired)
  {
    hide Sound, PortEntries, Plan.Ip;
  }

  lemma WiredNow(pls: seq<Plan>, init: HostState, w: World, i: nat)
    requires WorldInv(pls, init, w) && i < |pls|
    ensures WiredAs(pls, w, i)
  {
    hide Owned, PhaseOk, BridgeEntries, ChainsInv, MakersInv;
    PhasePair(w.phases[i], pls[i], i, ViewOf(w.shared, pls[i], i));
    assert PairInv(init.links, w.shared.host.links, pls[i]);
  }

  /* ---- First-match lookup ---- */

  /** The earliest live claim on a protocol and host port. */
  function FirstClaim(led: seq<Entry>, proto: string, port: int): Option<Entry> {
    if led == [] then None
    else if led[0].chain == Prerouting && led[0].rule.Takes(proto, port) then Some(led[0])
    else FirstClaim(led[1..], proto, port)
  }

  lemma {:induction false} FirstMatchJoin(a: seq<Rule>, b: seq<Rule>, proto: string, port: int)
    ensures FirstMatch(a + b, proto, port) ==
            if FirstMatch(a, proto, port).Some? then FirstMatch(a, proto, port) else FirstMatch(b, proto, port)
  {
    if a == [] {
      assert a + b == b;
    } else {
      FirstMatchJoin(a[1..], b, proto, port);
      assert (a + b)[1..] == a[1..] + b;
    }
  }

  lemma {:induction false} FirstClaimIsMatch(led: seq<Entry>, proto: string, port: int)
    ensures FirstMatch(RulesOn(led, Prerouting), proto, port) ==
            match FirstClaim(led, proto, port) case None => None case Some(e) => Some(e.rule)
    ensures FirstClaim(led, proto, port).Some? ==>
              var e := FirstClaim(led, proto, port).value;
              e in led && e.chain == Prerouting && e.rule.Takes(proto, port)
  {
    if led != [] {
      FirstClaimIsMatch(led[1..], proto, port);
    }
  }

  /** A mapping of container `i` that publishes this pair. */
  predicate Publishes(pls: seq<Plan>, i: nat, m: PortMapping, proto: string, port: int)
    requires i < |pls|
  {
    m in pls[i].ports && m.protocol == proto && m.hostPort == port
  }

  /** A claim that is the rule of a container that is not idle, for a mapping it publishes. */
  ghost predicate HonestClaim(pls: seq<Plan>, w: World, e: Entry, proto: string, port: int)
    requires |w.phases| == |pls|
  {
    && e.owner.OfContainer? && e.owner.i < |pls| && w.phases[e.owner.i] != Idle
    && exists m :: Publishes(pls, e.owner.i, m, proto, port) && e.rule == DnatRule(pls[e.owner.i].Ip(), m)
  }

  /** An initial rule that takes the packet, or else the rule of the earliest live claim. */
  function InitialOrClaim(init: HostState, led: seq<Entry>, proto: string, port: int): Option<Rule> {
    if FirstMatch(init.prerouting, proto, port).Some? then FirstMatch(init.prerouting, proto, port)
    else
      match FirstClaim(led, proto, port)
      case None => None
      case Some(e) => Some(e.rule)
  }

  lemma LookupByLedger(init: HostState, s: Shared, proto: string, port: int)
    requires s.host.Rules(Prerouting) == init.Rules(Prerouting) + RulesOn(s.ledger, Prerouting)
    ensures FirstMatch(s.host.prerouting, proto, port) == InitialOrClaim(init, s.ledger, proto, port)
  {
    hide RulesOn, FirstMatch, FirstClaim;
    FirstMatchJoin(init.prerouting, RulesOn(s.ledger, Prerouting), proto, port);
    FirstClaimIsMatch(s.ledger, proto, port);
  }

  /** A container whose setup ended well with no rule refused, and the pair is among those it publishes. */
  predicate LivePublisher(pls: seq<Plan>, w: World, i: nat, proto: string, port: int)
    requires |w.phases| == |pls|
  {
    && i < |pls| && w.phases[i].Settled? && w.phases[i].status == Ok && !w.phases[i].missed
    && FirstMapping(pls[i].ports, proto, port).Some?
  }

  /** The first claim of all is the first claim of its owner. */
  lemma {:induction false} ClaimIsOwnersFirst(led: seq<Entry>, proto: string, port: int)
    ensures var claim := FirstClaim(led, proto, port);
            claim.Some? ==> FirstClaim(Owned(led, claim.value.owner), proto, port) == claim
  {
    if led != [] {
      ClaimIsOwnersFirst(led[1..], proto, port);
    }
  }

  /** Where somebody has a claim there is a first one. */
  lemma {:induction false} SomeClaim(led: seq<Entry>, o: Owner, proto: string, port: int)
    requires FirstClaim(Owned(led, o), proto, port).Some?
    ensures FirstClaim(led, proto, port).Some?
  {
    if !(led[0].chain == Prerouting && led[0].rule.Takes(proto, port)) {
      SomeClaim(led[1..], o, proto, port);
    }
  }

  /** Among all the rules of one container, its earliest mapping for the pair is the first claim. */
  lemma {:induction false} ClaimOfPorts(i: nat, ip: string, ports: seq<PortMapping>, proto: string, port: int)
    ensures FirstClaim(PortEntries(i, ip, ports), proto, port) ==
            match FirstMapping(ports, proto, port)
            case None => None
            case Some(m) => Some(Entry(OfContainer(i), Prerouting, DnatRule(ip, m)))
  {
    if ports != [] {
      ClaimOfPorts(i, ip, ports[1..], proto, port);
      var es := PortEntries(i, ip, ports);
      assert es[1..][1..] == PortEntries(i, ip, ports[1..]);
    }
  }

  /** Of a live publisher, the first claim in its own entries is its earliest mapping. */
  lemma PublisherClaims(pls: seq<Plan>, init: HostState, w: World, i: nat, proto: string, port: int)
    requires Roster(pls, init) && IsReachable(pls, init, w) && LivePublisher(pls, w, i, proto, port)
    ensures var m := FirstMapping(pls[i].ports, proto, port).value;
            FirstClaim(Owned(w.shared.ledger, OfContainer(i)), proto, port) ==
            Some(Entry(OfContainer(i), Prerouting, DnatRule(pls[i].Ip(), m)))
  {
    hide RulesOn, Owned, PortEntries, Plan.Ip, FirstClaim, Roster, Play, FirstMapping;
    ChainsHoldLiveRules(pls, init, w);
    assert SettledRules(pls, w, i);
    ClaimOfPorts(i, pls[i].Ip(), pls[i].ports, proto, port);
  }

  /**
   Reading PREROUTING first-match gives an initial rule if one takes the packet, and otherwise the
   earliest live claim. There is one whenever a live container publishes the pair. It is the rule of a
   container that is not idle and publishes the pair; of a live publisher it is the earliest mapping.
   */
  lemma LookupFindsOwner(pls: seq<Plan>, init: HostState, w: World, proto: string, port: int)
    requires Roster(pls, init) && IsReachable(pls, init, w)
    ensures var claim := FirstClaim(w.shared.ledger, proto, port);
            && FirstMatch(w.shared.host.prerouting, proto, port) == InitialOrClaim(init, w.shared.ledger, proto, port)
            && (claim.Some? ==> HonestClaim(pls, w, claim.value, proto, port))
            && ((exists i :: LivePublisher(pls, w, i, proto, port)) ==> claim.Some?)
            && (claim.Some? && LivePublisher(pls, w, claim.value.owner.i, proto, port) ==>
                  var i := claim.value.owner.i;
                  claim.value.rule == DnatRule(pls[i].Ip(), FirstMapping(pls[i].ports, proto, port).value))
  {
    hide RulesOn, PortEntries, Plan.Ip, FirstClaim, FirstMatch, Roster, Play, LivePublisher, Owned;
    var led := w.shared.ledger;
    ChainsHoldLiveRules(pls, init, w);
    LookupByLedger(init, w.shared, proto, port);
    FirstClaimIsMatch(led, proto, port);
    if i :| LivePublisher(pls, w, i, proto, port) {
      PublisherClaims(pls, init, w, i, proto, port);
      SomeClaim(led, OfContainer(i), proto, port);
    }
    if FirstClaim(led, proto, port).Some? {
      var e := FirstClaim(led, proto, port).value;
      assert LiveEntry(pls, w, e);
      ClaimIsPublished(pls, w, e, proto, port);
      ClaimIsOwnersFirst(led, proto, port);
      if LivePublisher(pls, w, e.owner.i, proto, port) {
        PublisherClaims(pls, init, w, e.owner.i, proto, port);
      }
    }
  }

  lemma ClaimIsPublished(pls: seq<Plan>, w: World, e: Entry, proto: string, port: int)
    requires |w.phases| == |pls| && LiveEntry(pls, w, e) && e.chain == Prerouting && e.rule.Takes(proto, port)
    ensures HonestClaim(pls, w, e, proto, port)
  {
    hide PortEntries, Plan.Ip;
    var i := e.owner.i;
    PortEntriesAre(i, pls[i].Ip(), pls[i].ports, e);
    var m :| m in pls[i].ports && e.rule == DnatRule(pls[i].Ip(), m);
    assert Publishes(pls, i, m, proto, port);
  }
}
