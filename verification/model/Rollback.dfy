/**
 One container's operation run to its end. What setup leaves behind, whichever
 of its commands failed, cleanup takes away, and a cleanup hands each of the
 container's ports to the next claimant.
 */
module Rollback {
  import opened Wrappers
  import opened HostNet
  import opened Network
  import opened Ledger
  import opened Views
  import opened Sharing
  import opened Interleaving

  /** Only container `i` goes on, until its program is done. */
  function Solo(pls: seq<Plan>, w: World, i: nat, t: nat, faults: nat -> bool): World
    requires |w.phases| == |pls| && i < |pls| && w.phases[i].Running?
    decreases w.phases[i].prog
  {
    if w.phases[i].prog.Done? then w else Solo(pls, Step(pls, w, Tick(i, faults(t))), i, t + 1, faults)
  }

  /** The ledger without the entries of one owner. */
  function Without(led: seq<Entry>, o: Owner): seq<Entry> {
    if led == [] then []
    else if led[0].owner == o then Without(led[1..], o)
    else [led[0]] + Without(led[1..], o)
  }

  lemma {:induction false} WithoutRemove(led: seq<Entry>, e: Entry)
    ensures Without(RemoveFirst(led, e), e.owner) == Without(led, e.owner)
  {
    if led != [] && led[0] != e {
      WithoutRemove(led[1..], e);
      assert RemoveFirst(led, e)[1..] == RemoveFirst(led[1..], e);
    }
  }

  lemma {:induction false} WithoutNone(led: seq<Entry>, o: Owner)
    requires Owned(led, o) == []
    ensures Without(led, o) == led
  {
    if led != [] {
      WithoutNone(led[1..], o);
    }
  }

  /** A claim of another owner stays the first; a claim of the owner gives way to the first one of somebody else. */
  lemma {:induction false} ClaimWithout(led: seq<Entry>, o: Owner, proto: string, port: int)
    ensures var claim, next := FirstClaim(led, proto, port), FirstClaim(Without(led, o), proto, port);
            && (claim.None? ==> next.None?)
            && (claim.Some? && claim.value.owner != o ==> next == claim)
            && (next.Some? ==> next.value.owner != o && next.value in led)
  {
    if led != [] {
      ClaimWithout(led[1..], o, proto, port);
      if led[0].owner != o {
        assert Without(led, o)[1..] == Without(led[1..], o);
      }
    }
  }

  /** What one command of a sound program does, besides what the view shows. */
  lemma TickFacts(pls: seq<Plan>, init: HostState, w: World, i: nat, fault: bool)
    requires Roster(pls, init) && WorldInv(pls, init, w) && i < |pls|
    requires w.phases[i].Running? && w.phases[i].prog.Do?
    ensures var Running(Do(c, yes, no), g, missed) := w.phases[i];
            var o := Apply(c, w.shared.host, fault);
            var w' := Step(pls, w, Tick(i, fault));
            && w'.shared.host == o.host
            && w'.phases == w.phases[i := Running(if o.ok then yes else no, g, missed || (c.Append? && !o.ok))]
            && (g != BridgeGoal ==> w'.shared.makers == w.shared.makers)
            && (g == CleanGoal ==>
                  Without(w'.shared.ledger, OfContainer(i)) == Without(w.shared.ledger, OfContainer(i)))
  {
    hide Apply, May, Possible, Inv, Roster, After, Without, ViewOf;
    var Running(Do(c, yes, no), g, missed) := w.phases[i];
    assert PhaseOk(w.phases[i], pls[i], i, ViewOf(w.shared, pls[i], i));
    assert Fits(c, g);
    MayDelete(c, pls[i], i, ViewOf(w.shared, pls[i], i));
    if c.Delete? {
      WithoutRemove(w.shared.ledger, EntryFor(c.chain, c.rule, pls[i], i));
    }
    ApplyFailed(c, w.shared.host, fault);
  }

  lemma MayDelete(c: Cmd, pl: Plan, i: nat, v: View)
    requires May(c, pl, i, v)
    ensures c.Delete? ==> IsPortRule(c.rule)
  {
    hide Plan.Ip;
  }

  /** A command that fails changes nothing. */
  lemma ApplyFailed(c: Cmd, h: HostState, fault: bool)
    ensures !Apply(c, h, fault).ok ==> Apply(c, h, fault).host == h
  {
    hide LinkEffect;
  }

  /** What changes between two worlds when container `i` alone runs its program to its end, with result `r`. */
  predicate RanAlone(w: World, w': World, i: nat, r: Result, complete: bool)
    requires i < |w.phases| && w.phases[i].Running?
  {
    var Running(_, g, missed) := w.phases[i];
    && w'.shared.host == r.host
    && w'.phases == w.phases[i := Running(Done(r.status), g, missed || !complete)]
    && (g != BridgeGoal ==> w'.shared.makers == w.shared.makers)
    && (g == CleanGoal ==> Without(w'.shared.ledger, OfContainer(i)) == Without(w.shared.ledger, OfContainer(i)))
  }

  /** Running alone does what the program's run says, and keeps the invariant. */
  lemma {:induction false} SoloIsRun(pls: seq<Plan>, init: HostState, w: World, i: nat, t: nat, faults: nat -> bool)
    requires |w.phases| == |pls| && i < |pls| && w.phases[i].Running? && Roster(pls, init) && WorldInv(pls, init, w)
    ensures WorldInv(pls, init, Solo(pls, w, i, t, faults))
    ensures RanAlone(w, Solo(pls, w, i, t, faults), i, Run(w.phases[i].prog, w.shared.host, t, faults),
                     Complete(w.phases[i].prog, w.shared.host, t, faults))
    decreases w.phases[i].prog
  {
    hide WorldInv, Step, Apply, Roster, Without;
    if w.phases[i].prog.Do? {
      StepKeeps(pls, init, w, Tick(i, faults(t)));
      TickFacts(pls, init, w, i, faults(t));
      SoloIsRun(pls, init, Step(pls, w, Tick(i, faults(t))), i, t + 1, faults);
    }
  }

  /** Once its program is done, a container's view is at the program's goal. */
  lemma SoloReaches(pls: seq<Plan>, init: HostState, w: World, i: nat, t: nat, faults: nat -> bool)
    requires Roster(pls, init) && WorldInv(pls, init, w) && i < |pls| && w.phases[i].Running?
    ensures var Running(p, g, missed) := w.phases[i];
            var w' := Solo(pls, w, i, t, faults);
            Reached(g, Run(p, w.shared.host, t, faults).status, pls[i], i, ViewOf(w'.shared, pls[i], i),
                    missed || !Complete(p, w.shared.host, t, faults))
  {
    hide Reached, ViewOf, Inv, Solo, Roster, Run, Complete;
    SoloIsRun(pls, init, w, i, t, faults);
    var w' := Solo(pls, w, i, t, faults);
    assert PhaseOk(w'.phases[i], pls[i], i, ViewOf(w'.shared, pls[i], i));
  }

  /**
   A container's cleanup, run to its end from any reachable state, removes exactly its entries from the
   ledger. So on the host a pair that an initial rule or somebody else's claim decides is looked up as before;
   a pair that the container owned passes to the next claimant, if any.
   */
  lemma CleanupHandsOver(pls: seq<Plan>, init: HostState, w: World, i: nat, t: nat, faults: nat -> bool,
                         proto: string, port: int)
    requires Roster(pls, init) && WorldInv(pls, init, w) && i < |pls|
    requires w.phases[i].Running? && w.phases[i].goal == CleanGoal
    ensures var after := Solo(pls, w, i, t, faults).shared;
            var claim, next := FirstClaim(w.shared.ledger, proto, port), FirstClaim(after.ledger, proto, port);
            var before, now := FirstMatch(w.shared.host.prerouting, proto, port),
                FirstMatch(after.host.prerouting, proto, port);
            && after.ledger == Without(w.shared.ledger, OfContainer(i)) && Owned(after.ledger, OfContainer(i)) == []
            && before == InitialOrClaim(init, w.shared.ledger, proto, port)
            && now == InitialOrClaim(init, after.ledger, proto, port)
            && (claim.None? || claim.value.owner != OfContainer(i) ==> next == claim && now == before)
            && (next.Some? ==> next.value.owner != OfContainer(i) && next.value in w.shared.ledger)
  {
    hide Inv, Solo, Roster, Run, Complete, PhaseOk, Without, FirstClaim, FirstMatch, Owned, RulesOn;
    SoloIsRun(pls, init, w, i, t, faults);
    SoloReaches(pls, init, w, i, t, faults);
    var after := Solo(pls, w, i, t, faults).shared;
    WithoutNone(after.ledger, OfContainer(i));
    ClaimWithout(w.shared.ledger, OfContainer(i), proto, port);
    InvLookup(pls, init, w.shared, proto, port);
    InvLookup(pls, init, after, proto, port);
  }

  lemma InvLookup(pls: seq<Plan>, init: HostState, s: Shared, proto: string, port: int)
    requires Inv(pls, init, s)
    ensures FirstMatch(s.host.prerouting, proto, port) == InitialOrClaim(init, s.ledger, proto, port)
  {
    hide LinksInv, MakersInv, RulesOn, FirstMatch, FirstClaim, WellOwned;
    LookupByLedger(init, s, proto, port);
  }

  /* ---- Setup, then cleanup ---- */

  /** One container that is somewhere in its life, on a host taken as the starting point. */
  function OneWorld(h: HostState, phase: Phase): World {
    World(Shared(h, [], map[]), [phase])
  }

  lemma OneWorldInv(pl: Plan, h: HostState, phase: Phase)
    requires Roster([pl], h)
    requires forall v: View :: v.own == [] && v.pair == NoPair ==> PhaseOk(phase, pl, 0, v)
    ensures WorldInv([pl], h, OneWorld(h, phase))
  {
    hide PhaseOk, Plan.Ip;
    var s := OneWorld(h, phase).shared;
    assert forall ch :: s.host.Rules(ch) == h.Rules(ch) + RulesOn([], ch);
    assert PairOf(h.links, pl) == NoPair by {
      assert [pl][0] == pl;
    }
  }

  /** The bridge step leaves the container's rules and veth name free. */
  lemma BridgeLeavesRoster(pl: Plan, h: HostState, t: nat, faults: nat -> bool)
    requires Roster([pl], h)
    ensures Roster([pl], Run(BridgeProg(pl.bridge, pl.subnet, pl.bridgeCidr), h, t, faults).host)
  {
    hide Solo, Run, Sound, Plan.Ip, Complete, BridgeProg, RulesOn, Owned, PortEntries, BridgeEntries, PairOf;
    var p := BridgeProg(pl.bridge, pl.subnet, pl.bridgeCidr);
    forall v: View | v.own == [] && v.pair == NoPair
      ensures PhaseOk(Running(p, BridgeGoal, false), pl, 0, v)
    {
      SoundBridge(pl, 0, v, false);
    }
    var w := OneWorld(h, Running(p, BridgeGoal, false));
    OneWorldInv(pl, h, w.phases[0]);
    SoloIsRun([pl], h, w, 0, t, faults);
    SoloReaches([pl], h, w, 0, t, faults);
    RosterStays(pl, h, Solo([pl], w, 0, t, faults).shared);
  }

  lemma RosterStays(pl: Plan, h: HostState, s: Shared)
    requires Roster([pl], h) && Inv([pl], h, s) && ViewOf(s, pl, 0).own == [] && ViewOf(s, pl, 0).pair == NoPair
    ensures Roster([pl], s.host)
  {
    hide Plan.Ip, BridgeEntries, PortEntries, LinksInv, MakersInv;
    assert [pl][0] == pl;
    forall e | e in s.ledger
      ensures !IsPortRule(e.rule)
    {
      assert WellOwned([pl], s.makers, e);
      assert e in Owned(s.ledger, OfContainer(0)) <==> e.owner == OfContainer(0);
    }
    assert NoOwnRules(h, pl, 0);
    forall ch: Chain, r | r in s.host.Rules(ch)
      ensures !OwnRule(pl, 0, ch, r)
    {
      if IsPortRule(r) {
        assert r in h.Rules(ch);
      } else {
        OwnIsPortRule(pl, 0, ch, r);
      }
    }
  }

  lemma OwnIsPortRule(pl: Plan, i: nat, ch: Chain, r: Rule)
    ensures OwnRule(pl, i, ch, r) ==> IsPortRule(r)
  {
    hide Plan.Ip, PortEntries;
    var e := Entry(OfContainer(i), ch, r);
    if e in PortEntries(i, pl.Ip(), pl.ports) {
      PortEntriesAre(i, pl.Ip(), pl.ports, e);
    } else if e in PortEntries(i, pl.given, pl.ports) {
      PortEntriesAre(i, pl.given, pl.ports, e);
    }
  }

  /** With one container and no new bridge, the whole ledger is that container's. */
  lemma OneOwner(pl: Plan, h: HostState, s: Shared)
    requires ChainsInv([pl], h, s) && s.makers == map[]
    ensures Owned(s.ledger, OfContainer(0)) == s.ledger
  {
    forall e | e in s.ledger
      ensures e.owner == OfContainer(0)
    {
      assert WellOwned([pl], s.makers, e);
    }
    AllOwned(s.ledger, OfContainer(0));
  }

  /** No entry, no pair and no new bridge: the host is as it was. */
  lemma NothingLeft(pl: Plan, h: HostState, s: Shared)
    requires Inv([pl], h, s) && s.makers == map[] && ViewOf(s, pl, 0).own == [] && ViewOf(s, pl, 0).pair == NoPair
    ensures s.host == h
  {
    hide Plan.Ip, BridgeEntries, PortEntries;
    assert [pl][0] == pl;
    OneOwner(pl, h, s);
    assert forall ch :: s.host.Rules(ch) == h.Rules(ch) + RulesOn([], ch);
    assert s.host.prerouting == s.host.Rules(Prerouting) && s.host.postrouting == s.host.Rules(Postrouting);
    assert s.host.forward == s.host.Rules(Forward);
    assert h.prerouting == h.Rules(Prerouting) && h.postrouting == h.Rules(Postrouting)
        && h.forward == h.Rules(Forward);
    assert s.host.links == h.links;
  }

  lemma {:induction false} AllOwned(led: seq<Entry>, o: Owner)
    requires forall e :: e in led ==> e.owner == o
    ensures Owned(led, o) == led
  {
    if led != [] {
      assert led[0] in led;
      AllOwned(led[1..], o);
    }
  }

  /** The cleanup of a container whose setup has ended, when nothing else happened on the host since `h`. */
  lemma CleanupRestores(pl: Plan, h: HostState, w: World, t: nat, faults: nat -> bool)
    requires Roster([pl], h) && WorldInv([pl], h, w) && w.shared.makers == map[]
    requires w.phases[0].Settled?
    ensures var r := Run(CleanupFor(pl, w.phases[0].addressed), w.shared.host, t, faults);
            r.host == h
  {
    hide Inv, Solo, Run, Sound, Plan.Ip, Complete, CleanupFor, Reached, ViewOf, Roster;
    var w2 := Step([pl], w, BeginCleanup(0, false));
    StepKeeps([pl], h, w, BeginCleanup(0, false));
    assert w2.phases[0] == Running(CleanupFor(pl, w.phases[0].addressed), CleanGoal, false);
    SoloIsRun([pl], h, w2, 0, t, faults);
    SoloReaches([pl], h, w2, 0, t, faults);
    Cleaned(pl, ViewOf(Solo([pl], w2, 0, t, faults).shared, pl, 0));
    NothingLeft(pl, h, Solo([pl], w2, 0, t, faults).shared);
  }

  lemma Cleaned(pl: Plan, v: View)
    ensures forall s, m :: Reached(CleanGoal, s, pl, 0, v, m) ==> v.own == [] && v.pair == NoPair
  {
  }

  /** The whole setup is the bridge step, and the rest when that went well. */
  lemma SetupSplits(pl: Plan, h: HostState, t: nat, faults: nat -> bool)
    ensures var b := Run(BridgeProg(pl.bridge, pl.subnet, pl.bridgeCidr), h, t, faults);
            Run(SetupProg(pl), h, t, faults) ==
            if b.status == Ok then Run(ConnectProg(pl), b.host, b.clock, faults) else b.(status := Error)
  {
    hide Run, BridgeProg, ConnectProg;
    RunThen(BridgeProg(pl.bridge, pl.subnet, pl.bridgeCidr), ConnectProg(pl), h, t, faults);
  }

  /**
   Setup followed by cleanup, whichever commands fail: the host ends exactly as the bridge step alone
   leaves it - every chain in its order, every interface, nothing of the container. Cleanup works with
   the address that setup wrote back, or with the one given when setup did not get that far.
   */
  lemma SetupThenCleanup(pl: Plan, h: HostState, t: nat, faults: nat -> bool)
    requires Roster([pl], h)
    ensures var b := Run(BridgeProg(pl.bridge, pl.subnet, pl.bridgeCidr), h, t, faults);
            var s := Run(SetupProg(pl), h, t, faults);
            Run(CleanupFor(pl, b.status == Ok), s.host, s.clock, faults).host == b.host
  {
    hide Solo, Run, Sound, Plan.Ip, Complete, BridgeProg, SetupProg, ConnectProg, CleanupFor, Inv, Roster, ViewOf,
        Reached;
    var b := Run(BridgeProg(pl.bridge, pl.subnet, pl.bridgeCidr), h, t, faults);
    var s := Run(SetupProg(pl), h, t, faults);
    SetupSplits(pl, h, t, faults);
    BridgeLeavesRoster(pl, h, t, faults);
    if b.status == Ok {
      forall v: View | v.own == [] && v.pair == NoPair
        ensures PhaseOk(Running(ConnectProg(pl), ConnectGoal, false), pl, 0, v)
      {
        SoundConnect(pl, 0, v);
      }
      var w := OneWorld(b.host, Running(ConnectProg(pl), ConnectGoal, false));
      OneWorldInv(pl, b.host, w.phases[0]);
      SoloIsRun([pl], b.host, w, 0, b.clock, faults);
      var w1 := Solo([pl], w, 0, b.clock, faults);
      StepKeeps([pl], b.host, w1, Tick(0, false));
      CleanupRestores(pl, b.host, Step([pl], w1, Tick(0, false)), s.clock, faults);
    } else {
      var w := OneWorld(b.host, Settled(Error, false, true));
      OneWorldInv(pl, b.host, w.phases[0]);
      CleanupRestores(pl, b.host, w, s.clock, faults);
    }
  }
}
