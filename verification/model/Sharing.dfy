/**
 The shared host and the views on it. The invariant ties the chains to the
 ledger and the interfaces to the containers' pairs; each allowed command keeps
 it, changes the issuer's view as `After` says, and changes no other view.
 */
module Sharing {
  import opened HostNet
  import opened Network
  import opened Ledger
  import opened Views

  /** The host, with the ledger of live rules and the container that made each bridge. */
  datatype Shared = Shared(host: HostState, ledger: seq<Entry>, makers: map<string, nat>)

  /* ---- Views of the shared state ---- */

  function PairOf(links: Links, pl: Plan): Pair {
    var d := Dev(Root, pl.veth);
    if d !in links then NoPair
    else if links[d].VethLink? && links[d].peer == Dev(Root, ETH0) then InHost
    else Wired
  }

  /** Where the far end of the pair is. */
  function FarEnd(pair: Pair, pl: Plan): Dev {
    Dev(if pair == InHost then Root else Pid(pl.pid), ETH0)
  }

  predicate Won(makers: map<string, nat>, pl: Plan, i: nat) {
    pl.bridge in makers && makers[pl.bridge] == i
  }

  function ViewOf(s: Shared, pl: Plan, i: nat): View {
    View(Owned(s.ledger, OfContainer(i)), PairOf(s.host.links, pl), Won(s.makers, pl, i),
         if Won(s.makers, pl, i)
         then multiset(BridgeEntries(pl.bridge, pl.subnet)) - multiset(Owned(s.ledger, OfBridge(pl.bridge)))
         else multiset{})
  }

  /* ---- Assumptions on the containers and the host they start on ---- */

  /** None of the container's own rules is on the host. */
  predicate NoOwnRules(h: HostState, pl: Plan, i: nat) {
    forall ch, r :: r in h.Rules(ch) ==> !OwnRule(pl, i, ch, r)
  }

  /** Distinct addresses and interface names; no container's own rule or interface name is on the host at the start. */
  predicate Roster(pls: seq<Plan>, init: HostState) {
    && (forall i | 0 <= i < |pls| ::
          pls[i].veth != ETH0 && Dev(Root, pls[i].veth) !in init.links && NoOwnRules(init, pls[i], i))
    && (forall i, j | 0 <= i < |pls| && 0 <= j < |pls| :: pls[i].veth != pls[j].bridge)
    && (forall i, j | 0 <= i < j < |pls| ::
          && pls[i].veth != pls[j].veth
          && (pls[j].cidr.Some? ==> pls[j].Ip() !in {pls[i].Ip(), pls[i].given})
          && (pls[i].cidr.Some? ==> pls[i].Ip() !in {pls[j].Ip(), pls[j].given}))
  }

  /* ---- The invariant ---- */

  predicate Joined(links: Links, a: Dev, b: Dev) {
    && a in links && b in links && links[a].VethLink? && links[b].VethLink?
    && links[a].peer == b && links[b].peer == a
  }

  predicate PartOfPair(links: Links, pl: Plan, d: Dev) {
    var pair := PairOf(links, pl);
    pair != NoPair && (d == Dev(Root, pl.veth) || d == FarEnd(pair, pl))
  }

  /** The interfaces are the initial ones unchanged, the bridges made since, and the containers' pairs. */
  ghost predicate LinksInv(pls: seq<Plan>, links0: Links, links: Links, made: set<string>) {
    && (forall d :: d in links0 ==> d in links && links[d] == links0[d])
    && (forall b :: b in made ==> Dev(Root, b) in links && Dev(Root, b) !in links0 && links[Dev(Root, b)].BridgeLink?)
    && (forall i | 0 <= i < |pls| :: PairInv(links0, links, pls[i]))
    && (forall d :: d in links ==>
          || d in links0
          || (d.ns == Root && d.name in made)
          || exists i :: 0 <= i < |pls| && PartOfPair(links, pls[i], d))
  }

  predicate PairInv(links0: Links, links: Links, pl: Plan) {
    var pair := PairOf(links, pl);
    pair != NoPair ==> Joined(links, Dev(Root, pl.veth), FarEnd(pair, pl)) && FarEnd(pair, pl) !in links0
  }

  /**
   A container's entries are rules for its published ports; a bridge's entries are there only once the bridge
   was made.
   */
  predicate WellOwned(pls: seq<Plan>, makers: map<string, nat>, e: Entry) {
    match e.owner
    case OfContainer(j) => j < |pls| && pls[j].cidr.Some? && e in PortEntries(j, pls[j].Ip(), pls[j].ports)
    case OfBridge(b) => !IsPortRule(e.rule) && b in makers
  }

  /** Each chain is its initial contents followed by the ledger's rules, in order of issue. */
  ghost predicate ChainsInv(pls: seq<Plan>, init: HostState, s: Shared) {
    && (forall ch :: s.host.Rules(ch) == init.Rules(ch) + RulesOn(s.ledger, ch))
    && (forall e :: e in s.ledger ==> WellOwned(pls, s.makers, e))
  }

  /** Every bridge in the record was made by one container, which added each of its rules at most once. */
  ghost predicate MakersInv(pls: seq<Plan>, init: HostState, s: Shared) {
    && (forall b :: b in s.makers ==>
          && s.makers[b] < |pls| && pls[s.makers[b]].bridge == b
          && multiset(Owned(s.ledger, OfBridge(b))) <= multiset(BridgeEntries(b, pls[s.makers[b]].subnet)))
    && (s.makers == map[] ==> s.host.forwarding == init.forwarding)
  }

  ghost predicate Inv(pls: seq<Plan>, init: HostState, s: Shared) {
    ChainsInv(pls, init, s) && LinksInv(pls, init.links, s.host.links, s.makers.Keys) && MakersInv(pls, init, s)
  }

  /* ---- One command on the shared state ---- */

  function LedgerAfter(c: Cmd, led: seq<Entry>, pl: Plan, i: nat): seq<Entry> {
    match c
    case Append(ch, r) => led + [EntryFor(ch, r, pl, i)]
    case Delete(ch, r) => RemoveFirst(led, EntryFor(ch, r, pl, i))
    case _ => led
  }

  /** The shared state after a command of container `i`, together with whether it worked. */
  function Issue(c: Cmd, s: Shared, pl: Plan, i: nat, fault: bool): (Shared, bool) {
    var o := Apply(c, s.host, fault);
    if o.ok then
      (Shared(o.host, LedgerAfter(c, s.ledger, pl, i), if c.AddBridge? then s.makers[c.name := i] else s.makers), true)
    else (s, false)
  }

  /** The issuer's view moves as the abstract command does; the others stay. */
  ghost predicate Simulates(pls: seq<Plan>, s: Shared, s': Shared, i: nat, v': View)
    requires i < |pls|
  {
    && ViewOf(s', pls[i], i) == v'
    && forall j | 0 <= j < |pls| && j != i :: ViewOf(s', pls[j], j) == ViewOf(s, pls[j], j)
  }

  /* ---- Chains ---- */

  lemma AppendChains(pls: seq<Plan>, init: HostState, s: Shared, i: nat, ch: Chain, r: Rule)
    requires ChainsInv(pls, init, s) && i < |pls|
    requires WellOwned(pls, s.makers, EntryFor(ch, r, pls[i], i))
    ensures ChainsInv(pls, init, Issue(Append(ch, r), s, pls[i], i, false).0)
  {
    hide RulesOn, WellOwned;
    var e := EntryFor(ch, r, pls[i], i);
    var s' := Issue(Append(ch, r), s, pls[i], i, false).0;
    forall ch': Chain
      ensures s'.host.Rules(ch') == init.Rules(ch') + RulesOn(s'.ledger, ch')
    {
      RulesOnJoin(s.ledger, [e], ch');
      OneRule(e, ch');
    }
  }

  lemma OneRule(e: Entry, ch: Chain)
    ensures RulesOn([e], ch) == if e.chain == ch then [e.rule] else []
    ensures forall o :: Owned([e], o) == if e.owner == o then [e] else []
  {
  }

  /** A ledger entry whose rule names an address of container `i` is that container's. */
  lemma OnlyOwn(pls: seq<Plan>, init: HostState, s: Shared, i: nat, x: Entry)
    requires Roster(pls, init) && ChainsInv(pls, init, s) && i < |pls| && x in s.ledger
    requires IsPortRule(x.rule) && RuleIp(x.rule) in {pls[i].Ip(), pls[i].given}
    ensures x.owner == OfContainer(i)
  {
    hide Plan.Ip, RulesOn, PortEntries;
    assert WellOwned(pls, s.makers, x);
    match x.owner {
      case OfContainer(j) => PortEntriesAre(j, pls[j].Ip(), pls[j].ports, x);
      case OfBridge(_) =>
    }
  }

  lemma DeleteChains(pls: seq<Plan>, init: HostState, s: Shared, i: nat, ch: Chain, r: Rule)
    requires Roster(pls, init) && ChainsInv(pls, init, s) && i < |pls|
    requires IsPortRule(r) && RuleIp(r) in {pls[i].Ip(), pls[i].given} && OwnRule(pls[i], i, ch, r)
    ensures r in s.host.Rules(ch) <==> EntryFor(ch, r, pls[i], i) in s.ledger
    ensures r in s.host.Rules(ch) ==> ChainsInv(pls, init, Issue(Delete(ch, r), s, pls[i], i, false).0)
  {
    hide Plan.Ip, RulesOn, RemoveFirst, OwnRule;
    var e := EntryFor(ch, r, pls[i], i);
    assert NoOwnRules(init, pls[i], i);
    assert r !in init.Rules(ch);
    forall x | x in s.ledger && x.chain == ch && x.rule == r
      ensures x == e
    {
      OnlyOwn(pls, init, s, i, x);
    }
    assert r in RulesOn(s.ledger, ch) <==> e in s.ledger;
    if r in s.host.Rules(ch) {
      var s' := Issue(Delete(ch, r), s, pls[i], i, false).0;
      forall ch': Chain
        ensures s'.host.Rules(ch') == init.Rules(ch') + RulesOn(s'.ledger, ch')
      {
        RulesOnRemove(s.ledger, e, ch');
        RemoveFirstPast(init.Rules(ch), RulesOn(s.ledger, ch), r);
      }
      RemoveFirstMultiset(s.ledger, e);
    }
  }

  /** What a command on a chain leaves alone. */
  lemma IssueChain(c: Cmd, s: Shared, pl: Plan, i: nat, fault: bool)
    requires c.Append? || c.Delete?
    ensures var (s', ok) := Issue(c, s, pl, i, fault);
            && s'.host.links == s.host.links && s'.host.forwarding == s.host.forwarding && s'.makers == s.makers
            && s'.ledger == (if ok then LedgerAfter(c, s.ledger, pl, i) else s.ledger) && (!ok ==> s' == s)
            && (c.Append? ==> ok == !fault) && (c.Delete? ==> ok == (c.rule in s.host.Rules(c.chain)))
  {
  }

  /** From one ledger to the other, only the entries of `o` changed. */
  ghost predicate OwnerChanged(led: seq<Entry>, led': seq<Entry>, o: Owner, own: seq<Entry>) {
    forall x :: Owned(led', x) == if x == o then own else Owned(led, x)
  }

  /** The same host interfaces, forwarding switch and bridge record; a command on a chain changes none of these. */
  predicate SameBut(s: Shared, s': Shared) {
    s'.host.links == s.host.links && s'.host.forwarding == s.host.forwarding && s'.makers == s.makers
  }

  lemma OwnerAppend(led: seq<Entry>, e: Entry)
    ensures OwnerChanged(led, led + [e], e.owner, Owned(led, e.owner) + [e])
  {
    forall x
      ensures Owned(led + [e], x) == if x == e.owner then Owned(led, x) + [e] else Owned(led, x)
    {
      OwnedJoin(led, [e], x);
    }
  }

  lemma OwnerRemove(led: seq<Entry>, e: Entry)
    ensures OwnerChanged(led, RemoveFirst(led, e), e.owner, RemoveFirst(Owned(led, e.owner), e))
  {
    forall x
      ensures Owned(RemoveFirst(led, e), x) == if x == e.owner then RemoveFirst(Owned(led, x), e) else Owned(led, x)
    {
      OwnedRemove(led, e, x);
    }
  }

  /** A change of one container's entries concerns no bridge. */
  lemma ContainerMakers(pls: seq<Plan>, init: HostState, s: Shared, s': Shared, i: nat, own: seq<Entry>)
    requires MakersInv(pls, init, s) && SameBut(s, s') && OwnerChanged(s.ledger, s'.ledger, OfContainer(i), own)
    ensures MakersInv(pls, init, s')
  {
    hide Owned, BridgeEntries;
  }

  /** A view does not depend on another owner's entries, nor on a bridge that its container did not make. */
  lemma OtherView(s: Shared, s': Shared, pl: Plan, j: nat, o: Owner, own: seq<Entry>)
    requires SameBut(s, s') && OwnerChanged(s.ledger, s'.ledger, o, own)
    requires o != OfContainer(j) && (o == OfBridge(pl.bridge) ==> !Won(s.makers, pl, j))
    ensures ViewOf(s', pl, j) == ViewOf(s, pl, j)
  {
    hide Owned, PairOf, BridgeEntries;
  }

  /** ... and no other view. */
  lemma ContainerViews(pls: seq<Plan>, s: Shared, s': Shared, i: nat, own: seq<Entry>)
    requires i < |pls| && SameBut(s, s') && OwnerChanged(s.ledger, s'.ledger, OfContainer(i), own)
    ensures Simulates(pls, s, s', i, ViewOf(s, pls[i], i).(own := own))
  {
    hide Owned, PairOf, BridgeEntries;
    forall j | 0 <= j < |pls| && j != i
      ensures ViewOf(s', pls[j], j) == ViewOf(s, pls[j], j)
    {
      OtherView(s, s', pls[j], j, OfContainer(i), own);
    }
  }

  /** A bridge rule within the budget of the container that made the bridge is within the bridge's rules. */
  lemma BridgeMakers(pls: seq<Plan>, init: HostState, s: Shared, s': Shared, i: nat, e: Entry)
    requires MakersInv(pls, init, s) && i < |pls| && SameBut(s, s')
    requires OwnerChanged(s.ledger, s'.ledger, OfBridge(pls[i].bridge), Owned(s.ledger, OfBridge(pls[i].bridge)) + [e])
    requires Won(s.makers, pls[i], i)
    requires e in multiset(BridgeEntries(pls[i].bridge, pls[i].subnet))
                  - multiset(Owned(s.ledger, OfBridge(pls[i].bridge)))
    ensures MakersInv(pls, init, s')
  {
    hide Owned, BridgeEntries;
    var m := multiset(Owned(s.ledger, OfBridge(pls[i].bridge)));
    assert multiset(Owned(s'.ledger, OfBridge(pls[i].bridge))) == m + multiset{e};
  }

  lemma Spend(full: multiset<Entry>, m: multiset<Entry>, e: Entry)
    ensures full - (m + multiset{e}) == (full - m) - multiset{e}
  {
  }

  /** ... and concerns no other view: only one container made that bridge. */
  lemma BridgeViews(pls: seq<Plan>, s: Shared, s': Shared, i: nat, e: Entry)
    requires i < |pls| && SameBut(s, s')
    requires OwnerChanged(s.ledger, s'.ledger, OfBridge(pls[i].bridge), Owned(s.ledger, OfBridge(pls[i].bridge)) + [e])
    requires Won(s.makers, pls[i], i)
    ensures Simulates(pls, s, s', i, ViewOf(s, pls[i], i).(budget := ViewOf(s, pls[i], i).budget - multiset{e}))
  {
    hide Owned, PairOf, BridgeEntries;
    var o := OfBridge(pls[i].bridge);
    forall j | 0 <= j < |pls| && j != i
      ensures ViewOf(s', pls[j], j) == ViewOf(s, pls[j], j)
    {
      OtherView(s, s', pls[j], j, o, Owned(s.ledger, o) + [e]);
    }
    assert multiset(Owned(s'.ledger, o)) == multiset(Owned(s.ledger, o)) + multiset{e};
    Spend(multiset(BridgeEntries(pls[i].bridge, pls[i].subnet)), multiset(Owned(s.ledger, OfBridge(pls[i].bridge))), e);
  }

  lemma AppendKeeps(pls: seq<Plan>, init: HostState, s: Shared, i: nat, ch: Chain, r: Rule)
    requires Inv(pls, init, s) && i < |pls| && May(Append(ch, r), pls[i], i, ViewOf(s, pls[i], i))
    ensures var s' := Issue(Append(ch, r), s, pls[i], i, false).0;
            Inv(pls, init, s') && Simulates(pls, s, s', i, After(Append(ch, r), pls[i], i, ViewOf(s, pls[i], i)))
  {
    hide LinksInv, MakersInv, ChainsInv, Issue, Owned, PairOf, BridgeEntries, Simulates, OwnerChanged;
    var e := EntryFor(ch, r, pls[i], i);
    var s' := Issue(Append(ch, r), s, pls[i], i, false).0;
    IssueChain(Append(ch, r), s, pls[i], i, false);
    OwnerAppend(s.ledger, e);
    AppendChains(pls, init, s, i, ch, r);
    if IsPortRule(r) {
      ContainerMakers(pls, init, s, s', i, Owned(s.ledger, OfContainer(i)) + [e]);
      ContainerViews(pls, s, s', i, Owned(s.ledger, OfContainer(i)) + [e]);
    } else {
      BridgeMakers(pls, init, s, s', i, e);
      BridgeViews(pls, s, s', i, e);
    }
  }

  lemma DeleteKeeps(pls: seq<Plan>, init: HostState, s: Shared, i: nat, ch: Chain, r: Rule)
    requires Roster(pls, init) && Inv(pls, init, s) && i < |pls|
    requires May(Delete(ch, r), pls[i], i, ViewOf(s, pls[i], i))
    ensures r in s.host.Rules(ch) <==> EntryFor(ch, r, pls[i], i) in ViewOf(s, pls[i], i).own
    ensures r in s.host.Rules(ch) ==>
              var s' := Issue(Delete(ch, r), s, pls[i], i, false).0;
              Inv(pls, init, s') && Simulates(pls, s, s', i, After(Delete(ch, r), pls[i], i, ViewOf(s, pls[i], i)))
  {
    hide LinksInv, MakersInv, ChainsInv, Issue, Owned, PairOf, BridgeEntries, Simulates, OwnerChanged, Roster,
        RemoveFirst;
    var e := EntryFor(ch, r, pls[i], i);
    DeleteChains(pls, init, s, i, ch, r);
    if r in s.host.Rules(ch) {
      var s' := Issue(Delete(ch, r), s, pls[i], i, false).0;
      IssueChain(Delete(ch, r), s, pls[i], i, false);
      OwnerRemove(s.ledger, e);
      ContainerMakers(pls, init, s, s', i, RemoveFirst(Owned(s.ledger, OfContainer(i)), e));
      ContainerViews(pls, s, s', i, RemoveFirst(Owned(s.ledger, OfContainer(i)), e));
    }
  }

  /* ---- Interfaces ---- */

  /** The same interface with other settings. */
  predicate SameKind(l: Link, l': Link) {
    match l
    case BridgeLink(_, _) => l'.BridgeLink?
    case VethLink(peer, _, _, _, _) => l'.VethLink? && l'.peer == peer
    case OtherLink => l'.OtherLink?
  }

  ghost predicate SamePairs(pls: seq<Plan>, links: Links, links': Links) {
    forall j | 0 <= j < |pls| :: PairOf(links', pls[j]) == PairOf(links, pls[j])
  }

  lemma SettingsPair(links0: Links, links: Links, pl: Plan, d: Dev, l': Link)
    requires PairInv(links0, links, pl) && d in links && SameKind(links[d], l')
    ensures PairInv(links0, links[d := l'], pl) && PairOf(links[d := l'], pl) == PairOf(links, pl)
    ensures forall x :: PartOfPair(links, pl, x) ==> PartOfPair(links[d := l'], pl, x)
  {
  }

  /** Changing the settings of an interface that was not there at the start. */
  lemma SettingsKeep(pls: seq<Plan>, links0: Links, links: Links, made: set<string>, d: Dev, l': Link)
    requires LinksInv(pls, links0, links, made) && d in links && d !in links0 && SameKind(links[d], l')
    ensures LinksInv(pls, links0, links[d := l'], made) && SamePairs(pls, links, links[d := l'])
  {
    hide PairInv, PairOf, PartOfPair;
    forall i | 0 <= i < |pls| {
      SettingsPair(links0, links, pls[i], d, l');
    }
  }

  predicate SameAt(links: Links, links': Links, d: Dev) {
    (d in links <==> d in links') && (d in links ==> links'[d] == links[d])
  }

  /** The interfaces of the pair are not among these. */
  predicate Clear(links: Links, pl: Plan, touched: set<Dev>) {
    Dev(Root, pl.veth) !in touched && (PairOf(links, pl) != NoPair ==> FarEnd(PairOf(links, pl), pl) !in touched)
  }

  lemma ClearPair(links0: Links, links: Links, links': Links, pl: Plan, touched: set<Dev>)
    requires PairInv(links0, links, pl) && Clear(links, pl, touched)
    requires forall d :: d !in touched ==> SameAt(links, links', d)
    ensures PairInv(links0, links', pl) && PairOf(links', pl) == PairOf(links, pl)
    ensures forall x :: PartOfPair(links, pl, x) ==> PartOfPair(links', pl, x)
  {
    assert SameAt(links, links', Dev(Root, pl.veth));
    if PairOf(links, pl) != NoPair {
      assert SameAt(links, links', FarEnd(PairOf(links, pl), pl));
    }
  }

  /** A change within interfaces that belong to container `i` alone. */
  lemma Rewire(pls: seq<Plan>, links0: Links, links: Links, links': Links, made: set<string>, i: nat, touched: set<Dev>)
    requires LinksInv(pls, links0, links, made) && i < |pls|
    requires forall d :: d !in touched ==> SameAt(links, links', d)
    requires forall d :: d in touched ==> d !in links0 && !(d.ns == Root && d.name in made)
    requires forall j | 0 <= j < |pls| && j != i :: Clear(links, pls[j], touched)
    requires PairInv(links0, links', pls[i])
    requires forall d :: PartOfPair(links, pls[i], d) ==> d in touched
    requires forall d :: d in links' && d in touched ==> PartOfPair(links', pls[i], d)
    ensures LinksInv(pls, links0, links', made)
    ensures forall j | 0 <= j < |pls| && j != i :: PairOf(links', pls[j]) == PairOf(links, pls[j])
  {
    hide PairInv, PairOf, PartOfPair, Clear;
    forall j | 0 <= j < |pls| && j != i
      ensures PairInv(links0, links', pls[j]) && PairOf(links', pls[j]) == PairOf(links, pls[j])
      ensures forall x :: PartOfPair(links, pls[j], x) ==> PartOfPair(links', pls[j], x)
    {
      ClearPair(links0, links, links', pls[j], touched);
    }
    assert forall b :: b in made ==> SameAt(links, links', Dev(Root, b));
    assert forall d :: d in links0 ==> SameAt(links, links', d);
    forall d | d in links' && d !in links0 && !(d.ns == Root && d.name in made)
      ensures exists j :: 0 <= j < |pls| && PartOfPair(links', pls[j], d)
    {
      if d in touched {
        assert PartOfPair(links', pls[i], d);
      } else {
        assert SameAt(links, links', d);
        var j :| 0 <= j < |pls| && PartOfPair(links, pls[j], d);
        assert PartOfPair(links', pls[j], d);
      }
    }
  }

  lemma BridgeKeeps(pls: seq<Plan>, links0: Links, links: Links, made: set<string>, b: string, l: Link)
    requires LinksInv(pls, links0, links, made) && Dev(Root, b) !in links && l.BridgeLink?
    requires forall j | 0 <= j < |pls| :: pls[j].veth != b
    ensures LinksInv(pls, links0, links[Dev(Root, b) := l], made + {b})
            && SamePairs(pls, links, links[Dev(Root, b) := l])
  {
    hide PairInv, PairOf, PartOfPair, Clear;
    var links' := links[Dev(Root, b) := l];
    forall j | 0 <= j < |pls|
      ensures PairInv(links0, links', pls[j]) && PairOf(links', pls[j]) == PairOf(links, pls[j])
      ensures forall x :: PartOfPair(links, pls[j], x) ==> PartOfPair(links', pls[j], x)
    {
      NewNameClear(links0, links, pls[j], Dev(Root, b));
      ClearPair(links0, links, links', pls[j], {Dev(Root, b)});
    }
  }

  /** An interface that does not exist is no part of a pair. */
  lemma NewNameClear(links0: Links, links: Links, pl: Plan, d: Dev)
    requires PairInv(links0, links, pl) && d !in links && d != Dev(Root, pl.veth)
    ensures Clear(links, pl, {d})
  {
  }

  /** The interface names of the containers are their own. */
  predicate OwnNames(pls: seq<Plan>, links0: Links, made: set<string>, i: nat) {
    && i < |pls| && pls[i].veth !in made
    && (forall j | 0 <= j < |pls| :: pls[j].veth != ETH0 && Dev(Root, pls[j].veth) !in links0)
    && (forall j | 0 <= j < |pls| && j != i :: pls[j].veth != pls[i].veth)
  }

  /** Only the pair of container `i` changed, to `pair`. */
  ghost predicate PairBecomes(pls: seq<Plan>, links: Links, links': Links, i: nat, pair: Pair)
    requires i < |pls|
  {
    && PairOf(links', pls[i]) == pair
    && forall j | 0 <= j < |pls| && j != i :: PairOf(links', pls[j]) == PairOf(links, pls[j])
  }

  /** The parts of a pair, and that they belong to nobody else. */
  lemma Parts(pls: seq<Plan>, links0: Links, links: Links, made: set<string>, i: nat)
    requires LinksInv(pls, links0, links, made) && OwnNames(pls, links0, made, i)
    ensures var v, pair := Dev(Root, pls[i].veth), PairOf(links, pls[i]);
            var e := FarEnd(pair, pls[i]);
            && v !in links0 && (pair == NoPair ==> forall d :: !PartOfPair(links, pls[i], d))
            && (pair != NoPair ==>
                  && Joined(links, v, e) && e !in links0 && !(e.ns == Root && e.name in made)
                  && (forall d :: PartOfPair(links, pls[i], d) <==> d in {v, e})
                  && forall j | 0 <= j < |pls| && j != i :: Clear(links, pls[j], {v, e}))
  {
    assert PairInv(links0, links, pls[i]);
    if PairOf(links, pls[i]) != NoPair {
      forall j | 0 <= j < |pls| && j != i
        ensures Clear(links, pls[j], {Dev(Root, pls[i].veth), FarEnd(PairOf(links, pls[i]), pls[i])})
      {
        OtherPair(links0, links, pls[i], pls[j]);
      }
    }
  }

  /** The interfaces of one pair are not those of another. */
  lemma OtherPair(links0: Links, links: Links, pl: Plan, other: Plan)
    requires PairInv(links0, links, pl) && PairInv(links0, links, other) && PairOf(links, pl) != NoPair
    requires pl.veth != other.veth && pl.veth != ETH0 && other.veth != ETH0
    ensures Clear(links, other, {Dev(Root, pl.veth), FarEnd(PairOf(links, pl), pl)})
  {
  }

  /** An interface that does not exist is no part of any pair, except as the name of a veth to come. */
  lemma NewName(pls: seq<Plan>, links0: Links, links: Links, made: set<string>, d: Dev)
    requires LinksInv(pls, links0, links, made) && d !in links
    ensures d !in links0 && !(d.ns == Root && d.name in made)
    ensures forall j | 0 <= j < |pls| && Dev(Root, pls[j].veth) != d :: Clear(links, pls[j], {d})
  {
    forall j | 0 <= j < |pls| && Dev(Root, pls[j].veth) != d
      ensures Clear(links, pls[j], {d})
    {
      assert PairInv(links0, links, pls[j]);
      NewNameClear(links0, links, pls[j], d);
    }
  }

  lemma ClearJoin(links: Links, pl: Plan, a: set<Dev>, b: set<Dev>)
    requires Clear(links, pl, a) && Clear(links, pl, b)
    ensures Clear(links, pl, a + b)
  {
  }

  /** A pair that is joined as its phase says. */
  lemma NowPair(links0: Links, links: Links, pl: Plan, pair: Pair)
    requires PairOf(links, pl) == pair != NoPair && FarEnd(pair, pl) !in links0
    requires Joined(links, Dev(Root, pl.veth), FarEnd(pair, pl))
    ensures PairInv(links0, links, pl)
    ensures forall d :: PartOfPair(links, pl, d) <==> d in {Dev(Root, pl.veth), FarEnd(pair, pl)}
  {
  }

  lemma NewPairFacts(links: Links, pl: Plan)
    requires LinkEffect(AddVeth(pl.veth, ETH0), links).Some?
    ensures var links' := LinkEffect(AddVeth(pl.veth, ETH0), links).value;
            var v, e := Dev(Root, pl.veth), Dev(Root, ETH0);
            && e == FarEnd(InHost, pl) && v !in links && e !in links && PairOf(links, pl) == NoPair
            && Joined(links', v, e) && PairOf(links', pl) == InHost
            && forall d :: d !in {v} + {e} ==> SameAt(links, links', d)
  {
  }

  lemma NewPairKeeps(pls: seq<Plan>, links0: Links, links: Links, made: set<string>, i: nat)
    requires LinksInv(pls, links0, links, made) && OwnNames(pls, links0, made, i)
    requires LinkEffect(AddVeth(pls[i].veth, ETH0), links).Some?
    ensures var links' := LinkEffect(AddVeth(pls[i].veth, ETH0), links).value;
            LinksInv(pls, links0, links', made) && PairBecomes(pls, links, links', i, InHost)
  {
    hide LinkEffect, PairOf, FarEnd, PairInv, PartOfPair, Joined, LinksInv, Clear;
    var v, e := Dev(Root, pls[i].veth), Dev(Root, ETH0);
    var links' := LinkEffect(AddVeth(pls[i].veth, ETH0), links).value;
    NewPairFacts(links, pls[i]);
    Parts(pls, links0, links, made, i);
    NewName(pls, links0, links, made, v);
    NewName(pls, links0, links, made, e);
    forall j | 0 <= j < |pls| && j != i
      ensures Clear(links, pls[j], {v} + {e})
    {
      ClearJoin(links, pls[j], {v}, {e});
    }
    NowPair(links0, links', pls[i], InHost);
    Rewire(pls, links0, links, links', made, i, {v} + {e});
  }

  /** At most one pair has its far end on the host: `eth0` is one interface, and its peer is one veth. */
  lemma OneInHost(pls: seq<Plan>, links0: Links, links: Links, made: set<string>, i: nat, j: nat)
    requires LinksInv(pls, links0, links, made) && i < |pls| && j < |pls| && pls[i].veth != pls[j].veth
    requires PairOf(links, pls[i]) == InHost
    ensures PairOf(links, pls[j]) != InHost
  {
    assert PairInv(links0, links, pls[i]) && PairInv(links0, links, pls[j]);
  }

  lemma MoveFacts(links: Links, pl: Plan)
    requires Joined(links, Dev(Root, pl.veth), FarEnd(InHost, pl)) && pl.veth != ETH0
    requires LinkEffect(SetNetns(ETH0, pl.pid), links).Some?
    ensures var links' := LinkEffect(SetNetns(ETH0, pl.pid), links).value;
            var v, e, e' := Dev(Root, pl.veth), FarEnd(InHost, pl), Dev(Pid(pl.pid), ETH0);
            && e' == FarEnd(Wired, pl) && e' !in links && e !in links'
            && Joined(links', v, e') && PairOf(links', pl) == Wired
            && forall d :: d !in {v, e} + {e'} ==> SameAt(links, links', d)
  {
  }

  lemma MoveKeeps(pls: seq<Plan>, links0: Links, links: Links, made: set<string>, i: nat)
    requires LinksInv(pls, links0, links, made) && OwnNames(pls, links0, made, i) && PairOf(links, pls[i]) == InHost
    requires LinkEffect(SetNetns(ETH0, pls[i].pid), links).Some?
    ensures var links' := LinkEffect(SetNetns(ETH0, pls[i].pid), links).value;
            LinksInv(pls, links0, links', made) && PairBecomes(pls, links, links', i, Wired)
  {
    hide LinkEffect, PairOf, FarEnd, PairInv, PartOfPair, Joined, LinksInv, Clear;
    var v, e, e' := Dev(Root, pls[i].veth), FarEnd(InHost, pls[i]), Dev(Pid(pls[i].pid), ETH0);
    Parts(pls, links0, links, made, i);
    var links' := LinkEffect(SetNetns(ETH0, pls[i].pid), links).value;
    MoveFacts(links, pls[i]);
    NewName(pls, links0, links, made, e');
    forall j | 0 <= j < |pls| && j != i
      ensures Clear(links, pls[j], {v, e} + {e'})
    {
      ClearJoin(links, pls[j], {v, e}, {e'});
    }
    NowPair(links0, links', pls[i], Wired);
    Rewire(pls, links0, links, links', made, i, {v, e} + {e'});
  }

  lemma UnplugFacts(links: Links, pl: Plan, e: Dev)
    requires Joined(links, Dev(Root, pl.veth), e)
    ensures var v := Dev(Root, pl.veth);
            var links' := Unplug(links, v);
            && v !in links' && e !in links' && PairOf(links', pl) == NoPair
            && forall d :: d !in {v, e} ==> SameAt(links, links', d)
  {
  }

  lemma UnplugKeeps(pls: seq<Plan>, links0: Links, links: Links, made: set<string>, i: nat)
    requires LinksInv(pls, links0, links, made) && OwnNames(pls, links0, made, i) && PairOf(links, pls[i]) != NoPair
    requires Dev(Root, pls[i].veth) in links
    ensures var links' := Unplug(links, Dev(Root, pls[i].veth));
            LinksInv(pls, links0, links', made) && PairBecomes(pls, links, links', i, NoPair)
  {
    hide Unplug, PairOf, FarEnd, PartOfPair, Joined, LinksInv, Clear;
    var v, e := Dev(Root, pls[i].veth), FarEnd(PairOf(links, pls[i]), pls[i]);
    Parts(pls, links0, links, made, i);
    UnplugFacts(links, pls[i], e);
    Rewire(pls, links0, links, Unplug(links, v), made, i, {v, e});
  }

  /* ---- Every command ---- */

  /** A command that changes only interfaces. */
  lemma LinkCommand(pls: seq<Plan>, init: HostState, s: Shared, i: nat, links': Links, pair: Pair)
    requires Inv(pls, init, s) && i < |pls|
    requires LinksInv(pls, init.links, links', s.makers.Keys) && PairBecomes(pls, s.host.links, links', i, pair)
    ensures var s' := s.(host := s.host.(links := links'));
            Inv(pls, init, s') && Simulates(pls, s, s', i, ViewOf(s, pls[i], i).(pair := pair))
  {
    hide LinksInv, Owned, RulesOn, BridgeEntries, PairOf, WellOwned;
    var s' := s.(host := s.host.(links := links'));
    assert forall ch :: s'.host.Rules(ch) == s.host.Rules(ch);
  }

  /** The commands that only change settings, and the interface they change. */
  predicate IsSetting(c: Cmd) {
    c.AddrAdd? || c.LinkUp? || c.SetMaster? || c.NsAddrAdd? || c.NsLinkUp? || c.NsRoute?
  }

  function Target(c: Cmd): Dev
    requires IsSetting(c)
  {
    if c.NsAddrAdd? || c.NsLinkUp? || c.NsRoute? then Dev(Pid(c.pid), c.name) else Dev(Root, c.name)
  }

  lemma SettingEffect(c: Cmd, links: Links)
    requires IsSetting(c) && LinkEffect(c, links).Some?
    ensures Target(c) in links
    ensures var links' := LinkEffect(c, links).value;
            Target(c) in links' && links' == links[Target(c) := links'[Target(c)]]
            && SameKind(links[Target(c)], links'[Target(c)])
  {
  }

  /** A container changes settings only of its own interfaces and of a bridge it made. */
  lemma SettingTarget(pls: seq<Plan>, init: HostState, s: Shared, i: nat, c: Cmd)
    requires Roster(pls, init) && Inv(pls, init, s) && i < |pls| && IsSetting(c) && Target(c) in s.host.links
    requires May(c, pls[i], i, ViewOf(s, pls[i], i))
    ensures Target(c) !in init.links
  {
    hide Roster, ChainsInv, PairInv, PairOf, PartOfPair, EntryFor, Owned, BridgeEntries, Plan.Ip;
    RosterNames(pls, init, s, i);
    FarEndIsNew(init.links, s.host.links, pls[i]);
  }

  lemma FarEndIsNew(links0: Links, links: Links, pl: Plan)
    requires PairInv(links0, links, pl)
    ensures PairOf(links, pl) == Wired ==> Dev(Pid(pl.pid), ETH0) !in links0
  {
  }

  lemma SettingKeeps(pls: seq<Plan>, init: HostState, s: Shared, i: nat, c: Cmd)
    requires Roster(pls, init) && Inv(pls, init, s) && i < |pls| && IsSetting(c)
    requires May(c, pls[i], i, ViewOf(s, pls[i], i)) && LinkEffect(c, s.host.links).Some?
    ensures var s' := s.(host := s.host.(links := LinkEffect(c, s.host.links).value));
            Inv(pls, init, s') && Simulates(pls, s, s', i, ViewOf(s, pls[i], i))
  {
    hide LinkEffect, LinksInv, ChainsInv, MakersInv, Roster, May, Simulates, PairOf, SameKind, Owned, BridgeEntries;
    SettingEffect(c, s.host.links);
    SettingTarget(pls, init, s, i, c);
    var links' := LinkEffect(c, s.host.links).value;
    SettingsKeep(pls, init.links, s.host.links, s.makers.Keys, Target(c), links'[Target(c)]);
    LinkCommand(pls, init, s, i, links', PairOf(s.host.links, pls[i]));
  }

  lemma RosterNames(pls: seq<Plan>, init: HostState, s: Shared, i: nat)
    requires Roster(pls, init) && MakersInv(pls, init, s) && i < |pls|
    ensures OwnNames(pls, init.links, s.makers.Keys, i)
  {
    hide Owned, BridgeEntries, Plan.Ip;
  }

  /** Commands on the container's own pair. */
  lemma PairKeeps(pls: seq<Plan>, init: HostState, s: Shared, i: nat, c: Cmd)
    requires Roster(pls, init) && Inv(pls, init, s) && i < |pls| && (c.AddVeth? || c.SetNetns? || c.LinkDelete?)
    requires May(c, pls[i], i, ViewOf(s, pls[i], i)) && LinkEffect(c, s.host.links).Some?
    ensures var s' := s.(host := s.host.(links := LinkEffect(c, s.host.links).value));
            Inv(pls, init, s') && Simulates(pls, s, s', i, After(c, pls[i], i, ViewOf(s, pls[i], i)))
  {
    hide LinksInv, ChainsInv, MakersInv, Roster, Simulates, Owned, BridgeEntries, Move, Unplug;
    var links := s.host.links;
    var links' := LinkEffect(c, links).value;
    RosterNames(pls, init, s, i);
    match c {
      case AddVeth(_, _) =>
        NewPairKeeps(pls, init.links, links, s.makers.Keys, i);
        LinkCommand(pls, init, s, i, links', InHost);
      case SetNetns(_, _) =>
        MoveKeeps(pls, init.links, links, s.makers.Keys, i);
        LinkCommand(pls, init, s, i, links', Wired);
      case LinkDelete(_) =>
        UnplugKeeps(pls, init.links, links, s.makers.Keys, i);
        LinkCommand(pls, init, s, i, links', NoPair);
    }
  }

  /** A bridge that nobody made has no rules in the ledger. */
  lemma NoBridgeRules(pls: seq<Plan>, init: HostState, s: Shared, b: string)
    requires ChainsInv(pls, init, s) && b !in s.makers
    ensures Owned(s.ledger, OfBridge(b)) == []
  {
    forall e | e in s.ledger
      ensures e.owner != OfBridge(b)
    {
      assert WellOwned(pls, s.makers, e);
    }
    NoneOwned(s.ledger, OfBridge(b));
  }

  /** Recording a new bridge keeps the ledger in order. */
  lemma NewBridgeLedger(pls: seq<Plan>, init: HostState, s: Shared, s': Shared, i: nat)
    requires ChainsInv(pls, init, s) && MakersInv(pls, init, s) && i < |pls| && pls[i].bridge !in s.makers
    requires s'.ledger == s.ledger && s'.makers == s.makers[pls[i].bridge := i]
    requires forall ch :: s'.host.Rules(ch) == s.host.Rules(ch)
    ensures ChainsInv(pls, init, s') && MakersInv(pls, init, s')
  {
    hide RulesOn, Owned, BridgeEntries, Plan.Ip;
    NoBridgeRules(pls, init, s, pls[i].bridge);
    assert forall e :: e in s'.ledger ==> WellOwned(pls, s.makers, e);
    assert s'.makers != map[] by { assert pls[i].bridge in s'.makers; }
  }

  lemma NewBridgeViews(pls: seq<Plan>, s: Shared, s': Shared, i: nat)
    requires i < |pls| && pls[i].bridge !in s.makers && Owned(s.ledger, OfBridge(pls[i].bridge)) == []
    requires s'.ledger == s.ledger && s'.makers == s.makers[pls[i].bridge := i]
    requires SamePairs(pls, s.host.links, s'.host.links)
    ensures Simulates(pls, s, s', i, After(AddBridge(pls[i].bridge), pls[i], i, ViewOf(s, pls[i], i)))
  {
    hide Owned, BridgeEntries, PairOf;
    assert forall j | 0 <= j < |pls| && j != i :: Won(s'.makers, pls[j], j) == Won(s.makers, pls[j], j);
  }

  /** A bridge is made by one container: nobody made it before, and it has no rules yet. */
  lemma NewBridgeKeeps(pls: seq<Plan>, init: HostState, s: Shared, i: nat, l: Link)
    requires Roster(pls, init) && Inv(pls, init, s) && i < |pls| && l.BridgeLink?
    requires Dev(Root, pls[i].bridge) !in s.host.links
    ensures var b := pls[i].bridge;
            var s' := Shared(s.host.(links := s.host.links[Dev(Root, b) := l]), s.ledger, s.makers[b := i]);
            Inv(pls, init, s') && Simulates(pls, s, s', i, After(AddBridge(b), pls[i], i, ViewOf(s, pls[i], i)))
  {
    hide RulesOn, Plan.Ip, PairOf, Owned, BridgeEntries, ChainsInv, MakersInv, Simulates;
    var b := pls[i].bridge;
    var s' := Shared(s.host.(links := s.host.links[Dev(Root, b) := l]), s.ledger, s.makers[b := i]);
    assert s'.makers.Keys == s.makers.Keys + {b};
    assert b !in s.makers.Keys;
    BridgeKeeps(pls, init.links, s.host.links, s.makers.Keys, b, l);
    NoBridgeRules(pls, init, s, b);
    NewBridgeLedger(pls, init, s, s', i);
    NewBridgeViews(pls, s, s', i);
  }

  /** Commands that change nothing, or only the forwarding switch. */
  lemma QuietKeeps(pls: seq<Plan>, init: HostState, s: Shared, i: nat, forwarding: bool)
    requires Inv(pls, init, s) && i < |pls| && (forwarding == s.host.forwarding || s.makers != map[])
    ensures var s' := s.(host := s.host.(forwarding := forwarding));
            Inv(pls, init, s') && Simulates(pls, s, s', i, ViewOf(s, pls[i], i))
  {
    hide RulesOn, Owned, BridgeEntries, PairOf, LinksInv, WellOwned;
    var s' := s.(host := s.host.(forwarding := forwarding));
    assert forall ch :: s'.host.Rules(ch) == s.host.Rules(ch);
  }

  /** What Issue does for a command on interfaces. */
  lemma IssueLink(c: Cmd, s: Shared, pl: Plan, i: nat, fault: bool)
    requires !c.Append? && !c.Delete? && !c.EnableForwarding?
    ensures var (s', ok) := Issue(c, s, pl, i, fault);
            var links := LinkEffect(c, s.host.links);
            && ok == (links.Some? && (!fault || c.LinkDelete?)) && (!ok ==> s' == s)
            && (ok ==> s' == Shared(s.host.(links := links.value), s.ledger,
                                    if c.AddBridge? then s.makers[c.name := i] else s.makers))
  {
    hide LinkEffect;
  }

  /**
   The simulation: a command that the view allows, issued on the shared host with any outcome, keeps
   the invariant, has an outcome that the view foresees, and moves only the issuer's view, as foreseen.
   */
  lemma CommandKeeps(pls: seq<Plan>, init: HostState, s: Shared, i: nat, c: Cmd, fault: bool)
    requires Roster(pls, init) && Inv(pls, init, s) && i < |pls| && May(c, pls[i], i, ViewOf(s, pls[i], i))
    ensures var (s', ok) := Issue(c, s, pls[i], i, fault);
            var v := ViewOf(s, pls[i], i);
            && Possible(c, ok, pls[i], i, v) && Inv(pls, init, s')
            && Simulates(pls, s, s', i, if ok then After(c, pls[i], i, v) else v)
  {
    hide Issue, LinkEffect, Inv, Roster, Owned, BridgeEntries, Plan.Ip;
    var (s', ok) := Issue(c, s, pls[i], i, fault);
    if c.Append? {
      IssueChain(c, s, pls[i], i, fault);
      if ok { AppendKeeps(pls, init, s, i, c.chain, c.rule); }
    } else if c.Delete? {
      IssueChain(c, s, pls[i], i, fault);
      DeleteKeeps(pls, init, s, i, c.chain, c.rule);
      IssueDelete(c, s, pls[i], i, fault);
    } else if c.EnableForwarding? {
      IssueForwarding(s, pls[i], i, fault);
      QuietKeeps(pls, init, s, i, s.host.forwarding || ok);
    } else {
      IssueLink(c, s, pls[i], i, fault);
      LinkKeeps(pls, init, s, i, c, fault);
    }
  }

  lemma IssueDelete(c: Cmd, s: Shared, pl: Plan, i: nat, fault: bool)
    requires c.Delete?
    ensures Issue(c, s, pl, i, fault) == Issue(c, s, pl, i, false)
  {
  }

  lemma IssueForwarding(s: Shared, pl: Plan, i: nat, fault: bool)
    ensures Issue(EnableForwarding, s, pl, i, fault) ==
            (s.(host := s.host.(forwarding := s.host.forwarding || !fault)), !fault)
  {
  }

  /** The commands on interfaces. */
  lemma LinkKeeps(pls: seq<Plan>, init: HostState, s: Shared, i: nat, c: Cmd, fault: bool)
    requires !c.Append? && !c.Delete? && !c.EnableForwarding?
    requires Roster(pls, init) && Inv(pls, init, s) && i < |pls| && May(c, pls[i], i, ViewOf(s, pls[i], i))
    ensures var (s', ok) := Issue(c, s, pls[i], i, fault);
            var v := ViewOf(s, pls[i], i);
            && Possible(c, ok, pls[i], i, v) && Inv(pls, init, s')
            && Simulates(pls, s, s', i, if ok then After(c, pls[i], i, v) else v)
  {
    hide Issue, Inv, Roster, Owned, BridgeEntries, Plan.Ip, Simulates, Move, Unplug, AddAddr, BringUp;
    var (s', ok) := Issue(c, s, pls[i], i, fault);
    IssueLink(c, s, pls[i], i, fault);
    QuietKeeps(pls, init, s, i, s.host.forwarding);
    assert s.(host := s.host.(forwarding := s.host.forwarding)) == s;
    if ok {
      if IsSetting(c) {
        SettingKeeps(pls, init, s, i, c);
      } else if c.AddBridge? {
        NewBridgeKeeps(pls, init, s, i, BridgeLink([], false));
      } else if c.AddVeth? || c.SetNetns? || c.LinkDelete? {
        PairKeeps(pls, init, s, i, c);
      } else {
        assert s' == s;
      }
    }
  }
}
