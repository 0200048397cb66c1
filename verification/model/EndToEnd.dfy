/** Results across the parts: a container's setup and cleanup calls, and the way from a `-p` option to its rules. */
module EndToEnd {
  import opened Wrappers
  import opened CStrings
  import opened Ipv4
  import opened HostNet
  import opened Network
  import opened Sharing
  import opened Interleaving
  import opened Rollback
  import opened Ports
  import opened History
  import opened Options
  import opened Paths
  import Volumes
  import Targets

  /**
   The two calls on one container, whichever commands fail: the host ends as the bridge step alone leaves
   it. This rests on setup writing the allocated address back, so that cleanup names it in the rules.
   */
  method SetUpThenCleanUp(h: Host, c: Container, draw: nat, junk: Junk)
    requires Roster([c.PlanFor(draw, junk)], h.State())
    modifies h, c
    ensures var pl := old(c.PlanFor(draw, junk));
            h.State() == old(h.Rest(BridgeProg(pl.bridge, pl.subnet, pl.bridgeCidr))).host
  {
    hide Run, BridgeProg, SetupProg, RemoveProg, Roster, AllocText, GatewayText;
    ghost var pl := c.PlanFor(draw, junk);
    SetupThenCleanup(pl, h.State(), h.clock, h.faults);
    var _ := SetupContainer(h, c, draw, junk);
    var _ := CleanupContainer(h, c);
  }

  /** The first of a list's mappings for a pair. */
  lemma {:induction false} FirstMappingIs(ports: seq<PortMapping>, k: nat)
    requires k < |ports|
    requires forall l | 0 <= l < k ::
               !(ports[l].protocol == ports[k].protocol && ports[l].hostPort == ports[k].hostPort)
    ensures FirstMapping(ports, ports[k].protocol, ports[k].hostPort) == Some(ports[k])
  {
    if k > 0 {
      assert forall l | 0 <= l < |ports[1..]| :: ports[1..][l] == ports[l + 1];
      FirstMappingIs(ports[1..], k - 1);
    }
  }

  lemma {:induction false} AcceptRulesHave(ip: string, ports: seq<PortMapping>, k: nat)
    requires k < |ports|
    ensures AcceptRule(ip, ports[k]) in AcceptRules(ip, ports)
  {
    if k > 0 {
      AcceptRulesHave(ip, ports[1..], k - 1);
    }
  }

  /**
   When an option's mapping is the first stored one for its protocol and host port, and no rule took
   that pair before, a complete setup makes first-match lookup of the pair yield the container's
   address and the mapping's container port, and the accept rule for it is on FORWARD.
   */
  lemma OptionForwardsPort(pl: Plan, texts: seq<OptText>, k: nat, h: HostState, t: nat, faults: nat -> bool)
    requires pl.ports == Take(PortParses(texts), MAX_PORTS) && k < |pl.ports|
    requires forall l | 0 <= l < k ::
               !(pl.ports[l].protocol == pl.ports[k].protocol && pl.ports[l].hostPort == pl.ports[k].hostPort)
    requires FirstMatch(h.prerouting, pl.ports[k].protocol, pl.ports[k].hostPort) == None
    requires Run(SetupProg(pl), h, t, faults).status == Ok && Complete(SetupProg(pl), h, t, faults)
    ensures var after, m := Run(SetupProg(pl), h, t, faults).host, pl.ports[k];
            && FirstMatch(after.prerouting, m.protocol, m.hostPort) ==
                Some(Dnat(m.protocol, m.hostPort, pl.Ip(), m.containerPort))
            && AcceptTo(m.protocol, pl.Ip(), m.containerPort) in after.forward
  {
    hide Run, Complete, FirstMatch, DnatRules, AcceptRules, Plan.Ip, PortParses, SetupProg, FirstMapping, LogRules;
    var m, after := pl.ports[k], Run(SetupProg(pl), h, t, faults).host;
    var items := BridgeItems(pl, 0, h.links);
    SetupAdds(pl, h, t, faults, Prerouting);
    SetupAdds(pl, h, t, faults, Forward);
    LogRulesJoin([pl], items, [Live(0)], Prerouting);
    LogRulesJoin([pl], items, [Live(0)], Forward);
    OneItem([pl], Live(0), Prerouting);
    OneItem([pl], Live(0), Forward);
    NoBridgeRulesFirst(pl, h.links);
    assert after.prerouting == after.Rules(Prerouting) == h.prerouting + DnatRules(pl.Ip(), pl.ports);
    FirstMatchJoin(h.prerouting, DnatRules(pl.Ip(), pl.ports), m.protocol, m.hostPort);
    FirstMappingIs(pl.ports, k);
    FirstMappingIsMatch(pl.Ip(), pl.ports, m.protocol, m.hostPort);
    AcceptRulesHave(pl.Ip(), pl.ports, k);
    assert after.forward == after.Rules(Forward);
  }

  /** A bridge puts nothing on PREROUTING. */
  lemma NoBridgeRulesFirst(pl: Plan, links: Links)
    ensures LogRules([pl], BridgeItems(pl, 0, links), Prerouting) == []
  {
  }

  /** The mapping that an option prints is the one that is stored for it. */
  lemma {:induction false} StoredMappingIsParsed(texts: seq<OptText>, k: nat)
    requires k < |texts| && PortIn(texts[k]).Some?
    ensures |PortParses(texts[..k])| < |PortParses(texts)|
    ensures PortParses(texts)[|PortParses(texts[..k])|] == PortIn(texts[k]).value
  {
    hide PortIn;
    if k == 0 {
      assert texts[..0] == [];
    } else {
      assert texts[..k][1..] == texts[1..][..k - 1];
      StoredMappingIsParsed(texts[1..], k - 1);
    }
  }

  /**
   From the option's text: when it spells mapping `m`, is stored, and no option stored before it has the
   same protocol and host port, the pair is forwarded to the container as `m` says.
   */
  lemma PublishedPortIsForwarded(pl: Plan, texts: seq<OptText>, j: nat, m: PortMapping, h: HostState, t: nat,
      faults: nat -> bool)
    requires j < |texts| && texts[j] == PublishText(PrintPort(m))
    requires m.hostPort < 0x1_0000 && m.containerPort < 0x1_0000 && |m.protocol| < PROTOCOL_FIELD
    requires |PortParses(texts[..j])| < MAX_PORTS
    requires forall l | 0 <= l < |PortParses(texts[..j])| && l < |PortParses(texts)| ::
               !(PortParses(texts)[l].protocol == m.protocol && PortParses(texts)[l].hostPort == m.hostPort)
    requires pl.ports == Take(PortParses(texts), MAX_PORTS)
    requires FirstMatch(h.prerouting, m.protocol, m.hostPort) == None
    requires Run(SetupProg(pl), h, t, faults).status == Ok && Complete(SetupProg(pl), h, t, faults)
    ensures var after := Run(SetupProg(pl), h, t, faults).host;
            && FirstMatch(after.prerouting, m.protocol, m.hostPort) ==
                Some(Dnat(m.protocol, m.hostPort, pl.Ip(), m.containerPort))
            && AcceptTo(m.protocol, pl.Ip(), m.containerPort) in after.forward
  {
    hide Run, Complete, FirstMatch, Plan.Ip, PortParses, SetupProg, ParsePort, PrintPort;
    PrintedPortParses(m);
    StoredMappingIsParsed(texts, j);
    OptionForwardsPort(pl, texts, |PortParses(texts[..j])|, h, t, faults);
  }

  /** Where in the array a volume option ends up. */
  lemma {:induction false} StoredVolumeIsParsed(texts: seq<OptText>, k: nat)
    requires k < |texts| && VolumeIn(texts[k]).Some?
    ensures |VolumeParses(texts[..k])| < |VolumeParses(texts)|
    ensures VolumeParses(texts)[|VolumeParses(texts[..k])|] == VolumeIn(texts[k]).value
  {
    hide VolumeIn;
    if k == 0 {
      assert texts[..0] == [];
    } else {
      assert texts[..k][1..] == texts[1..][..k - 1];
      StoredVolumeIsParsed(texts[1..], k - 1);
    }
  }

  /**
   From a volume option's text: when it spells `source:target`, is stored, and the target does not run into
   the root's last name, then after a setup that ends well the path of the target below the root is served by
   that source, bound there, unless a volume stored later lies on its way.
   */
  lemma VolumeOptionServes(s: Volumes.Space, rootfs: string, readonly: bool, texts: seq<OptText>, j: nat,
                           source: string, target: string, volumes: seq<MountPoint>, t: nat, faults: nat -> bool)
    requires j < |texts| && texts[j] == VolumeText(source + ":" + target) && ':' !in source && |source| < 4096
    requires |rootfs| + |target| < 4096 && !Targets.RunsOn(rootfs, target)
    requires volumes == Take(VolumeParses(texts), 64) && |VolumeParses(texts[..j])| < 64
    requires Volumes.NothingOnRoot(s, rootfs, volumes) && Volumes.Setup(s, rootfs, readonly, volumes, t, faults).ok
    requires forall l | |VolumeParses(texts[..j])| < l < |volumes| ::
               !Volumes.Covers(Volumes.VolumeMount(rootfs, volumes[l]), Names(rootfs) + Names(target))
    ensures var after, w := Volumes.Setup(s, rootfs, readonly, volumes, t, faults).space, Names(rootfs) + Names(target);
            Volumes.ServedBy(after, w) == Volumes.Mounted(source, "bind", w)
  {
    hide Names, ParseVolume, VolumeParses, Resolved, Volumes.Setup, Volumes.Reaches, Volumes.ServedBy,
        Volumes.Built, Volumes.Covers, Volumes.VolumesFrom;
    var i, w := |VolumeParses(texts[..j])|, Names(rootfs) + Names(target);
    VolumeTextParses(source, target);
    StoredVolumeIsParsed(texts, j);
    assert volumes[i] == MountPoint(source, target, "bind", MS_BIND);
    Targets.NamesApart(rootfs, target);
    Volumes.CoversItself(source, "bind", w);
    assert Volumes.VolumeMount(rootfs, volumes[i]) == Volumes.Mounted(source, "bind", w);
    Volumes.LaterVolumeShadows(s, rootfs, readonly, volumes, t, faults, w, i);
  }
}
