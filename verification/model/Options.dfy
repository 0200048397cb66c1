/**
 The `-p` and `-v` options of the run command: their text, what the option loop
 stores for each, and the bounded arrays it fills.
 */
module Options {
  import opened Wrappers
  import opened CStrings
  import opened Numbers
  import opened Paths
  import opened Network

  const MAX_PORTS: nat := 128
  const MAX_MOUNTS: nat := 64
  const PROTOCOL_FIELD: nat := 8
  const MS_BIND: nat := 4096

  datatype MountPoint = MountPoint(source: string, target: string, fstype: string, flags: nat)

  /** host:container or host:container/protocol; the text is cut at the first colon and the first slash after it. */
  function ParsePort(s: string): Option<PortMapping> {
    if ':' !in s then None
    else
      var rest := After(s, ':');
      Some(PortMapping(AtoiU16(Before(s, ':')), AtoiU16(Before(rest, '/')),
                       if '/' in rest then Take(After(rest, '/'), PROTOCOL_FIELD - 1) else "tcp"))
  }

  function ParseVolume(s: string): Option<MountPoint> {
    if ':' !in s then None
    else Some(MountPoint(Take(Before(s, ':'), MAX_PATH_LEN - 1), Take(After(s, ':'), MAX_PATH_LEN - 1), "bind",
        MS_BIND))
  }

  /** The text of a mapping, as an option spells it. */
  function PrintPort(m: PortMapping): string {
    Dec(m.hostPort) + ":" + Dec(m.containerPort) + "/" + m.protocol
  }

  lemma ParsedWhenColon(s: string)
    ensures ParsePort(s).Some? <==> ':' in s
  {
  }

  /** Every mapping with 16-bit ports and a protocol that fits its field is read back from its text. */
  lemma PrintedPortParses(m: PortMapping)
    requires m.hostPort < 0x1_0000 && m.containerPort < 0x1_0000 && |m.protocol| < PROTOCOL_FIELD
    ensures ParsePort(PrintPort(m)) == Some(m)
  {
    hide AtoiU16, Dec;
    var host, port := Dec(m.hostPort), Dec(m.containerPort);
    var rest := port + ['/'] + m.protocol;
    DecHasNo(m.hostPort, ':');
    DecHasNo(m.containerPort, '/');
    assert PrintPort(m) == host + [':'] + rest;
    CutJoined(host, ':', rest);
    CutJoined(port, '/', m.protocol);
    AtoiOfDec(m.hostPort);
    AtoiOfDec(m.containerPort);
  }

  /** Without a slash the protocol is tcp. */
  lemma ShortPortParses(hostPort: nat, containerPort: nat)
    requires hostPort < 0x1_0000 && containerPort < 0x1_0000
    ensures ParsePort(Dec(hostPort) + ":" + Dec(containerPort)) == Some(PortMapping(hostPort, containerPort, "tcp"))
  {
    hide AtoiU16, Dec;
    DecHasNo(hostPort, ':');
    DecHasNo(containerPort, '/');
    assert Dec(hostPort) + ":" + Dec(containerPort) == Dec(hostPort) + [':'] + Dec(containerPort);
    CutJoined(Dec(hostPort), ':', Dec(containerPort));
    CutAbsent(Dec(containerPort), '/');
    AtoiOfDec(hostPort);
    AtoiOfDec(containerPort);
  }

  /** A mapping's text is cut at its first colon and at the first slash after it, whatever else the parts hold. */
  lemma PortTextParses(host: string, port: string, protocol: string)
    requires ':' !in host && '/' !in port
    ensures ParsePort(host + ":" + port + "/" + protocol) ==
            Some(PortMapping(AtoiU16(host), AtoiU16(port), Take(protocol, 7)))
    ensures ParsePort(host + ":" + port) == Some(PortMapping(AtoiU16(host), AtoiU16(port), "tcp"))
  {
    hide AtoiU16;
    var rest := port + ['/'] + protocol;
    assert host + ":" + port + "/" + protocol == host + [':'] + rest;
    CutJoined(host, ':', rest);
    CutJoined(port, '/', protocol);
    assert host + ":" + port == host + [':'] + port;
    CutJoined(host, ':', port);
    CutAbsent(port, '/');
  }

  /**
   A volume's text is cut at its first colon: the source before it, the target behind it, each up to 4095
   characters.
   */
  lemma VolumeTextParses(source: string, target: string)
    requires ':' !in source
    ensures ParseVolume(source + ":" + target) ==
            Some(MountPoint(Take(source, 4095), Take(target, 4095), "bind", 4096))
    ensures |source| < 4096 && |target| < 4096 ==>
              ParseVolume(source + ":" + target) == Some(MountPoint(source, target, "bind", MS_BIND))
  {
    assert source + ":" + target == source + [':'] + target;
    CutJoined(source, ':', target);
  }

  lemma VolumeWhenColon(s: string)
    ensures ParseVolume(s).Some? <==> ':' in s
  {
  }

  /* ---- The option loop ---- */

  datatype Opt = Publish(text: array<char>) | Volume(text: array<char>)

  /** An option with the text it holds. */
  datatype OptText = PublishText(s: string) | VolumeText(s: string)

  function PortParses(ts: seq<OptText>): seq<PortMapping> {
    if ts == [] then []
    else
      var rest := PortParses(ts[1..]);
      if PortIn(ts[0]).Some? then [PortIn(ts[0]).value] + rest else rest
  }

  function VolumeParses(ts: seq<OptText>): seq<MountPoint> {
    if ts == [] then []
    else
      var rest := VolumeParses(ts[1..]);
      if VolumeIn(ts[0]).Some? then [VolumeIn(ts[0]).value] + rest else rest
  }

  /** An array of `n` places takes one more value if there is one and a place is free. */
  function Stored<T>(s: seq<T>, m: Option<T>, n: nat): seq<T> {
    if m.Some? && |s| < n then s + [m.value] else s
  }

  function PortIn(x: OptText): Option<PortMapping> {
    if x.PublishText? then ParsePort(x.s) else None
  }

  function VolumeIn(x: OptText): Option<MountPoint> {
    if x.VolumeText? then ParseVolume(x.s) else None
  }

  lemma PortStep(ts: seq<OptText>, i: nat)
    requires i < |ts|
    ensures Take(PortParses(ts[..i + 1]), MAX_PORTS) ==
            Stored(Take(PortParses(ts[..i]), MAX_PORTS), PortIn(ts[i]), MAX_PORTS)
  {
    hide PortIn, PortParses;
    assert ts[..i + 1] == ts[..i] + [ts[i]];
    PortParsesOfLonger(ts[..i], ts[i]);
  }

  lemma {:induction false} PortParsesOfLonger(ts: seq<OptText>, x: OptText)
    ensures PortParses(ts + [x]) ==
            PortParses(ts) + (if PortIn(x).Some? then [PortIn(x).value] else [])
  {
    hide PortIn;
    if ts == [] {
      assert ts + [x] == [x];
    } else {
      PortParsesOfLonger(ts[1..], x);
      assert (ts + [x])[1..] == ts[1..] + [x];
    }
  }

  lemma VolumeStep(ts: seq<OptText>, i: nat)
    requires i < |ts|
    ensures Take(VolumeParses(ts[..i + 1]), MAX_MOUNTS) ==
            Stored(Take(VolumeParses(ts[..i]), MAX_MOUNTS), VolumeIn(ts[i]), MAX_MOUNTS)
  {
    hide VolumeIn, VolumeParses;
    assert ts[..i + 1] == ts[..i] + [ts[i]];
    VolumeParsesOfLonger(ts[..i], ts[i]);
  }

  lemma {:induction false} VolumeParsesOfLonger(ts: seq<OptText>, x: OptText)
    ensures VolumeParses(ts + [x]) ==
            VolumeParses(ts) + (if VolumeIn(x).Some? then [VolumeIn(x).value] else [])
  {
    hide VolumeIn;
    if ts == [] {
      assert ts + [x] == [x];
    } else {
      VolumeParsesOfLonger(ts[1..], x);
      assert (ts + [x])[1..] == ts[1..] + [x];
    }
  }

  /** The part after the colon: cuts it at its slash, if it has one, and reads the protocol. */
  method CutProtocol(text: array<char>, i: nat) returns (protocol: string)
    requires Terminated(text[..], i)
    modifies text
    ensures var rest := StrAt(old(text[..]), i);
            && protocol == (if '/' in rest then Take(After(rest, '/'), PROTOCOL_FIELD - 1) else "tcp")
            && Terminated(text[..], i) && StrAt(text[..], i) == Before(rest, '/')
  {
    hide Find, IndexOf, StrAt, Before, After, Take;
    ghost var b := text[..];
    var slashed, slash := StrChr(text, i, '/');
    protocol := "tcp";
    if slashed {
      CutField(b, i, '/', slash);
      text[slash] := NUL;
      assert text[..] == b[slash := NUL];
      SameTail(b, text[..], slash + 1);
      var name := ReadString(text, slash + 1);
      protocol := Take(name, PROTOCOL_FIELD - 1);
    } else {
      CutAbsent(StrAt(b, i), '/');
    }
  }

  /** Cuts the text of a mapping at its colon and its slash, in place, and reads the three parts. */
  method CutMapping(text: array<char>, colon: nat) returns (m: PortMapping)
    requires Terminated(text[..], 0) && ':' in StrAt(text[..], 0) && colon == IndexOf(StrAt(text[..], 0), ':')
    modifies text
    ensures Some(m) == ParsePort(StrAt(old(text[..]), 0))
  {
    hide AtoiU16, Find, IndexOf, StrAt, Before, After, Take;
    ghost var b := text[..];
    CutField(b, 0, ':', colon);
    text[colon] := NUL;
    assert text[..] == b[colon := NUL];
    SameTail(b, text[..], colon + 1);
    var host := ReadString(text, 0);
    var protocol := CutProtocol(text, colon + 1);
    var port := ReadString(text, colon + 1);
    m := PortMapping(AtoiU16(host), AtoiU16(port), protocol);
  }

  class RunConfig {
    const ports: array<PortMapping>
    const mounts: array<MountPoint>
    var numPorts: nat
    var numMounts: nat

    constructor ()
      ensures Valid() && fresh(ports) && fresh(mounts) && Ports() == [] && Mounts() == []
    {
      ports := new PortMapping[MAX_PORTS](_ => PortMapping(0, 0, ""));
      mounts := new MountPoint[MAX_MOUNTS](_ => MountPoint("", "", "", 0));
      numPorts, numMounts := 0, 0;
    }

    ghost predicate Valid()
      reads this
    {
      ports.Length == MAX_PORTS && mounts.Length == MAX_MOUNTS && numPorts <= MAX_PORTS && numMounts <= MAX_MOUNTS
    }

    ghost function Ports(): seq<PortMapping>
      requires Valid()
      reads this, ports
    {
      ports[..numPorts]
    }

    ghost function Mounts(): seq<MountPoint>
      requires Valid()
      reads this, mounts
    {
      mounts[..numMounts]
    }

    /**
     -p: stores the mapping, cutting the option's text in place; a text without colon or a full array changes
     nothing.
     */
    method AddPublish(text: array<char>)
      requires Valid() && Terminated(text[..], 0)
      modifies this`numPorts, ports, text
      ensures Valid()
      ensures Ports() == Stored(old(Ports()), ParsePort(StrAt(old(text[..]), 0)), MAX_PORTS)
      ensures Ports() == old(Ports()) ==> text[..] == old(text[..])
    {
      hide ParsePort, IndexOf;
      var found, colon := StrChr(text, 0, ':');
      ParsedWhenColon(StrAt(text[..], 0));
      if found && numPorts < MAX_PORTS {
        var m := CutMapping(text, colon);
        ports[numPorts] := m;
        numPorts := numPorts + 1;
      }
    }

    /** -v: the same for a volume. */
    method AddVolume(text: array<char>)
      requires Valid() && Terminated(text[..], 0)
      modifies this`numMounts, mounts, text
      ensures Valid()
      ensures Mounts() == Stored(old(Mounts()), ParseVolume(StrAt(old(text[..]), 0)), MAX_MOUNTS)
      ensures Mounts() == old(Mounts()) ==> text[..] == old(text[..])
    {
      hide Find, IndexOf, StrAt, Before, After, Take;
      ghost var b := text[..];
      if numMounts < MAX_MOUNTS {
        var found, colon := StrChr(text, 0, ':');
        if found {
          CutField(b, 0, ':', colon);
          text[colon] := NUL;
          assert text[..] == b[colon := NUL];
          SameTail(b, text[..], colon + 1);
          var source := ReadString(text, 0);
          var target := ReadString(text, colon + 1);
          mounts[numMounts] := MountPoint(Take(source, MAX_PATH_LEN - 1), Take(target, MAX_PATH_LEN - 1), "bind",
              MS_BIND);
          numMounts := numMounts + 1;
        }
      }
    }

    /** Every option in turn. */
    method ParseAll(opts: seq<Opt>)
      requires Valid() && numPorts == numMounts == 0
      requires forall k | 0 <= k < |opts| :: Terminated(opts[k].text[..], 0)
      requires forall k, l | 0 <= k < l < |opts| :: opts[k].text != opts[l].text
      modifies this`numPorts, this`numMounts, ports, mounts, set o | o in opts :: o.text
      ensures Valid()
      ensures Ports() == Take(PortParses(old(Texts(opts))), 128)
      ensures Mounts() == Take(VolumeParses(old(Texts(opts))), 64)
    {
      hide Find, ParsePort, ParseVolume, PortParses, VolumeParses, Take, Stored;
      ghost var ts := Texts(opts);
      NoParses();
      for i := 0 to |opts|
        invariant Valid()
        invariant Ports() == Take(PortParses(ts[..i]), MAX_PORTS)
        invariant Mounts() == Take(VolumeParses(ts[..i]), MAX_MOUNTS)
        invariant forall k | i <= k < |opts| :: opts[k].text[..] == old(opts[k].text[..])
      {
        PortStep(ts, i);
        VolumeStep(ts, i);
        NothingStored(Ports(), MAX_PORTS);
        NothingStored(Mounts(), MAX_MOUNTS);
        match opts[i] {
          case Publish(text) => AddPublish(text);
          case Volume(text) => AddVolume(text);
        }
      }
      assert ts[..|opts|] == ts;
    }
  }

  ghost function TextOf(o: Opt): OptText
    reads o.text
  {
    match o
    case Publish(text) => PublishText(StrAt(text[..], 0))
    case Volume(text) => VolumeText(StrAt(text[..], 0))
  }

  /** What the options say before the loop cuts them. */
  ghost function Texts(opts: seq<Opt>): (ts: seq<OptText>)
    reads set o | o in opts :: o.text
    ensures |ts| == |opts| && forall k | 0 <= k < |opts| :: ts[k] == TextOf(opts[k])
  {
    if opts == [] then [] else [TextOf(opts[0])] + Texts(opts[1..])
  }

  lemma NothingStored<T>(s: seq<T>, n: nat)
    ensures Stored(s, None, n) == s
  {
  }

  lemma NoParses()
    ensures Take(PortParses([]), MAX_PORTS) == [] && Take(VolumeParses([]), MAX_MOUNTS) == []
  {
  }
}
