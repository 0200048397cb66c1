# Verified model of the container runtime's host-side protocols

This project models, in Dafny, the parts of the container runtime that change state shared between containers or that
build text other programs take apart again, and proves properties of them over all inputs, all interleavings and all
choices of which commands fail.

## What is modelled

**Container networking** (`src/network/network.c`). The host is three ordered iptables chains, the interfaces of the
host and of the containers' network namespaces, and the forwarding switch (`HostNet`). A command appends a rule, deletes
the first equal rule, or changes an interface; deleting one veth end removes its peer. The source's functions are methods
that issue commands one by one on a mutable `Host` (`Network`); each is proved to do what a command program
(`Prog`, a tree that branches on exit status) does under `Run`. Everything else is proved about those programs:

- `Views` runs a program against what one container can see of the host, over every outcome of every command;
  `Sharing` shows that a command allowed in a view acts on the shared host exactly as the view foresees and changes no
  other container's view; `Interleaving` puts any number of containers together, one command at a time in any order, and
  derives what holds in every reachable state.
- `Rollback` shows that cleanup undoes setup exactly, whichever commands failed. `Ports` and `History` treat whole calls:
  port lists with duplicates, and the simple ownership rule that first-match lookup follows.
- `Settings` spells out what a container's configuration settles and which commands each operation issues, in order.
- `Interfaces` says exactly when a setup ends well and what the interfaces then are. `Ipv4` covers address
  arithmetic and address text.

**Options** (`src/main.c`). The `-p` and `-v` cases cut the option text in place and fill two bounded arrays (`Options`);
`EndToEnd` follows a `-p` option to the rules that forward its port.

**Text** (`src/utils/utils.c`). Trimming and splitting overwrite a NUL-terminated buffer (`Text`, on top of `CStrings`).

**Storage** (`src/storage/storage.c`). The bounded `lowerdir` list and the options text are built and read back
(`Storage`); looking a path up layer by layer is compared with laying the layers over each other, and a commit with the
upper directory it copies (`Overlay`). `Mkdir` walks a path while cutting and restoring the buffer; `.` and `..` are
resolved as the kernel does (`Paths`).

**Mount order** (`src/namespace/namespace.c`). Mounts are attached to mounts, and a walk moves onto the topmost mount at
each name and through mounts on the way up (`Mounts`); a recursive bind copies the mounts attached inside (`Copies`);
`Volumes` issues the source's mounts in its order and says which of them serves a path and whether it is read-only;
`Targets` says where a volume's target leads.

## Where the code falls short of what one would expect

Each of these is a theorem, with its exact condition where it is conditional.

- A host that has an interface `eth0` of its own can connect no container: the far end of every new pair is first called
  `eth0` on the host (`Interfaces.HostEth0Blocks`, `Interfaces.SetupOutcome`).
- A container with an address given, no gateway given and a subnet without a slash is not connected even to a bridge that
  is there: there is nothing to route to (`Interfaces.NoGatewayBlocks`, `Interfaces.SettledGateway`).
- A bridge step that fails once the bridge is made leaves it behind, half made; the next one takes it as it is, ends well, and
  adds neither address nor rules (`Settings.HalfMadeBridgePasses`).
- A port rule equal to one that was there before is taken out at the older place, so one rule added and removed again
  keeps the chain's order exactly when nothing but copies of it follows its first copy (`Ports.OneRuleBackAgain`). For a
  list of rules the multiset is always kept, and the order whenever none of them was there (`Ports.ForwardThenRemove`).
- Allocated addresses stay usable for every random draw exactly when 256 addresses of the block lie from the base on;
  for an aligned base that is a prefix of at most 24 bits (`Ipv4.AllocationUsable`, `Ipv4.AlignedAllocationUsable`).
- `inet_pton`'s result is not checked, so for a malformed subnet the bridge's address and the container's default route
  come from uninitialised memory. The two agree whatever that memory holds exactly when the text before the subnet's slash
  is an address (`Interfaces.RouteAgreesIff`).
- A commit copies `upper/*`: it is faithful exactly when no top-level name of the upper directory starts with a dot
  (`Overlay.CommitFaithfulIff`).
- A `lowerdir` list that does not fit is cut silently, and is then never read back (`Storage.LowerDirReadsBackIff`); and
  since mount(2) takes over one page of options at most, the settings are read back exactly when the whole options text is
  shorter than that (`Storage.OptionsReadBackIff`).
- `mkdir_recursive("/")` fails, since the path is cut to nothing (`Mkdir.EmptyPathFails`), and a regular file at the end of
  the path passes as a made directory (`Mkdir.OkMeansDirectory`).
- A volume's target is written right behind the root path. The way to its mount stays inside the root exactly when the two
  do not run into one name, as `/c` and `data` do, and the target never goes above its start by `..`, as `/../../../etc`
  does (`Targets.VolumeStaysInRoot`, `Targets.GluedVolume`, `Targets.ClimbingVolume`). Where it ends is inside exactly when
  the names of the root it climbs over are named again on the way down (`Targets.VolumeEndsInRootIff`).
- A mount on the root of the mount namespace is not seen by paths that start there, so the last-issued mount on the way
  serves every path exactly when nothing but the first mount is made on the root (`Mounts.LastIssuedServesIff`).
- A read-only root covers only itself: a path below it is read-only exactly when the last mount on its way is the root bind,
  the copy of a mount that was read-only before, or a volume whose source was read-only when bound. A writable mount that
  was below the root path before stays writable, since the recursive bind copies it (`Volumes.ReadonlyUnlessCovered`).

Code and documentation disagree twice, and the model follows the code. The comment at `src/storage/storage.c:103` and the
mount example in `docs/ARCHITECTURE.md` (section "Mount Command") name the bottom layer first in `lowerdir`; the loop writes
the last layer first, which an overlay mount reads as the top one, so that the base layer comes last. The same document
calls the host end `veth<container-id>`; the code uses the first eight characters of the id.

## Assumptions

`Sharing.Roster` collects what the theorems on several containers assume: distinct stripped addresses, distinct veth names
(which is to say distinct eight-character id prefixes, `Settings.VethNamesAgree`), no veth name equal to a bridge name, and a start at which no container's veth
name and none of the rules it would add for its own ports is there. Other rules may name its address. Nothing is
assumed about which bridges containers share, about process ids, or about the commands' outcomes. Theorems that speak of a
complete setup say so with `Complete`: no rule was refused.

Paths are walked from the root directory, and no name on them is a symbolic link. For a relative root path the root
directory stands for the working directory. `Volumes.NothingOnRoot` is what the theorems on volumes assume, and what a
caller can check: the mounts before were made one after the other, and neither one of them, nor the root path, nor a volume's
target leads to the root directory itself.

## Model

| member | source | states |
|---|---|---|
| `HostNet.Host.Exec` | src/network/network.c:17-25 | one command changes the host as the command model says, and leaves what is left of the running program with the same final result |
| `HostNet.RunThen` | src/network/network.c:251-300 | a step and the step after it: the second runs, from where the first ended, exactly when the first ended well; any failure becomes the general error |
| `Network.CreateBridge` | src/network/network.c:28-90 | for every fault pattern, host state and status are those of the bridge program: nothing if the bridge is there, else link, address, rules, with the missing slash found after the link was added |
| `Network.SetupVeth` | src/network/network.c:109-164 | state and status of the pair's program for every fault pattern |
| `Network.SetupPortForwarding` | src/network/network.c:167-196 | the loop does what the recursive program does: a refused DNAT rule skips its FORWARD rule, and the call still ends well |
| `Network.RemovePortForwarding` | src/network/network.c:199-220 | both deletions for every mapping, whatever fails |
| `Network.SetupContainer` | src/network/network.c:251-300 | state and status of the whole setup program; the container's address and gateway are written back exactly when the bridge step ended well and an address was settled |
| `Network.CleanupContainer` | src/network/network.c:303-324 | state and status of the cleanup program for the address now in the container |
| `Settings.VethNameIs` | src/network/network.c:115-117 | the host end is named `veth` and the first eight characters of the id, never `eth0` |
| `Settings.VethNamesAgree` | src/network/network.c:115-117 | two ids give one name if and only if they agree in their first eight characters |
| `Settings.GivenIsKept` | src/network/network.c:259-279 | a given address and gateway are kept, and name, bridge, subnet, process and ports are the container's own |
| `Settings.MissingIsSettled` | src/network/network.c:259-286 | what is not given comes from the subnet's text: base plus drawn offset as the address, base plus one as gateway and, with the subnet's own suffix, on the bridge |
| `Settings.NothingToSettle` | src/network/network.c:259-279 | without a slash in the subnet there is no bridge address, no allocated address and no computed gateway |
| `Settings.BridgeCommands` | src/network/network.c:32-86 | the commands that make a bridge, in order, with the name, address and subnet they carry |
| `Settings.VethCommands` | src/network/network.c:119-159 | the eight commands of the pair, in order |
| `Settings.ForwardCommands` | src/network/network.c:171-190 | for each mapping in turn its DNAT and its accept rule, with the ports, protocol and address they carry |
| `Settings.RefusedRules` | src/network/network.c:179-189 | a refused DNAT rule skips the accept rule of its mapping only; a refused accept rule misses only itself |
| `Settings.RemoveCommands` | src/network/network.c:203-217 | for each mapping in turn both deletions of those very rules |
| `Settings.CleanupCommands` | src/network/network.c:303-324 | the deletions of all mappings, then the host end |
| `Settings.ConnectCommands` | src/network/network.c:282-297 | the pair first, then the rules of the ports |
| `Settings.RunPlaysCommands` | src/network/network.c:17-25 | a run in which every command works does what its list of commands does |
| `Settings.ForwardingOn` | src/network/network.c:69-70 | when every command works, making a bridge turns forwarding on |
| `Settings.BridgeWithoutSlash` | src/network/network.c:38-50 | without a slash the bridge is made, stays without an address, and the call reports an invalid argument |
| `Settings.HalfMadeBridgePasses` | src/network/network.c:32-67 | after a step that failed once the bridge was made, the next one ends well and changes nothing |
| `EndToEnd.SetUpThenCleanUp` | src/network/network.c:251-324 | the two calls after each other on one container leave the host as the bridge step alone leaves it, whichever commands fail |
| `Rollback.SetupThenCleanup` | src/network/network.c:109-220 | the same on command programs: every chain in its order and every interface are restored, for every choice of failing commands, including a half-made pair and skipped rules |
| `Rollback.CleanupRestores` | src/network/network.c:303-324 | from any end of a setup, cleanup gives back the starting host exactly |
| `Rollback.SoloIsRun` | src/network/network.c:251-324 | a container running alone in the interleaved model does what `Run` says, keeps the invariant and touches no other entry |
| `Rollback.BridgeLeavesRoster` | src/network/network.c:28-90 | the bridge step leaves the container's rules and interface name free, however it ends |
| `Rollback.SetupSplits` | src/network/network.c:251-300 | setup is the bridge step, followed by the rest only if that ended well |
| `Rollback.CleanupHandsOver` | src/network/network.c:199-220 | a cleanup run from any state that meets the invariant removes exactly the container's entries; on the host, lookup of every pair that an initial rule or somebody else's claim decides stays the same, and a pair the container owned passes to the next claimant |
| `Rollback.ClaimWithout` | src/network/network.c:203-217 | taking one owner's entries out keeps every first claim of others |
| `Views.SoundBridge` | src/network/network.c:28-90 | every run of the bridge step issues only allowed commands and adds none of the container's own rules |
| `Views.SoundConnect` | src/network/network.c:109-196 | every run of the rest of setup issues only allowed commands, and leaves part of the container's rules, all of them in order if it ended well with no rule refused |
| `Views.SoundForward` | src/network/network.c:167-196 | the same for the port loop from any point of the list |
| `Views.SoundCleanup` | src/network/network.c:199-220 | from any part of the container's rules and any state of its pair, cleanup leaves no rule and no pair |
| `Sharing.CommandKeeps` | src/network/network.c:17-25 | the simulation: an allowed command on the shared host, with any outcome, keeps the invariant, has an outcome its issuer's view foresees, and moves only that view |
| `Sharing.DeleteChains` | src/network/network.c:203-217 | a deletion by value hits exactly the issuer's own entry, never another container's or an initial rule |
| `Sharing.NewPairKeeps` | src/network/network.c:119-124 | adding a pair keeps every other pair and every initial interface |
| `Sharing.MoveKeeps` | src/network/network.c:134-136 | moving `eth0` away moves the far end of the issuer's own pair |
| `Sharing.UnplugKeeps` | src/network/network.c:318-321 | deleting the host end removes that pair and nothing else |
| `Sharing.NewBridgeKeeps` | src/network/network.c:38-40 | a bridge is recorded for one maker and has no rules yet |
| `Interleaving.StepKeeps` | src/network/network.c:251-324 | every event of every container keeps the invariant |
| `Interleaving.Reachable` | src/network/network.c:251-324 | so does every sequence of events |
| `Interleaving.ChainsHoldLiveRules` | src/network/network.c:167-324 | in every reachable state each chain is its initial contents followed by the live rules in order of issue; an idle container has none, and one whose setup ended well with no rule refused has all of its own, in order |
| `Interleaving.BridgeRulesOnce` | src/network/network.c:69-86 | a bridge's masquerade and FORWARD rules are there at most once each, however many containers race for it, and not at all for a bridge that was there at the start |
| `Interleaving.Wiring` | src/network/network.c:109-164 | in every reachable state the interfaces are the initial ones unchanged, the bridges made since, and pairs of containers that are not idle; at most one far end is on the host; a far end that moved is in its own container's namespace |
| `Interleaving.LookupFindsOwner` | src/network/network.c:171-193 | in every reachable state first-match lookup of a pair gives an initial rule if one takes it, else the earliest live claim; there is one whenever a live container publishes the pair; it is the rule of a container that is not idle and publishes the pair, and of a live publisher it is the earliest mapping |
| `Interleaving.PublisherClaims` | src/network/network.c:171-189 | in every reachable state the first claim among a live publisher's own entries is its earliest mapping for the pair |
| `Interleaving.FirstMatchJoin` | src/network/network.c:175-179 | reading a chain that was appended to: the older part decides when it takes the packet |
| `Ports.ForwardAdds` | src/network/network.c:167-196 | with no rule refused, PREROUTING and FORWARD grow by the rules of all mappings in order, and nothing else changes |
| `Ports.RemoveTakes` | src/network/network.c:199-220 | removal deletes the first occurrence of each mapping's rules, in the list's order |
| `Ports.ForwardThenRemove` | src/network/network.c:167-220 | adding and removing a list preserves both chains as multisets from any start, duplicates allowed, and as sequences when none of the rules were there |
| `Ports.OneRuleBackAgain` | src/network/network.c:175-209 | for one rule, order is kept if and only if nothing but copies of it follows its first copy |
| `History.SetupAdds` | src/network/network.c:251-300 | a complete setup appends its bridge's rules, exactly if the bridge was not there, and then those of its ports |
| `History.CleanupTakes` | src/network/network.c:303-324 | a cleanup call takes the container's rules out of each chain by first occurrence |
| `History.ChainsFollowLog` | src/network/network.c:251-324 | after any history of complete setups and cleanups each chain is its initial contents, then the rules of the bridges made and of exactly the live containers, in order of issue |
| `History.LookupIsOwner` | src/network/network.c:171-193 | first-match lookup agrees with the ownership rule in all those states |
| `History.OwnerIsEarliest` | src/network/network.c:171-193 | the owner is the earliest-set-up live publisher, with its earliest mapping for the pair |
| `History.OwnerAfterCleanup` | src/network/network.c:203-217 | cleanup leaves pairs owned by earlier containers alone and passes the container's own to the owner among the later ones |
| `Interfaces.VethOutcome` | src/network/network.c:109-164 | the pair's step ends well only if there is a gateway, both names and the namespace's `eth0` are free and the bridge is a bridge, and then the pair is configured as listed; without faults exactly then |
| `Interfaces.BridgeOutcome` | src/network/network.c:28-90 | the bridge step ends well without faults exactly if the bridge is there or the subnet has a slash |
| `Interfaces.SetupOutcome` | src/network/network.c:251-300 | the same for the whole setup, with the interfaces it leaves |
| `Interfaces.HostEth0Blocks` | src/network/network.c:116-124 | with an `eth0` on the host no setup ends well |
| `Interfaces.NoGatewayBlocks` | src/network/network.c:149-153 | with an empty gateway no setup ends well |
| `Interfaces.SettledGateway` | src/network/network.c:267-280 | the settled gateway is empty if and only if none is given and the subnet has no slash |
| `Interfaces.DefaultRouteIsBridge` | src/network/network.c:53-63 | setup that makes the bridge with no gateway given: the bridge's one address and the container's default route are the two computed texts, equal for every well-formed subnet |
| `Interfaces.RouteAgreesIff` | src/network/network.c:267-279 | the two texts are equal for all contents of uninitialised memory if and only if the text before the slash is an address |
| `Ipv4.PtonOfNtop` | src/network/network.c:55-57 | printing any 32-bit address and parsing the text gives the address back |
| `Ipv4.NtopOfPton` | src/network/network.c:55-57 | every text that parses is the one printed for its address |
| `Ipv4.QuadText` | src/network/network.c:55-57 | the text is the four bytes in decimal, highest first |
| `Ipv4.NtopText` | src/network/network.c:55-57 | the text of an address has 7 to 15 characters and no slash, so it always fits its buffer |
| `Ipv4.FirstAddress` | src/network/network.c:267-279 | the base plus one as text |
| `Ipv4.AllocateIp` | src/network/network.c:223-248 | no slash is the one error; otherwise the text, cut at its slash, parses to the subnet's own address plus `draw % 253 + 2`, modulo 32 bits |
| `Ipv4.AllocatedText` | src/network/network.c:231-245 | the same on the text function, with the whole text for suffixes of up to 47 characters |
| `Ipv4.AllocatedTextUsable` | src/network/network.c:223-248 | for a subnet in its usual notation every allocated text parses to a usable address of the subnet's block, without wrap-around, if and only if 256 addresses of the block lie from the base on; for an aligned base if and only if the prefix is at most 24 |
| `Ipv4.FirstAddressText` | src/network/network.c:53-63 | the gateway's text parses to the subnet's own address plus one, and the bridge gets it with the subnet's own suffix |
| `Ipv4.SubnetText` | src/network/network.c:43-58 | an address, a slash and a suffix are taken apart into just these |
| `Ipv4.BlockFits` | src/network/network.c:232-241 | no address block reaches past 32 bits |
| `Ipv4.AllocationUsable` | src/network/network.c:232-241 | every draw stays in the block without wrap-around and avoids the network, gateway and broadcast addresses if and only if 256 addresses of the block lie from the base on |
| `Ipv4.AlignedAllocationUsable` | src/network/network.c:232-241 | for an aligned base: if and only if the prefix is at most 24 |
| `Options.CutProtocol` | src/main.c:115-123 | the in-place cut at the slash and the bounded protocol, `tcp` without one |
| `Options.CutMapping` | src/main.c:109-124 | cutting a mapping's text in place reads what its parse says |
| `Options.RunConfig.AddPublish` | src/main.c:107-126 | one more mapping exactly if the text has a colon and the array has room; otherwise array and text are untouched |
| `Options.RunConfig.AddVolume` | src/main.c:127-141 | one more volume exactly if the text has a colon and the array has room; otherwise array and text are untouched |
| `Options.VolumeTextParses` | src/main.c:129-138 | a volume's text is its source up to the first colon and its target behind it, each up to 4095 characters, as a plain bind |
| `Options.PortTextParses` | src/main.c:109-124 | a mapping's text is cut at its first colon and the first slash after it, whatever else its parts hold |
| `Options.RunConfig.ParseAll` | src/main.c:107-141 | for every option list the arrays hold, in order, the parses of exactly the first 128 and first 64 options with a colon |
| `Options.PrintedPortParses` | src/main.c:107-126 | every mapping with 16-bit ports and a protocol of up to 7 characters is read back from its printed text |
| `Options.ShortPortParses` | src/main.c:107-126 | so is one without protocol, as `tcp` |
| `Numbers.AtoiOfDec` | src/main.c:113-118 | a 16-bit number is read back from its decimal text |
| `Numbers.AtoiReads` | src/main.c:113-118 | any number after blanks and before anything else is read up to 64 bits and kept modulo 16 bits |
| `Numbers.AtoiReadsSigned` | src/main.c:113-118 | so is one with a sign |
| `EndToEnd.StoredMappingIsParsed` | src/main.c:107-126 | where in the array an option's mapping ends up |
| `EndToEnd.OptionForwardsPort` | src/network/network.c:171-189 | a stored mapping that is the first for its pair, unclaimed before, is what lookup yields after a complete setup, with its accept rule on FORWARD |
| `EndToEnd.PublishedPortIsForwarded` | src/main.c:107-126 | the same from the option's text: `h:c/proto` leads to the container's address and port `c` |
| `EndToEnd.StoredVolumeIsParsed` | src/main.c:127-141 | where in the array a volume option ends up |
| `EndToEnd.VolumeOptionServes` | src/main.c:127-141 | from the option's text: after a good setup the target's path below the root is served by `source`, bound there, unless a volume stored later lies on its way |
| `Text.TrimWhitespace` | src/utils/utils.c:155-175 | in place: the string at the returned offset is the trimmed one, and no byte outside the string changes |
| `Text.TrimUnique` | src/utils/utils.c:155-175 | whitespace, clean-edged middle, whitespace: the middle is what trimming gives |
| `Text.TrimSplits` | src/utils/utils.c:155-175 | and every string is such a sandwich |
| `Text.TrimMaximal` | src/utils/utils.c:155-175 | every clean-edged substring lies inside the trimmed one |
| `Text.TrimIdempotent` | src/utils/utils.c:155-175 | trimming twice is trimming once |
| `Text.SpacesAre` | src/utils/utils.c:159 | whitespace is space, tab, newline and carriage return, and nothing else |
| `Text.TakeToken` | src/utils/utils.c:184-191 | one round writes nothing outside its own field and delimiter |
| `Text.SplitString` | src/utils/utils.c:178-195 | the count is the smaller of the limit and the number of fields; in the final buffer token i is the trimmed i-th field of the original; nothing else is written |
| `Text.SplitOfJoin` | src/utils/utils.c:178-195 | splitting a join of delimiter-free fields gives the fields trimmed, unchanged if they were trimmed |
| `CStrings.FieldsOfJoin` | src/utils/utils.c:178-195 | splitting undoes joining |
| `CStrings.JoinOfFields` | src/utils/utils.c:178-195 | joining undoes splitting |
| `Storage.Driver.BuildLowerDir` | src/storage/storage.c:103-110 | the bounded concatenation is the first 16383 characters of the whole list |
| `Storage.PathListIsJoin` | src/storage/storage.c:103-110 | of nonempty paths the whole list is their colon join |
| `Storage.LowerDirReadsBackIff` | src/storage/storage.c:85-110 | reading the list at its colons gives the layers in reverse if and only if it was not cut |
| `Storage.OptionsReadBackIff` | src/storage/storage.c:112-118 | the three settings are read back from what mount(2) takes over if and only if the options text is shorter than a page |
| `Storage.Driver.MakeWorkspace` | src/storage/storage.c:92-101 | the three directories are made one after the other whatever becomes of each; the upper one is known as an empty layer exactly if it was no directory and is one after its call; every layer known before is still a directory |
| `Storage.NewDirIff` | src/storage/storage.c:14-40 | a path made with success is a new directory if and only if nothing was there: a regular file is none |
| `Storage.HoldsAfterMaking` | src/storage/storage.c:14-40 | making a path, whatever becomes of it, takes away no directory that a layer is known at |
| `Storage.AllMade` | src/storage/storage.c:99-101 | when no mkdir fails by itself and no file is in the way, all of them can be walked to afterwards |
| `Storage.WorkspaceLeads` | src/storage/storage.c:92-97 | the paths lead to `overlay`, the id and `upper`, `work` or `merged` below the image directory, and layers to `layers` and their id, when the texts fit |
| `Storage.WorkspacesApart` | src/storage/storage.c:92-97 | for ids that are single ordinary names: the directories of two containers, the three of one, and those and any layer's are apart, none inside another |
| `Storage.Driver.MountOverlay` | src/storage/storage.c:83-127 | the workspace is made; a failed mount mounts nothing and leaves the caller's buffer alone; otherwise the mount point has the options, and the buffer its padded, bounded text |
| `Storage.PaddedHolds` | src/storage/storage.c:124 | a buffer longer than the mount point's text holds it as a string; a shorter one holds its first characters |
| `Storage.OptionsNameDirs` | src/storage/storage.c:103-115 | the options name the whole list, and the container's own upper and work directories |
| `Storage.Driver.CommitContainer` | src/storage/storage.c:242-265 | the call always ends well; it changes no directory but the layer's, which is known afterwards exactly if it was or is newly made, and holds what it held overlaid with what `*` matches in the upper directory |
| `Storage.OptionsNameStack` | src/storage/storage.c:103-115 | the options name the upper directory over exactly the image's layers, the last one uppermost |
| `Storage.MountShowsMerged` | src/storage/storage.c:103-115 | looking any path up through the mount is looking it up in the layers laid over each other from index 0, upper directory last |
| `Storage.WalkShowsMerged` | src/storage/storage.c:103-115 | so is walking it name by name through the merged directories |
| `Storage.CommitPreservesView` | src/storage/storage.c:242-265 | a container on the image with the committed layer sees path by path what the first container saw |
| `Overlay.SearchIsMerged` | src/storage/storage.c:103-110 | first layer with an entry or whiteout wins equals folding the layers as overrides from the bottom, for any number of layers |
| `Overlay.WalkIsSearch` | src/storage/storage.c:103-110 | a walk that merges, at every name, the directories of the layers down to the first one that hides the rest finds what searching the layers for the whole path finds |
| `Overlay.CommitFaithfulIff` | src/storage/storage.c:256-260 | the copied layer shows what the upper directory showed, on every image, if and only if no top-level name starts with a dot |
| `Mkdir.MkdirBelow` | src/storage/storage.c:28-30 | one mkdir below a place that was reached fails exactly if that place is a file or the directory is missing and cannot be made; otherwise the way to it can be walked |
| `Mkdir.MkdirKeepsClosed` | src/storage/storage.c:28-30 | no mkdir, whatever `.` and `..` its path has, leaves a directory without its parent |
| `Mkdir.PathBuffer` | src/storage/storage.c:19-23 | the bounded copy without one trailing slash, terminated |
| `Mkdir.WalkedIsPath` | src/storage/storage.c:19-23 | what is walked has the names of the path itself, up to 4095 characters, and is empty only for an empty path and for `/` |
| `Mkdir.LeadsWhole` | src/storage/storage.c:19-37 | a path that fits leads to its own names, from the root or from the working directory |
| `Mkdir.FileSystem.MkdirRecursive` | src/storage/storage.c:14-40 | the loop that cuts and restores the buffer does the walk over the path's prefixes; when it ends well the tree is the old one extended along the path, and the path can be walked |
| `Mkdir.WalkMkdir` | src/storage/storage.c:25-33 | no component is tried whose parent is missing |
| `Mkdir.MkdirRecursiveResult` | src/storage/storage.c:14-40 | for every failure point the tree stays parent-closed and gains only directories the path leads through; on success all of them; without faults it succeeds if and only if the path is neither empty nor `/` and leads through no regular file |
| `Mkdir.ExtendIs` | src/storage/storage.c:25-37 | what extending a tree along a path adds and keeps |
| `Mkdir.ExtendLeast` | src/storage/storage.c:25-37 | it is the least tree that holds the old one and in which the path can be walked to its end |
| `Mkdir.MkdirRecursiveIdempotent` | src/storage/storage.c:14-40 | after a success a second call changes nothing and succeeds, whatever mkdir would have failed |
| `Mkdir.OkMeansDirectory` | src/storage/storage.c:28-37 | after a success the place is a directory if and only if no regular file was there |
| `Mkdir.EmptyPathFails` | src/storage/storage.c:19-23 | the root path is cut to nothing and the call fails |
| `Mounts.LastIssuedServesIff` | src/namespace/namespace.c:39-111 | for mounts on any paths, `.` and `..` included: walking every path name by name over the topmost mounts ends in the last-issued mount whose target is a prefix of the place the path leads to, at the rest of that place, if and only if nothing but the first mount is made on the root |
| `Mounts.DescendIsLastCover` | src/namespace/namespace.c:39-111 | the same for walks over ordinary names, for every sequence of targets |
| `Mounts.ParentIsServed` | src/namespace/namespace.c:96-111 | `..` from where a place is served, out through all mounts at that place, leads to where the place above is served |
| `Mounts.FollowMore` | src/namespace/namespace.c:96-111 | one more mount redirects exactly the walks that ended where it is attached |
| `Copies.BindIsRemaking` | src/namespace/namespace.c:39-42 | copying a mount's subtree from a place on, each copied mount attached to the copy of what it was attached to, equals making the mounts that lie strictly below the place and came after the one serving it again, in order, after the bind |
| `Copies.OriginalsAre` | src/namespace/namespace.c:39-42 | which mounts those are |
| `Volumes.MountSpace.BindRecursively` | src/namespace/namespace.c:39-42 | the bind and its copies, each read-only if its original is |
| `Volumes.CopiedAre` | src/namespace/namespace.c:39-42 | the copied mounts are those made after the one that serves the root path, on targets strictly below it |
| `Volumes.MountSpace.Mount` | src/namespace/namespace.c:104-108 | a mount with its source and type is attached where its path, as written, leads now, on top of what is there; a bind is read-only if what serves its source is; a failed mount changes nothing |
| `Volumes.MountSpace.RemountReadonly` | src/namespace/namespace.c:45-50 | exactly the mount that serves the path becomes read-only |
| `Volumes.RootBound` | src/namespace/namespace.c:39-50 | which, when the root path does not lead to the root directory, is the root bind just made, and no copy |
| `Volumes.MountStandard` | src/namespace/namespace.c:52-93 | the six standard mounts in order, failures only logged |
| `Volumes.MountVolumes` | src/namespace/namespace.c:96-111 | the volumes in order up to the first failure |
| `Volumes.SetupMounts` | src/namespace/namespace.c:31-114 | mounts, clock and status of the whole ordered setup for every fault pattern |
| `Volumes.SetupEndsWell` | src/namespace/namespace.c:31-114 | setup ends well if and only if no required mount fails; the six standard ones do not matter |
| `Volumes.SetupAddsInOrder` | src/namespace/namespace.c:31-114 | and has then added the root bind, the copies, the standard mounts that worked and all volumes with their sources, in order |
| `Volumes.SetupBuilt` | src/namespace/namespace.c:31-111 | with nothing on the root directory before, nothing is on it after the setup, and all mounts, copies included, are attached as making them in order attaches them |
| `Volumes.ServedByLastIssued` | src/namespace/namespace.c:39-111 | a path is served by the last mount issued on its way |
| `Volumes.LaterVolumeShadows` | src/namespace/namespace.c:96-111 | after a good setup a path under volumes is served by the last of them on its way: by that very mount, by number |
| `Volumes.StandardUnlessCovered` | src/namespace/namespace.c:52-111 | proc on `/proc`, sysfs on `/sys`, devtmpfs on `/dev`, devpts on `/dev/pts`, tmpfs on `/tmp` and on `/run`: each that could be mounted serves its path, by that very mount, if and only if no volume covers it |
| `Volumes.RootUnlessCovered` | src/namespace/namespace.c:39-111 | the root path itself is served by the root bind if and only if no volume covers it |
| `Volumes.DevPtsUnlessCovered` | src/namespace/namespace.c:76-111 | the case of devpts |
| `Volumes.SetupReadonly` | src/namespace/namespace.c:45-111 | which mounts are read-only after a good setup: the root bind as asked, copies as their originals, no standard mount, and each volume as what served its source when it was bound |
| `Volumes.ReadonlyUnlessCovered` | src/namespace/namespace.c:45-111 | with a read-only root a path below it is read-only if and only if the last mount on its way is the root bind, the copy of a read-only mount, or a volume bound from a read-only source |
| `Volumes.StoredVolumesBind` | src/main.c:127-141 | every volume that the option loop stores is a plain bind |
| `Targets.VolumeStaysInRoot` | src/namespace/namespace.c:98-108 | from the root path on, the way to a volume's mount is inside the root at every name if and only if the two texts do not run into one name and the target never goes above its start |
| `Targets.VolumeEndsInRootIff` | src/namespace/namespace.c:98-108 | it ends inside the root if and only if the names of the root it climbs over are named again on the way down, for every root path and target |
| `Targets.ClimbingVolume` | src/namespace/namespace.c:98-108 | `/../../../etc` under `/img/rootfs` is mounted on `/etc` |
| `Targets.GluedVolume` | src/namespace/namespace.c:98-99 | `data` under `/c` is mounted on `/cdata` |

## Left out

- Network.CreateBridge: command text and `system` are represented by a datatype of commands. A command that fails changes nothing; a deletion fails exactly when the thing is absent. Two rules are equal when their parameters are equal as text.
- Network.SetupContainer: the random draw and the contents of uninitialised memory are parameters. The source draws from the time and the process id and keeps no record, so distinct addresses are an assumption of the multi-container theorems, never a conclusion.
- Interfaces.SetupOutcome: beyond an empty gateway, whether `ip` accepts an address, a gateway or a name as text is not modelled; such a rejection counts as a fault of the command.
- Interleaving.BridgeRulesOnce: speaks of bridges that are not deleted meanwhile. `network_delete_bridge` leaves its rules behind, so a bridge made again after it would add them a second time.
- Interleaving.ChainsHoldLiveRules: each container keeps one address and one port list throughout; a container set up again uses the address that was written back.
- History.ChainsFollowLog: treats setups in which no rule was refused; what refused rules leave is covered command by command in Interleaving and Rollback.
- Options.RunConfig.ParseAll: getopt's own permutation of the arguments and the other options, `-e` among them, whose array is never allocated before it is written.
- Numbers.AtoiOfDec: `atoi` reads as `strtol` with 64-bit saturation does in glibc; the C standard leaves values that do not fit undefined.
- Ipv4.PtonOfNtop: `inet_pton` rejects leading zeros, as glibc does.
- Storage.Driver.MountOverlay: a page is taken as 4096 bytes. Each directory of layers is named by one path text.
- Storage.OptionsReadBackIff: backslash escapes in overlay options are not modelled, so paths are assumed free of commas, and layer paths of colons too.
- Storage.Driver.CommitContainer: the copy is one step that happens or not; copying into a layer directory that already has entries is an override by path, and the bounded command text is assumed not to be cut.
- Overlay.SearchIsMerged: file contents and attributes are opaque; a directory is marked as overriding or not. The walk of `Overlay.WalkIsSearch` is stated for layers whose entries lie in directories of the same layer, as those of a directory tree do.
- Mkdir.MkdirRecursiveResult: symbolic links and file modes are left out. An existing regular file at the end of the path is reported as made, as the code does.
- Volumes.SetupMounts: volumes are plain binds, as the volume option stores them (`Volumes.StoredVolumesBind`); other flags, which no option sets, are left out, and so are the `mkdir` before each mount, mount options and unbindable mounts. Whatever makes the kernel refuse a mount is a fault. Symbolic links are left out.
- Targets.VolumeStaysInRoot: a root path whose text ends in the name `.` or `..` is left to `Targets.VolumeEndsInRootIff`, which covers every root path.
- Volumes.LaterVolumeShadows: a mount on the root directory itself is not covered; what it does is the exact condition of `Mounts.LastIssuedServesIff`.
- Container lifecycle, state files, exec and logs: `src/core/runtime.c` is not part of this model.
- `parse_size`, `format_size`, CPU shares, cgroup writes, clone flags and `generate_id`: single-branch or floating-point code that would add easy members only.
- `pivot_root`, user and group id maps, joining namespaces, and the tar, rsync and du wrappers: sequences of system calls with no state of their own.
