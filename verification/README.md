# Verification of the vmnet driver

A Dafny model of the Linux `vmnet` virtual-network driver, with proofs of what its algorithms are for.
Run `dafny verify dfyconfig.toml` to check it.

The project has six parts, each with a few modules:

- **Topology** (`Jacks`, `SideTrees`, `Forest`, `Propagation`, `Rewiring`, `Growth`, `Soundness`, `Driver`,
  `Components`, `Network`). Jacks, hubs and bridges are heap objects that the driver's methods update in place.
  The invariant `VNetDriver.Valid` says that every jack's component is a finite tree of hubs, in which no hub and no
  host interface occurs twice, and that every count, total and promiscuous mode is right. Each method takes the tree
  behind a jack as a ghost argument, and its recursion follows that tree. `Components` and `Network` say the
  invariant again in terms of reachability, without trees.
- **Hub allocation** (`HubAllocation`, `HandOut`). State machines over the points between which allocating and freeing
  jacks is not interrupted. `HubAllocation.Run` is any interleaving of any number of requests; `HandOut.Run` is any
  interleaving of handing out jacks of one hub with the hub's count passes.
- **Single-MAC translation** (`SmacTable`, `Checksum`, `OutgoingIPv4`, `OutgoingIPv6`, `Translation`). The hash table
  with its add cache is a linked structure proved to be a map; frames are byte arrays rewritten in place and
  proved against functions on their contents. `Smac.history` is what every outgoing frame so far has taught, and the
  invariant `Smac.Valid` says that each address in the table is there with the MAC that was last taught for it.
- **Events** (`EventLog`, `Events`). `EventLog` is about the events that a sender retains and those that a handler
  is given; `Events` has the mechanism with its senders, listeners and references. Its invariant says of every
  listener, unconditionally, that it has got last whatever is retained for it.
- **Host filter** (`FilterRules`, `Filter`). `FilterRules` says what a request describes and what a list of rules
  decides; `Filter` has the linked rule sets. Each rule set remembers, as a ghost, the requests that its rules were
  made for, so that the hook's verdict can be stated in terms of what the user asked for.
- **Datagrams** (`Datagram`, `Segmentation`). Checksumming while copying, and TCP segmentation.

## What the code does not do

Some properties that one would expect hold only under a condition. Each has an exact condition, and a member that shows
it failing.

- Bringing a bridge up conserves promiscuity exactly if it does not fail after entering promiscuous mode
  (`VNetDriver.BridgeUp`, `VNetDriver.Leaks`): the error exit after the link-state event forgets the device.
  `Network.LeakingBridge` runs into it.
- The copy of a hub's total into a jack and the publication of the jack are not protected against a count pass. When
  passes have ended, a jack that was handed out has the right count exactly if a pass was running at its publication
  that had still to come by it, or the total was then the one that was copied, or another pass has run since
  (`HandOut.HandedOutRight`). `HandOut.StaleCount` is a run in which the jack's own connect logs the mismatch.
- A switch to a different peer that ends in -EBADF leaves the jack without a peer. Switching such a jack again writes
  through a null jack exactly if the new connection is refused, or asked for in place of the missing peer, and memory
  lasts (`VNetDriver.SwitchToDifferentPeer`, `VNetDriver.SwitchUnplugged`). `Network.UnpluggedSwitch` does.
- Following IPv6 extension headers loads one byte of length into a wider variable that still holds the previous
  length. All lengths along the walk are right exactly if no header of 256 bytes or more is followed by another one
  (`LensRightIff`); that the walk then ends at the right place is only implied, since it may do so by accident
  (`WalksMeetAgain`). `WalkWrong` is about frames on which it does not, and `LongHeaderDropped` says that
  such frames are dropped.
- The UDP checksum of a DHCP request stays valid exactly if the datagram reaches as far as the flag
  (`StillVerifies`); `ShortDatagramSent` is one that does not and is sent.
- A new listener agrees on a key with an earlier one of the same mask exactly if an event of the key is retained for
  them, or the earlier one was never given one (`LateAsEarlyIff`). An event may be missing because memory for a
  later one was refused, or because the key changed its class set; `LateDiffers` has a run for each. `LateAsEarly`
  says that they agree on keys to which neither happened, whenever the new one came.
- A filter change request that neither enables nor disables a set and asks for no new action stores the "no change"
  value as the action. `NoChangeKeepsVerdict` says exactly which packets notice, and
  `NoChangeOpens` is about one.

Two comments in the source are not what the code does; the model follows the code.

- The comments in the filter's interface give the protocol wildcard as all ones of the field; the code accepts and
  compares 0xFFFF.
- The comment on the IPv6 hash says that it adds all octets of an address; the code adds the four low ones of each
  half.

## Model

Paths are relative to the repository's root.

| member | source | states |
|---|---|---|
| Driver.VNetDriver.Connect | vmnet-only/driver.c:1420-1461 | Connecting two distinct free jacks succeeds, memory permitting, exactly if their components share no hub and no host interface name. Success links the two and nothing else; a refusal (-EDEADLK) changes neither links nor counts. The invariant of the whole network is kept, and the count mismatch is never logged. |
| Driver.VNetDriver.CycleDetect | vmnet-only/vnetInt.h:246-259 | The dispatching walk behind a jack finds nothing exactly if nothing behind it repeats or is already marked in this generation; if it finds nothing, it has marked exactly what is there. |
| Driver.VNetDriver.HubCycleDetect | vmnet-only/hub.c:612-636 | The hub's share of the walk: terminates on every wiring that connects can build, and is exact. |
| Driver.VNetDriver.CycleDetectIf | vmnet-only/driver.c:1528-1558 | An interface is found exactly if it is already marked in this generation, or memory is refused; otherwise it is marked, and no other mark changes. |
| Driver.VNetDriver.FreeInterfaceList | vmnet-only/driver.c:1579-1587 | Empties the list of interfaces and changes nothing else. |
| Driver.VNetDriver.HubPortsChanged | vmnet-only/hub.c:657-687 | Pushing news into a hub leaves every count, total and bridge behind it right for the ports that now lie beyond the entry jack, changes nothing outside that tree, terminates, and never logs a mismatch. |
| Driver.VNetDriver.PortsChanged | vmnet-only/vnetInt.h:275-284 | The same for the dispatcher, whatever hangs behind the jack. |
| Driver.VNetDriver.BridgePortsChanged | vmnet-only/bridge.c:856-867 | A bridge that is told of its ports is promiscuous exactly if it has a device that is not wireless and ports are attached; the devices' use counts stay right. |
| Driver.VNetDriver.StartPromisc | vmnet-only/bridge.c:146-170 | Entering promiscuous mode raises the device's count by one only if the bridge does not hold it and is not wireless. |
| Driver.VNetDriver.StopPromisc | vmnet-only/bridge.c:189-207 | Leaving promiscuous mode gives back exactly what the bridge holds. |
| Driver.VNetDriver.Disconnect | vmnet-only/driver.c:1481-1506 | Cuts the jack's link, returns the peer, and leaves both parts with right counts. |
| Driver.VNetDriver.SwitchToDifferentPeer | vmnet-only/driver.c:1188-1257 | The switch succeeds exactly if the new connection is possible after the cut. When it is refused, -EBADF can only come from an allocation that fails; otherwise the links are those from before, and so is every count, total and promiscuous mode. A jack without a peer may be connected itself; when that is refused, or its missing peer is to be connected, and memory lasts, the source writes through a null jack. |
| Driver.VNetDriver.SwitchUnplugged | vmnet-only/driver.c:1226-1243 | What becomes of a switch of a jack without a peer, for each of the two ends that may be asked for. |
| Network.UnpluggedSwitch | vmnet-only/driver.c:1218-1243 | A port without a peer, for which another is to take the place of the missing peer: the null jack is written through unless memory runs out. |
| Driver.VNetDriver.FindHub | vmnet-only/hub.c:108-146 | Finds the hub with an id exactly if there is one. |
| Driver.VNetDriver.AddHub | vmnet-only/hub.c:168-172 | A new hub goes to the head of the list, with all jacks free; the invariant is kept. |
| Driver.VNetDriver.AllocJack | vmnet-only/hub.c:293-426 | Null is returned exactly if the hub with the id asked for is full, or does not exist and memory is refused, or the proc entry is refused. Otherwise the jack was free, is on that hub, and has nothing plugged in; the invariant is kept, so its count starts out right. |
| Driver.VNetDriver.FreeHubJack | vmnet-only/hub.c:446-487 | Frees the jack; its hub goes, with all its jacks, exactly if no other jack of it is allocated. |
| Driver.VNetDriver.RemoveHubFromList | vmnet-only/hub.c:194-204 | Takes one hub off the list and leaves the others. |
| Driver.VNetDriver.CreatePort | vmnet-only/bridge.c:384-398 | The jack of a new port of any kind starts unplugged and counts for one; the invariant is kept. |
| Driver.VNetDriver.VNetBridge_Create | vmnet-only/bridge.c:339-476 | The result for each thing that can be wrong or refused, in order, with nothing changed; otherwise a new port with a bridge of that name, bound to its device exactly if the device can be brought up. A bring-up that fails here leaks nothing. |
| Driver.VNetDriver.FreePort | vmnet-only/bridge.c:498-536 | An unplugged port goes away; a bridge lets its device go first. |
| Driver.VNetDriver.BridgeUp | vmnet-only/bridge.c:1003-1143 | The result and the device bound, for each way it can go. Promiscuity is conserved exactly unless the link-state event fails after promiscuous mode was entered; then the device is left with one count that nobody holds. |
| Network.LeakingBridge | vmnet-only/bridge.c:1105-1142 | A driver with a bridge connected to a port, on which a failing link-state event leaves the device with a count that nobody holds and the invariant broken. |
| Driver.VNetDriver.BridgeDown | vmnet-only/bridge.c:1164-1192 | Bringing a bridge down gives its device back and conserves promiscuity. |
| Components.SeparateIff | vmnet-only/driver.c:1432-1443 | The two marking walks pass exactly if no jack reachable from the one end and no jack reachable from the other belong to the same hub or stand for the same interface. |
| Components.NoCycle | vmnet-only/driver.c:1420-1461 | In every state of the invariant, a walk that never turns back does not enter a hub twice: each component is a tree of hubs. |
| Components.NamesDistinct | vmnet-only/driver.c:1420-1461 | In every state of the invariant, no two ports of a component stand for the same host interface. |
| Components.ComponentIsTree | vmnet-only/hub.c:612-636 | What the walk behind an unplugged jack visits is the jack's whole component. |
| Components.NumPortsIsReachable | vmnet-only/hub.c:657-687 | A jack's count is the number of port jacks that can be reached from it with its own link cut. |
| Network.CountsRight | vmnet-only/hub.c:657-687 | In every valid state of the driver, each allocated jack's numPorts is the number of ports reachable behind it, and each hub's totalPorts is the sum of what is attached to its jacks. |
| Network.TotalIsSum | vmnet-only/hub.c:665-671 | A hub's total is the sum over its allocated jacks. |
| Network.PromiscuityRight | vmnet-only/bridge.c:146-207 | In every valid state a bridge holds its device in promiscuous mode exactly if the device is bound, not wireless, and ports are reachable through the bridge; the device's count is what others contribute plus one for each bridge holding it. |
| Propagation.NoMismatch | vmnet-only/hub.c:674-680 | What a hub computes for the jack that told it is the count that jack already has. |
| Propagation.SecondWalk | vmnet-only/driver.c:1438-1443 | With what the first walk marked, the second one finds nothing exactly if the two trees have nothing in common. |
| Forest.OutTreeWhole | vmnet-only/hub.c:657-687 | Looking at a tree from another jack of its hub moves the boundary but conserves the whole: ports and marks add up to the same. |
| Growth.TalliesDetermined | vmnet-only/driver.c:1188-1257 | The wiring and the devices bound determine every count, total and promiscuous mode. |
| Growth.CutCanRejoin | vmnet-only/driver.c:1225-1243 | The two ends of a link that was cut share nothing, and joining them again gives the wiring from before. |
| HubAllocation.StepKeeps | vmnet-only/hub.c:293-487 | Every step between two points where the hub lock is given up keeps the invariant: ids on the list differ, a jack is marked used exactly if one request has it, hubs off the list are disposed of by one request. |
| HubAllocation.Run | vmnet-only/hub.c:293-487 | The state after any interleaved run of allocations and frees satisfies the invariant. |
| HubAllocation.IdsUnique | vmnet-only/hub.c:369-381 | Whatever the interleaving, no two hubs on the list have the same vnet number or PVN id. |
| HubAllocation.HandedOutOnce | vmnet-only/hub.c:384-420 | Whatever the interleaving, a jack is with at most one request until it is freed. |
| HubAllocation.DeallocatedUnused | vmnet-only/hub.c:468-486 | A hub about to be deallocated is off the list, no request has a jack of it, and only one request deallocates it. |
| HubAllocation.UnlistedUnused | vmnet-only/hub.c:465-477 | A hub that a free takes off the list has no used jack. |
| HandOut.StepKeeps | vmnet-only/hub.c:410-420 | Every step of copying a total into a jack, publishing or withdrawing the jack, and of a count pass keeps: only published jacks have something attached, a copied count stays, the total is what has been summed; and, without a race, counts are right. |
| HandOut.StepSettles | vmnet-only/hub.c:657-687 | A step of the other jacks changes whether a waiting jack will be right only by starting a pass, after which it will. |
| HandOut.CountsRightUnraced | vmnet-only/hub.c:410-420 | Over any run in which no count pass runs while a jack is between the copy of its count and its publication, the mismatch is never logged and every jack handed out has the right count. |
| HandOut.HandedOutRight | vmnet-only/hub.c:410-420 | Whatever the interleaving, and wherever a pass stands when a jack is published: at the end of any passes the jack, left alone, has the right count exactly if the pass running at its publication had still to come by it, or the hub's total was what it was when it was copied, or another pass has run since. |
| HandOut.LoggedIfWrong | vmnet-only/hub.c:673-680 | Whatever the interleaving, a pass logs the mismatch exactly if the jack that told the hub has a wrong count. |
| HandOut.StaleCount | vmnet-only/hub.c:410-420 | A run in which a port is connected between copy and publication: the jack starts with count 0 beside a port, and its own connect logs the mismatch. |
| SmacTable.IPAddrHash | vmnet-only/smac.c:448-465 | The hash is a bucket of the table. |
| SmacTable.SMACState.LookupByIPNoAcquireLock | vmnet-only/smac.c:889-907 | Finds the entry of an address exactly if the table has one. |
| SmacTable.SMACState.LookupByIP | vmnet-only/smac.c:911-931 | The table read as a map: whether the address is in it, and its MAC. |
| SmacTable.SMACState.RemoveIPfromHashTableNoAcquireLock | vmnet-only/smac.c:990-1024 | Takes exactly the given entry off its chain. |
| SmacTable.SMACState.GetSystemUptime | vmnet-only/smac.c:4536-4574 | The reading has its top bit set; every stamp is halved if the clock has wrapped, and stays as it is otherwise. Either way stamps stay in the order of last use and below the reading. |
| SmacTable.SMACState.HalveStamps | vmnet-only/smac.c:4559-4571 | Halves every stamp once. |
| SmacTable.SMACState.FindOldest | vmnet-only/smac.c:1089-1131 | Finds an entry with the least stamp among those that are not cached; none only if all those stamps are all ones. |
| SmacTable.SMACState.TrimLookupTableIfNecessary | vmnet-only/smac.c:1052-1157 | Evicts nothing from up to twenty entries, else one that is not cached, has the least stamp, and was used no later than any with a greater stamp; it evicts nothing then only if all others are stamped with all ones. |
| SmacTable.SMACState.LeastRecent | vmnet-only/smac.c:1052-1157 | An entry used before the one with the least stamp has the same stamp: the order of stamps is the order of use. |
| SmacTable.SMACState.SetCacheEntry | vmnet-only/smac.c:1183-1203 | The entry becomes the cached one, stamped with the second reading; the one cached so far is stamped with the first; all other stamps only age with the clock, and cache and stamps stay right. |
| SmacTable.SMACState.AddIPandMACcombo | vmnet-only/smac.c:1224-1379 | As a map, the table becomes map[addr := mac] minus at most one other address, also on the fast path through the cache. Refused addresses are never stored, failure means memory was refused for a new address, and at most twenty entries remain unless the clock reads all ones. |
| SmacTable.AddressesCounted | vmnet-only/smac.c:1334-1344 | The entries are as many as the addresses stored, so the counter is the size of the map. |
| SmacTable.SMACState.SomeOtherStamp | vmnet-only/smac.c:1065-1131 | A table that stays over its limit has seen the clock read all ones. |
| Checksum.SumOfConcat | vmnet-only/userif.c:623-716 | The words of a concatenation add up to those of its parts, the second shifted by a byte if the first is odd. |
| Checksum.ByteOrder | vmnet-only/smac.c:4420-4503 | Whether bytes verify does not depend on the order in which the bytes of a word are read. |
| Checksum.TwoFolds | vmnet-only/smac.c:4420-4423 | Two folds of any 32-bit sum fit in 16 bits and keep it modulo 65535. |
| Checksum.DiffIsDifference | vmnet-only/smac.c:4443-4467 | The difference fits in 17 bits and is after minus before modulo 65535, for all 32-bit sums. |
| Checksum.UpdateMakesUp | vmnet-only/smac.c:4488-4503 | The updated checksum makes up for the difference, as in section 3 of RFC 1624. |
| Checksum.UpdatesChain | vmnet-only/smac.c:4488-4503 | Updates one after the other make up for the sum of their differences. |
| Checksum.UpdateIsRecompute | vmnet-only/smac.c:4420-4503 | Updating a checksum that was right gives, modulo 65535, what computing it from scratch gives. |
| Checksum.Recheck | vmnet-only/smac.c:4488-4503 | A message whose bytes were replaced and whose checksum was updated verifies if it did before. |
| OutgoingIPv4.ProcessOutgoingIPv4Packet | vmnet-only/smac.c:2901-3325 | The packet in place becomes the rewritten one, for every packet with an IP header. |
| OutgoingIPv4.OnlyFlagAndCheck | vmnet-only/smac.c:3115-3251 | Only the broadcast flag and a present UDP checksum may change. |
| OutgoingIPv4.PresenceKept | vmnet-only/smac.c:3209-3234 | A present checksum never becomes 0, an absent one stays absent. |
| OutgoingIPv4.StillVerifies | vmnet-only/smac.c:3115-3251 | A UDP datagram that verified still does, whatever its pseudo-header, exactly if it reaches as far as the flag. |
| OutgoingIPv4.ShortDatagramBroken | vmnet-only/smac.c:3115-3251 | A request whose UDP length ends before the flag: its checksum verifies before, and not after. |
| OutgoingIPv6.SmacWalkIPv6ExtensionHeaders | vmnet-only/smac.c:3508-3558 | Computes the walk of the code, and terminates. |
| OutgoingIPv6.LoadedLenRight | vmnet-only/smac.c:3535-3542 | One header length loaded is the right one exactly if the previous header is shorter than 256 bytes. |
| OutgoingIPv6.LensRightIff | vmnet-only/smac.c:3524-3553 | All lengths that the walk loads along its way are right exactly if no header of 256 bytes or more is followed by another one. |
| OutgoingIPv6.WalkRight | vmnet-only/smac.c:3524-3553 | With the right lengths the walk ends where the headers say. |
| OutgoingIPv6.WalkWrong | vmnet-only/smac.c:3535-3542 | Frames with a header of 256 bytes in which the message is looked for 2048 bytes too far. |
| OutgoingIPv6.LongHeaderRefused | vmnet-only/smac.c:3631-3651 | Such a frame is refused as malformed, whatever message it carries, if it ends before that place. |
| OutgoingIPv6.WalksMeetAgain | vmnet-only/smac.c:3535-3542 | Frames in which a length is loaded wrong and the walk ends at the right place all the same. |
| OutgoingIPv6.MessageIsReal | vmnet-only/smac.c:3508-3558 | The lengths by which the message is found are right exactly if headers are short, and it is then the one that follows them. |
| OutgoingIPv6.OptionAligned | vmnet-only/smac.c:3697-3760 | Options are found at multiples of eight bytes; the search terminates. |
| OutgoingIPv6.PatchMacAddrFixChecksum | vmnet-only/smac.c:3346-3417 | Puts the MAC and the adjusted checksum in place, exactly if both fit in the packet; else changes nothing. |
| OutgoingIPv6.PatchedCheckMakesUp | vmnet-only/smac.c:3390-3399 | The new checksum makes up for the new MAC, although head and tail of the MAC are summed apart. |
| OutgoingIPv6.ProcessOutgoingIPv6Packet | vmnet-only/smac.c:3586-3760 | The packet in place becomes the rewritten one, or is refused as malformed and left alone. |
| OutgoingIPv6.OnlyMacAndCheck | vmnet-only/smac.c:3586-3760 | Only the option's six MAC bytes and the two checksum bytes may change, and the option then holds the host's MAC. |
| OutgoingIPv6.StillVerifies6 | vmnet-only/smac.c:3586-3760 | An ICMPv6 message that verified still does (section 2.3 of RFC 4443), wherever it ends, as long as the option is part of it. |
| Translation.SentFrame | vmnet-only/smac.c:2317-2873 | A forwarded clone is as long as its original, has the host's source MAC, and differs from it only in the ARP sender MAC, the DHCP flag and UDP checksum, or the NDP option MAC and ICMPv6 checksum. |
| Translation.ShortDatagramSent | vmnet-only/smac.c:2317-2873 | A request whose UDP length ends before the flag is sent, with a checksum that was right and is now wrong. |
| Translation.LongHeaderDropped | vmnet-only/smac.c:2317-2873 | An IPv6 frame with headers that are misread is dropped, whatever message it carries, unless it is long enough for the place where the message is looked for. |
| Translation.DeliveredFrame | vmnet-only/smac.c:1493-2288 | A delivered clone is as long as its original and differs from it only in the destination MAC and, for an ARP reply, the target MAC; what is put there is the MAC stored for the address that the frame is for, or the broadcast MAC. |
| Translation.StaysUpToDate | vmnet-only/smac.c:1224-1379 | Learning keeps every address in the table at the MAC last taught for it, through cache hits, refreshes, evictions, refusals and failures. |
| Translation.Smac.AnswerReachesGuest | vmnet-only/smac.c:1493-1847 | After any run, a well-formed unicast IP frame for an address in the table, not from the host's own MAC, is delivered to the MAC that the last frame teaching that address taught, and is otherwise unchanged. |
| Translation.Smac.TranslationIsUndone | vmnet-only/smac.c:2317-2873 | After any run, the answer to an IP frame that was translated at any time is delivered to the source MAC that the translation replaced, as long as the address is in the table and nobody taught it since. |
| Translation.Smac.CheckPacketToHost | vmnet-only/smac.c:2317-2873 | The method learns and sends what is decided about the frame, or drops it if memory is refused. The table gets the pair learned and loses at most one other address, and only when full; what was taught is recorded, and the table stays up to date with it. |
| Translation.Smac.CheckPacketFromHost | vmnet-only/smac.c:1493-2288 | The method delivers what is decided about the frame; the frame itself is never written to. |
| Translation.SendAndReceive | vmnet-only/smac.c:1493-2873 | A guest's first frame through a new translator and its answer: the answer gets back the source MAC of the frame. |
| Translation.Smac.LearnPair | vmnet-only/smac.c:1401-1420 | Learning gives map[addr := mac] minus at most one other address, evicted only from a full table; otherwise nothing changes. |
| Translation.Smac.SetMac | vmnet-only/smac.c:4069-4103 | The host's MAC changes; what was learned stays right. |
| Translation.Smac.SetForwardUnknownPackets | vmnet-only/smac.c:4124-4131 | Whether unknown packets are forwarded changes; what was learned stays right. |
| Datagram.CsumCopyDatagram | vmnet-only/userif.c:623-716 | Over any tree of head, fragments and nested lists: writes exactly the bytes from the offset on and nothing else, and returns the complement of their sum modulo 65535; fails exactly if the offset is past the head or the buffer too small. |
| Datagram.BlockAdded | vmnet-only/userif.c:640-712 | Adding a block at any offset, odd ones too, gives the sum of the concatenation. |
| Datagram.CsumAndCopyToUser | vmnet-only/userif.c:643-654 | Copies a piece and sums it. |
| Datagram.CopyDatagramToUser | vmnet-only/userif.c:737-783 | The copy is the datagram, or the datagram with its checksum completed, exactly in the cases in which the code says so; bytes after it are untouched. |
| Datagram.FilledVerifies | vmnet-only/userif.c:763-775 | The completed segment verifies under a pseudo-header exactly if the checksum field held the pseudo-header's sum. |
| EventLog.AfterKeeps | vmnet-only/vnetEvent.c:376-405 | Each sender retains at most one event per event id and type, the last one sent; other keys keep theirs. |
| EventLog.LatestOfWants | vmnet-only/vnetEvent.c:483-494 | Being given all retained events is being given, for each key, the retained one. |
| EventLog.SendInforms | vmnet-only/vnetEvent.c:376-415 | A send keeps every handler informed, whatever classes it is for: what is retained of a key for the handler's classes is what it got last. |
| EventLog.LossInforms | vmnet-only/vnetEvent.c:387-401 | So does a send that fails for want of memory, although it loses the event retained. |
| EventLog.SendKnown | vmnet-only/vnetEvent.c:376-405 | After a send an event of the key is retained, whatever was lost before; keys keep the class set they had. |
| EventLog.LossKnown | vmnet-only/vnetEvent.c:387-401 | After a send that fails for want of memory, exactly the keys that were sent and not lost have an event retained. |
| Events.Mechanism.AliveWhileHeld | vmnet-only/vnetEvent.c:116-178 | The mechanism is freed exactly if neither owner nor senders nor listeners have it, and the count is their number. |
| Events.Mechanism.constructor | vmnet-only/vnetEvent.c:116-137 | A new mechanism is held by its owner alone. |
| Events.Mechanism.DestroyMechanism | vmnet-only/vnetEvent.c:157-178 | Drops one reference; frees exactly when it was the last; refused to a handler's own task with nothing changed. |
| Events.Mechanism.CreateSender | vmnet-only/vnetEvent.c:204-234 | A new sender has a new id and no events. |
| Events.Mechanism.DestroySender | vmnet-only/vnetEvent.c:254-300 | A sender on the list leaves it, the others stay, and one reference is dropped; one that is not on the list is refused. |
| Events.Mechanism.UnlinkSender | vmnet-only/vnetEvent.c:254-288 | Its first half: the sender leaves the list and keeps its reference. |
| Events.Mechanism.Send | vmnet-only/vnetEvent.c:351-421 | Every listener of the event's classes is called once with it, and it becomes the retained event of its key; when memory is refused nobody is called, and the retained event of the key is lost. Class sets that change and events that are lost are recorded. |
| Events.Mechanism.CreateListener | vmnet-only/vnetEvent.c:448-503 | A new listener is caught up with all senders: for each of their keys, the last event it got is the retained one. |
| Events.Mechanism.DestroyListener | vmnet-only/vnetEvent.c:523-557 | A listener on the list leaves it, the others stay, and one reference is dropped; one that is not on the list is refused. |
| Events.Mechanism.UnlinkListener | vmnet-only/vnetEvent.c:523-551 | Its first half: the listener leaves the list and keeps its reference. |
| Events.Mechanism.Reenter | vmnet-only/vnetEvent.c:361-365 | Whatever of create, destroy and send a handler's own task tries is refused with -EBUSY, and nothing changes. |
| Events.Mechanism.InformedIff | vmnet-only/vnetEvent.c:376-415 | At any time, what a listener got last of a key is what is retained of it for the listener's classes, exactly if something is, or the listener was never given an event of the key. |
| Events.Mechanism.LateAsEarlyIff | vmnet-only/vnetEvent.c:448-503 | A listener just created agrees on a key with an earlier one of the same mask exactly if an event of the key is retained for them, or the earlier one was never given one. |
| Events.Mechanism.LateAsEarly | vmnet-only/vnetEvent.c:448-503 | At any time a late listener and an earlier one of the same mask have the same latest event of a key of a live sender, namely the one retained for them, if the key kept its class set and memory was never refused for it, or not since it was sent last. |
| Events.LateDiffers | vmnet-only/vnetEvent.c:387-405 | Two runs in which they differ: memory for the second event of a key is refused, or the second event is of another class. |
| FilterRules.StorageKeepsMeaning | vmnet-only/filter.c:1035-1105 | A rule stored for an accepted request matches exactly the packets that the request describes, after masking, collapse of don't-care lists, and narrowing. |
| FilterRules.FirstRequestDecides | vmnet-only/filter.c:360-497 | The first request in the order of insertion that describes the packet decides, else the default. |
| FilterRules.NoChangeKeepsVerdict | vmnet-only/filter.c:966-977 | A change request with no new action keeps the verdict on a packet exactly if it enables or disables the set, or the set did not block by default, or the packet is not left to the default. |
| Filter.ValidateRule | vmnet-only/filter.c:1280-1455 | Accepted are exactly the well-formed requests, with address bits outside the masks cleared. |
| Filter.ValidateAddrs | vmnet-only/filter.c:1339-1367 | A zero mask is accepted only as the single entry of its list. |
| Filter.ValidatePorts | vmnet-only/filter.c:1369-1455 | Port ranges are accepted exactly if both ends are ports in order or both are don't-care, and all four don't-care only as the single entry. |
| Filter.MakeBody | vmnet-only/filter.c:1035-1092 | The stored rule is the narrowed request. |
| Filter.RuleMatches | vmnet-only/filter.c:362-475 | The comparison of a rule with a packet, loop by loop, is the relation Matches. |
| Filter.RuleSet.WalkRules | vmnet-only/filter.c:358-497 | Walking the list gives the verdict of the first matching rule, else the default. |
| Filter.RuleSet.Append | vmnet-only/filter.c:1100-1105 | The rule goes to the end of the list, also when the list was empty; tail and count stay right. |
| Filter.Filter.VNetFilterHookFn | vmnet-only/filter.c:207-501 | An installed hook finds an active rule set, and its verdict is what the set's rules decide. |
| Filter.Filter.FirstRequestRules | vmnet-only/filter.c:360-497 | In every valid state, an IPv4 packet that is neither loopback nor too short for its ports is decided on by the first request in the active set that describes it, else by the default. |
| Filter.Filter.FindRuleSetById | vmnet-only/filter.c:645-670 | Finds the set with an id and its predecessor exactly if there is one. |
| Filter.Filter.CreateRuleSet | vmnet-only/filter.c:692-734 | The error for each case in order, or a new empty set at the head of the list; ids stay unique and the count at most 32. |
| Filter.Filter.DeleteRuleSet | vmnet-only/filter.c:793-832 | Takes exactly the set with the id off the list, unless there is none or it is enabled. |
| Filter.Filter.InsertHostFilterCallback | vmnet-only/filter.c:540-581 | Installs the hook unless it is installed; fails exactly if it is not installed afterwards. |
| Filter.Filter.RemoveHostFilterCallback | vmnet-only/filter.c:601-621 | Afterwards the hook is not installed. |
| Filter.Filter.ChangeRuleSet | vmnet-only/filter.c:859-980 | The result, the active set, the hook and the default action for each combination of the flags; a set is enabled exactly if it is the active one, and an installed hook has an active set. |
| Filter.NoChangeOpens | vmnet-only/filter.c:966-977 | A rule set that blocks by default is created, enabled, and asked to change nothing: the hook drops an echo request before, and accepts it after. |
| Filter.Filter.AddIPv4Rule | vmnet-only/filter.c:1003-1111 | The error for each case in order, or the request joins the end of the set's; no other set changes. |
| Filter.Filter.HandleAddIPv4Rule | vmnet-only/filter.c:1249-1462 | Refused with -EINVAL exactly if the request is not well-formed or the id is 0; then nothing is added. |
| Filter.Filter.VNetFilter_Shutdown | vmnet-only/filter.c:1519-1538 | Terminates with the hook gone, no active set and an empty list. |
| Segmentation.GSOSegment | vmnet-only/bridge.c:1550-1658 | The error for each kind of packet; otherwise all segments, or none if memory is refused. |
| Segmentation.SegmentLoop | vmnet-only/bridge.c:1583-1657 | The loop terminates and builds the segments in order. |
| Segmentation.PayloadsJoin | vmnet-only/bridge.c:1583-1657 | Joining the payloads of the segments gives the original payload. |
| Segmentation.SegmentsFollow | vmnet-only/bridge.c:1583-1657 | Ids are consecutive modulo 2^16, sequence numbers contiguous modulo 2^32, lengths right, all payloads but the last of the segment size, and FIN and PSH only on the last. |
| Segmentation.SegmentAt | vmnet-only/bridge.c:1583-1657 | Which part of the payload the k-th segment carries, and with which id and sequence number. |
| Segmentation.SegmentFields | vmnet-only/bridge.c:1623-1638 | The fields of a segment's headers, read back. |
| Segmentation.SegmentFrame | vmnet-only/bridge.c:1603-1643 | Every other byte of a segment is the original's. |
| Segmentation.IpHeaderVerifies | vmnet-only/bridge.c:1626-1630 | The IP header of a segment verifies. |
| Segmentation.PseudoHeaderFilled | vmnet-only/bridge.c:1639-1643 | The TCP checksum field of a segment holds its pseudo-header's sum, as completing it later needs. |

## Left out

- Driver.VNetDriver.Connect: one step, as the mutex makes it that serialises connecting and disconnecting; the proc entries and the port list are not modelled.
- Driver.VNetDriver.AllocJack: one step, although the source allocates jacks without that mutex. HubAllocation has the interleaving of allocations, HandOut that of an allocation with a count pass.
- Network.CountsRight: assumes that no count pass of a hub runs while a jack of it is being handed out; HandOut.HandedOutRight says when a count is right without that.
- Propagation.NoMismatch: assumes the same; HandOut.LoggedIfWrong says when the mismatch is logged without that.
- HandOut.StepKeeps: about one hub, on values, because the steps of several threads interleave; what the peers of its jacks count is a parameter of each pass.
- Driver.VNetDriver.CreatePort: the part that all kinds of port have in common; MAC addresses and file operations are not modelled.
- Driver.VNetDriver.SwitchToDifferentPeer: freeing the peer that is left over (FreePort, FreeHubJack) is a separate step.
- Driver.VNetDriver.BridgeUp: whether the device exists and is up, and whether memory and the link-state event are granted, are parameters; packet handlers and sockets are not modelled.
- The hub list, the list of interfaces of the cycle check, and the senders, listeners and events of a mechanism are sequences instead of linked nodes; order is kept, aliasing of list nodes is not captured.
- SmacTable.SMACState.GetSystemUptime: the clock's readings are parameters, of 64 bits.
- SmacTable.SMACState.TrimLookupTableIfNecessary: memory of evicted entries is not tracked.
- Translation.Smac.CheckPacketToHost: statistics, log output and the Windows and macOS branches are not modelled; a failing allocation is a parameter.
- Translation.Smac.TranslationIsUndone: about IPv4 and IPv6 frames; Translation.DeliveredFrame says what an ARP reply is turned into.
- OutgoingIPv6.SmacWalkIPv6ExtensionHeaders: offsets do not wrap, as they would for frames of many megabytes.
- Datagram.CsumCopyDatagram: page fragments are byte sequences; mapping of pages, and the kernel's checksum routines beyond their one's-complement meaning, are not modelled. A buffer that ends before the data stands for a fault.
- Segmentation.GSOSegment: requires a positive segment size, without which the loop of the source does not end, and headers that fit the packet; allocation failures are a parameter. The segments are a sequence instead of a linked list.
- Events.Mechanism.Send: sender ids and the reference count do not overflow; the handler's work is whatever it may call, which is refused.
- Events.Mechanism.DestroyMechanism: requires a caller that holds a reference, as the source's interface does; freed memory is a ghost flag.
- Filter.Filter.VNetFilterHookFn: runs as one step; its interleaving with an addition to the active set is not modelled. Reading the fields of a packet out of its headers is a datatype, and counting and logging of verdicts is left out.
- Filter.Filter.HandleAddIPv4Rule: copying from user space and the length checks of the request's buffer are not modelled.
- The other filter commands' argument checks and the log level are left out, as easy.
- Receiving and sending between jacks, multicast filters, MAC address generation, the proc file system, ioctl copying, poll and netdevice registration.
- VNetHubIsBridged, whose answer depends on the order of jacks, and uniqueness of MAC addresses over all ports, which the code does not uphold.
- The user interface's queue counters, vnetUserListener.c, processor-identification tables, inline assembly and atomics.
