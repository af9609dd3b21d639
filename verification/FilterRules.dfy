/** Rules of the host packet filter: what a request describes, what is stored for it, and what a
    list of rules decides. */
module FilterRules {
  import opened Words

  const RULE_NO_CHANGE: uint16 := 0x2000
  const RULE_BLOCK: uint16 := 0x2001
  const RULE_ALLOW: uint16 := 0x2002
  const DIRECTION_IN: uint16 := 0x3001
  const DIRECTION_OUT: uint16 := 0x3002
  const DIRECTION_BOTH: uint16 := 0x3003

  const IPPROTO_TCP: nat := 6
  const IPPROTO_UDP: nat := 17
  const ANY_PROTO: nat := 0xFFFF
  const ANY_PORT: uint32 := 0xFFFF_FFFF

  const MAX_ADDR_PER_RULE: nat := 64
  const MAX_PORT_PER_RULE: nat := 64

  datatype RuleAddr = RuleAddr(addr: bv32, mask: bv32)

  datatype RulePort = RulePort(localLow: uint32, localHigh: uint32, remoteLow: uint32, remoteHigh: uint32)

  /** A request to add a rule, as the user passes it. */
  datatype Request = Request(action: uint32, direction: uint32, addrs: seq<RuleAddr>, proto: uint32,
                             ports: seq<RulePort>)

  /** A rule as it is stored; an empty list matches everything. */
  datatype RuleBody = RuleBody(action: uint16, direction: uint16, addrs: seq<RuleAddr>, proto: uint16,
                               ports: seq<RulePort>)

  /** What the hook looks at. length is that of what follows the IP header; addresses are in the
      order of the network, with the first octet lowest. */
  datatype Packet = Packet(ipv4: bool, transmit: bool, length: int, saddr: bv32, daddr: bv32, proto: uint8,
                           srcPort: uint16, dstPort: uint16)
  {
    function RemoteAddr(): bv32 { if transmit then daddr else saddr }
    predicate HasPorts() { proto == IPPROTO_TCP || proto == IPPROTO_UDP }
    function LocalPort(): uint16 { if !HasPorts() then 0 else if transmit then srcPort else dstPort }
    function RemotePort(): uint16 { if !HasPorts() then 0 else if transmit then dstPort else srcPort }
  }

  datatype Verdict = ACCEPT | DROP

  // ----- What a request describes -----

  predicate DirectionOK(direction: nat, transmit: bool) {
    direction == DIRECTION_BOTH || direction == if transmit then DIRECTION_OUT else DIRECTION_IN
  }

  /** The part of an address that a mask keeps. */
  function Net(addr: bv32, mask: bv32): bv32 {
    addr & mask
  }

  /** The first octet of a loopback address is 127. */
  predicate Loopback(addr: bv32) {
    addr & 0xFF == 127
  }

  lemma NoMask(addr: bv32)
    ensures Net(addr, 0) == 0
  {}

  predicate InNetwork(a: RuleAddr, remote: bv32) {
    Net(remote, a.mask) == Net(a.addr, a.mask)
  }

  predicate InRange(low: uint32, high: uint32, port: uint16) {
    (low == ANY_PORT && high == ANY_PORT) || low <= port <= high
  }

  predicate PortsIn(r: RulePort, p: Packet) {
    InRange(r.localLow, r.localHigh, p.LocalPort()) && InRange(r.remoteLow, r.remoteHigh, p.RemotePort())
  }

  /** The packets that a request is about. Ports count for TCP and UDP only. */
  predicate Describes(req: Request, p: Packet) {
    && DirectionOK(req.direction, p.transmit)
    && SomeNetwork(req.addrs, p.RemoteAddr())
    && (req.proto == ANY_PROTO || req.proto == p.proto)
    && (req.proto == IPPROTO_TCP || req.proto == IPPROTO_UDP ==> SomeRange(req.ports, p))
  }

  predicate SomeNetwork(addrs: seq<RuleAddr>, remote: bv32) {
    exists i :: 0 <= i < |addrs| && InNetwork(addrs[i], remote)
  }

  predicate SomeRange(ports: seq<RulePort>, p: Packet) {
    exists i :: 0 <= i < |ports| && PortsIn(ports[i], p)
  }

  // ----- Validation -----

  predicate AddrsOK(addrs: seq<RuleAddr>) {
    forall i :: 0 <= i < |addrs| && addrs[i].mask == 0 ==> |addrs| == 1
  }

  predicate DontCare(r: RulePort) {
    r.localLow == ANY_PORT && r.localHigh == ANY_PORT && r.remoteLow == ANY_PORT && r.remoteHigh == ANY_PORT
  }

  predicate BoundsOK(low: uint32, high: uint32) {
    (low <= 0xFFFF && high <= 0xFFFF && low <= high) || (low == ANY_PORT && high == ANY_PORT)
  }

  predicate PortOK(r: RulePort) {
    BoundsOK(r.localLow, r.localHigh) && BoundsOK(r.remoteLow, r.remoteHigh)
  }

  predicate Unused(port: uint32) {
    port == 0 || port == ANY_PORT
  }

  predicate PortsOK(proto: nat, ports: seq<RulePort>) {
    if proto == IPPROTO_TCP || proto == IPPROTO_UDP then
      forall i :: 0 <= i < |ports| ==> PortOK(ports[i]) && (DontCare(ports[i]) ==> |ports| == 1)
    else
      && |ports| == 1
      && Unused(ports[0].localLow) && Unused(ports[0].localHigh)
      && Unused(ports[0].remoteLow) && Unused(ports[0].remoteHigh)
  }

  predicate Accepted(req: Request) {
    && 0 < |req.addrs| <= MAX_ADDR_PER_RULE && 0 < |req.ports| <= MAX_PORT_PER_RULE
    && req.action in {RULE_BLOCK, RULE_ALLOW}
    && req.direction in {DIRECTION_IN, DIRECTION_OUT, DIRECTION_BOTH}
    && AddrsOK(req.addrs)
    && (req.proto <= 0xFF || req.proto == ANY_PROTO)
    && PortsOK(req.proto, req.ports)
  }

  function MaskedAddr(a: RuleAddr): RuleAddr {
    RuleAddr(Net(a.addr, a.mask), a.mask)
  }

  /** Validation also clears address bits outside the mask. */
  function Masked(addrs: seq<RuleAddr>): (r: seq<RuleAddr>)
    ensures |r| == |addrs|
    ensures forall i :: 0 <= i < |addrs| ==> r[i] == MaskedAddr(addrs[i])
  {
    if addrs == [] then []
    else Masked(addrs[..|addrs| - 1]) + [MaskedAddr(addrs[|addrs| - 1])]
  }

  // ----- Storage -----

  /** A single entry that does not care is stored as the empty list; numbers are narrowed. */
  function Narrowed(req: Request): RuleBody {
    RuleBody(req.action % 0x1_0000, req.direction % 0x1_0000, StoredAddrs(req.addrs), req.proto % 0x1_0000,
             StoredPorts(req.ports))
  }

  /** What is stored for a request that has passed validation. */
  function Stored(req: Request): RuleBody {
    Narrowed(req.(addrs := Masked(req.addrs)))
  }

  function StoredAddrs(addrs: seq<RuleAddr>): seq<RuleAddr> {
    if |addrs| % 0x100 == 1 && addrs[0] == RuleAddr(0, 0) then [] else addrs[..|addrs| % 0x100]
  }

  function StoredPorts(ports: seq<RulePort>): seq<RulePort> {
    if |ports| % 0x100 == 1 && DontCare(ports[0]) then [] else ports[..|ports| % 0x100]
  }

  /** How the hook compares a stored rule with a packet. */
  predicate Matches(r: RuleBody, p: Packet) {
    && !(r.direction == DIRECTION_IN && p.transmit) && !(r.direction == DIRECTION_OUT && !p.transmit)
    && AddrListMatches(r.addrs, p.RemoteAddr())
    && (r.proto == ANY_PROTO || r.proto == p.proto)
    && (r.proto == IPPROTO_TCP || r.proto == IPPROTO_UDP ==> PortListMatches(r.ports, p))
  }

  predicate AddrListMatches(addrs: seq<RuleAddr>, remote: bv32) {
    addrs == [] || exists i :: 0 <= i < |addrs| && Net(remote, addrs[i].mask) == addrs[i].addr
  }

  predicate PortListMatches(ports: seq<RulePort>, p: Packet) {
    ports == [] || exists i :: 0 <= i < |ports| && PortMatches(ports[i], p)
  }

  predicate PortMatches(r: RulePort, p: Packet) {
    && (r.localLow <= p.LocalPort() <= r.localHigh || r.localLow == ANY_PORT)
    && (r.remoteLow <= p.RemotePort() <= r.remoteHigh || r.remoteLow == ANY_PORT)
  }

  /** An accepted request is stored as a rule that matches exactly the packets it describes. */
  lemma StorageKeepsMeaning(req: Request, p: Packet)
    requires Accepted(req)
    ensures Matches(Stored(req), p) <==> Describes(req, p)
    ensures Stored(req).action == req.action && Stored(req).direction == req.direction
  {
    hide SomeNetwork, SomeRange, AddrListMatches, PortListMatches, StoredAddrs, StoredPorts, PortsOK, AddrsOK;
    AddrsKeepMeaning(req.addrs, p.RemoteAddr());
    if req.proto == IPPROTO_TCP || req.proto == IPPROTO_UDP { PortsKeepMeaning(req, p); }
  }

  lemma ShortList(m: seq<RuleAddr>)
    requires |m| <= MAX_ADDR_PER_RULE
    ensures StoredAddrs(m) == if |m| == 1 && m[0] == RuleAddr(0, 0) then [] else m
  {
    assert m[..|m|] == m;
  }

  lemma AddrsKeepMeaning(addrs: seq<RuleAddr>, remote: bv32)
    requires 0 < |addrs| <= MAX_ADDR_PER_RULE
    ensures AddrListMatches(StoredAddrs(Masked(addrs)), remote) <==> SomeNetwork(addrs, remote)
  {
    hide Net, StoredAddrs, Masked;
    var m := Masked(addrs);
    ShortList(m);
    forall i | 0 <= i < |addrs| ensures Net(remote, m[i].mask) == m[i].addr <==> InNetwork(addrs[i], remote) {
      assert m[i] == MaskedAddr(addrs[i]);
    }
    if |m| == 1 && m[0] == RuleAddr(0, 0) {
      assert m[0] == MaskedAddr(addrs[0]);
      NoMask(remote);
      NoMask(addrs[0].addr);
      assert InNetwork(addrs[0], remote);
    }
  }

  lemma PortsKeepMeaning(req: Request, p: Packet)
    requires Accepted(req) && (req.proto == IPPROTO_TCP || req.proto == IPPROTO_UDP)
    ensures PortListMatches(StoredPorts(req.ports), p) <==> SomeRange(req.ports, p)
  {
    assert req.ports[..|req.ports|] == req.ports;
    forall i | 0 <= i < |req.ports| ensures PortMatches(req.ports[i], p) <==> PortsIn(req.ports[i], p) {
      assert PortOK(req.ports[i]);
    }
    if StoredPorts(req.ports) == [] {
      assert PortsIn(req.ports[0], p);
    }
  }

  // ----- What a list of rules decides -----

  function ByDefault(defaultAction: uint16): Verdict {
    if defaultAction == RULE_BLOCK then DROP else ACCEPT
  }

  function FirstMatch(rules: seq<RuleBody>, defaultAction: uint16, p: Packet): Verdict {
    if rules == [] then ByDefault(defaultAction)
    else if Matches(rules[0], p) then if rules[0].action == RULE_ALLOW then ACCEPT else DROP
    else FirstMatch(rules[1..], defaultAction, p)
  }

  /** Packets other than IPv4 and loopback packets pass, short ones do not. */
  function Decide(rules: seq<RuleBody>, defaultAction: uint16, p: Packet): Verdict {
    if !p.ipv4 then ACCEPT
    else if p.length < 0 then DROP
    else if Loopback(p.RemoteAddr()) then ACCEPT
    else if p.HasPorts() && p.length < 4 then DROP
    else FirstMatch(rules, defaultAction, p)
  }

  /** Whether a packet is left to the default action. */
  predicate LeftToDefault(rules: seq<RuleBody>, p: Packet) {
    && p.ipv4 && p.length >= 0 && !Loopback(p.RemoteAddr()) && (p.HasPorts() ==> p.length >= 4)
    && forall i :: 0 <= i < |rules| ==> !Matches(rules[i], p)
  }

  /** The default action that a change request leaves. Meant to keep the action on NO_CHANGE, it
      stores that value all the same if nothing is enabled or disabled. */
  function ChangedAction(enable: bool, disable: bool, action: uint32, was: uint16): uint16 {
    if action == RULE_NO_CHANGE && (enable || disable) then was else action % 0x1_0000
  }

  /** NO_CHANGE keeps the verdict on a packet exactly if something is enabled or disabled as well,
      or the set did not block by default, or a rule decides. */
  lemma NoChangeKeepsVerdict(rules: seq<RuleBody>, enable: bool, disable: bool, was: uint16, p: Packet)
    ensures Decide(rules, ChangedAction(enable, disable, RULE_NO_CHANGE, was), p) == Decide(rules, was, p)
      <==> enable || disable || was != RULE_BLOCK || !LeftToDefault(rules, p)
  {
    hide Matches, Loopback;
    DefaultCounts(rules, was, ChangedAction(enable, disable, RULE_NO_CHANGE, was), p);
  }

  lemma {:induction false} DefaultCounts(rules: seq<RuleBody>, a: uint16, b: uint16, p: Packet)
    ensures FirstMatch(rules, a, p) == FirstMatch(rules, b, p)
      <==> ByDefault(a) == ByDefault(b) || exists i :: 0 <= i < |rules| && Matches(rules[i], p)
  {
    hide Matches;
    if rules != [] && !Matches(rules[0], p) {
      DefaultCounts(rules[1..], a, b, p);
      if i :| 0 <= i < |rules| && Matches(rules[i], p) { assert rules[1..][i - 1] == rules[i]; }
    }
  }

  /** The first request in the order of insertion that describes the packet decides, else the
      default. */
  lemma {:induction false} FirstRequestDecides(reqs: seq<Request>, rules: seq<RuleBody>, defaultAction: uint16,
                                               p: Packet, k: nat)
    requires |rules| == |reqs| && forall i :: 0 <= i < |reqs| ==> Accepted(reqs[i]) && rules[i] == Stored(reqs[i])
    requires k <= |reqs| && (forall i :: 0 <= i < k ==> !Describes(reqs[i], p))
    requires (k < |reqs| ==> Describes(reqs[k], p))
    ensures FirstMatch(rules, defaultAction, p) ==
      if k == |reqs| then ByDefault(defaultAction) else if reqs[k].action == RULE_ALLOW then ACCEPT else DROP
    decreases k
  {
    hide Describes, Matches, Stored, Accepted;
    if reqs != [] {
      StorageKeepsMeaning(reqs[0], p);
      if k > 0 { FirstRequestDecides(reqs[1..], rules[1..], defaultAction, p, k - 1); }
    }
  }
}
