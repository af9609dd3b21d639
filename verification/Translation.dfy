/** Single-MAC translation of whole frames: outgoing frames are sent in the host's name and their
    senders learned, incoming frames are handed to the guest whose address they are for. */
module Translation {
  import opened Options
  import opened Words
  import opened Checksum
  import opened SmacTable
  import opened OutgoingIPv4
  import opened OutgoingIPv6

  const ETH_HLEN: nat := 14
  const ARP_HEADER_LEN: nat := 28
  const ARP_SENDER_MAC_OFFSET: nat := 8
  const ARP_SENDER_IP_OFFSET: nat := 14
  const ARP_TARGET_MAC_OFFSET: nat := 18
  const ARP_TARGET_IP_OFFSET: nat := 24

  datatype PacketStatus = TooShort | DropPacket | ForwardPacket

  datatype EthClass = IPv4 | IPv6 | ARP | VLAN | Other

  /** Common, uncommon and unknown types are treated alike. */
  function LookupTypeClass(typeValue: uint16): EthClass {
    match typeValue
    case 0x0800 => IPv4
    case 0x0806 => ARP
    case 0x8035 => ARP
    case 0x8100 => VLAN
    case 0x86DD => IPv6
    case _ => Other
  }

  function Host64(s: seq<uint8>, o: nat): uint64
    requires o + 8 <= |s|
  {
    Host32(s, o) + 0x1_0000_0000 * Host32(s, o + 4)
  }

  function V4At(s: seq<uint8>, o: nat): (r: IPAddr)
    requires o + 4 <= |s|
    ensures r.V4?
  {
    V4(Host32(s, o))
  }

  function V6At(s: seq<uint8>, o: nat): (r: IPAddr)
    requires o + 16 <= |s|
    ensures r.V6?
  {
    V6(Host64(s, o), Host64(s, o + 8))
  }

  function MacAt(s: seq<uint8>, o: nat): Mac
    requires o + 6 <= |s|
  {
    s[o..o + 6]
  }

  /** The destination is a multicast or the broadcast address. */
  predicate ToMany(s: seq<uint8>)
    requires |s| > 0
  {
    s[0] % 2 == 1
  }

  function IpVersion(s: seq<uint8>, eth: nat): nat
    requires eth < |s|
  {
    s[eth] / 0x10
  }

  function IpHeaderLen(s: seq<uint8>, eth: nat): nat
    requires eth < |s|
  {
    4 * (s[eth] % 0x10)
  }

  /** Hardware type Ethernet or IEEE 802, protocol IPv4. */
  predicate ArpWord1OK(s: seq<uint8>, eth: nat)
    requires eth + 4 <= |s|
  {
    s[eth..eth + 4] in {[0, 1, 8, 0], [0, 6, 8, 0]}
  }

  /** The opcode, if the address lengths are those of Ethernet and IPv4; else 0. */
  function ArpOpcode(s: seq<uint8>, eth: nat): nat
    requires eth + 8 <= |s|
  {
    if s[eth + 4..eth + 7] == [6, 4, 0] then s[eth + 7] else 0
  }

  // ----- To the host's network -----

  datatype Learn = Nothing | Pair(addr: IPAddr, mac: Mac)

  /** What is decided about an outgoing frame: what is learned from it, and what is sent. */
  datatype Outgoing = Unsent(learn: Learn, status: PacketStatus) | Sent(learn: Learn, clone: seq<uint8>)

  /** Length of the Ethernet header with its VLAN tag, if it has one. */
  function EthLen(p: seq<uint8>): nat
    requires |p| >= ETH_HLEN
  {
    if LookupTypeClass(Net16(p, 12)) == VLAN then ETH_HLEN + 4 else ETH_HLEN
  }

  function ClassOf(p: seq<uint8>): EthClass
    requires |p| >= ETH_HLEN && |p| >= EthLen(p)
  {
    LookupTypeClass(Net16(p, EthLen(p) - 2))
  }

  function IPv4ToHost(p: seq<uint8>, eth: nat, mac: Mac): (r: Outgoing)
    requires ETH_HLEN <= eth <= |p|
    ensures r.Sent? ==> |r.clone| == |p|
  {
    if |p| < eth + IP_HEADER_LEN then Unsent(Nothing, TooShort)
    else if IpVersion(p, eth) != 4 || IpHeaderLen(p, eth) < IP_HEADER_LEN || |p| < eth + IpHeaderLen(p, eth) then
      Unsent(Nothing, DropPacket)
    else
      Sent(Pair(V4At(p, eth + 12), MacAt(p, 6)), Put(Rewritten(p, eth), 6, mac))
  }

  function IPv6ToHost(p: seq<uint8>, eth: nat, mac: Mac): (r: Outgoing)
    requires ETH_HLEN <= eth <= |p|
    ensures r.Sent? ==> |r.clone| == |p|
  {
    if |p| < eth + IPv6_HEADER_LEN then Unsent(Nothing, TooShort)
    else if IpVersion(p, eth) != 6 then Unsent(Nothing, DropPacket)
    else
      var learn := Pair(V6At(p, eth + 8), MacAt(p, 6));
      if OptionOf(p, eth) == Malformed then Unsent(learn, DropPacket)
      else Sent(learn, Put(Rewritten6(p, eth, mac), 6, mac))
  }

  function ArpToHost(p: seq<uint8>, eth: nat, mac: Mac): (r: Outgoing)
    requires ETH_HLEN <= eth <= |p|
    ensures r.Sent? ==> |r.clone| == |p|
  {
    if |p| < eth + ARP_HEADER_LEN || !ArpWord1OK(p, eth) then Unsent(Nothing, DropPacket)
    else
      var op := ArpOpcode(p, eth);
      if op !in {1, 2, 3, 4, 8, 9} then Unsent(Nothing, DropPacket)
      else
        Sent(if op == 3 then Nothing
             else Pair(V4At(p, eth + ARP_SENDER_IP_OFFSET), MacAt(p, eth + ARP_SENDER_MAC_OFFSET)),
             Put(Put(p, 6, mac), eth + ARP_SENDER_MAC_OFFSET, mac))
  }

  function ToHost(p: seq<uint8>, mac: Mac): (r: Outgoing)
    ensures r.Sent? ==> |r.clone| == |p| >= ETH_HLEN
  {
    if |p| < ETH_HLEN || |p| < EthLen(p) then Unsent(Nothing, TooShort)
    else
      match ClassOf(p)
      case IPv4 => IPv4ToHost(p, EthLen(p), mac)
      case IPv6 => IPv6ToHost(p, EthLen(p), mac)
      case ARP => ArpToHost(p, EthLen(p), mac)
      case _ => if ToMany(p) then Sent(Nothing, Put(p, 6, mac)) else Unsent(Nothing, DropPacket)
  }

  /** Where a forwarded clone may differ from the frame it was made from, besides the source MAC. */
  predicate MayChange(p: seq<uint8>, i: nat)
    requires |p| >= ETH_HLEN && |p| >= EthLen(p)
  {
    var eth := EthLen(p);
    match ClassOf(p)
    case IPv4 =>
      && NeedsFlag(p, eth)
      && (var u := UdpAt(p, eth);
          i == u + UDP_HEADER_LEN + 10 || (Net16(p, u + 6) != 0 && u + 6 <= i < u + 8))
    case IPv6 =>
      && eth + IPv6_HEADER_LEN <= |p| && OptionOf(p, eth).At?
      && var c, o := MessageAt(p, eth).1 + 2, OptionOf(p, eth).offset + 2; c <= i < c + 2 || o <= i < o + 6
    case ARP => eth + ARP_SENDER_MAC_OFFSET <= i < eth + ARP_SENDER_MAC_OFFSET + 6
    case _ => false
  }

  /** A forwarded clone has the length of its original and the host's source MAC, and differs
      from it in nothing but what had to be translated. */
  lemma SentFrame(p: seq<uint8>, mac: Mac, i: nat)
    requires ToHost(p, mac).Sent? && i < |p|
    ensures |p| >= EthLen(p) && |ToHost(p, mac).clone| == |p|
    ensures 6 <= i < 12 ==> ToHost(p, mac).clone[i] == mac[i - 6]
    ensures ToHost(p, mac).clone[i] != p[i] ==> 6 <= i < 12 || MayChange(p, i)
  {
    hide NeedsFlag, OptionOf, Rewritten, Rewritten6, MessageAt;
    var eth := EthLen(p);
    match ClassOf(p) {
      case IPv4 => if Rewritten(p, eth)[i] != p[i] { OnlyFlagAndCheck(p, eth, i); }
      case IPv6 => if Rewritten6(p, eth, mac)[i] != p[i] { OnlyMacAndCheck(p, eth, mac, i); }
      case ARP =>
      case _ =>
    }
  }

  /** A request that the code does send, with a UDP checksum that was right and is now wrong. */
  lemma ShortDatagramSent(mac: Mac)
    ensures var s, d := ShortDatagram(), ToHost(ShortDatagram(), mac);
      && d.Sent? && |d.clone| == |s| && Net16(s, 38) == UDP_HEADER_LEN
      && Verifies(SHORT_PSEUDO, s[34..42]) && !Verifies(SHORT_PSEUDO, d.clone[34..42])
  {
    hide ShortDatagram, Rewritten, Verifies, NeedsFlag, V4At;
    var s := ShortDatagram();
    ShortDatagramBroken();
    assert Put(Rewritten(s, 14), 6, mac)[34..42] == Rewritten(s, 14)[34..42];
  }

  /** A frame with headers that the walk misreads is dropped, whatever message it carries, unless it is
      long enough for the place where the message is looked for. */
  lemma LongHeaderDropped(p: seq<uint8>, mac: Mac)
    requires |p| >= ETH_HLEN && |p| >= EthLen(p) && ClassOf(p) == IPv6 && LongHeader(p, EthLen(p))
    requires IpVersion(p, EthLen(p)) == 6 && |p| <= EthLen(p) + IPv6_HEADER_LEN + 0x908
    ensures ToHost(p, mac).Unsent? && ToHost(p, mac).status == DropPacket
  {
    hide OptionOf, V6At;
    LongHeaderRefused(p, EthLen(p));
  }

  // ----- From the host's network -----

  /** What is decided about an incoming frame: it is not delivered, delivered as it is, or as a
      clone with other MACs in it. */
  datatype Incoming = NotDelivered(status: PacketStatus) | AsIs | Delivered(clone: seq<uint8>)

  function Unknown(forwardUnknown: bool): Incoming {
    if forwardUnknown then AsIs else NotDelivered(DropPacket)
  }

  const BROADCAST_MAC: Mac := [0xFF, 0xFF, 0xFF, 0xFF, 0xFF, 0xFF]

  /** A unicast IP frame goes to the guest that has its destination address. */
  function Deliver(p: seq<uint8>, dst: IPAddr, m: map<IPAddr, Mac>, forwardUnknown: bool): Incoming
    requires |p| >= ETH_HLEN
  {
    if ToMany(p) then AsIs
    else if dst in m then Delivered(Put(p, 0, m[dst]))
    else if dst == V4(0xFFFF_FFFF) then Delivered(Put(p, 0, BROADCAST_MAC))
    else Unknown(forwardUnknown)
  }

  function FromHostArp(p: seq<uint8>, mac: Mac, m: map<IPAddr, Mac>): Incoming
    requires |p| >= ETH_HLEN + ARP_HEADER_LEN
  {
    var op := ArpOpcode(p, ETH_HLEN);
    var target := V4At(p, ETH_HLEN + ARP_TARGET_IP_OFFSET);
    if !ArpWord1OK(p, ETH_HLEN) then NotDelivered(DropPacket)
    else if op in {1, 3, 8} then
      if V4At(p, ETH_HLEN + ARP_SENDER_IP_OFFSET) in m && MacAt(p, ETH_HLEN + ARP_SENDER_MAC_OFFSET) == mac then
        NotDelivered(DropPacket)
      else if ToMany(p) then AsIs
      else if MacAt(p, 0) != mac || target !in m then NotDelivered(DropPacket)
      else Delivered(Put(p, 0, m[target]))
    else if op in {2, 4, 9} then
      if target !in m then if ToMany(p) then AsIs else NotDelivered(DropPacket)
      else
        var q := Put(p, ETH_HLEN + ARP_TARGET_MAC_OFFSET, m[target]);
        Delivered(if ToMany(p) then q else Put(q, 0, m[target]))
    else NotDelivered(DropPacket)
  }

  function FromHost(p: seq<uint8>, hostBound: bool, mac: Mac, m: map<IPAddr, Mac>, forwardUnknown: bool): Incoming {
    if |p| < ETH_HLEN || (hostBound && MacAt(p, 6) == mac) then NotDelivered(DropPacket)
    else
      match LookupTypeClass(Net16(p, 12))
      case IPv4 =>
        if |p| < ETH_HLEN + IP_HEADER_LEN || |p| - ETH_HLEN < IpHeaderLen(p, ETH_HLEN) then NotDelivered(TooShort)
        else if IpVersion(p, ETH_HLEN) != 4 || IpHeaderLen(p, ETH_HLEN) < IP_HEADER_LEN then NotDelivered(DropPacket)
        else Deliver(p, V4At(p, ETH_HLEN + 16), m, forwardUnknown)
      case IPv6 =>
        if |p| < ETH_HLEN + IPv6_HEADER_LEN then NotDelivered(TooShort)
        else if IpVersion(p, ETH_HLEN) != 6 then NotDelivered(DropPacket)
        else Deliver(p, V6At(p, ETH_HLEN + 24), m, forwardUnknown)
      case ARP =>
        if |p| < ETH_HLEN + ARP_HEADER_LEN then NotDelivered(TooShort) else FromHostArp(p, mac, m)
      case _ => if ToMany(p) then AsIs else Unknown(forwardUnknown)
  }

  lemma PutsCommute(s: seq<uint8>, o: nat, b: seq<uint8>, c: nat, d: seq<uint8>)
    requires o + |b| <= c && c + |d| <= |s|
    ensures Put(Put(s, o, b), c, d) == Put(Put(s, c, d), o, b)
  {}

  /** The address whose guest an incoming frame is for. */
  function TargetOf(p: seq<uint8>): IPAddr {
    if |p| < ETH_HLEN then NoAddr
    else
      match LookupTypeClass(Net16(p, 12))
      case IPv4 => if |p| >= ETH_HLEN + 20 then V4At(p, ETH_HLEN + 16) else NoAddr
      case IPv6 => if |p| >= ETH_HLEN + 40 then V6At(p, ETH_HLEN + 24) else NoAddr
      case ARP => if |p| >= ETH_HLEN + 28 then V4At(p, ETH_HLEN + ARP_TARGET_IP_OFFSET) else NoAddr
      case _ => NoAddr
  }

  /** A reply, with a target MAC that was the host's. */
  predicate IsArpReply(p: seq<uint8>) {
    && |p| >= ETH_HLEN + ARP_HEADER_LEN && LookupTypeClass(Net16(p, 12)) == ARP
    && ArpOpcode(p, ETH_HLEN) in {2, 4, 9}
  }

  /** A delivered clone has the length of its original, differs from it only in the destination MAC
      and, for an ARP reply, the target MAC, and what is put there is the MAC stored for the address
      that the frame is for, or the broadcast MAC. */
  lemma DeliveredFrame(p: seq<uint8>, hostBound: bool, mac: Mac, m: map<IPAddr, Mac>, forwardUnknown: bool, i: nat)
    requires FromHost(p, hostBound, mac, m, forwardUnknown).Delivered? && i < |p|
    ensures var c := FromHost(p, hostBound, mac, m, forwardUnknown).clone;
      && |c| == |p| && (c[i] != p[i] ==> i < 6 || (IsArpReply(p) && 32 <= i < 38))
      && if TargetOf(p) in m then
           && (ToMany(p) || c[..6] == m[TargetOf(p)]) && (ToMany(p) ==> c[..6] == p[..6])
           && (IsArpReply(p) ==> c[32..38] == m[TargetOf(p)])
         else !ToMany(p) && TargetOf(p) == V4(0xFFFF_FFFF) && c[..6] == BROADCAST_MAC
  {
    hide V4At, V6At, Net16, ArpOpcode, ArpWord1OK, Put;
    if LookupTypeClass(Net16(p, 12)) == ARP && TargetOf(p) in m {
      var q := Put(p, ETH_HLEN + ARP_TARGET_MAC_OFFSET, m[TargetOf(p)]);
      PutBytes(p, ETH_HLEN + ARP_TARGET_MAC_OFFSET, m[TargetOf(p)]);
      PutBytes(q, 0, m[TargetOf(p)]);
    }
    PutBytes(p, 0, if TargetOf(p) in m then m[TargetOf(p)] else BROADCAST_MAC);
  }

  lemma PutBytes(s: seq<uint8>, o: nat, b: seq<uint8>)
    requires o + |b| <= |s|
    ensures Put(s, o, b)[o..o + |b|] == b
    ensures forall j, k :: o + |b| <= j <= k <= |s| ==> Put(s, o, b)[j..k] == s[j..k]
    ensures forall k :: 0 <= k <= o ==> Put(s, o, b)[..k] == s[..k]
  {}

  /** A well-formed unicast IP frame, not from the host itself, for address dst. */
  predicate IsFor(q: seq<uint8>, hostBound: bool, mac: Mac, dst: IPAddr) {
    && |q| >= ETH_HLEN + IP_HEADER_LEN && !ToMany(q) && (hostBound ==> MacAt(q, 6) != mac)
    && match dst
       case V4(_) =>
         && LookupTypeClass(Net16(q, 12)) == IPv4 && IpVersion(q, ETH_HLEN) == 4
         && IP_HEADER_LEN <= IpHeaderLen(q, ETH_HLEN) <= |q| - ETH_HLEN && V4At(q, ETH_HLEN + 16) == dst
       case V6(_, _) =>
         && LookupTypeClass(Net16(q, 12)) == IPv6 && |q| >= ETH_HLEN + IPv6_HEADER_LEN
         && IpVersion(q, ETH_HLEN) == 6 && V6At(q, ETH_HLEN + 24) == dst
       case NoAddr => false
  }

  // ----- What has been learned -----

  /** The MAC that was last taught for addr. */
  function LastTaught(history: seq<Learn>, addr: IPAddr): Option<Mac> {
    if history == [] then None
    else
      var learn := history[|history| - 1];
      if learn.Pair? && learn.addr == addr then Some(learn.mac) else LastTaught(history[..|history| - 1], addr)
  }

  /** Nothing after number i teaches addr. */
  predicate NotTaughtSince(history: seq<Learn>, i: nat, addr: IPAddr) {
    forall j :: i < j < |history| && history[j].Pair? ==> history[j].addr != addr
  }

  lemma {:induction false} LastIs(history: seq<Learn>, i: nat)
    requires i < |history| && history[i].Pair? && NotTaughtSince(history, i, history[i].addr)
    ensures LastTaught(history, history[i].addr) == Some(history[i].mac)
    decreases |history|
  {
    if i < |history| - 1 { LastIs(history[..|history| - 1], i); }
  }

  lemma {:induction false} LastWas(history: seq<Learn>, addr: IPAddr) returns (i: nat)
    requires LastTaught(history, addr).Some?
    ensures i < |history| && history[i] == Pair(addr, LastTaught(history, addr).value)
    ensures NotTaughtSince(history, i, addr)
    decreases |history|
  {
    var last := history[|history| - 1];
    if last.Pair? && last.addr == addr {
      i := |history| - 1;
    } else {
      i := LastWas(history[..|history| - 1], addr);
    }
  }

  /** Every address in the table is there with the MAC that was last taught for it. */
  ghost predicate UpToDate(m: map<IPAddr, Mac>, history: seq<Learn>) {
    forall a :: a in m ==> !Refused(a) && LastTaught(history, a) == Some(m[a])
  }

  /** What learning leaves in the table: the pair that was learned, and all others but at most one,
      which is evicted only from a full table. */
  ghost predicate Learned(learn: Learn, added: bool, granted: bool, before: map<IPAddr, Mac>, after: map<IPAddr, Mac>) {
    && (!added ==> !granted && learn.Pair? && learn.addr !in before)
    && if !added || learn == Nothing || Refused(learn.addr) then after == before
       else
         || after == before[learn.addr := learn.mac]
         || (|before| >= MAX_ENTRIES && learn.addr !in before
             && exists v :: v in before && after == before[learn.addr := learn.mac] - {v})
  }

  /** Learning keeps the table up to date, with cache hits, evictions and refusals. */
  lemma StaysUpToDate(history: seq<Learn>, learn: Learn, added: bool, granted: bool, before: map<IPAddr, Mac>,
                      after: map<IPAddr, Mac>)
    requires UpToDate(before, history) && Learned(learn, added, granted, before, after)
    ensures UpToDate(after, history + [if added then learn else Nothing])
  {
    hide Refused;
    var more := history + [if added then learn else Nothing];
    assert more[..|more| - 1] == history;
  }

  // ----- The translator -----

  class Smac {
    const table: SMACState
    var macAddress: Mac
    var smacForwardUnknownPackets: bool

    // What every outgoing frame so far has taught.
    ghost var history: seq<Learn>

    ghost predicate Valid()
      reads this, table, table.IPlookupTable, table.entries
    {
      table.Valid() && UpToDate(table.Contents(), history)
    }

    /** A translator that has learned nothing; its MAC is set later. */
    constructor ()
      ensures Valid() && history == [] && table.Contents() == map[] && !smacForwardUnknownPackets
      ensures fresh(table) && fresh(table.IPlookupTable) && table.entries == {}
    {
      table := new SMACState();
      macAddress, smacForwardUnknownPackets, history := [0, 0, 0, 0, 0, 0], false, [];
    }

    /** The host's adapter may change its MAC, or have none. */
    method SetMac(mac: Mac)
      requires Valid()
      modifies `macAddress
      ensures Valid() && macAddress == mac
    {
      macAddress := mac;
    }

    method SetForwardUnknownPackets(forwardUnknown: bool)
      requires Valid()
      modifies `smacForwardUnknownPackets
      ensures Valid() && smacForwardUnknownPackets == forwardUnknown
    {
      smacForwardUnknownPackets := forwardUnknown;
    }

    /** Whatever was learned, refreshed and evicted so far: an IP frame for an address in the table
        is delivered to the guest that taught it last, and is otherwise unchanged. */
    lemma AnswerReachesGuest(q: seq<uint8>, hostBound: bool, dst: IPAddr) returns (i: nat)
      requires Valid() && IsFor(q, hostBound, macAddress, dst) && dst in table.Contents()
      ensures i < |history| && history[i].Pair? && history[i].addr == dst && NotTaughtSince(history, i, dst)
      ensures FromHost(q, hostBound, macAddress, table.Contents(), smacForwardUnknownPackets) ==
        Delivered(history[i].mac + q[6..])
    {
      hide V4At, V6At, Net16;
      i := LastWas(history, dst);
      assert Put(q, 0, history[i].mac) == history[i].mac + q[6..];
    }

    /** The answer to a frame that was number i to be sent, under the host's MAC of that time, is
        delivered to the MAC that the translation replaced, as long as the address is in the table
        and nobody else has taught it. */
    lemma TranslationIsUndone(p: seq<uint8>, mac: Mac, i: nat, q: seq<uint8>, hostBound: bool)
      requires Valid() && ToHost(p, mac).Sent? && ClassOf(p) in {IPv4, IPv6}
      requires i < |history| && history[i] == ToHost(p, mac).learn && NotTaughtSince(history, i, history[i].addr)
      requires history[i].addr in table.Contents() && IsFor(q, hostBound, macAddress, history[i].addr)
      ensures FromHost(q, hostBound, macAddress, table.Contents(), smacForwardUnknownPackets) ==
        Delivered(p[6..12] + q[6..])
    {
      hide V4At, V6At, Net16, FromHost, IsFor, Rewritten, Rewritten6;
      var j := AnswerReachesGuest(q, hostBound, history[i].addr);
      assert i == j;
    }

    /** Duplicating a packet may fail for want of memory. */
    method ClonePacket(p: seq<uint8>, granted: bool) returns (clone: array?<uint8>)
      ensures clone == null <==> !granted
      ensures clone != null ==> fresh(clone) && clone[..] == p
    {
      if !granted {
        return null;
      }
      var c := new uint8[|p|](i requires 0 <= i < |p| => p[i]);
      assert c[..] == p;
      clone := c;
    }

    /** A frame from the host's network, in skb; the result is the frame to deliver, if any: the
        frame itself, or a clone. */
    method CheckPacketFromHost(p: seq<uint8>, hostBound: bool, granted: bool)
      returns (status: PacketStatus, clone: array?<uint8>)
      requires Valid()
      ensures clone != null ==> fresh(clone)
      ensures match FromHost(p, hostBound, macAddress, table.Contents(), smacForwardUnknownPackets)
              case NotDelivered(s) => status == s
              case AsIs => status == ForwardPacket && clone == null
              case Delivered(c) =>
                if granted then status == ForwardPacket && clone != null && clone[..] == c else status == DropPacket
    {
      clone := null;
      if |p| < ETH_HLEN || (hostBound && macAddress == MacAt(p, 6)) {
        return DropPacket, null;
      }
      var typeClass := LookupTypeClass(Net16(p, 12));
      if typeClass == ARP {
        if |p| < ETH_HLEN + ARP_HEADER_LEN {
          return TooShort, null;
        }
        status, clone := ArpFromHost(p, granted);
        return;
      }
      if typeClass != IPv4 && typeClass != IPv6 {
        return if ToMany(p) || smacForwardUnknownPackets then ForwardPacket else DropPacket, null;
      }
      var dst: IPAddr;
      if typeClass == IPv4 {
        if |p| < ETH_HLEN + IP_HEADER_LEN {
          return TooShort, null;
        }
        var ipVer, ipHeaderLen := IpVersion(p, ETH_HLEN), IpHeaderLen(p, ETH_HLEN);
        if ipVer != 4 || ipHeaderLen < IP_HEADER_LEN || |p| - ETH_HLEN < ipHeaderLen {
          return if |p| - ETH_HLEN < ipHeaderLen then TooShort else DropPacket, null;
        }
        dst := V4At(p, ETH_HLEN + 16);
      } else {
        if |p| < ETH_HLEN + IPv6_HEADER_LEN {
          return TooShort, null;
        }
        if IpVersion(p, ETH_HLEN) != 6 {
          return DropPacket, null;
        }
        dst := V6At(p, ETH_HLEN + 24);
      }
      status, clone := IpFromHost(p, dst, granted);
    }

    method IpFromHost(p: seq<uint8>, dst: IPAddr, granted: bool) returns (status: PacketStatus, clone: array?<uint8>)
      requires table.Valid() && |p| >= ETH_HLEN
      ensures clone != null ==> fresh(clone)
      ensures match Deliver(p, dst, table.Contents(), smacForwardUnknownPackets)
              case NotDelivered(s) => status == s
              case AsIs => status == ForwardPacket && clone == null
              case Delivered(c) =>
                if granted then status == ForwardPacket && clone != null && clone[..] == c else status == DropPacket
    {
      if ToMany(p) {
        return ForwardPacket, null;
      }
      var foundMac, vmMacAddress := table.LookupByIP(dst);
      if !foundMac && dst == V4(0xFFFF_FFFF) {
        vmMacAddress := BROADCAST_MAC;
        foundMac := true;
      }
      if !foundMac {
        return if smacForwardUnknownPackets then ForwardPacket else DropPacket, null;
      }
      clone := ClonePacket(p, granted);
      if clone == null {
        return DropPacket, null;
      }
      PutMac(clone, vmMacAddress, 0);
      return ForwardPacket, clone;
    }

    method ArpFromHost(p: seq<uint8>, granted: bool) returns (status: PacketStatus, clone: array?<uint8>)
      requires table.Valid() && |p| >= ETH_HLEN + ARP_HEADER_LEN
      ensures clone != null ==> fresh(clone)
      ensures match FromHostArp(p, macAddress, table.Contents())
              case NotDelivered(s) => status == s
              case AsIs => status == ForwardPacket && clone == null
              case Delivered(c) =>
                if granted then status == ForwardPacket && clone != null && clone[..] == c else status == DropPacket
    {
      hide PlacedIn, Chained, Put, ContentsOf, ArpOpcode, V4At;
      if !ArpWord1OK(p, ETH_HLEN) {
        return DropPacket, null;
      }
      var op := ArpOpcode(p, ETH_HLEN);
      var targetAddr := V4At(p, ETH_HLEN + ARP_TARGET_IP_OFFSET);
      if op == 1 || op == 3 || op == 8 {
        var foundIP, _ := table.LookupByIP(V4At(p, ETH_HLEN + ARP_SENDER_IP_OFFSET));
        if foundIP && macAddress == MacAt(p, ETH_HLEN + ARP_SENDER_MAC_OFFSET) {
          return DropPacket, null;
        }
        if ToMany(p) {
          return ForwardPacket, null;
        }
        if macAddress != MacAt(p, 0) {
          return DropPacket, null;
        }
        var foundMac, vmMacAddress := table.LookupByIP(targetAddr);
        if !foundMac {
          return DropPacket, null;
        }
        clone := ClonePacket(p, granted);
        if clone == null {
          return DropPacket, null;
        }
        PutMac(clone, vmMacAddress, 0);
        return ForwardPacket, clone;
      }
      if op == 2 || op == 4 || op == 9 {
        var foundMac, vmMacAddress := table.LookupByIP(targetAddr);
        if !foundMac {
          return if ToMany(p) then ForwardPacket else DropPacket, null;
        }
        clone := ClonePacket(p, granted);
        if clone == null {
          return DropPacket, null;
        }
        if !ToMany(p) {
          PutMac(clone, vmMacAddress, 0);
        }
        PutMac(clone, vmMacAddress, ETH_HLEN + ARP_TARGET_MAC_OFFSET);
        PutsCommute(p, 0, vmMacAddress, ETH_HLEN + ARP_TARGET_MAC_OFFSET, vmMacAddress);
        return ForwardPacket, clone;
      }
      return DropPacket, null;
    }

    /** Learns a pair, if there is one. */
    method LearnPair(learn: Learn, granted: bool, clock1: uint64, clock2: uint64, clock3: uint64) returns (added: bool)
      requires table.Valid() && (learn.Pair? ==> learn.addr != NoAddr)
      modifies table, table.IPlookupTable, table.entries
      ensures table.Valid() && fresh(table.entries - old(table.entries))
      ensures Learned(learn, added, granted, old(table.Contents()), table.Contents())
    {
      hide PlacedIn, Chained, ContentsOf, SMACState.StampedIn, Refused, UniqueIn, SMACState.Structure;
      added := true;
      if learn.Pair? {
        table.PlacedFacts();
        AddressesCounted(table.entries);
        ghost var victim;
        added, victim := table.AddIPandMACcombo(learn.addr, learn.mac, granted, clock1, clock2, clock3);
      }
    }

    /** A frame from the guests' side. The sender's address is learned, and a clone in the host's
        name is made for sending. The table entry and the clone may be refused memory. */
    method CheckPacketToHost(p: seq<uint8>, entryGranted: bool, cloneGranted: bool,
                             clock1: uint64, clock2: uint64, clock3: uint64)
      returns (status: PacketStatus, clone: array?<uint8>, added: bool)
      requires Valid()
      modifies `history, table, table.IPlookupTable, table.entries
      ensures Valid() && (clone != null ==> fresh(clone)) && fresh(table.entries - old(table.entries))
      ensures history == old(history) + [if added then ToHost(p, macAddress).learn else Nothing]
      ensures Learned(ToHost(p, macAddress).learn, added, entryGranted, old(table.Contents()), table.Contents())
      ensures Carried(ToHost(p, macAddress), added, cloneGranted, status, clone)
    {
      hide PlacedIn, Chained, SMACState.StampedIn, ContentsOf, ToHost, Learned, UpToDate, Carried;
      ghost var learn, before := ToHost(p, macAddress).learn, table.Contents();
      status, clone, added := Send(p, entryGranted, cloneGranted, clock1, clock2, clock3);
      StaysUpToDate(history, learn, added, entryGranted, before, table.Contents());
      history := history + [if added then learn else Nothing];
    }

    method Send(p: seq<uint8>, entryGranted: bool, cloneGranted: bool, clock1: uint64, clock2: uint64, clock3: uint64)
      returns (status: PacketStatus, clone: array?<uint8>, added: bool)
      requires table.Valid()
      modifies table, table.IPlookupTable, table.entries
      ensures table.Valid() && (clone != null ==> fresh(clone)) && fresh(table.entries - old(table.entries))
      ensures Learned(ToHost(p, macAddress).learn, added, entryGranted, old(table.Contents()), table.Contents())
      ensures Carried(ToHost(p, macAddress), added, cloneGranted, status, clone)
    {
      hide PlacedIn, Chained, ContentsOf, SMACState.StampedIn, Refused, IPv4ToHost, IPv6ToHost, ArpToHost, Put;
      clone, added := null, true;
      if |p| < ETH_HLEN {
        return TooShort, null, true;
      }
      var typeClass, eth := LookupTypeClass(Net16(p, 12)), ETH_HLEN;
      if typeClass == VLAN {
        eth := eth + 4;
        if |p| < eth {
          return TooShort, null, true;
        }
        typeClass := LookupTypeClass(Net16(p, 16));
      }
      match typeClass {
        case IPv4 => status, clone, added := SendIPv4(p, eth, entryGranted, cloneGranted, clock1, clock2, clock3);
        case IPv6 => status, clone, added := SendIPv6(p, eth, entryGranted, cloneGranted, clock1, clock2, clock3);
        case ARP => status, clone, added := SendArp(p, eth, entryGranted, cloneGranted, clock1, clock2, clock3);
        case _ =>
          if !ToMany(p) {
            return DropPacket, null, true;
          }
          clone := ClonePacket(p, cloneGranted);
          if clone == null {
            return DropPacket, null, true;
          }
          PutMac(clone, macAddress, 6);
          status := ForwardPacket;
      }
    }

    method SendIPv4(p: seq<uint8>, eth: nat, entryGranted: bool, cloneGranted: bool, clock1: uint64, clock2: uint64,
                    clock3: uint64)
      returns (status: PacketStatus, clone: array?<uint8>, added: bool)
      requires table.Valid() && ETH_HLEN <= eth <= |p|
      modifies table, table.IPlookupTable, table.entries
      ensures table.Valid() && (clone != null ==> fresh(clone)) && fresh(table.entries - old(table.entries))
      ensures Learned(IPv4ToHost(p, eth, macAddress).learn, added, entryGranted,
                      old(table.Contents()), table.Contents())
      ensures Carried(IPv4ToHost(p, eth, macAddress), added, cloneGranted, status, clone)
    {
      hide PlacedIn, Chained, ContentsOf, SMACState.StampedIn, Refused, Rewritten, V4At, MacAt, Put;
      if |p| < eth + IP_HEADER_LEN {
        return TooShort, null, true;
      }
      var ipVer, ipHeaderLen := IpVersion(p, eth), IpHeaderLen(p, eth);
      if ipVer != 4 || ipHeaderLen < IP_HEADER_LEN || |p| < eth + ipHeaderLen {
        return DropPacket, null, true;
      }
      added := LearnPair(Pair(V4At(p, eth + 12), MacAt(p, 6)), entryGranted, clock1, clock2, clock3);
      if !added {
        return DropPacket, null, false;
      }
      clone := ClonePacket(p, cloneGranted);
      if clone == null {
        return DropPacket, null, true;
      }
      ProcessOutgoingIPv4Packet(clone, eth);
      PutMac(clone, macAddress, 6);
      return ForwardPacket, clone, true;
    }

    method SendIPv6(p: seq<uint8>, eth: nat, entryGranted: bool, cloneGranted: bool, clock1: uint64, clock2: uint64,
                    clock3: uint64)
      returns (status: PacketStatus, clone: array?<uint8>, added: bool)
      requires table.Valid() && ETH_HLEN <= eth <= |p|
      modifies table, table.IPlookupTable, table.entries
      ensures table.Valid() && (clone != null ==> fresh(clone)) && fresh(table.entries - old(table.entries))
      ensures Learned(IPv6ToHost(p, eth, macAddress).learn, added, entryGranted,
                      old(table.Contents()), table.Contents())
      ensures Carried(IPv6ToHost(p, eth, macAddress), added, cloneGranted, status, clone)
    {
      hide PlacedIn, Chained, ContentsOf, SMACState.StampedIn, Refused, OptionOf, Rewritten6, MessageAt, Put;
      hide V6At, MacAt;
      if |p| < eth + IPv6_HEADER_LEN {
        return TooShort, null, true;
      }
      if IpVersion(p, eth) != 6 {
        return DropPacket, null, true;
      }
      added := LearnPair(Pair(V6At(p, eth + 8), MacAt(p, 6)), entryGranted, clock1, clock2, clock3);
      if !added {
        return DropPacket, null, false;
      }
      clone := ClonePacket(p, cloneGranted);
      if clone == null {
        return DropPacket, null, true;
      }
      var ok := ProcessOutgoingIPv6Packet(clone, eth, macAddress);
      if !ok {
        return DropPacket, clone, true;
      }
      PutMac(clone, macAddress, 6);
      return ForwardPacket, clone, true;
    }

    method SendArp(p: seq<uint8>, eth: nat, entryGranted: bool, cloneGranted: bool, clock1: uint64, clock2: uint64,
                   clock3: uint64)
      returns (status: PacketStatus, clone: array?<uint8>, added: bool)
      requires table.Valid() && ETH_HLEN <= eth <= |p|
      modifies table, table.IPlookupTable, table.entries
      ensures table.Valid() && (clone != null ==> fresh(clone)) && fresh(table.entries - old(table.entries))
      ensures Learned(ArpToHost(p, eth, macAddress).learn, added, entryGranted, old(table.Contents()), table.Contents())
      ensures Carried(ArpToHost(p, eth, macAddress), added, cloneGranted, status, clone)
    {
      hide PlacedIn, Chained, ContentsOf, SMACState.StampedIn, Refused, Put, V4At, MacAt, ArpOpcode, ArpWord1OK;
      if |p| < eth + ARP_HEADER_LEN || !ArpWord1OK(p, eth) {
        return DropPacket, null, true;
      }
      var op := ArpOpcode(p, eth);
      if op !in {1, 2, 3, 4, 8, 9} {
        return DropPacket, null, true;
      }
      added := true;
      if op != 3 {
        var pair := Pair(V4At(p, eth + ARP_SENDER_IP_OFFSET), MacAt(p, eth + ARP_SENDER_MAC_OFFSET));
        added := LearnPair(pair, entryGranted, clock1, clock2, clock3);
        if !added {
          return DropPacket, null, false;
        }
      }
      clone := ClonePacket(p, cloneGranted);
      if clone == null {
        return DropPacket, null, true;
      }
      PutMac(clone, macAddress, 6);
      PutMac(clone, macAddress, eth + ARP_SENDER_MAC_OFFSET);
      return ForwardPacket, clone, true;
    }
  }

  /** A guest's first frame through a new translator, and its answer: the answer gets back the source MAC
      that the frame had. */
  method SendAndReceive(p: seq<uint8>, q: seq<uint8>, mac: Mac, forwardUnknown: bool, hostBound: bool,
                        clock1: uint64, clock2: uint64, clock3: uint64)
    returns (sent: array?<uint8>, answer: array?<uint8>)
    requires ToHost(p, mac).Sent? && ToHost(p, mac).learn.Pair? && ClassOf(p) in {IPv4, IPv6}
    requires !Refused(ToHost(p, mac).learn.addr) && IsFor(q, hostBound, mac, ToHost(p, mac).learn.addr)
    ensures sent != null && sent[..] == ToHost(p, mac).clone
    ensures answer != null && answer[..] == p[6..12] + q[6..]
  {
    hide ToHost, FromHost, IsFor, ClassOf, Refused, SMACState.Valid;
    var smac := new Smac();
    smac.SetMac(mac);
    smac.SetForwardUnknownPackets(forwardUnknown);
    ghost var learn := ToHost(p, mac).learn;
    var status, added;
    status, sent, added := smac.CheckPacketToHost(p, true, true, clock1, clock2, clock3);
    assert smac.history == [learn];
    smac.TranslationIsUndone(p, mac, 0, q, hostBound);
    status, answer := smac.CheckPacketFromHost(q, hostBound, true);
  }

  /** What comes of a decision about an outgoing frame. */
  ghost predicate Carried(d: Outgoing, added: bool, granted: bool, status: PacketStatus, clone: array?<uint8>)
    reads clone
  {
    match d
    case Unsent(_, s) => status == s
    case Sent(_, c) =>
      if added && granted then status == ForwardPacket && clone != null && clone[..] == c else status == DropPacket
  }
}
