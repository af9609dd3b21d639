/** Outgoing DHCP requests get their broadcast flag set, and their UDP checksum adjusted. */
module OutgoingIPv4 {
  import opened Words
  import opened Checksum

  const IP_HEADER_LEN: nat := 20
  const IP_HEADER_FLAGS_OFFSET: nat := 6
  const IP_HEADER_PROTO_OFFSET: nat := 9
  const UDP_HEADER_LEN: nat := 8

  /** Four bytes as a number of the host. */
  function Host32(s: seq<uint8>, o: nat): (r: nat)
    requires o + 4 <= |s|
    ensures r < 0x1_0000_0000
  {
    s[o] + 0x100 * (s[o + 1] as int) + 0x1_0000 * (s[o + 2] as int) + 0x100_0000 * (s[o + 3] as int)
  }

  /** Folding a 32-bit word once gives the sum of its two halves. */
  lemma FoldedWord(s: seq<uint8>, o: nat)
    requires o + 4 <= |s|
    ensures SUM32(Host32(s, o)) == WordSum(s[o..o + 4]) < 0x1_0000_0000
  {
    var t := s[o..o + 4];
    assert t[2..][2..] == [];
    assert WordSum(t) == t[0] + 0x100 * (t[1] as int) + WordSum(t[2..]);
    assert WordSum(t[2..]) == t[2] + 0x100 * (t[3] as int);
    var a: int, b: int, c: int, d: int := s[o], s[o + 1], s[o + 2], s[o + 3];
    assert Host32(s, o) == (a + 0x100 * b) + 0x1_0000 * (c + 0x100 * d);
  }

  /** Offset of the UDP header. */
  function UdpAt(s: seq<uint8>, eth: nat): nat
    requires eth < |s|
  {
    eth + 4 * (s[eth] % 0x10)
  }

  /** An unfragmented UDP packet to the port of a DHCP server, long enough, that starts like a
      request over Ethernet and does not have the broadcast flag set. */
  predicate NeedsFlag(s: seq<uint8>, eth: nat) {
    && eth + IP_HEADER_LEN <= |s|
    && Net16(s, eth + IP_HEADER_FLAGS_OFFSET) in {0, 0x4000}
    && s[eth + IP_HEADER_PROTO_OFFSET] == 17
    && UdpAt(s, eth) + UDP_HEADER_LEN + 300 <= |s|
    && Net16(s, UdpAt(s, eth) + 2) == 67
    && s[UdpAt(s, eth) + UDP_HEADER_LEN..UdpAt(s, eth) + UDP_HEADER_LEN + 3] == [1, 1, 6]
    && s[UdpAt(s, eth) + UDP_HEADER_LEN + 10] < 0x80
  }

  function Flagged(s: seq<uint8>, eth: nat): (r: seq<uint8>)
    requires NeedsFlag(s, eth)
    ensures |r| == |s|
  {
    var f := UdpAt(s, eth) + UDP_HEADER_LEN + 10;
    Put(s, f, [s[f] + 0x80, s[f + 1]])
  }

  /** UDP has no zero checksum. */
  function NonZero(check: uint16): uint16 {
    if check == 0 then 0xFFFF else check
  }

  function NewCheck(s: seq<uint8>, eth: nat): uint16
    requires NeedsFlag(s, eth)
  {
    var u := UdpAt(s, eth);
    var sumBefore := SUM32(Host32(s, u + UDP_HEADER_LEN + 8));
    var sumAfter := SUM32(Host32(Flagged(s, eth), u + UDP_HEADER_LEN + 8));
    FoldedWord(s, u + UDP_HEADER_LEN + 8);
    FoldedWord(Flagged(s, eth), u + UDP_HEADER_LEN + 8);
    DiffIsDifference(sumBefore, sumAfter);
    NonZero(UpdateSum(Net16(s, u + 6), CalcChecksumDiff(sumBefore, sumAfter)))
  }

  /** What becomes of an outgoing IPv4 packet. */
  function Rewritten(s: seq<uint8>, eth: nat): (r: seq<uint8>)
    ensures |r| == |s|
  {
    if !NeedsFlag(s, eth) then s
    else if Net16(s, UdpAt(s, eth) + 6) == 0 then Flagged(s, eth)
    else Put(Flagged(s, eth), UdpAt(s, eth) + 6, Net16Bytes(NewCheck(s, eth)))
  }

  /** Only the flag and the checksum may change. */
  lemma OnlyFlagAndCheck(s: seq<uint8>, eth: nat, i: nat)
    requires i < |s| && Rewritten(s, eth)[i] != s[i]
    ensures NeedsFlag(s, eth)
    ensures var u := UdpAt(s, eth); i == u + UDP_HEADER_LEN + 10 || (Net16(s, u + 6) != 0 && u + 6 <= i < u + 8)
    ensures i == UdpAt(s, eth) + UDP_HEADER_LEN + 10 ==> Rewritten(s, eth)[i] == s[i] + 0x80
  {}

  /** A checksum that is present stays present, and one that is absent stays absent. */
  lemma PresenceKept(s: seq<uint8>, eth: nat)
    requires NeedsFlag(s, eth)
    ensures var u := UdpAt(s, eth); Net16(Rewritten(s, eth), u + 6) == 0 <==> Net16(s, u + 6) == 0
  {}

  /** A UDP datagram that verified still verifies exactly if it reaches as far as the flag,
      whatever its pseudo-header. */
  lemma StillVerifies(s: seq<uint8>, eth: nat, end: nat, pseudo: nat)
    requires NeedsFlag(s, eth) && pseudo > 0
    requires var u := UdpAt(s, eth);
      Net16(s, u + 6) != 0 && u + UDP_HEADER_LEN <= end <= |s| && Verifies(pseudo, s[u..end])
    ensures Verifies(pseudo, Rewritten(s, eth)[UdpAt(s, eth)..end]) <==> end > UdpAt(s, eth) + 18
  {
    hide Cong, Ntohs, Verifies, NewCheck, WordSum, Put, Net16Bytes;
    var u := UdpAt(s, eth);
    var m, x := s[u..end], NewCheck(s, eth);
    var r := Rewritten(s, eth)[u..end];
    CheckMakesUp(s, eth);
    assert Net16(m, 6) == Net16(s, u + 6);
    if end > u + 19 {
      CoversFlag(m, pseudo, x);
      assert r == Put(Put(m, 18, [m[18] + 0x80, m[19]]), 6, Net16Bytes(x));
    } else if end == u + 19 {
      Padded(m, pseudo);
      CoversFlag(m + [0], pseudo, x);
      assert r + [0] == Put(Put(m + [0], 18, [m[18] + 0x80, 0]), 6, Net16Bytes(x));
      Padded(r, pseudo);
    } else {
      assert r == Put(m, 6, Net16Bytes(x));
      StopsShort(m, pseudo, x);
    }
  }

  /** A DHCP request from 0.0.0.0 to the broadcast address, in a frame long enough, whose UDP length
      says that there is nothing but the UDP header. */
  function ShortDatagram(): (s: seq<uint8>)
    ensures |s| == 14 + IP_HEADER_LEN + UDP_HEADER_LEN + 300
    ensures forall i :: 0 <= i < |s| ==> s[i] == ShortByte(i)
  {
    seq(14 + IP_HEADER_LEN + UDP_HEADER_LEN + 300, i => ShortByte(i))
  }

  function ShortByte(i: int): uint8 {
    match i
    case 12 => 8
    case 14 => 0x45
    case 17 => 28
    case 22 => 64
    case 23 => 17
    case 30 => 255
    case 31 => 255
    case 32 => 255
    case 33 => 255
    case 35 => 68
    case 37 => 67
    case 39 => 8
    case 40 => 0xFF
    case 41 => 0x57
    case 42 => 1
    case 43 => 1
    case 44 => 6
    case _ => 0
  }

  /** The sum of its pseudo-header: addresses, protocol and length. */
  const SHORT_PSEUDO: nat := 0xFFFF + 0xFFFF + 0x1100 + 0x0800

  /** Its checksum is right, and wrong once the flag is set. */
  lemma ShortDatagramBroken()
    ensures var s := ShortDatagram();
      && NeedsFlag(s, 14) && UdpAt(s, 14) == 34 && Net16(s, 38) == UDP_HEADER_LEN && Net16(s, 40) != 0
      && Verifies(SHORT_PSEUDO, s[34..42]) && !Verifies(SHORT_PSEUDO, Rewritten(s, 14)[34..42])
  {
    hide Verifies, Rewritten, NeedsFlag;
    var s := ShortDatagram();
    ShortDatagramFields(s);
    ShortDatagramSum(s[34..42]);
    StillVerifies(s, 14, 42, SHORT_PSEUDO);
  }

  lemma ShortDatagramFields(s: seq<uint8>)
    requires s == ShortDatagram()
    ensures NeedsFlag(s, 14) && UdpAt(s, 14) == 34 && Net16(s, 38) == UDP_HEADER_LEN && Net16(s, 40) != 0
    ensures s[34..42] == [0, 68, 0, 67, 0, 8, 0xFF, 0x57]
  {
    hide ShortDatagram;
    assert s[42..45] == [1, 1, 6];
  }

  lemma ShortDatagramSum(udp: seq<uint8>)
    requires udp == [0, 68, 0, 67, 0, 8, 0xFF, 0x57]
    ensures Verifies(SHORT_PSEUDO, udp)
  {
    assert udp[2..] == [0, 67, 0, 8, 0xFF, 0x57] && udp[2..][2..] == [0, 8, 0xFF, 0x57];
    assert udp[2..][2..][2..] == [0xFF, 0x57] && udp[2..][2..][2..][2..] == [];
    assert WordSum(udp[2..][2..][2..]) == 0x57FF;
    assert WordSum(udp[2..][2..]) == 8 * 0x100 + 0x57FF;
    assert WordSum(udp[2..]) == 67 * 0x100 + 8 * 0x100 + 0x57FF;
  }

  lemma CoversFlag(m: seq<uint8>, pseudo: nat, x: uint16)
    requires |m| >= 20 && m[18] < 0x80 && pseudo > 0 && Verifies(pseudo, m)
    requires Cong(Ntohs(x), Ntohs(Net16(m, 6)) - 0x80)
    ensures Verifies(pseudo, Put(Put(m, 18, [m[18] + 0x80, m[19]]), 6, Net16Bytes(x)))
  {
    hide Cong, Ntohs, Verifies, Put;
    var b := [m[18] + 0x80, m[19]];
    assert m[18..20] == [m[18], m[19]];
    assert m[18..20][2..] == [] && b[2..] == [];
    Recheck(m, pseudo, 18, b, 6, x);
  }

  lemma Padded(m: seq<uint8>, pseudo: nat)
    requires |m| % 2 == 1
    ensures Verifies(pseudo, m) <==> Verifies(pseudo, m + [0])
  {
    PaddedSum(m);
  }

  lemma {:induction false} PaddedSum(m: seq<uint8>)
    requires |m| % 2 == 1
    ensures WordSum(m + [0]) == WordSum(m)
  {
    if |m| == 1 {
      assert (m + [0])[2..] == [];
    } else {
      assert (m + [0])[2..] == m[2..] + [0];
      PaddedSum(m[2..]);
    }
  }

  lemma StopsShort(m: seq<uint8>, pseudo: nat, x: uint16)
    requires |m| >= 8 && Verifies(pseudo, m) && Cong(Ntohs(x), Ntohs(Net16(m, 6)) - 0x80)
    ensures !Verifies(pseudo, Put(m, 6, Net16Bytes(x)))
  {
    hide Ntohs, Put, WordSum;
    PutSum(m, 6, Net16Bytes(x));
    CheckWord(m, 6, x);
  }

  lemma CheckMakesUp(s: seq<uint8>, eth: nat)
    requires NeedsFlag(s, eth)
    ensures Cong(Ntohs(NewCheck(s, eth)), Ntohs(Net16(s, UdpAt(s, eth) + 6)) - 0x80)
  {
    hide Cong, Ntohs, SUM32, UpdateSum, CalcChecksumDiff, Host32, NonZero, Put, Net16, WordSum;
    var u := UdpAt(s, eth);
    var f, w := u + UDP_HEADER_LEN + 10, u + UDP_HEADER_LEN + 8;
    var t, check := Flagged(s, eth), Net16(s, u + 6);
    var sumBefore, sumAfter := SUM32(Host32(s, w)), SUM32(Host32(t, w));
    FoldedWord(s, w);
    FoldedWord(t, w);
    DiffIsDifference(sumBefore, sumAfter);
    var b := [s[f] + 0x80, s[f + 1]];
    assert t[w..w + 4] == Put(s[w..w + 4], 2, b);
    PutSum(s[w..w + 4], 2, b);
    FlagWord(s, f);
    assert s[w..w + 4][2..4] == s[f..f + 2];
    var diff := CalcChecksumDiff(sumBefore, sumAfter);
    UpdateMakesUp(check, diff);
    ZeroIsOnes(UpdateSum(check, diff));
    MakesUp(Ntohs(NewCheck(s, eth)), Ntohs(UpdateSum(check, diff)), Ntohs(check), diff, 0x80);
  }

  lemma FlagWord(s: seq<uint8>, f: nat)
    requires f + 2 <= |s| && s[f] < 0x80
    ensures WordSum([s[f] + 0x80, s[f + 1]]) == WordSum(s[f..f + 2]) + 0x80
  {
    assert s[f..f + 2] == [s[f], s[f + 1]];
    assert [s[f] + 0x80, s[f + 1]][2..] == [] && s[f..f + 2][2..] == [];
  }

  lemma ZeroIsOnes(check: uint16)
    ensures Cong(Ntohs(NonZero(check)), Ntohs(check))
  {
    if check == 0 {
      assert Ntohs(0) == 0 && Ntohs(0xFFFF) == 0xFFFF;
    }
  }

  lemma MakesUp(r: nat, r0: nat, n: nat, diff: nat, d: int)
    requires Cong(r, r0) && Cong(r0, n - diff) && Cong(diff, d)
    ensures Cong(r, n - d)
  {
    CongAdd(n, n, diff, d);
    CongTrans(r, r0, n - diff);
    CongTrans(r, n - diff, n - d);
  }

  method ProcessOutgoingIPv4Packet(packet: array<uint8>, ethHeaderLen: nat)
    requires ethHeaderLen + IP_HEADER_LEN <= packet.Length
    modifies packet
    ensures packet[..] == Rewritten(old(packet[..]), ethHeaderLen)
  {
    hide Flagged, NewCheck, Put, Net16Bytes;
    ghost var s := packet[..];
    var proto := packet[ethHeaderLen + IP_HEADER_PROTO_OFFSET];
    var ipFlags := Net16(packet[..], ethHeaderLen + IP_HEADER_FLAGS_OFFSET);
    if ipFlags != 0 && ipFlags != 0x4000 {
      return;
    }
    if proto != 17 {
      return;
    }
    var ipHeaderLen := 4 * (packet[ethHeaderLen] % 0x10);
    var udp := ethHeaderLen + ipHeaderLen;
    if packet.Length < udp + UDP_HEADER_LEN {
      return;
    }
    var destPort := Net16(packet[..], udp + 2);
    if destPort != 67 || packet.Length < udp + UDP_HEADER_LEN + 300 {
      return;
    }
    var dhcp := udp + UDP_HEADER_LEN;
    if packet[dhcp..dhcp + 3] != [1, 1, 6] {
      return;
    }
    var dhcpFlags := Net16(packet[..], dhcp + 10);
    if dhcpFlags >= 0x8000 {
      return;
    }
    SetFlag(packet, ethHeaderLen, dhcp, dhcpFlags);
  }

  /** What remains when the flag needs to be set. */
  method SetFlag(packet: array<uint8>, ghost eth: nat, dhcp: nat, dhcpFlags: uint16)
    requires NeedsFlag(packet[..], eth) && dhcp == UdpAt(packet[..], eth) + UDP_HEADER_LEN
    requires dhcpFlags == Net16(packet[..], dhcp + 10)
    modifies packet
    ensures packet[..] == Rewritten(old(packet[..]), eth)
  {
    hide Cong, Ntohs, SUM32, UpdateSum, CalcChecksumDiff, Host32, WordSum, Net16Bytes, Put, Flagged;
    ghost var s := packet[..];
    var oriChecksum := Net16(packet[..], dhcp - 2);
    var sumBefore := SUM32(Host32(packet[..], dhcp + 8));
    FoldedWord(packet[..], dhcp + 8);
    var newFlags := dhcpFlags + 0x8000;
    StoreNet16(packet, dhcp + 10, newFlags);
    IsFlagged(s, eth);
    if oriChecksum != 0 {
      var sumAfter := SUM32(Host32(packet[..], dhcp + 8));
      FoldedWord(packet[..], dhcp + 8);
      DiffIsDifference(sumBefore, sumAfter);
      var sumDiff := CalcChecksumDiff(sumBefore, sumAfter);
      var newChecksum := UpdateSum(oriChecksum, sumDiff);
      if newChecksum == 0 {
        newChecksum := 0xFFFF;
      }
      StoreNet16(packet, dhcp - 2, newChecksum);
    }
  }

  lemma IsFlagged(s: seq<uint8>, eth: nat)
    requires NeedsFlag(s, eth)
    ensures var f := UdpAt(s, eth) + UDP_HEADER_LEN + 10;
      Net16(s, f) < 0x8000 && Flagged(s, eth) == Put(s, f, Net16Bytes(Net16(s, f) + 0x8000))
  {
    hide Put;
    var f := UdpAt(s, eth) + UDP_HEADER_LEN + 10;
    var a: int, b: int := s[f], s[f + 1];
    assert Net16(s, f) == 0x100 * a + b;
  }
}
