/** Outgoing neighbour-discovery packets get the host's MAC in their link-layer option, and their
    ICMPv6 checksum adjusted. */
module OutgoingIPv6 {
  import opened Words
  import opened Checksum
  import opened OutgoingIPv4

  const IPv6_HEADER_LEN: nat := 40
  const IPv6_NEXT_HEADER_OFFSET: nat := 6
  const NEXTHDR_AUTH: uint8 := 51
  const NEXTHDR_ICMPV6: uint8 := 58
  const ICMPv6_CHECKSUM_OFFSET: nat := 2
  const ICMPv6_NDP_MAC_OFFSET: nat := 2

  // ----- Extension headers -----

  /** Hop-by-hop, routing, authentication, destination and mobility headers are walked. */
  predicate IsExtension(next: uint8) {
    next in {0, 43, NEXTHDR_AUTH, 60, 135}
  }

  /** The length of an extension header by its length byte, as RFC 8200 and RFC 4302 define it. */
  function HeaderLen(next: uint8, b: nat): nat {
    if next == NEXTHDR_AUTH then (b + 2) * 4 else (b + 1) * 8
  }

  /** What the code takes for it: the length byte is loaded into the low byte of the variable that
      still holds the length of the previous header. */
  function LoadedLen(next: uint8, b: uint8, previous: nat): nat {
    HeaderLen(next, previous - previous % 0x100 + b)
  }

  /** The length is right exactly if the previous header was shorter than 256 bytes. */
  lemma LoadedLenRight(next: uint8, b: uint8, previous: nat)
    ensures LoadedLen(next, b, previous) == HeaderLen(next, b) <==> previous < 0x100
  {}

  /** Follows extension headers from offset on: the type of the first header that is not one,
      and where it is. */
  function Walk(s: seq<uint8>, offset: nat, next: uint8): (r: (uint8, nat))
    decreases |s| - offset
  {
    if offset + 1 < |s| && IsExtension(next) then Walk(s, offset + HeaderLen(next, s[offset + 1]), s[offset])
    else (next, offset)
  }

  /** The walk that the code takes. */
  function CodeWalk(s: seq<uint8>, offset: nat, next: uint8, previous: nat): (r: (uint8, nat))
    decreases |s| - offset
  {
    if offset + 1 < |s| && IsExtension(next) then
      var len := LoadedLen(next, s[offset + 1], previous);
      CodeWalk(s, offset + len, s[offset], len)
    else (next, offset)
  }

  /** No extension header of 256 bytes or more is followed by another one. */
  predicate ShortHeaders(s: seq<uint8>, offset: nat, next: uint8)
    decreases |s| - offset
  {
    offset + 1 < |s| && IsExtension(next) ==>
      var len := HeaderLen(next, s[offset + 1]);
      && (len < 0x100 || !IsExtension(s[offset]) || offset + len + 1 >= |s|)
      && ShortHeaders(s, offset + len, s[offset])
  }

  /** Every length that the code takes along its walk is the one that the headers give. */
  predicate LensRight(s: seq<uint8>, offset: nat, next: uint8, previous: nat)
    decreases |s| - offset
  {
    offset + 1 < |s| && IsExtension(next) ==>
      var len := LoadedLen(next, s[offset + 1], previous);
      len == HeaderLen(next, s[offset + 1]) && LensRight(s, offset + len, s[offset], len)
  }

  /** The code's walk takes the right lengths exactly if headers are short. */
  lemma {:induction false} LensRightIff(s: seq<uint8>, offset: nat, next: uint8, previous: nat)
    requires previous < 0x100 || !IsExtension(next) || offset + 1 >= |s|
    ensures LensRight(s, offset, next, previous) <==> ShortHeaders(s, offset, next)
    decreases |s| - offset
  {
    if offset + 1 < |s| && IsExtension(next) {
      LoadedLenRight(next, s[offset + 1], previous);
      var len := HeaderLen(next, s[offset + 1]);
      if len < 0x100 || !IsExtension(s[offset]) || offset + len + 1 >= |s| {
        LensRightIff(s, offset + len, s[offset], len);
      } else {
        LoadedLenRight(s[offset], s[offset + len + 1], len);
      }
    }
  }

  /** With the right lengths, the code's walk ends where the headers say. */
  lemma {:induction false} WalkRight(s: seq<uint8>, offset: nat, next: uint8, previous: nat)
    requires LensRight(s, offset, next, previous)
    ensures CodeWalk(s, offset, next, previous) == Walk(s, offset, next)
    decreases |s| - offset
  {
    if offset + 1 < |s| && IsExtension(next) {
      var len := HeaderLen(next, s[offset + 1]);
      WalkRight(s, offset + len, s[offset], len);
    }
  }

  method SmacWalkIPv6ExtensionHeaders(packet: array<uint8>, ethHeaderLen: nat) returns (nextHeader: uint8, offset: nat)
    requires ethHeaderLen + IPv6_HEADER_LEN <= packet.Length
    ensures (nextHeader, offset) ==
      CodeWalk(packet[..], ethHeaderLen + IPv6_HEADER_LEN, packet[ethHeaderLen + IPv6_NEXT_HEADER_OFFSET],
               IPv6_HEADER_LEN)
    ensures offset >= ethHeaderLen + IPv6_HEADER_LEN
    ensures packet.Length < 0x400_0000 ==> offset < 0x1_0000_0000
  {
    nextHeader := packet[ethHeaderLen + IPv6_NEXT_HEADER_OFFSET];
    var headerLen: nat := IPv6_HEADER_LEN;
    offset := ethHeaderLen + headerLen;
    while offset < packet.Length - 1 && IsExtension(nextHeader)
      invariant ethHeaderLen + IPv6_HEADER_LEN <= offset && headerLen <= offset
      invariant packet.Length < 0x400_0000 ==> offset < 0x1_0000_0000
      invariant CodeWalk(packet[..], offset, nextHeader, headerLen) ==
        CodeWalk(packet[..], ethHeaderLen + IPv6_HEADER_LEN, packet[ethHeaderLen + IPv6_NEXT_HEADER_OFFSET],
                 IPv6_HEADER_LEN)
      decreases packet.Length - offset
    {
      headerLen := LoadedLen(nextHeader, packet[offset + 1], headerLen);
      nextHeader := packet[offset];
      offset := offset + headerLen;
    }
  }

  // ----- Neighbour-discovery options -----

  datatype Ndp = NotNdp | Ndp(optionToFind: uint8, msgLen: nat)

  function NdpOf(icmpType: uint8): Ndp {
    match icmpType
    case 133 => Ndp(1, 8)
    case 134 => Ndp(1, 16)
    case 135 => Ndp(1, 24)
    case 136 => Ndp(2, 24)
    case _ => NotNdp
  }

  datatype Found = At(offset: nat) | Absent | Malformed

  function FindOption(s: seq<uint8>, offset: nat, option: uint8): (r: Found)
    ensures r.At? ==> offset <= r.offset < |s| && s[r.offset] == option
    decreases |s| - offset
  {
    if offset >= |s| then Absent
    else if s[offset] == option then At(offset)
    else if offset + 1 >= |s| || s[offset + 1] == 0 then Malformed
    else FindOption(s, offset + 8 * (s[offset + 1] as nat), option)
  }

  /** Options start at multiples of 8 bytes. */
  lemma {:induction false} OptionAligned(s: seq<uint8>, offset: nat, option: uint8)
    requires FindOption(s, offset, option).At?
    ensures (FindOption(s, offset, option).offset - offset) % 8 == 0
    decreases |s| - offset
  {
    if s[offset] != option {
      OptionAligned(s, offset + 8 * (s[offset + 1] as nat), option);
    }
  }

  // ----- Patching -----

  /** The sums that the code compares: of the first four and of the last two bytes of a MAC. */
  function HeadSum(s: seq<uint8>, o: nat): nat
    requires o + 4 <= |s|
  {
    SUM32(Host32(s, o))
  }

  function Host16(s: seq<uint8>, o: nat): nat
    requires o + 2 <= |s|
  {
    s[o] + 0x100 * (s[o + 1] as int)
  }

  lemma MacSum(s: seq<uint8>, o: nat)
    requires o + 6 <= |s|
    ensures HeadSum(s, o) < 0x1_0000_0000 && Host16(s, o + 4) < 0x1_0000
    ensures HeadSum(s, o) + Host16(s, o + 4) == WordSum(s[o..o + 6])
  {
    FoldedWord(s, o);
    assert s[o..o + 6] == s[o..o + 4] + s[o + 4..o + 6];
    SumOfConcat(s[o..o + 4], s[o + 4..o + 6]);
    assert s[o + 4..o + 6][2..] == [];
  }

  function PatchedCheck(s: seq<uint8>, c: nat, o: nat, mac: Mac): uint16
    requires c + 2 <= |s| && o + 6 <= |s|
  {
    MacSum(s, o);
    MacSum(mac, 0);
    DiffIsDifference(HeadSum(s, o), HeadSum(mac, 0));
    DiffIsDifference(Host16(s, o + 4), Host16(mac, 4));
    UpdateSum(UpdateSum(Net16(s, c), CalcChecksumDiff(HeadSum(s, o), HeadSum(mac, 0))),
              CalcChecksumDiff(Host16(s, o + 4), Host16(mac, 4)))
  }

  /** s with mac at offset o and the checksum at c adjusted. */
  function Patched(s: seq<uint8>, c: nat, o: nat, mac: Mac): (r: seq<uint8>)
    requires c + 2 <= |s| && o + 6 <= |s|
    ensures |r| == |s|
  {
    Put(Put(s, o, mac), c, Net16Bytes(PatchedCheck(s, c, o, mac)))
  }

  lemma PatchedCheckMakesUp(s: seq<uint8>, c: nat, o: nat, mac: Mac)
    requires c + 2 <= |s| && o + 6 <= |s|
    ensures Cong(Ntohs(PatchedCheck(s, c, o, mac)), Ntohs(Net16(s, c)) - (WordSum(mac) - WordSum(s[o..o + 6])))
  {
    hide Cong, Ntohs, UpdateSum, CalcChecksumDiff, HeadSum, Host16, WordSum, Net16;
    MacSum(s, o);
    MacSum(mac, 0);
    assert mac[0..6] == mac;
    var a: int, b: int := HeadSum(s, o), HeadSum(mac, 0);
    var x: int, y: int := Host16(s, o + 4), Host16(mac, 4);
    DiffIsDifference(a, b);
    DiffIsDifference(x, y);
    var d, e := CalcChecksumDiff(a, b), CalcChecksumDiff(x, y);
    UpdatesChain(Net16(s, c), d, e);
    CongAdd(d, b - a, e, y - x);
    var r := Ntohs(PatchedCheck(s, c, o, mac));
    MakesUp(r, r, Ntohs(Net16(s, c)), d + e, WordSum(mac) - WordSum(s[o..o + 6]));
  }

  method PatchMacAddrFixChecksum(packet: array<uint8>, checksumOffset: nat, patchMacOffset: nat, mac: Mac)
    returns (ok: bool)
    modifies packet
    ensures ok <==> checksumOffset + 2 <= packet.Length && patchMacOffset + ETH_ALEN <= packet.Length
    ensures packet[..] == if ok then Patched(old(packet[..]), checksumOffset, patchMacOffset, mac) else old(packet[..])
  {
    if checksumOffset + 2 > packet.Length || patchMacOffset + ETH_ALEN > packet.Length {
      return false;
    }
    hide Cong, Ntohs, UpdateSum, CalcChecksumDiff, HeadSum, Host16, WordSum, Put, Net16, Net16Bytes;
    var oriChecksum := Net16(packet[..], checksumOffset);
    var before0, before1 := HeadSum(packet[..], patchMacOffset), Host16(packet[..], patchMacOffset + 4);
    var after0, after1 := HeadSum(mac, 0), Host16(mac, 4);
    MacSum(packet[..], patchMacOffset);
    MacSum(mac, 0);
    DiffIsDifference(before0, after0);
    DiffIsDifference(before1, after1);
    var newChecksum := UpdateSum(oriChecksum, CalcChecksumDiff(before0, after0));
    newChecksum := UpdateSum(newChecksum, CalcChecksumDiff(before1, after1));
    PutMac(packet, mac, patchMacOffset);
    StoreNet16(packet, checksumOffset, newChecksum);
    return true;
  }

  /** Writes a MAC byte by byte. */
  method PutMac(packet: array<uint8>, mac: Mac, offset: nat)
    requires offset + ETH_ALEN <= packet.Length
    modifies packet
    ensures packet[..] == Put(old(packet[..]), offset, mac)
  {
    for i := 0 to ETH_ALEN
      invariant forall k :: 0 <= k < packet.Length ==>
        packet[k] == if offset <= k < offset + i then mac[k - offset] else old(packet[k])
    {
      packet[offset + i] := mac[i];
    }
  }

  // ----- A whole packet -----

  /** Where the code finds the message that follows the headers. */
  function MessageAt(s: seq<uint8>, eth: nat): (uint8, nat)
    requires eth + IPv6_HEADER_LEN <= |s|
  {
    CodeWalk(s, eth + IPv6_HEADER_LEN, s[eth + IPv6_NEXT_HEADER_OFFSET], IPv6_HEADER_LEN)
  }

  /** The lengths by which the message is found are those of the headers exactly if the headers are
      short; the message is then the one that follows them. */
  lemma MessageIsReal(s: seq<uint8>, eth: nat)
    requires eth + IPv6_HEADER_LEN <= |s|
    ensures var first, next := eth + IPv6_HEADER_LEN, s[eth + IPv6_NEXT_HEADER_OFFSET];
      && (LensRight(s, first, next, IPv6_HEADER_LEN) <==> ShortHeaders(s, first, next))
      && (ShortHeaders(s, first, next) ==> MessageAt(s, eth) == Walk(s, first, next))
  {
    var first, next := eth + IPv6_HEADER_LEN, s[eth + IPv6_NEXT_HEADER_OFFSET];
    LensRightIff(s, first, next, IPv6_HEADER_LEN);
    if ShortHeaders(s, first, next) { WalkRight(s, first, next, IPv6_HEADER_LEN); }
  }

  /** A hop-by-hop header of 256 bytes, then a destination header of 8, then ICMPv6: the code
      looks for the message 2048 bytes too far. */
  predicate LongHeader(s: seq<uint8>, eth: nat) {
    var first := eth + IPv6_HEADER_LEN;
    && first + 0x108 < |s| && s[eth + IPv6_NEXT_HEADER_OFFSET] == 0
    && s[first] == 60 && s[first + 1] == 31 && s[first + 0x100] == NEXTHDR_ICMPV6 && s[first + 0x101] == 0
  }

  lemma WalkWrong(s: seq<uint8>, eth: nat)
    requires LongHeader(s, eth)
    ensures var first := eth + IPv6_HEADER_LEN;
      && Walk(s, first, s[eth + IPv6_NEXT_HEADER_OFFSET]) == (NEXTHDR_ICMPV6, first + 0x108)
      && MessageAt(s, eth) == (NEXTHDR_ICMPV6, first + 0x908)
  {
    var first := eth + IPv6_HEADER_LEN;
    assert Walk(s, first + 0x100, 60) == Walk(s, first + 0x108, NEXTHDR_ICMPV6);
    assert CodeWalk(s, first + 0x100, 60, 0x100) == CodeWalk(s, first + 0x908, NEXTHDR_ICMPV6, 0x808);
  }

  /** The code may get its lengths wrong and end at the right place all the same: here the walk that
      the headers give comes by, in steps of 8 bytes, where the code's leaps to. */
  lemma WalksMeetAgain(s: seq<uint8>, eth: nat)
    requires var first := eth + IPv6_HEADER_LEN;
      && |s| == first + 0x909 && s[eth + IPv6_NEXT_HEADER_OFFSET] == 0 && s[first] == 60 && s[first + 1] == 31
      && forall i :: 0 <= i <= 0x100 ==> EmptyOptions(s, first + 0x100 + 8 * i)
    ensures var first, next := eth + IPv6_HEADER_LEN, s[eth + IPv6_NEXT_HEADER_OFFSET];
      && MessageAt(s, eth) == Walk(s, first, next) == (60, first + 0x908)
      && !LensRight(s, first, next, IPv6_HEADER_LEN)
  {
    var first := eth + IPv6_HEADER_LEN;
    SmallSteps(s, first + 0x100, 0x101);
    assert EmptyOptions(s, first + 0x100 + 8 * 0);
    assert Walk(s, first, 0) == Walk(s, first + 0x100, 60);
    assert CodeWalk(s, first + 0x100, 60, 0x100) == (60, first + 0x908);
    LensRightIff(s, first, 0, IPv6_HEADER_LEN);
  }

  /** A destination header of 8 bytes, followed by another one. */
  predicate EmptyOptions(s: seq<uint8>, o: nat) {
    o + 8 < |s| && s[o] == 60 && s[o + 1] == 0
  }

  lemma {:induction false} SmallSteps(s: seq<uint8>, o: nat, n: nat)
    requires forall i :: 0 <= i < n ==> EmptyOptions(s, o + 8 * i)
    ensures Walk(s, o, 60) == Walk(s, o + 8 * n, 60)
    decreases n
  {
    if n > 0 {
      assert EmptyOptions(s, o + 8 * 0);
      forall i | 0 <= i < n - 1 ensures EmptyOptions(s, o + 8 + 8 * i) {
        assert EmptyOptions(s, o + 8 * (i + 1));
      }
      SmallSteps(s, o + 8, n - 1);
    }
  }

  /** So a frame with such headers that ends before that place is refused, whatever message it
      carries; a longer one may be forwarded unpatched. */
  lemma LongHeaderRefused(s: seq<uint8>, eth: nat)
    requires LongHeader(s, eth) && |s| <= eth + IPv6_HEADER_LEN + 0x908
    ensures OptionOf(s, eth) == Malformed
  {
    hide CodeWalk, FindOption;
    WalkWrong(s, eth);
  }

  /** The option that is to be patched; Malformed when the packet is refused. */
  function OptionOf(s: seq<uint8>, eth: nat): (r: Found)
    requires eth + IPv6_HEADER_LEN <= |s|
    ensures r.At? ==> r.offset + 8 <= |s| && MessageAt(s, eth).1 + 8 <= r.offset
  {
    var (next, at) := MessageAt(s, eth);
    if next != NEXTHDR_ICMPV6 then Absent
    else if at >= |s| then Malformed
    else
      match NdpOf(s[at])
      case NotNdp => Absent
      case Ndp(option, msgLen) =>
        match FindOption(s, at + msgLen, option)
        case At(o) => if o + 8 <= |s| then At(o) else Malformed
        case Absent => Absent
        case Malformed => Malformed
  }

  /** What becomes of an outgoing IPv6 packet that is not refused. */
  function Rewritten6(s: seq<uint8>, eth: nat, mac: Mac): (r: seq<uint8>)
    requires eth + IPv6_HEADER_LEN <= |s|
    ensures |r| == |s|
  {
    match OptionOf(s, eth)
    case At(o) => Patched(s, MessageAt(s, eth).1 + ICMPv6_CHECKSUM_OFFSET, o + ICMPv6_NDP_MAC_OFFSET, mac)
    case _ => s
  }

  method ProcessOutgoingIPv6Packet(packet: array<uint8>, ethHeaderLen: nat, mac: Mac) returns (ok: bool)
    requires ethHeaderLen + IPv6_HEADER_LEN <= packet.Length
    modifies packet
    ensures ok <==> OptionOf(old(packet[..]), ethHeaderLen) != Malformed
    ensures packet[..] == Rewritten6(old(packet[..]), ethHeaderLen, mac)
  {
    hide Patched;
    ghost var s := packet[..];
    var nextHeader, offset := SmacWalkIPv6ExtensionHeaders(packet, ethHeaderLen);
    if nextHeader != NEXTHDR_ICMPV6 {
      return true;
    }
    if offset >= packet.Length {
      return false;
    }
    var checksumOffset := offset + ICMPv6_CHECKSUM_OFFSET;
    var ndp := NdpOf(packet[offset]);
    if ndp == NotNdp {
      return true;
    }
    offset := offset + ndp.msgLen;
    ghost var found := FindOption(s, offset, ndp.optionToFind);
    while offset < packet.Length
      invariant packet[..] == s && checksumOffset + 2 <= offset + 8
      invariant FindOption(s, offset, ndp.optionToFind) == found
      decreases packet.Length - offset
    {
      if packet[offset] == ndp.optionToFind {
        ok := PatchMacAddrFixChecksum(packet, checksumOffset, offset + ICMPv6_NDP_MAC_OFFSET, mac);
        return;
      }
      if offset + 1 >= packet.Length || packet[offset + 1] == 0 {
        return false;
      }
      offset := offset + 8 * (packet[offset + 1] as nat);
    }
    return true;
  }

  lemma PatchedBytes(s: seq<uint8>, c: nat, o: nat, mac: Mac)
    requires c + 2 <= |s| && o + 6 <= |s| && c + 2 <= o
    ensures Patched(s, c, o, mac)[o..o + 6] == mac
    ensures forall i :: 0 <= i < |s| && Patched(s, c, o, mac)[i] != s[i] ==> c <= i < c + 2 || o <= i < o + 6
  {}

  /** Only the six bytes of the option's MAC and the two of the checksum may change. */
  lemma OnlyMacAndCheck(s: seq<uint8>, eth: nat, mac: Mac, i: nat)
    requires eth + IPv6_HEADER_LEN <= |s| && i < |s| && Rewritten6(s, eth, mac)[i] != s[i]
    ensures OptionOf(s, eth).At?
    ensures var c, o := MessageAt(s, eth).1 + 2, OptionOf(s, eth).offset + 2;
      && (c <= i < c + 2 || o <= i < o + 6)
      && Rewritten6(s, eth, mac)[o..o + 6] == mac
  {
    hide Patched, OptionOf, MessageAt;
    if OptionOf(s, eth).At? {
      PatchedBytes(s, MessageAt(s, eth).1 + ICMPv6_CHECKSUM_OFFSET,
                   OptionOf(s, eth).offset + ICMPv6_NDP_MAC_OFFSET, mac);
    }
  }

  /** The option is at an even distance from the start of its message. */
  lemma OptionEven(s: seq<uint8>, eth: nat)
    requires eth + IPv6_HEADER_LEN <= |s| && OptionOf(s, eth).At?
    ensures (OptionOf(s, eth).offset - MessageAt(s, eth).1) % 2 == 0
  {
    hide CodeWalk;
    var at := MessageAt(s, eth).1;
    var ndp := NdpOf(s[at]);
    OptionAligned(s, at + ndp.msgLen, ndp.optionToFind);
  }

  lemma PatchVerifies(s: seq<uint8>, at: nat, o: nat, end: nat, mac: Mac, pseudo: nat)
    requires at + 4 <= o && o + 6 <= end <= |s| && (o - at) % 2 == 0
    requires pseudo > 0 && Verifies(pseudo, s[at..end])
    ensures Verifies(pseudo, Patched(s, at + 2, o, mac)[at..end])
  {
    hide Cong, Ntohs, Verifies, PatchedCheck, WordSum, Put;
    PatchedCheckMakesUp(s, at + 2, o, mac);
    var m, x := s[at..end], PatchedCheck(s, at + 2, o, mac);
    assert forall k :: 0 <= k < |m| ==> m[k] == s[at + k];
    assert m[o - at..o - at + 6] == s[o..o + 6] && Net16(m, 2) == Net16(s, at + 2);
    Recheck(m, pseudo, o - at, mac, 2, x);
    assert Patched(s, at + 2, o, mac)[at..end] == Put(Put(m, o - at, mac), 2, Net16Bytes(x));
  }

  /** An ICMPv6 message that verified still does, whatever its pseudo-header, and wherever it ends
      as long as the option is part of it. */
  lemma StillVerifies6(s: seq<uint8>, eth: nat, mac: Mac, end: nat, pseudo: nat)
    requires eth + IPv6_HEADER_LEN <= |s| && MessageAt(s, eth).1 <= end <= |s| && pseudo > 0
    requires OptionOf(s, eth).At? ==> OptionOf(s, eth).offset + 8 <= end
    requires Verifies(pseudo, s[MessageAt(s, eth).1..end])
    ensures Verifies(pseudo, Rewritten6(s, eth, mac)[MessageAt(s, eth).1..end])
  {
    hide Verifies, Patched, MessageAt, OptionOf;
    if OptionOf(s, eth).At? {
      OptionEven(s, eth);
      PatchVerifies(s, MessageAt(s, eth).1, OptionOf(s, eth).offset + ICMPv6_NDP_MAC_OFFSET, end, mac, pseudo);
    }
  }
}
