/** Splitting a large TCP/IPv4 packet into packets of the segment size. */
module Segmentation {
  import opened Words
  import opened Checksum
  import opened Datagram

  const ETH_P_IP: uint16 := 0x0800
  const IPPROTO_TCP: uint8 := 6
  const EPFNOSUPPORT: int := 96
  const EPROTONOSUPPORT: int := 93
  const ENOMEM: int := 12

  const FIN: nat := 0x01
  const PSH: nat := 0x08

  /** Lengths of the MAC, IP and TCP headers of a packet. */
  datatype Layers = Layers(mac: nat, ip: nat, tcp: nat) {
    function All(): nat { mac + ip + tcp }
  }

  function LayersOf(p: seq<uint8>, mac: nat): Layers
    requires mac + 20 <= |p| && mac + 4 * (p[mac] % 0x10) + 20 <= |p|
  {
    var ip := 4 * (p[mac] % 0x10);
    Layers(mac, ip, 4 * (p[mac + ip + 12] / 0x10))
  }

  /** The packet has the headers that it says it has, with no field missing. */
  predicate HasHeaders(p: seq<uint8>, h: Layers) {
    h.mac >= 14 && h.ip >= 20 && h.tcp >= 20 && h.ip % 2 == 0 && h.All() <= |p|
  }

  function Net32(s: seq<uint8>, o: nat): uint32
    requires o + 4 <= |s|
  {
    0x1_0000 * (Net16(s, o) as int) + Net16(s, o + 2)
  }

  function Net32Bytes(x: uint32): (b: seq<uint8>)
    ensures |b| == 4
  {
    Net16Bytes(x / 0x1_0000) + Net16Bytes(x % 0x1_0000)
  }

  /** ip_fast_csum: the complement of the header's sum, as a word of the host. */
  function IpFastCsum(header: seq<uint8>): uint16 {
    CsumFold(Sum32(WordSum(header)))
  }

  /** The sum of a TCP pseudo-header: addresses, protocol and segment length. */
  function PseudoSum(addrs: seq<uint8>, len: nat): nat {
    WordSum(addrs) + Ntohs(IPPROTO_TCP) + Ntohs(len % 0x1_0000)
  }

  /** What csum_tcpudp_magic returns, inverted. */
  function PseudoCheck(addrs: seq<uint8>, len: nat): uint16 {
    (ONES - CsumFold(Sum32(PseudoSum(addrs, len)))) % 0x1_0000
  }

  function TcpFlags(flags: uint8, last: bool): uint8 {
    if last then flags
    else
      var noFin := if flags % 2 == 1 then flags - FIN else flags;
      if noFin / PSH % 2 == 1 then noFin - PSH else noFin
  }

  // ----- One segment -----

  /** The headers copied, the length and the id set, and the IP checksum cleared. */
  function WithLength(p: seq<uint8>, h: Layers, off: nat, n: nat, ipID: uint16): (s: seq<uint8>)
    requires HasHeaders(p, h) && h.All() <= off && off + n <= |p|
    ensures |s| == h.All() + n
  {
    var s := p[..h.All()] + p[off..off + n];
    var l := Put(s, h.mac + 2, Net16Bytes((n + h.tcp + h.ip) % 0x1_0000));
    Put(Put(l, h.mac + 4, Net16Bytes(ipID)), h.mac + 10, [0, 0])
  }

  function WithIp(p: seq<uint8>, h: Layers, off: nat, n: nat, ipID: uint16): (s: seq<uint8>)
    requires HasHeaders(p, h) && h.All() <= off && off + n <= |p|
    ensures |s| == h.All() + n
  {
    var s := WithLength(p, h, off, n, ipID);
    Put(s, h.mac + 10, Host16Bytes(IpFastCsum(s[h.mac..h.mac + h.ip])))
  }

  function WithTcp(p: seq<uint8>, h: Layers, off: nat, n: nat, ipID: uint16, seqNo: uint32): (s: seq<uint8>)
    requires HasHeaders(p, h) && h.All() <= off && off + n <= |p|
    ensures |s| == h.All() + n
  {
    var t := h.mac + h.ip;
    var s := Put(WithIp(p, h, off, n, ipID), t + 4, Net32Bytes(seqNo));
    Put(s, t + 13, [TcpFlags(s[t + 13], off + n == |p|)])
  }

  /** The packet that carries the n payload bytes at off. */
  function Segment(p: seq<uint8>, h: Layers, off: nat, n: nat, ipID: uint16, seqNo: uint32): (s: seq<uint8>)
    requires HasHeaders(p, h) && h.All() <= off && off + n <= |p|
    ensures |s| == h.All() + n
  {
    var s := WithTcp(p, h, off, n, ipID, seqNo);
    Put(s, h.mac + h.ip + 16, Host16Bytes(PseudoCheck(s[h.mac + 12..h.mac + 20], n + h.tcp)))
  }

  /** A segment is built by a chain of puts at places that do not overlap. */
  lemma SegmentBytes(p: seq<uint8>, h: Layers, off: nat, n: nat, ipID: uint16, seqNo: uint32, i: nat)
    requires HasHeaders(p, h) && h.All() <= off && off + n <= |p| && i < h.All() + n
    ensures var s, t := Segment(p, h, off, n, ipID, seqNo), h.mac + h.ip;
      s[i] ==
        if h.mac + 2 <= i < h.mac + 4 then Net16Bytes((n + h.tcp + h.ip) % 0x1_0000)[i - h.mac - 2]
        else if h.mac + 4 <= i < h.mac + 6 then Net16Bytes(ipID)[i - h.mac - 4]
        else if h.mac + 10 <= i < h.mac + 12 then WithIp(p, h, off, n, ipID)[i]
        else if t + 4 <= i < t + 8 then Net32Bytes(seqNo)[i - t - 4]
        else if i == t + 13 then TcpFlags(p[i], off + n == |p|)
        else if t + 16 <= i < t + 18 then s[i]
        else if i < h.All() then p[i] else p[off + (i - h.All())]
  {
    hide IpFastCsum, PseudoCheck, TcpFlags, Net16Bytes, Net32Bytes, Put;
  }

  /** Every other byte of a segment is the original's. */
  lemma SegmentFrame(p: seq<uint8>, h: Layers, off: nat, n: nat, ipID: uint16, seqNo: uint32, i: nat)
    requires HasHeaders(p, h) && h.All() <= off && off + n <= |p| && i < h.All() + n
    requires !(h.mac + 2 <= i < h.mac + 6) && !(h.mac + 10 <= i < h.mac + 12)
    requires var t := h.mac + h.ip; !(t + 4 <= i < t + 8) && i != t + 13 && !(t + 16 <= i < t + 18)
    ensures Segment(p, h, off, n, ipID, seqNo)[i] == if i < h.All() then p[i] else p[off + (i - h.All())]
  {
    hide Segment;
    SegmentBytes(p, h, off, n, ipID, seqNo, i);
  }

  /** The fields of a segment's headers. */
  lemma SegmentFields(p: seq<uint8>, h: Layers, off: nat, n: nat, ipID: uint16, seqNo: uint32)
    requires HasHeaders(p, h) && h.All() <= off && off + n <= |p|
    ensures var s, t := Segment(p, h, off, n, ipID, seqNo), h.mac + h.ip;
      && Net16(s, h.mac + 2) == (|s| - h.mac) % 0x1_0000
      && Net16(s, h.mac + 4) == ipID
      && Net32(s, t + 4) == seqNo
      && s[t + 13] == TcpFlags(p[t + 13], off + n == |p|)
  {
    hide Segment, WithIp, TcpFlags;
    var t := h.mac + h.ip;
    SegmentBytes(p, h, off, n, ipID, seqNo, h.mac + 2);
    SegmentBytes(p, h, off, n, ipID, seqNo, h.mac + 3);
    SegmentBytes(p, h, off, n, ipID, seqNo, h.mac + 4);
    SegmentBytes(p, h, off, n, ipID, seqNo, h.mac + 5);
    SegmentBytes(p, h, off, n, ipID, seqNo, t + 4);
    SegmentBytes(p, h, off, n, ipID, seqNo, t + 5);
    SegmentBytes(p, h, off, n, ipID, seqNo, t + 6);
    SegmentBytes(p, h, off, n, ipID, seqNo, t + 7);
    SegmentBytes(p, h, off, n, ipID, seqNo, t + 13);
  }

  // ----- Checksums of a segment -----

  lemma FoldCong(x: nat)
    ensures CsumFold(Sum32(x)) <= ONES && Cong(ONES - CsumFold(Sum32(x)), x)
    ensures x == 0 ==> CsumFold(Sum32(x)) == ONES
  {
    if x == 0 { assert Sum32(0) == 0 && SUM32(0) == 0; }
    TwoFolds(Sum32(x));
    Sum32Cong(x);
    hide Cong, SUM32, Sum32;
    CongTrans(ONES - CsumFold(Sum32(x)), Sum32(x), x);
  }

  /** Filling in the complement of a header's sum makes the header verify. */
  lemma ComplementVerifies(header: seq<uint8>, o: nat)
    requires o + 2 <= |header| && o % 2 == 0 && header[o..o + 2] == [0, 0]
    ensures Verifies(0, Put(header, o, Host16Bytes(IpFastCsum(header))))
  {
    hide Cong, WordSum, Put, CsumFold, Sum32, Host16Bytes;
    var c: int, w: int := IpFastCsum(header), WordSum(header);
    FoldCong(WordSum(header));
    PutSum(header, o, Host16Bytes(IpFastCsum(header)));
    HostWord(IpFastCsum(header));
    ZeroWord();
    CongRefl(c);
    CongAdd(ONES - c, w, c, c);
    CongFlip(ONES, w + c);
    CongMultiple(0, 1);
    CongTrans(w + c, ONES, 0);
  }

  /** The IP header of a segment verifies. */
  lemma IpHeaderVerifies(p: seq<uint8>, h: Layers, off: nat, n: nat, ipID: uint16, seqNo: uint32)
    requires HasHeaders(p, h) && h.All() <= off && off + n <= |p|
    ensures Verifies(0, Segment(p, h, off, n, ipID, seqNo)[h.mac..h.mac + h.ip])
  {
    hide Verifies, Put, IpFastCsum, PseudoCheck, TcpFlags;
    var s := WithLength(p, h, off, n, ipID);
    var header := s[h.mac..h.mac + h.ip];
    assert header[10] == s[h.mac + 10] == 0 && header[11] == s[h.mac + 11] == 0;
    ComplementVerifies(header, 10);
    assert Segment(p, h, off, n, ipID, seqNo)[h.mac..h.mac + h.ip] == Put(header, 10, Host16Bytes(IpFastCsum(header)));
  }

  /** The TCP checksum field of a segment holds the sum of its pseudo-header, as completing the
      checksum later needs. */
  lemma PseudoHeaderFilled(p: seq<uint8>, h: Layers, off: nat, n: nat, ipID: uint16, seqNo: uint32)
    requires HasHeaders(p, h) && h.All() <= off && off + n <= |p|
    ensures var s, t := Segment(p, h, off, n, ipID, seqNo), h.mac + h.ip;
      Cong(WordSum(s[t + 16..t + 18]), PseudoSum(s[h.mac + 12..h.mac + 20], n + h.tcp))
  {
    hide Cong, Put, IpFastCsum, TcpFlags, WordSum, PseudoSum, CsumFold, Sum32, WithTcp, Host16Bytes;
    var s, t := Segment(p, h, off, n, ipID, seqNo), h.mac + h.ip;
    var addrs := s[h.mac + 12..h.mac + 20];
    assert addrs == WithTcp(p, h, off, n, ipID, seqNo)[h.mac + 12..h.mac + 20];
    FoldCong(PseudoSum(addrs, n + h.tcp));
    var x := PseudoCheck(addrs, n + h.tcp);
    HostWord(x);
    assert s[t + 16..t + 18] == Host16Bytes(x);
  }

  // ----- All segments -----

  function Wrap16(x: nat): uint16 {
    x % 0x1_0000
  }

  function WrapSeq(x: nat): uint32 {
    x % 0x1_0000_0000
  }

  lemma Drop16(x: int, q: int)
    ensures (x + 0x1_0000 * q) % 0x1_0000 == x % 0x1_0000
  {}

  lemma Drop32(x: int, q: int)
    ensures (x + 0x1_0000_0000 * q) % 0x1_0000_0000 == x % 0x1_0000_0000
  {}

  lemma WrapTwice(a: nat, b: nat)
    ensures Wrap16(Wrap16(a) + b) == Wrap16(a + b) && WrapSeq(WrapSeq(a) + b) == WrapSeq(a + b)
  {
    Drop16(a % 0x1_0000 + b, a / 0x1_0000);
    Drop32(a % 0x1_0000_0000 + b, a / 0x1_0000_0000);
  }

  lemma WrapSame(x: uint16, y: uint32)
    ensures Wrap16(x) == x && WrapSeq(y) == y
  {}

  /** The segments for the payload from off on. */
  function Split(p: seq<uint8>, h: Layers, mss: nat, off: nat, ipID: uint16, seqNo: uint32): (r: seq<seq<uint8>>)
    requires HasHeaders(p, h) && h.All() <= off <= |p| && mss > 0
    decreases |p| - off
  {
    if off == |p| then []
    else
      var n := if |p| - off < mss then |p| - off else mss;
      [Segment(p, h, off, n, ipID, seqNo)] + Split(p, h, mss, off + n, Wrap16(ipID + 1), WrapSeq(seqNo + n))
  }

  /** The payloads joined in order. */
  function Payloads(segs: seq<seq<uint8>>, all: nat): seq<uint8> {
    if segs == [] then []
    else (if |segs[0]| < all then [] else segs[0][all..]) + Payloads(segs[1..], all)
  }

  /** Segmentation is undone by joining the payloads. */
  lemma {:induction false} PayloadsJoin(p: seq<uint8>, h: Layers, mss: nat, off: nat, ipID: uint16, seqNo: uint32)
    requires HasHeaders(p, h) && h.All() <= off <= |p| && mss > 0
    ensures Payloads(Split(p, h, mss, off, ipID, seqNo), h.All()) == p[off..]
    decreases |p| - off
  {
    hide Segment, Wrap16, WrapSeq;
    if off < |p| {
      var n := if |p| - off < mss then |p| - off else mss;
      var s := Segment(p, h, off, n, ipID, seqNo);
      forall i | h.All() <= i < h.All() + n ensures s[i] == p[off + (i - h.All())] {
        SegmentFrame(p, h, off, n, ipID, seqNo, i);
      }
      assert s[h.All()..] == p[off..off + n];
      PayloadsJoin(p, h, mss, off + n, Wrap16(ipID + 1), WrapSeq(seqNo + n));
      assert p[off..] == p[off..off + n] + p[off + n..];
    }
  }

  /** What the k-th segment is: where its payload starts, how long it is, and how its id and
      sequence number follow from those of the first. */
  lemma {:induction false} SegmentAt(p: seq<uint8>, h: Layers, mss: nat, off: nat, ipID: uint16, seqNo: uint32, k: nat)
    returns (at: nat, n: nat)
    requires HasHeaders(p, h) && h.All() <= off <= |p| && mss > 0
    requires k < |Split(p, h, mss, off, ipID, seqNo)|
    ensures off <= at == off + k * mss && at + n <= |p| && 0 < n <= mss
    ensures Split(p, h, mss, off, ipID, seqNo)[k] == Segment(p, h, at, n, Wrap16(ipID + k), WrapSeq(seqNo + (at - off)))
    ensures k + 1 < |Split(p, h, mss, off, ipID, seqNo)| <==> at + n < |p|
    ensures at + n < |p| ==> n == mss
    decreases k
  {
    hide Segment, Wrap16, WrapSeq;
    var n0 := if |p| - off < mss then |p| - off else mss;
    if k == 0 {
      WrapSame(ipID, seqNo);
      at, n := off, n0;
    } else {
      at, n := SegmentAt(p, h, mss, off + n0, Wrap16(ipID + 1), WrapSeq(seqNo + n0), k - 1);
      assert (k - 1) * mss + mss == k * mss;
      WrapTwice(ipID + 1, k - 1);
      WrapTwice(seqNo + n0, at - off - n0);
    }
  }

  /** Ids are consecutive, sequence numbers contiguous, total lengths right, and FIN and PSH stay
      on the last segment only. */
  lemma SegmentsFollow(p: seq<uint8>, h: Layers, mss: nat, ipID: uint16, seqNo: uint32, k: nat) returns (at: nat)
    requires HasHeaders(p, h) && mss > 0
    requires k < |Split(p, h, mss, h.All(), ipID, seqNo)|
    ensures h.All() <= at == h.All() + k * mss
    ensures var segs, t := Split(p, h, mss, h.All(), ipID, seqNo), h.mac + h.ip;
      var s := segs[k];
      && h.All() < |s| <= h.All() + mss
      && Net16(s, h.mac + 2) == Wrap16(|s| - h.mac)
      && Net16(s, h.mac + 4) == Wrap16(ipID + k)
      && Net32(s, t + 4) == WrapSeq(seqNo + (at - h.All()))
      && if k + 1 < |segs| then |s| == h.All() + mss && s[t + 13] % 2 == 0 && s[t + 13] / 8 % 2 == 0
         else s[t + 13] == p[t + 13]
  {
    hide Segment, Split, Net16, Net32;
    var n;
    at, n := SegmentAt(p, h, mss, h.All(), ipID, seqNo, k);
    SegmentFields(p, h, at, n, Wrap16(ipID + k), WrapSeq(seqNo + (at - h.All())));
  }

  // ----- The segmentation loop -----

  method NewSegment(p: seq<uint8>, h: Layers, off: nat, n: nat, bytesLeft: nat, ipID: uint16, seqNo: uint32)
    returns (newSkb: array<uint8>)
    requires HasHeaders(p, h) && h.All() <= off && off + n + bytesLeft == |p|
    ensures fresh(newSkb) && newSkb[..] == Segment(p, h, off, n, ipID, seqNo)
  {
    hide IpFastCsum, PseudoCheck, TcpFlags, Net32Bytes, Net16Bytes, Host16Bytes, Put;
    var all, t := h.All(), h.mac + h.ip;
    newSkb := new uint8[all + n](i requires 0 <= i < all + n => if i < all then p[i] else p[off + (i - all)]);
    assert newSkb[..] == p[..all] + p[off..off + n];
    Store(newSkb, h.mac + 2, Net16Bytes((n + h.tcp + h.ip) % 0x1_0000));
    Store(newSkb, h.mac + 4, Net16Bytes(ipID));
    Store(newSkb, h.mac + 10, [0, 0]);
    assert newSkb[..] == WithLength(p, h, off, n, ipID);
    FixHeaders(p, h, off, n, bytesLeft, ipID, seqNo, newSkb);
  }

  method FixHeaders(p: seq<uint8>, h: Layers, off: nat, n: nat, bytesLeft: nat, ipID: uint16, seqNo: uint32,
                    newSkb: array<uint8>)
    requires HasHeaders(p, h) && h.All() <= off && off + n + bytesLeft == |p|
    requires newSkb[..] == WithLength(p, h, off, n, ipID)
    modifies newSkb
    ensures newSkb[..] == Segment(p, h, off, n, ipID, seqNo)
  {
    hide IpFastCsum, PseudoCheck, TcpFlags, Net32Bytes, Net16Bytes, Host16Bytes, Put, WithLength;
    var t := h.mac + h.ip;
    assert newSkb[h.mac..h.mac + h.ip] == newSkb[..][h.mac..h.mac + h.ip];
    Store(newSkb, h.mac + 10, Host16Bytes(IpFastCsum(newSkb[h.mac..h.mac + h.ip])));
    assert newSkb[..] == WithIp(p, h, off, n, ipID);
    Store(newSkb, t + 4, Net32Bytes(seqNo));
    Store(newSkb, t + 13, [TcpFlags(newSkb[t + 13], bytesLeft == 0)]);
    assert newSkb[..] == WithTcp(p, h, off, n, ipID, seqNo);
    assert newSkb[h.mac + 12..h.mac + 20] == newSkb[..][h.mac + 12..h.mac + 20];
    Store(newSkb, t + 16, Host16Bytes(PseudoCheck(newSkb[h.mac + 12..h.mac + 20], n + h.tcp)));
  }

  method Store(buf: array<uint8>, o: nat, b: seq<uint8>)
    requires o + |b| <= buf.Length
    modifies buf
    ensures buf[..] == Put(old(buf[..]), o, b)
  {
    for i := 0 to |b|
      invariant forall k :: 0 <= k < buf.Length ==> buf[k] == if o <= k < o + i then b[k - o] else old(buf[k])
    {
      buf[o + i] := b[i];
    }
  }

  /** Only TCP over IPv4 is segmented; allocs is how many buffers the system will grant. */
  method GSOSegment(p: seq<uint8>, macHdrLen: nat, mss: nat, allocs: nat) returns (errno: int, segs: seq<seq<uint8>>)
    requires mss > 0 && |p| >= 14
    requires Net16(p, 12) == ETH_P_IP ==> macHdrLen + 20 <= |p|
    requires Net16(p, 12) == ETH_P_IP && p[macHdrLen + 9] == IPPROTO_TCP ==>
      macHdrLen + 4 * (p[macHdrLen] % 0x10) + 20 <= |p| && HasHeaders(p, LayersOf(p, macHdrLen))
    ensures errno == -EPFNOSUPPORT <==> Net16(p, 12) != ETH_P_IP
    ensures errno == -EPROTONOSUPPORT <==> Net16(p, 12) == ETH_P_IP && p[macHdrLen + 9] != IPPROTO_TCP
    ensures errno in {0, -EPFNOSUPPORT, -EPROTONOSUPPORT, -ENOMEM}
    ensures errno == 0 || errno == -ENOMEM ==>
      var h := LayersOf(p, macHdrLen);
      var all := Split(p, h, mss, h.All(), Net16(p, macHdrLen + 4), Net32(p, macHdrLen + h.ip + 4));
      if |all| <= allocs then errno == 0 && segs == all else errno == -ENOMEM
    ensures errno != 0 ==> segs == []
  {
    hide Split, Segment, Net16, Net32;
    segs := [];
    if Net16(p, 12) != ETH_P_IP {
      return -EPFNOSUPPORT, [];
    }
    if p[macHdrLen + 9] != IPPROTO_TCP {
      return -EPROTONOSUPPORT, [];
    }
    var h := LayersOf(p, macHdrLen);
    var ipID, seqNo := Net16(p, macHdrLen + 4), Net32(p, macHdrLen + h.ip + 4);
    errno, segs := SegmentLoop(p, h, mss, ipID, seqNo, allocs);
  }

  method SegmentLoop(p: seq<uint8>, h: Layers, mss: nat, ipID0: uint16, seqNo0: uint32, allocs: nat)
    returns (errno: int, segs: seq<seq<uint8>>)
    requires mss > 0 && HasHeaders(p, h)
    ensures var all := Split(p, h, mss, h.All(), ipID0, seqNo0);
      if |all| <= allocs then errno == 0 && segs == all else errno == -ENOMEM && segs == []
  {
    hide Segment;
    segs := [];
    var bytesLeft, curByteOffset := |p| - h.All(), h.All();
    var ipID, seqNo := ipID0, seqNo0;
    ghost var all := Split(p, h, mss, h.All(), ipID0, seqNo0);
    while bytesLeft != 0
      invariant bytesLeft == |p| - curByteOffset && h.All() <= curByteOffset <= |p|
      invariant segs + Split(p, h, mss, curByteOffset, ipID, seqNo) == all && |segs| <= allocs
      decreases bytesLeft
    {
      var payloadSize := if bytesLeft < mss then bytesLeft else mss;
      if |segs| == allocs {
        return -ENOMEM, [];
      }
      var newSkb := NewSegment(p, h, curByteOffset, payloadSize, bytesLeft - payloadSize, ipID, seqNo);
      segs := segs + [newSkb[..]];
      curByteOffset := curByteOffset + payloadSize;
      bytesLeft := bytesLeft - payloadSize;
      ipID := Wrap16((ipID as nat) + 1);
      seqNo := WrapSeq((seqNo as nat) + payloadSize);
    }
    errno := 0;
  }
}
