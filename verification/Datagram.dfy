/** Copying a datagram out of a socket buffer while summing it. */
module Datagram {
  import opened Words
  import opened Checksum

  const EINVAL: int := 22
  const EFAULT: int := 14

  /** A socket buffer: its linear head, its page fragments, and the buffers on its fragment list.
      len is the number of bytes in all of them. */
  datatype Skb = Skb(head: seq<uint8>, frags: seq<seq<uint8>>, fragList: seq<Skb>, len: nat)

  function Joined(pieces: seq<seq<uint8>>): seq<uint8> {
    if pieces == [] then [] else Joined(pieces[..|pieces| - 1]) + pieces[|pieces| - 1]
  }

  function Bytes(skb: Skb): seq<uint8>
    decreases skb
  {
    skb.head + Joined(skb.frags) + BytesUpTo(skb, |skb.fragList|)
  }

  function BytesUpTo(skb: Skb, n: nat): seq<uint8>
    requires n <= |skb.fragList|
    decreases skb, n
  {
    if n == 0 then [] else BytesUpTo(skb, n - 1) + Bytes(skb.fragList[n - 1])
  }

  /** The lengths recorded in the buffers are right. */
  predicate LengthsOK(skb: Skb)
    decreases skb
  {
    skb.len == |Bytes(skb)| && forall i :: 0 <= i < |skb.fragList| ==> LengthsOK(skb.fragList[i])
  }

  // ----- The kernel's checksum helpers -----

  /** A 32-bit one's-complement sum with end-around carry. */
  function Sum32(x: nat): uint32 {
    if x == 0 then 0 else 1 + (x - 1) % 0xFFFF_FFFF
  }

  function CsumAdd(a: uint32, b: uint32): (r: uint32) {
    Sum32(a + b)
  }

  function RotateByte(x: uint32): uint32 {
    x / 0x100 + 0x100_0000 * (x % 0x100)
  }

  /** Adds the sum of a block that starts at offset. */
  function CsumBlockAdd(csum: uint32, block: uint32, offset: nat): uint32 {
    CsumAdd(csum, if offset % 2 == 1 then RotateByte(block) else block)
  }

  function CsumFold(csum: uint32): (r: uint16) {
    (ONES - SUM32(SUM32(csum))) % 0x1_0000
  }

  lemma Sum32Cong(x: nat)
    ensures Cong(Sum32(x), x)
  {
    if x > 0 {
      var q := (x - 1) / 0xFFFF_FFFF;
      assert x == Sum32(x) + 0xFFFF_FFFF * q;
      assert 0xFFFF_FFFF * q == ONES * (0x1_0001 * q);
      CongMultiple(Sum32(x), 0x1_0001 * q);
    }
  }

  lemma RotateCong(x: uint32)
    ensures Cong(RotateByte(x), 0x100 * x)
  {
    var hi, lo := x / 0x100, x % 0x100;
    assert RotateByte(x) == 0x100 * x + ONES * (0x100 * lo - hi);
    CongMultiple(0x100 * x, 0x100 * lo - hi);
  }

  /** The sum of what was copied so far and of one more block. */
  lemma BlockAdded(csum: uint32, s: seq<uint8>, block: uint32, t: seq<uint8>)
    requires Cong(csum, WordSum(s)) && Cong(block, WordSum(t))
    ensures Cong(CsumBlockAdd(csum, block, |s|), WordSum(s + t))
  {
    hide Cong, Sum32, RotateByte, WordSum;
    var b := if |s| % 2 == 1 then RotateByte(block) else block;
    if |s| % 2 == 1 {
      RotateCong(block);
      CongMul(block, WordSum(t), 0x100);
      CongTrans(b, 0x100 * block, 0x100 * WordSum(t));
    }
    assert Cong(b, SumFrom(|s|, t));
    Sum32Cong(csum + b);
    CongAdd(csum, WordSum(s), b, SumFrom(|s|, t));
    SumOfConcat(s, t);
    CongFlip(WordSum(s + t), WordSum(s) + SumFrom(|s|, t));
    CongTrans(CsumBlockAdd(csum, block, |s|), csum + b, WordSum(s) + SumFrom(|s|, t));
    CongTrans(CsumBlockAdd(csum, block, |s|), WordSum(s) + SumFrom(|s|, t), WordSum(s + t));
  }

  lemma FoldIsComplement(csum: uint32, s: seq<uint8>)
    requires Cong(csum, WordSum(s))
    ensures CsumFold(csum) <= ONES && Cong(ONES - CsumFold(csum), WordSum(s))
  {
    hide Cong, SUM32;
    TwoFolds(csum);
    CongTrans(ONES - CsumFold(csum), csum, WordSum(s));
  }

  // ----- Copying -----

  /** buf holds b at offset o, and is otherwise as before. */
  predicate Written(before: seq<uint8>, after: seq<uint8>, o: nat, b: seq<uint8>) {
    o + |b| <= |before| && after == Put(before, o, b)
  }

  /** Copies one piece and sums it; fails if the user's buffer ends before. */
  method CsumAndCopyToUser(s: seq<uint8>, buf: array<uint8>, at: nat) returns (csum: uint32, err: bool)
    modifies buf
    ensures err <==> at + |s| > buf.Length
    ensures !err ==> Written(old(buf[..]), buf[..], at, s) && Cong(csum, WordSum(s))
    ensures err ==> buf[..] == old(buf[..])
  {
    csum := Sum32(WordSum(s));
    Sum32Cong(WordSum(s));
    err := at + |s| > buf.Length;
    if err {
      return;
    }
    for i := 0 to |s|
      invariant forall k :: 0 <= k < buf.Length ==> buf[k] == if at <= k < at + i then s[k - at] else old(buf[k])
    {
      buf[at + i] := s[i];
    }
    assert buf[..] == Put(old(buf[..]), at, s);
  }

  lemma WrittenThen(a: seq<uint8>, b: seq<uint8>, c: seq<uint8>, o: nat, s: seq<uint8>, t: seq<uint8>)
    requires Written(a, b, o, s) && Written(b, c, o + |s|, t)
    ensures Written(a, c, o, s + t)
  {
    assert c == Put(a, o, s + t);
  }

  /** What a run of copying has done so far: s is in the buffer, and csum is its sum. */
  ghost predicate Copied(before: seq<uint8>, now: seq<uint8>, at: nat, s: seq<uint8>, csum: uint32) {
    var whole := Written(before, now, at, s) && Cong(csum, WordSum(s));
    whole
  }

  lemma CopiedMore(before: seq<uint8>, now: seq<uint8>, then': seq<uint8>, at: nat, s: seq<uint8>, csum: uint32,
                   t: seq<uint8>, block: uint32)
    requires Copied(before, now, at, s, csum)
    requires Written(now, then', at + |s|, t) && Cong(block, WordSum(t))
    ensures Copied(before, then', at, s + t, CsumBlockAdd(csum, block, |s|))
  {
    hide Written, Cong, WordSum, CsumBlockAdd;
    WrittenThen(before, now, then', at, s, t);
    BlockAdded(csum, s, block, t);
  }

  /** Copies the buffer from offset on to buf, and returns the folded checksum of what was copied:
      the complement of its sum. */
  method CsumCopyDatagram(skb: Skb, offset: nat, buf: array<uint8>, at: nat) returns (r: int)
    requires LengthsOK(skb)
    modifies buf
    ensures r == -EINVAL <==> offset > |skb.head|
    ensures r == -EINVAL ==> buf[..] == old(buf[..])
    ensures r == -EFAULT <==> offset <= |skb.head| && at + |Bytes(skb)| - offset > buf.Length
    ensures r < 0 ==> r == -EINVAL || r == -EFAULT
    ensures r >= 0 ==>
      && r <= ONES && offset <= |Bytes(skb)| && Written(old(buf[..]), buf[..], at, Bytes(skb)[offset..])
      && Cong(ONES - r, WordSum(Bytes(skb)[offset..]))
    decreases skb
  {
    hide Cong, WordSum, Written, CsumBlockAdd, CsumFold, Put;
    if |skb.head| < offset {
      return -EINVAL;
    }
    ghost var before := buf[..];
    var csum, err := CsumAndCopyToUser(skb.head[offset..], buf, at);
    if err {
      return -EFAULT;
    }
    ghost var linear := skb.head[offset..] + Joined(skb.frags);
    var curr;
    csum, curr, err := CopyFrags(skb, offset, buf, at, csum, before);
    if err {
      return -EFAULT;
    }
    ghost var done := linear;
    var i := 0;
    while i < |skb.fragList|
      invariant i <= |skb.fragList|
      invariant done == linear + BytesUpTo(skb, i) && curr == at + |done|
      invariant Copied(before, buf[..], at, done, csum)
    {
      ghost var now := buf[..];
      var next := skb.fragList[i];
      var tmpCsum := CsumCopyDatagram(next, 0, buf, curr);
      assert Bytes(next)[0..] == Bytes(next);
      if tmpCsum < 0 {
        ListPrefix(skb, i + 1, |skb.fragList|);
        return tmpCsum;
      }
      CopiedMore(before, now, buf[..], at, done, csum, Bytes(next), ONES - tmpCsum);
      csum := CsumBlockAdd(csum, ONES - tmpCsum, curr - at);
      curr := curr + next.len;
      done := done + Bytes(next);
      i := i + 1;
    }
    assert done == Bytes(skb)[offset..];
    FoldIsComplement(csum, done);
    CopiedFits(before, buf[..], at, done, csum);
    return CsumFold(csum);
  }

  lemma CopiedFits(before: seq<uint8>, now: seq<uint8>, at: nat, s: seq<uint8>, csum: uint32)
    requires Copied(before, now, at, s, csum)
    ensures at + |s| <= |before| && |now| == |before| && Written(before, now, at, s) && Cong(csum, WordSum(s))
  {}

  /** The loop over the page fragments, after the head has been copied. */
  method CopyFrags(skb: Skb, offset: nat, buf: array<uint8>, at: nat, csum0: uint32, ghost before: seq<uint8>)
    returns (csum: uint32, curr: nat, err: bool)
    requires offset <= |skb.head| && |before| == buf.Length && Copied(before, buf[..], at, skb.head[offset..], csum0)
    modifies buf
    ensures err <==> at + |skb.head| - offset + |Joined(skb.frags)| > buf.Length
    ensures !err ==> Copied(before, buf[..], at, skb.head[offset..] + Joined(skb.frags), csum)
    ensures !err ==> curr == at + |skb.head| - offset + |Joined(skb.frags)|
  {
    hide Cong, WordSum, Written, CsumBlockAdd, Put, Copied;
    csum, err := csum0, false;
    ghost var done := skb.head[offset..];
    CopiedFits(before, buf[..], at, done, csum);
    curr := at + |skb.head| - offset;
    var i := 0;
    while i < |skb.frags|
      invariant i <= |skb.frags|
      invariant done == skb.head[offset..] + Joined(skb.frags[..i]) && curr == at + |done|
      invariant Copied(before, buf[..], at, done, csum) && curr <= buf.Length
    {
      var frag := skb.frags[i];
      assert skb.frags[..i + 1][..i] == skb.frags[..i];
      if |frag| > 0 {
        ghost var now := buf[..];
        var tmpCsum;
        tmpCsum, err := CsumAndCopyToUser(frag, buf, curr);
        if err {
          JoinedPrefix(skb.frags, i + 1);
          return;
        }
        CopiedMore(before, now, buf[..], at, done, csum, frag, tmpCsum);
        csum := CsumBlockAdd(csum, tmpCsum, curr - at);
        curr := curr + |frag|;
        done := done + frag;
        CopiedFits(before, buf[..], at, done, csum);
      }
      i := i + 1;
    }
    assert skb.frags[..i] == skb.frags;
  }

  lemma {:induction false} JoinedPrefix(pieces: seq<seq<uint8>>, n: nat)
    requires n <= |pieces|
    ensures |Joined(pieces[..n])| <= |Joined(pieces)|
    decreases |pieces|
  {
    if n == |pieces| {
      assert pieces[..n] == pieces;
    } else {
      JoinedPrefix(pieces[..|pieces| - 1], n);
      assert pieces[..|pieces| - 1][..n] == pieces[..n];
    }
  }

  lemma {:induction false} ListPrefix(skb: Skb, n: nat, m: nat)
    requires n <= m <= |skb.fragList|
    ensures |BytesUpTo(skb, n)| <= |BytesUpTo(skb, m)|
    decreases m
  {
    if n < m { ListPrefix(skb, n, m - 1); }
  }

  // ----- A complete datagram -----

  /** The kernel's plain copy of the first len bytes. */
  method CopyDatagram(skb: Skb, buf: array<uint8>, len: nat) returns (err: bool)
    modifies buf
    ensures err <==> len > |Bytes(skb)| || len > buf.Length
    ensures buf[..] == if err then old(buf[..]) else Put(old(buf[..]), 0, Bytes(skb)[..len])
  {
    err := len > |Bytes(skb)| || len > buf.Length;
    if !err {
      var _, _ := CsumAndCopyToUser(Bytes(skb)[..len], buf, 0);
    }
  }

  function Host16Bytes(x: uint16): (b: seq<uint8>)
    ensures |b| == 2
  {
    [x % 0x100, x / 0x100]
  }

  lemma HostWord(x: uint16)
    ensures WordSum(Host16Bytes(x)) == x
  {
    assert Host16Bytes(x)[2..] == [];
  }

  /** Bytes b of a datagram with c in the checksum field of the segment that starts at start; c
      is the complement of the segment's sum. */
  ghost predicate Filled(b: seq<uint8>, start: nat, offset: nat, c: uint16, result: seq<uint8>) {
    && start + offset + 2 <= |b|
    && result == Put(b, start + offset, Host16Bytes(c))
    && Cong(ONES - c, WordSum(b[start..]))
  }

  /** An outgoing datagram whose checksum was left to the device is completed while it is copied,
      unless it is truncated. */
  method CopyDatagramToUser(skb: Skb, outgoing: bool, partial: bool, networkHeaderLen: nat,
                            csumStart: nat, csumOffset: nat, buf: array<uint8>, count: nat)
    returns (r: int)
    requires LengthsOK(skb) && (partial ==> csumStart + csumOffset + 2 <= skb.len)
    modifies buf
    ensures var n := if count > skb.len then skb.len else count;
      && (r >= 0 ==> r == n <= buf.Length)
      && (r < 0 ==> n > buf.Length || (outgoing && partial && networkHeaderLen > 0 && csumStart > |skb.head|))
      && (r >= 0 ==> buf[n..] == old(buf[n..]))
      && (r >= 0 ==>
            if outgoing && partial && networkHeaderLen > 0 && skb.len <= count then
              exists c :: Filled(Bytes(skb), csumStart, csumOffset, c, buf[..n])
            else buf[..n] == Bytes(skb)[..n])
  {
    var n := if count > skb.len then skb.len else count;
    if outgoing && partial && networkHeaderLen > 0 && skb.len == n {
      r := CopyAndComplete(skb, csumStart, csumOffset, buf);
    } else {
      var err := CopyDatagram(skb, buf, n);
      r := if err then -EFAULT else n;
    }
  }

  method CopyAndComplete(skb: Skb, csumStart: nat, csumOffset: nat, buf: array<uint8>) returns (r: int)
    requires LengthsOK(skb) && csumStart + csumOffset + 2 <= skb.len
    modifies buf
    ensures r >= 0 ==> r == skb.len <= buf.Length && buf[r..] == old(buf[r..])
    ensures r < 0 ==> skb.len > buf.Length || csumStart > |skb.head|
    ensures r >= 0 ==> exists c :: Filled(Bytes(skb), csumStart, csumOffset, c, buf[..skb.len])
  {
    hide Cong, WordSum, Put, Written, Bytes;
    ghost var b, before := Bytes(skb), buf[..];
    var err := CopyDatagram(skb, buf, csumStart);
    if err {
      return -EFAULT;
    }
    var csum := CsumCopyDatagram(skb, csumStart, buf, csumStart);
    if csum < 0 {
      return csum;
    }
    ghost var whole := buf[..];
    Spliced(before, Put(before, 0, b[..csumStart]), whole, b, csumStart);
    var _, err2 := CsumAndCopyToUser(Host16Bytes(csum), buf, csumStart + csumOffset);
    if err2 {
      return -EFAULT;
    }
    FieldWritten(whole, buf[..], b, csumStart + csumOffset, Host16Bytes(csum));
    assert Filled(b, csumStart, csumOffset, csum, buf[..skb.len]);
    return skb.len;
  }

  /** The first bytes, and then the rest, make up the whole. */
  lemma Spliced(before: seq<uint8>, mid: seq<uint8>, after: seq<uint8>, b: seq<uint8>, start: nat)
    requires start <= |b| && start <= |before|
    requires mid == Put(before, 0, b[..start]) && Written(mid, after, start, b[start..])
    ensures |b| <= |before| == |after| && after[..|b|] == b && after[|b|..] == before[|b|..]
  {}

  lemma FieldWritten(before: seq<uint8>, after: seq<uint8>, b: seq<uint8>, o: nat, w: seq<uint8>)
    requires |b| <= |before| && before[..|b|] == b && o + |w| <= |b| && Written(before, after, o, w)
    ensures |after| == |before| && after[..|b|] == Put(b, o, w) && after[|b|..] == before[|b|..]
  {}

  /** The completed segment verifies under a pseudo-header exactly if the checksum field held the
      pseudo-header's sum. */
  lemma FilledVerifies(b: seq<uint8>, start: nat, offset: nat, c: uint16, result: seq<uint8>, pseudo: nat)
    requires Filled(b, start, offset, c, result) && offset % 2 == 0 && pseudo > 0
    ensures Verifies(pseudo, result[start..]) <==> Cong(WordSum(b[start + offset..start + offset + 2]), pseudo)
  {
    hide Cong, WordSum, Put;
    var s, f := b[start..], Host16Bytes(c);
    assert result[start..] == Put(s, offset, f);
    assert s[offset..offset + 2] == b[start + offset..start + offset + 2];
    PutSum(s, offset, f);
    HostWord(c);
    var w: int, v: int, x: int := WordSum(s), WordSum(s[offset..offset + 2]), c;
    assert WordSum(result[start..]) == w - v + x;
    FieldCong(w, v, x, pseudo);
  }

  lemma FieldCong(w: int, v: int, x: int, pseudo: int)
    requires Cong(ONES - x, w)
    ensures Cong(pseudo + (w - v + x), 0) <==> Cong(v, pseudo)
  {
    hide Cong;
    CongRefl(x - v + pseudo);
    CongAdd(ONES - x, w, x - v + pseudo, x - v + pseudo);
    CongMultiple(pseudo - v, 1);
    CongFlip(pseudo - v + ONES, pseudo - v);
    CongTrans(pseudo - v, ONES - x + (x - v + pseudo), w + (x - v + pseudo));
    CongRefl(v);
    if Cong(pseudo + (w - v + x), 0) {
      CongTrans(pseudo - v, pseudo + (w - v + x), 0);
      CongAdd(pseudo - v, 0, v, v);
      CongFlip(pseudo, v);
    }
    if Cong(v, pseudo) {
      CongRefl(pseudo);
      CongAdd(pseudo, pseudo, v, pseudo);
      CongFlip(pseudo - v, pseudo + (w - v + x));
      CongTrans(pseudo + (w - v + x), pseudo - v, 0);
    }
  }
}
