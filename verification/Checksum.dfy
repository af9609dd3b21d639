/** The Internet checksum (RFC 1071) and its incremental update (RFC 1624). Sums are taken of
    16-bit words in the byte order of the host, low byte first; SwappedSum says why the order
    does not matter. */
module Checksum {
  import opened Words

  /** One's-complement sums are sums modulo this. */
  const ONES: nat := 0xFFFF

  predicate Cong(a: int, b: int) {
    a % ONES == b % ONES
  }

  /** Multiples of ONES do not matter. */
  lemma CongMultiple(a: int, k: int)
    ensures Cong(a + ONES * k, a)
  {}

  lemma CongAdd(a: int, b: int, c: int, d: int)
    requires Cong(a, b) && Cong(c, d)
    ensures Cong(a + c, b + d) && Cong(a - c, b - d)
  {
    var i, j := a / ONES - b / ONES, c / ONES - d / ONES;
    assert a == b + ONES * i && c == d + ONES * j;
    CongMultiple(b + d, i + j);
    CongMultiple(b - d, i - j);
  }

  lemma CongMul(a: int, b: int, k: nat)
    requires Cong(a, b)
    ensures Cong(k * a, k * b)
  {
    if k == 0 {
      assert k * a == 0 && k * b == 0;
    } else {
      CongMul(a, b, k - 1);
      assert k * a == (k - 1) * a + a && k * b == (k - 1) * b + b;
      CongAdd((k - 1) * a, (k - 1) * b, a, b);
    }
  }

  // ----- Sums of bytes -----

  /** The bytes as 16-bit words, an odd last byte padded with zero. */
  function WordSum(s: seq<uint8>): nat {
    if s == [] then 0
    else if |s| == 1 then s[0]
    else s[0] + 0x100 * s[1] + WordSum(s[2..])
  }

  /** What the bytes s add to a sum that already covers n bytes. */
  function SumFrom(n: nat, s: seq<uint8>): nat {
    if n % 2 == 0 then WordSum(s) else 0x100 * WordSum(s)
  }

  lemma CongTrans(a: int, b: int, c: int)
    requires Cong(a, b) && Cong(b, c)
    ensures Cong(a, c)
  {}

  /** Two shifts by a byte come to nothing. */
  lemma CongShift(x: int)
    ensures Cong(0x1_0000 * x, x)
  {
    assert 0x1_0000 * x == x + ONES * x;
  }

  lemma FirstWord(s: seq<uint8>)
    requires |s| >= 2
    ensures WordSum(s) == s[0] + 0x100 * (s[1] as int) + WordSum(s[2..])
  {}

  lemma {:induction false} SumOfConcat(s: seq<uint8>, t: seq<uint8>)
    ensures Cong(WordSum(s + t), WordSum(s) + SumFrom(|s|, t))
    ensures |s| % 2 == 0 ==> WordSum(s + t) == WordSum(s) + WordSum(t)
  {
    if s == [] {
      assert s + t == t;
      CongRefl(WordSum(s + t));
    } else if |s| == 1 {
      AfterOne(s, t);
    } else {
      SumOfConcat(s[2..], t);
      AfterTwo(s, t);
    }
  }

  lemma AfterTwo(s: seq<uint8>, t: seq<uint8>)
    requires |s| >= 2 && Cong(WordSum(s[2..] + t), WordSum(s[2..]) + SumFrom(|s| - 2, t))
    ensures Cong(WordSum(s + t), WordSum(s) + SumFrom(|s|, t))
    ensures WordSum(s[2..] + t) == WordSum(s[2..]) + WordSum(t) ==> WordSum(s + t) == WordSum(s) + WordSum(t)
  {
    hide Cong, WordSum;
    FirstWord(s);
    FirstWord(s + t);
    assert (s + t)[2..] == s[2..] + t;
    var w: int := s[0] + 0x100 * (s[1] as int);
    CongRefl(w);
    CongAdd(WordSum(s[2..] + t), WordSum(s[2..]) + SumFrom(|s| - 2, t), w, w);
    assert SumFrom(|s| - 2, t) == SumFrom(|s|, t);
  }

  lemma AfterOne(s: seq<uint8>, t: seq<uint8>)
    requires |s| == 1
    ensures Cong(WordSum(s + t), WordSum(s) + SumFrom(1, t))
  {
    hide Cong;
    if t == [] {
      assert s + t == s;
      CongRefl(WordSum(s));
    } else {
      assert (s + t)[2..] == t[1..];
      OddStart(t);
      var first: int, b: int := t[0], s[0];
      CongRefl(b);
      CongAdd(0x100 * first + WordSum(t[1..]), 0x100 * WordSum(t), b, b);
    }
  }

  /** Words taken from the second byte on are the words of the whole, shifted by a byte. */
  lemma {:induction false} OddStart(t: seq<uint8>)
    requires t != []
    ensures Cong(0x100 * t[0] + WordSum(t[1..]), 0x100 * WordSum(t))
  {
    hide Cong;
    var a := 0x100 * (t[0] as int);
    CongRefl(a);
    if |t| > 1 {
      var b: int := t[1];
      var rest: int := if |t| == 2 then 0 else 0x100 * t[2] + WordSum(t[3..]);
      if |t| == 2 {
        CongRefl(0);
      } else {
        OddStart(t[2..]);
        assert t[2..][1..] == t[3..];
        assert t[1..][2..] == t[3..];
      }
      assert WordSum(t[1..]) == b + rest;
      CongShift(b);
      CongFlip(0x1_0000 * b, b);
      CongAdd(b, 0x1_0000 * b, rest, 0x100 * WordSum(t[2..]));
      CongAdd(a, a, b + rest, 0x1_0000 * b + 0x100 * WordSum(t[2..]));
    }
  }

  lemma CongRefl(a: int)
    ensures Cong(a, a)
  {}

  lemma CongFlip(a: int, b: int)
    requires Cong(a, b)
    ensures Cong(b, a)
  {}

  /** The same bytes as words with the high byte first. */
  function SwappedSum(s: seq<uint8>): nat {
    if s == [] then 0
    else if |s| == 1 then 0x100 * s[0]
    else 0x100 * s[0] + s[1] + SwappedSum(s[2..])
  }

  lemma {:induction false} SwappedIsShifted(s: seq<uint8>)
    ensures Cong(SwappedSum(s), 0x100 * WordSum(s))
  {
    hide Cong;
    if |s| <= 1 {
      CongRefl(SwappedSum(s));
    } else {
      SwappedIsShifted(s[2..]);
      var a, b := 0x100 * (s[0] as int), s[1] as int;
      CongRefl(a);
      CongShift(b);
      CongFlip(0x1_0000 * b, b);
      CongAdd(a, a, b, 0x1_0000 * b);
      CongAdd(a + b, a + 0x1_0000 * b, SwappedSum(s[2..]), 0x100 * WordSum(s[2..]));
    }
  }

  /** Whether bytes verify does not depend on the order in which words are read. */
  lemma ByteOrder(s: seq<uint8>)
    ensures Cong(WordSum(s), 0) <==> Cong(SwappedSum(s), 0)
  {
    hide Cong;
    var w := WordSum(s);
    SwappedIsShifted(s);
    if Cong(w, 0) {
      CongMul(w, 0, 0x100);
      CongTrans(SwappedSum(s), 0x100 * w, 0);
    }
    if Cong(SwappedSum(s), 0) {
      CongFlip(SwappedSum(s), 0x100 * w);
      CongTrans(0x100 * w, SwappedSum(s), 0);
      CongMul(0x100 * w, 0, 0x100);
      CongShift(w);
      CongFlip(0x1_0000 * w, w);
      CongTrans(w, 0x1_0000 * w, 0);
    }
  }

  /** A message under a pseudo-header that sums to pseudo verifies when the one's-complement sum
      of all its words, checksum included, is 0xFFFF. */
  predicate Verifies(pseudo: nat, s: seq<uint8>) {
    pseudo + WordSum(s) > 0 && Cong(pseudo + WordSum(s), 0)
  }

  // ----- Incremental update -----

  function SUM32(x: nat): nat {
    x % 0x1_0000 + x / 0x1_0000
  }

  function Wrap32(x: int): nat {
    x % 0x1_0000_0000
  }

  /** Two folds always reach 16 bits, so nothing is lost when a sum is truncated. */
  lemma TwoFolds(x: uint32)
    ensures SUM32(SUM32(x)) <= ONES && Cong(SUM32(SUM32(x)), x)
    ensures SUM32(SUM32(x)) == 0 <==> x == 0
  {
    var y := SUM32(x);
    assert y == x - ONES * (x / 0x1_0000) && SUM32(y) == y - ONES * (y / 0x1_0000);
    CongMultiple(x, -(x / 0x1_0000) - (y / 0x1_0000));
  }

  function CalcChecksumDiff(sumBefore: uint32, sumAfter: uint32): nat {
    var before := SUM32(SUM32(sumBefore));
    var after := SUM32(SUM32(sumAfter));
    var after' := if before > after then Wrap32(after - 1) else after;
    SUM32(Wrap32(after' - before))
  }

  /** The difference of two sums, in 17 bits. */
  lemma DiffIsDifference(sumBefore: uint32, sumAfter: uint32)
    ensures CalcChecksumDiff(sumBefore, sumAfter) < 0x2_0000
    ensures Cong(CalcChecksumDiff(sumBefore, sumAfter), sumAfter - sumBefore)
  {
    hide Cong, SUM32, Wrap32;
    var x: int, y: int := SUM32(SUM32(sumBefore)), SUM32(SUM32(sumAfter));
    TwoFolds(sumBefore);
    TwoFolds(sumAfter);
    CongAdd(y, sumAfter, x, sumBefore);
    var diff := CalcChecksumDiff(sumBefore, sumAfter);
    DiffOfFolds(x, y);
    if x > y {
      DropOnes(y - x);
      CongTrans(diff, y - x, sumAfter - sumBefore);
    }
  }

  /** A borrow leaves two more multiples of ONES. */
  lemma DiffOfFolds(x: nat, y: nat)
    requires x <= ONES && y <= ONES
    ensures x > y ==> SUM32(Wrap32(Wrap32(y - 1) - x)) == 2 * ONES + (y - x)
    ensures x <= y ==> SUM32(Wrap32(y - x)) == y - x
  {
    if x > y { assert Wrap32(Wrap32(y - 1) - x) == ONES * 0x1_0000 + (ONES - (x - y)); }
  }

  lemma DropOnes(a: int)
    ensures Cong(2 * ONES + a, a) && Cong(ONES - a, -a)
  {}

  function Ntohs(x: nat): (r: nat)
    ensures x <= ONES ==> r <= ONES
  {
    x / 0x100 + 0x100 * (x % 0x100)
  }

  lemma NtohsTwice(x: nat)
    requires x <= ONES
    ensures Ntohs(Ntohs(x)) == x
  {}

  /** check and the result are numbers read in the order of the network. */
  function UpdateSum(check: uint16, sumDiff: nat): (r: uint16)
    requires sumDiff < 0x2_0000
  {
    if sumDiff == 0 then check
    else Ntohs(ONES - SUM32(SUM32(ONES - Ntohs(check) + sumDiff)) % 0x1_0000)
  }

  lemma FoldedCheck(n: nat, d: nat)
    requires n <= ONES && d < 0x2_0000
    ensures SUM32(SUM32(ONES - n + d)) <= ONES
    ensures Cong(ONES - SUM32(SUM32(ONES - n + d)), n - d)
  {
    hide Cong, SUM32;
    var sum: int := ONES - n + d;
    TwoFolds(sum);
    var folded: int := SUM32(SUM32(sum));
    DropOnes(folded);
    CongRefl(0);
    CongAdd(0, 0, folded, sum);
    CongTrans(ONES - folded, -folded, -sum);
    DropOnes(sum);
    CongFlip(ONES - sum, -sum);
    CongTrans(ONES - folded, -sum, ONES - sum);
    assert ONES - sum == n as int - d as int;
  }

  /** The new check makes up for the difference, as in section 3 of RFC 1624. */
  lemma UpdateMakesUp(check: uint16, sumDiff: nat)
    requires sumDiff < 0x2_0000
    ensures Cong(Ntohs(UpdateSum(check, sumDiff)), Ntohs(check) - sumDiff)
  {
    hide Cong, SUM32, Ntohs;
    CongRefl(Ntohs(check));
    FoldedCheck(Ntohs(check), sumDiff);
    NtohsTwice(ONES - SUM32(SUM32(ONES - Ntohs(check) + sumDiff)));
  }

  // ----- Patching a message and its checksum -----

  /** s with b in place of what is at offset o. */
  function Put(s: seq<uint8>, o: nat, b: seq<uint8>): (r: seq<uint8>)
    requires o + |b| <= |s|
    ensures |r| == |s|
    ensures forall i :: 0 <= i < |s| ==> r[i] == if o <= i < o + |b| then b[i - o] else s[i]
  {
    s[..o] + b + s[o + |b|..]
  }

  lemma PutSum(s: seq<uint8>, o: nat, b: seq<uint8>)
    requires o + |b| <= |s| && o % 2 == 0 && |b| % 2 == 0
    ensures WordSum(Put(s, o, b)) == WordSum(s) - WordSum(s[o..o + |b|]) + WordSum(b)
  {
    var m := s[o..o + |b|];
    assert s == s[..o] + (m + s[o + |b|..]);
    assert Put(s, o, b) == s[..o] + (b + s[o + |b|..]);
    SumOfConcat(s[..o], m + s[o + |b|..]);
    SumOfConcat(m, s[o + |b|..]);
    SumOfConcat(s[..o], b + s[o + |b|..]);
    SumOfConcat(b, s[o + |b|..]);
  }

  /** The two bytes at offset o, as a number in the order of the network. */
  function Net16(s: seq<uint8>, o: nat): uint16
    requires o + 2 <= |s|
  {
    0x100 * (s[o] as int) + s[o + 1]
  }

  function Net16Bytes(x: uint16): (b: seq<uint8>)
    ensures |b| == 2
  {
    [x / 0x100, x % 0x100]
  }

  lemma CheckWord(s: seq<uint8>, o: nat, x: uint16)
    requires o + 2 <= |s|
    ensures WordSum(s[o..o + 2]) == Ntohs(Net16(s, o)) && WordSum(Net16Bytes(x)) == Ntohs(x)
  {
    assert s[o..o + 2] == [s[o], s[o + 1]];
    assert [s[o], s[o + 1]][2..] == [] && Net16Bytes(x)[2..] == [];
  }

  /** A message in which b was put at offset o, and the checksum at offset c replaced by one that
      makes up for the difference, verifies if it did before. */
  lemma Recheck(s: seq<uint8>, pseudo: nat, o: nat, b: seq<uint8>, c: nat, x: uint16)
    requires o + |b| <= |s| && c + 2 <= |s| && o % 2 == 0 && |b| % 2 == 0 && c % 2 == 0
    requires c + 2 <= o || o + |b| <= c
    requires Cong(Ntohs(x), Ntohs(Net16(s, c)) - (WordSum(b) - WordSum(s[o..o + |b|])))
    requires pseudo > 0 && Verifies(pseudo, s)
    ensures Verifies(pseudo, Put(Put(s, o, b), c, Net16Bytes(x)))
  {
    hide Cong, Ntohs, WordSum, Put, Net16, Net16Bytes;
    var t := Put(s, o, b);
    PutSum(s, o, b);
    PutSum(t, c, Net16Bytes(x));
    assert t[c..c + 2] == s[c..c + 2];
    CheckWord(s, c, x);
    var d: int, n: int, w: int := WordSum(b) - WordSum(s[o..o + |b|]), Ntohs(Net16(s, c)), WordSum(s);
    CongRefl(pseudo + w + d - n);
    CongAdd(pseudo + w + d - n, pseudo + w + d - n, Ntohs(x), n - d);
    CongTrans(pseudo + WordSum(Put(t, c, Net16Bytes(x))), pseudo + w, 0);
  }

  /** Two updates in a row make up for the sum of their differences. */
  lemma UpdatesChain(check: uint16, d: nat, e: nat)
    requires d < 0x2_0000 && e < 0x2_0000
    ensures Cong(Ntohs(UpdateSum(UpdateSum(check, d), e)), Ntohs(check) - (d + e))
  {
    hide Cong, Ntohs, UpdateSum;
    UpdateMakesUp(check, d);
    UpdateMakesUp(UpdateSum(check, d), e);
    CongRefl(e);
    CongAdd(Ntohs(UpdateSum(check, d)), Ntohs(check) - d, e, e);
    CongTrans(Ntohs(UpdateSum(UpdateSum(check, d), e)), Ntohs(UpdateSum(check, d)) - e, Ntohs(check) - (d + e));
  }

  lemma ZeroWord()
    ensures WordSum([0, 0]) == 0
  {
    assert [0, 0][2..] == [];
  }

  /** The checksum field of a message that verifies is, modulo ONES, what computing it from
      scratch gives; so updating it incrementally is as good as computing it anew. */
  lemma UpdateIsRecompute(s: seq<uint8>, pseudo: nat, o: nat, b: seq<uint8>, c: nat, diff: nat)
    requires o + |b| <= |s| && c + 2 <= |s| && o % 2 == 0 && |b| % 2 == 0 && c % 2 == 0
    requires c + 2 <= o || o + |b| <= c
    requires pseudo > 0 && Verifies(pseudo, s)
    requires diff < 0x2_0000 && Cong(diff, WordSum(b) - WordSum(s[o..o + |b|]))
    ensures var scratch := Put(Put(s, o, b), c, [0, 0]);
      Cong(Ntohs(UpdateSum(Net16(s, c), diff)), -(pseudo + WordSum(scratch)))
  {
    hide Cong, Ntohs, UpdateSum, WordSum, Put, Net16, Net16Bytes;
    var t := Put(s, o, b);
    PutSum(s, o, b);
    PutSum(t, c, [0, 0]);
    ZeroWord();
    assert t[c..c + 2] == s[c..c + 2];
    CheckWord(s, c, 0);
    UpdateMakesUp(Net16(s, c), diff);
    var d: int, n: int, w: int := WordSum(b) - WordSum(s[o..o + |b|]), Ntohs(Net16(s, c)), WordSum(s);
    CongRefl(n);
    CongAdd(n, n, diff, d);
    CongRefl(n - d);
    CongFlip(pseudo + w, 0);
    CongAdd(n - d, n - d, 0, pseudo + w);
    var r: int := Ntohs(UpdateSum(Net16(s, c), diff));
    CongTrans(r, n - diff, n - d);
    CongTrans(r, n - d, n - d - (pseudo + w));
  }

  /** Stores a number in the order of the network. */
  method StoreNet16(packet: array<uint8>, o: nat, x: uint16)
    requires o + 2 <= packet.Length
    modifies packet
    ensures packet[..] == Put(old(packet[..]), o, Net16Bytes(x))
  {
    packet[o] := x / 0x100;
    packet[o + 1] := x % 0x100;
  }
}
