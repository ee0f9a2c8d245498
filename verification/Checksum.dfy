/** include/utils.hpp: the Internet checksum (sections 1 and 2 of RFC 1071),
    and src/tcp.cpp: the checksum over the pseudo-header (section 3.1 of RFC 793).
    Words are read in the order of a little-endian host. */
module Checksum {
  import opened Common

  type uint32 = x: int | 0 <= x < U32

  /** The 16-bit word that two bytes in memory form. */
  function Word(lo: byte, hi: byte): (r: nat)
    ensures r <= 0xffff
  {
    (lo as int) + 0x100 * (hi as int)
  }

  /** The sum of the 16-bit words of a buffer without any wrap-around; an odd
      last byte counts as the low half of a word. */
  function Sum16(b: seq<byte>): nat {
    if |b| == 0 then 0
    else if |b| == 1 then b[0]
    else Word(b[0], b[1]) + Sum16(b[2..])
  }

  /** 16-bit one's-complement addition: the carry goes back in at the low end. */
  function OnesAdd(a: nat, b: nat): (r: nat)
    requires a <= 0xffff && b <= 0xffff
    ensures r <= 0xffff
  {
    if a + b > 0xffff then a + b - 0xffff else a + b
  }

  /** The definition of RFC 1071: one's-complement addition, word after word. */
  function OnesSum(b: seq<byte>): (r: nat)
    ensures r <= 0xffff
  {
    if |b| == 0 then 0
    else if |b| == 1 then b[0]
    else OnesAdd(Word(b[0], b[1]), OnesSum(b[2..]))
  }

  function Rfc1071(b: seq<byte>): nat {
    0xffff - OnesSum(b)
  }

  /** What end-around carry leaves of an ordinary sum. */
  function Residue(x: nat): (r: nat)
    ensures r <= 0xffff
    ensures r == 0 <==> x == 0
  {
    if x == 0 then 0 else 1 + (x - 1) % 0xffff
  }

  /** The checksum that a 32-bit accumulator starting at `start` gives. */
  function ChecksumValue(b: seq<byte>, start: nat): nat {
    0xffff - Residue((start + Sum16(b)) % U32)
  }

  // ---------------------------------------------------------------- arithmetic

  lemma ResidueMod(x: nat, y: nat)
    requires x > 0 && y > 0
    ensures Residue(x) == Residue(y) <==> x % 0xffff == y % 0xffff
  {}

  lemma {:induction false} ModSplit(q: int, r: int, n: int)
    requires 0 < n
    ensures (n * q + r) % n == r % n
  {
    var t := n * q + r;
    assert t == n * (t / n) + t % n;
    assert r == n * (r / n) + r % n;
    assert t % n - r % n == n * (q + r / n - t / n);
    MultipleBound(n, q + r / n - t / n);
  }

  lemma MultipleBound(n: int, k: int)
    requires 0 < n
    ensures k >= 1 ==> n * k >= n
    ensures k <= -1 ==> n * k <= -n
  {}

  lemma {:induction false} ModAdd(a: int, b: int, n: int)
    requires 0 < n
    ensures (a % n + b) % n == (a + b) % n
  {
    ModSplit(a / n, a % n + b, n);
    assert a + b == n * (a / n) + (a % n + b);
  }

  /** One round of the fold loop keeps the residue. */
  lemma FoldKeepsResidue(x: nat)
    ensures Residue(x % 0x10000 + x / 0x10000) == Residue(x)
  {
    var y := x % 0x10000 + x / 0x10000;
    if x > 0 {
      assert y > 0;
      assert x == 0xffff * (x / 0x10000) + y;
      ModSplit(x / 0x10000, y, 0xffff);
      ResidueMod(x, y);
    }
  }

  lemma ResidueAdd(a: nat, s: nat)
    requires a <= 0xffff
    ensures Residue(a + s) == OnesAdd(a, Residue(s))
  {
    if s > 0 {
      assert s - 1 == 0xffff * ((s - 1) / 0xffff) + (s - 1) % 0xffff;
      ModSplit((s - 1) / 0xffff, a + (s - 1) % 0xffff, 0xffff);
      assert a + s - 1 == 0xffff * ((s - 1) / 0xffff) + (a + (s - 1) % 0xffff);
    }
  }

  // ------------------------------------------------------------------- loops

  /** Adds up the words in a 32-bit accumulator. */
  method SumEvery16Bits(buff: seq<byte>) returns (ans: uint32)
    ensures ans == Sum16(buff) % U32
  {
    ans := 0;
    var temp := 0;
    var count := |buff|;
    while count > 1
      invariant 0 <= temp && 0 <= count && temp + count == |buff|
      invariant (ans + Sum16(buff[temp..])) % U32 == Sum16(buff) % U32
    {
      Sum16Step(buff, temp, ans);
      ans := (ans + Word(buff[temp], buff[temp + 1])) % U32;
      temp := temp + 2;
      count := count - 2;
    }
    if count > 0 {
      assert Sum16(buff[temp..]) == buff[temp];
      ans := (ans + buff[temp]) % U32;
    }
  }

  lemma Sum16Step(buff: seq<byte>, i: nat, acc: nat)
    requires i + 1 < |buff|
    ensures ((acc + Word(buff[i], buff[i + 1])) % U32 + Sum16(buff[i + 2..])) % U32 == (acc + Sum16(buff[i..])) % U32
  {
    assert buff[i..][2..] == buff[i + 2..];
    ModAdd(acc + Word(buff[i], buff[i + 1]), Sum16(buff[i + 2..]), U32);
  }

  /** Folds the carries back until 16 bits are left and complements them. The
      loop ends for every input, with the residue of the accumulator. */
  method Checksum(buff: seq<byte>, startSum: uint32) returns (csum: nat)
    ensures csum == ChecksumValue(buff, startSum)
  {
    var sum := SumEvery16Bits(buff);
    var ans := (startSum + sum) % U32;
    ModAdd(Sum16(buff), startSum, U32);
    ghost var before := ans;
    while ans / 0x10000 != 0
      invariant 0 <= ans
      invariant Residue(ans) == Residue(before)
      decreases ans
    {
      FoldKeepsResidue(ans);
      ans := ans % 0x10000 + ans / 0x10000;
    }
    csum := 0xffff - ans;
  }

  /** src/tcp.cpp tcp_udp_checksum: whole 32-bit addresses, in network order,
      are added into the 32-bit accumulator before the segment is summed. */
  method TcpUdpChecksum(saddr: uint32, daddr: uint32, proto: byte, data: seq<byte>) returns (csum: nat)
    requires |data| < 0x10000
    ensures csum == Rfc1071(PseudoHeader(saddr, daddr, proto, |data|) + data)
       <==> PseudoTotal(saddr, daddr, proto, data) < U32
    ensures csum == 0xffff - Residue(PseudoTotal(saddr, daddr, proto, data) % U32)
  {
    var sum := saddr;
    sum := (sum + daddr) % U32;
    ModAdd(saddr + daddr, Htons(proto), U32);
    sum := (sum + Htons(proto)) % U32;
    ModAdd(saddr + daddr + Htons(proto), Htons(|data|), U32);
    sum := (sum + Htons(|data|)) % U32;
    ModAdd(saddr + daddr + Htons(proto) + Htons(|data|), Sum16(data), U32);
    csum := Checksum(data, sum);
    PseudoHeaderChecksum(saddr, daddr, proto, data);
  }

  // --------------------------------------------------------------- properties

  /** The residue of the ordinary sum is the sum RFC 1071 defines. */
  lemma {:induction false} ResidueIsOnesSum(b: seq<byte>)
    ensures Residue(Sum16(b)) == OnesSum(b)
  {
    if |b| < 2 {
    } else {
      ResidueIsOnesSum(b[2..]);
      ResidueAdd(Word(b[0], b[1]), Sum16(b[2..]));
    }
  }

  lemma {:induction false} Sum16Append(a: seq<byte>, b: seq<byte>)
    requires |a| % 2 == 0
    ensures Sum16(a + b) == Sum16(a) + Sum16(b)
  {
    if |a| == 0 {
      assert a + b == b;
    } else {
      Sum16Append(a[2..], b);
      assert (a + b)[2..] == a[2..] + b;
    }
  }

  lemma {:induction false} Sum16Bound(b: seq<byte>)
    ensures Sum16(b) <= 0xffff * ((|b| + 1) / 2)
  {
    if |b| < 2 {
    } else {
      Sum16Bound(b[2..]);
    }
  }

  /** The routine computes the checksum of RFC 1071 exactly if the carries that its
      accumulator drops do not show. For every buffer of less than 2^32 * 65535 in words
      that is the case exactly if there are none; up to 131072 bytes there are none. */
  lemma {:induction false} ChecksumIsRfc1071(b: seq<byte>)
    ensures ChecksumValue(b, 0) == Rfc1071(b) <==>
            Sum16(b) / U32 % 0xffff == 0 && (Sum16(b) % U32 == 0 ==> Sum16(b) == 0)
    ensures Sum16(b) < 0xffff * U32 ==> (ChecksumValue(b, 0) == Rfc1071(b) <==> Sum16(b) < U32)
    ensures |b| <= 0x20000 ==> Sum16(b) < U32
  {
    Sum16Bound(b);
    ResidueIsOnesSum(b);
    DroppedCarries(Sum16(b));
    if Sum16(b) < 0xffff * U32 {
      FewCarries(Sum16(b));
    }
  }

  lemma FewCarries(total: nat)
    requires total < 0xffff * U32
    ensures total / U32 % 0xffff == 0 && (total % U32 == 0 ==> total == 0) <==> total < U32
  {
    assert total / U32 < 0xffff;
  }

  /** Two passes, the second started from the sum the first leaves, equal one pass. */
  lemma CascadeIsOnePass(a: seq<byte>, b: seq<byte>, start: uint32, first: uint32)
    requires |a| % 2 == 0 && first == (start + Sum16(a)) % U32
    ensures ChecksumValue(b, first) == ChecksumValue(a + b, start)
  {
    TwoPasses(a, b, start, first);
    SameSum(b, first, a + b, start);
  }

  lemma SameSum(b: seq<byte>, start: nat, b': seq<byte>, start': nat)
    requires (start + Sum16(b)) % U32 == (start' + Sum16(b')) % U32
    ensures ChecksumValue(b, start) == ChecksumValue(b', start')
  {}

  lemma TwoPasses(a: seq<byte>, b: seq<byte>, start: uint32, first: nat)
    requires |a| % 2 == 0 && first == (start + Sum16(a)) % U32
    ensures (first + Sum16(b)) % U32 == (start + Sum16(a + b)) % U32
  {
    Sum16Append(a, b);
    ModAdd(start + Sum16(a), Sum16(b), U32);
    assert (start + Sum16(a)) + Sum16(b) == start + Sum16(a + b);
  }

  function Filled(b: seq<byte>, at: nat, csum: nat): (r: seq<byte>)
    requires at + 1 < |b| && csum <= 0xffff
    ensures |r| == |b|
  {
    b[at := csum % 0x100][at + 1 := csum / 0x100]
  }

  lemma {:induction false} Sum16Filled(b: seq<byte>, at: nat, csum: nat)
    requires at % 2 == 0 && at + 1 < |b| && csum <= 0xffff
    requires b[at] == 0 && b[at + 1] == 0
    ensures Sum16(Filled(b, at, csum)) == Sum16(b) + csum
  {
    if at == 0 {
      assert Filled(b, at, csum)[2..] == b[2..];
    } else {
      Sum16Filled(b[2..], at - 2, csum);
      assert Filled(b, at, csum)[2..] == Filled(b[2..], at - 2, csum);
    }
  }

  /** A sender that fills a zeroed, aligned field with the checksum makes the
      receiver's checksum of the whole buffer 0. No bound on the buffer is needed:
      the field never pushes the 32-bit accumulator over its edge. */
  lemma {:induction false} FilledBufferVerifies(b: seq<byte>, at: nat)
    requires at % 2 == 0 && at + 1 < |b|
    requires b[at] == 0 && b[at + 1] == 0
    ensures ChecksumValue(Filled(b, at, ChecksumValue(b, 0)), 0) == 0
  {
    var csum := ChecksumValue(b, 0);
    Sum16Filled(b, at, csum);
    ComplementCancelsWrapped(Sum16(b));
    assert ChecksumValue(Filled(b, at, csum), 0) == 0xffff - Residue((Sum16(b) + csum) % U32);
  }

  lemma ComplementCancelsWrapped(total: nat)
    ensures Residue((total + (0xffff - Residue(total % U32))) % U32) == 0xffff
  {
    ModAdd(total, 0xffff - Residue(total % U32), U32);
    ComplementCancels(total % U32);
  }

  /** A 32-bit sum and its complement add up to all ones and still fit, because
      the largest 32-bit value is a multiple of 65535. */
  lemma ComplementCancels(s: uint32)
    ensures var csum := 0xffff - Residue(s);
            s + csum < U32 && Residue(s + csum) == 0xffff
  {
    var csum := 0xffff - Residue(s);
    var q := if s > 0 then (s - 1) / 0xffff else 0;
    assert s > 0 ==> s - 1 == 0xffff * ((s - 1) / 0xffff) + (s - 1) % 0xffff;
    assert s + csum - 1 == 0xffff * q + 0xfffe;
    ModSplit(q, 0xfffe, 0xffff);
  }

  // -------------------------------------------------------------- pseudo-header

  function Htons(x: nat): (r: nat)
    requires x < 0x10000
    ensures r < 0x10000
  {
    x / 0x100 + 0x100 * (x % 0x100)
  }

  /** The bytes of a 32-bit value in memory. */
  function Bytes32(x: uint32): (r: seq<byte>)
    ensures |r| == 4
  {
    [x % 0x100, x / 0x100 % 0x100, x / 0x10000 % 0x100, x / 0x1000000]
  }

  /** A 16-bit number in network order. */
  function Bytes16(x: nat): (r: seq<byte>)
    requires x < 0x10000
    ensures |r| == 2
  {
    [x / 0x100, x % 0x100]
  }

  /** Source, destination, zero, protocol and length: 12 bytes in front of the segment. */
  function PseudoHeader(saddr: uint32, daddr: uint32, proto: byte, len: nat): (r: seq<byte>)
    requires len < 0x10000
    ensures |r| == 12
  {
    (Bytes32(saddr) + Bytes32(daddr)) + (Bytes16(proto) + Bytes16(len))
  }

  function PseudoTotal(saddr: uint32, daddr: uint32, proto: byte, data: seq<byte>): nat
    requires |data| < 0x10000
  {
    saddr + daddr + Htons(proto) + Htons(|data|) + Sum16(data)
  }

  lemma {:induction false} Sum16Bytes32(x: uint32)
    ensures Sum16(Bytes32(x)) == x % 0x10000 + x / 0x10000
  {
    var b := Bytes32(x);
    assert b[2..] == [b[2], b[3]];
    Sum16Pair(b[2], b[3]);
    assert x / 0x100 % 0x100 == x / 0x100 - 0x100 * (x / 0x10000);
    assert x / 0x10000 % 0x100 == x / 0x10000 - 0x100 * (x / 0x1000000);
  }

  lemma Sum16Pair(a: byte, b: byte)
    ensures Sum16([a, b]) == Word(a, b)
  {
    assert [a, b][2..] == [];
  }

  /** The words of the pseudo-header and the segment; adding an address whole
      instead adds 65535 times its upper half more. */
  lemma {:induction false} Sum16Pseudo(saddr: uint32, daddr: uint32, proto: byte, data: seq<byte>) returns (upper: nat)
    requires |data| < 0x10000
    ensures var b := PseudoHeader(saddr, daddr, proto, |data|) + data;
            && PseudoTotal(saddr, daddr, proto, data) == Sum16(b) + 0xffff * upper
            && (Sum16(b) == 0 ==> upper == 0)
    ensures PseudoTotal(saddr, daddr, proto, data) < 3 * U32
  {
    upper := saddr / 0x10000 + daddr / 0x10000;
    Sum16Bound(data);
    Sum16Append(PseudoHeader(saddr, daddr, proto, |data|), data);
    Sum16PseudoHeader(saddr, daddr, proto, |data|);
  }

  lemma {:induction false} Sum16Addresses(saddr: uint32, daddr: uint32)
    ensures Sum16(Bytes32(saddr) + Bytes32(daddr))
         == saddr % 0x10000 + saddr / 0x10000 + daddr % 0x10000 + daddr / 0x10000
  {
    Sum16Append(Bytes32(saddr), Bytes32(daddr));
    Sum16Bytes32(saddr);
    Sum16Bytes32(daddr);
  }

  lemma Sum16Bytes16(x: nat)
    requires x < 0x10000
    ensures Sum16(Bytes16(x)) == Htons(x)
  {
    Sum16Pair(x / 0x100, x % 0x100);
  }

  lemma {:induction false} Sum16PseudoHeader(saddr: uint32, daddr: uint32, proto: byte, len: nat)
    requires len < 0x10000
    ensures Sum16(PseudoHeader(saddr, daddr, proto, len))
         == saddr % 0x10000 + saddr / 0x10000 + daddr % 0x10000 + daddr / 0x10000
            + Htons(proto) + Htons(len)
  {
    Sum16Addresses(saddr, daddr);
    Sum16Bytes16(proto);
    Sum16Bytes16(len);
    Sum16Append(Bytes16(proto), Bytes16(len));
    Sum16Append(Bytes32(saddr) + Bytes32(daddr), Bytes16(proto) + Bytes16(len));
  }

  /** The 32-bit accumulator gives the checksum that section 3.1 of RFC 793
      asks for exactly when it does not overflow: every carry out of bit 31 is lost. */
  lemma {:induction false} PseudoHeaderChecksum(saddr: uint32, daddr: uint32, proto: byte, data: seq<byte>)
    requires |data| < 0x10000
    ensures 0xffff - Residue(PseudoTotal(saddr, daddr, proto, data) % U32)
              == Rfc1071(PseudoHeader(saddr, daddr, proto, |data|) + data)
       <==> PseudoTotal(saddr, daddr, proto, data) < U32
  {
    var upper := Sum16Pseudo(saddr, daddr, proto, data);
    LostCarriesShow(PseudoTotal(saddr, daddr, proto, data), PseudoHeader(saddr, daddr, proto, |data|) + data, upper);
  }

  lemma LostCarriesShow(total: nat, b: seq<byte>, upper: nat)
    requires total == Sum16(b) + 0xffff * upper && (Sum16(b) == 0 ==> upper == 0) && total < 3 * U32
    ensures 0xffff - Residue(total % U32) == Rfc1071(b) <==> total < U32
  {
    ResidueIsOnesSum(b);
    LostCarries(total, Sum16(b), upper);
  }

  /** Dropping the carries out of bit 31 keeps the residue exactly if they are a multiple
      of 65535 in number and do not leave zero of something. */
  lemma {:induction false} DroppedCarries(total: nat)
    ensures Residue(total % U32) == Residue(total) <==>
            total / U32 % 0xffff == 0 && (total % U32 == 0 ==> total == 0)
  {
    var carries, kept := total / U32, total % U32;
    assert total == 0xffff * (0x10001 * carries) + (carries + kept);
    ModSplit(0x10001 * carries, carries + kept, 0xffff);
    if total > 0 && kept > 0 {
      ResidueMod(kept, total);
      CarriesShow(kept, carries);
    }
  }

  lemma LostCarries(total: nat, words: nat, upper: nat)
    requires total == words + 0xffff * upper
    requires words == 0 ==> upper == 0
    requires total < 0xffff * U32
    ensures Residue(total % U32) == Residue(words) <==> total < U32
  {
    ModSplit(upper, words, 0xffff);
    if words > 0 {
      ResidueMod(total, words);
    }
    DroppedCarries(total);
  }

  lemma CarriesShow(kept: nat, carries: nat)
    ensures (carries + kept) % 0xffff == kept % 0xffff <==> carries % 0xffff == 0
  {
    assert kept == 0xffff * (kept / 0xffff) + kept % 0xffff;
    assert carries == 0xffff * (carries / 0xffff) + carries % 0xffff;
    ModSplit(kept / 0xffff + carries / 0xffff, carries % 0xffff + kept % 0xffff, 0xffff);
    assert carries + kept == 0xffff * (kept / 0xffff + carries / 0xffff) + (carries % 0xffff + kept % 0xffff);
  }

  /** 192.168.1.200 to 192.168.1.129: two addresses are enough to overflow. */
  lemma PseudoHeaderOverflows()
    ensures var saddr, daddr := 0xc801a8c0, 0x8101a8c0;
            0xffff - Residue(PseudoTotal(saddr, daddr, 6, []) % U32)
              != Rfc1071(PseudoHeader(saddr, daddr, 6, 0) + [])
  {
    var empty: seq<byte> := [];
    assert Htons(6) == 0x600 && Sum16(empty) == 0;
    PseudoHeaderChecksum(0xc801a8c0, 0x8101a8c0, 6, []);
  }
}
