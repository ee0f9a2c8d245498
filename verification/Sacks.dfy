/** src/tcp.cpp tcp_calculate_sacks and src/tcp_output.cpp tcp_options_len,
    tcp_write_options: selective acknowledgments (RFC 2018). */
module Sacks {
  import opened Common
  import opened Reassembly
  import opened Completeness

  /** Tcp_Sack_Block: the numbers from left up to right. */
  datatype Block = Block(left: nat, right: nat)

  /** The next segment continues the last block or opens a new one. */
  function Extend(r: seq<Block>, s: Segment): (r': seq<Block>)
    ensures r' != [] && |r'| <= |r| + 1 && r'[|r'| - 1].right == s.End()
    ensures (r != [] ==> r[|r| - 1].left <= r[|r| - 1].right) ==> r'[|r'| - 1].left <= s.End()
  {
    if r != [] && r[|r| - 1].right == s.seqno
    then r[..|r| - 1] + [Block(r[|r| - 1].left, s.End())]
    else r + [Block(s.seqno, s.End())]
  }

  /** The runs of consecutive segments in a queue. */
  function Runs(q: seq<Segment>): (r: seq<Block>)
    ensures q == [] <==> r == []
    ensures |r| <= |q|
    ensures r != [] ==> r[|r| - 1].left <= r[|r| - 1].right == q[|q| - 1].End()
  {
    if q == [] then [] else Extend(Runs(q[..|q| - 1]), q[|q| - 1])
  }

  /** Non-empty blocks in increasing order with a gap between any two. */
  ghost predicate Separated(r: seq<Block>) {
    r == [] ||
    var init, last := r[..|r| - 1], r[|r| - 1];
    && last.left < last.right
    && Separated(init)
    && (init != [] ==> init[|init| - 1].right < last.left)
  }

  lemma {:induction false} SeparatedPairs(r: seq<Block>, i: nat, j: nat)
    requires Separated(r) && i < j < |r|
    ensures r[i].left < r[i].right < r[j].left
  {
    var init := r[..|r| - 1];
    if j < |r| - 1 {
      SeparatedPairs(init, i, j);
    } else if i < |r| - 2 {
      SeparatedPairs(init, i, |r| - 2);
      assert init[|init| - 1] == r[|r| - 2];
    }
  }

  function BlockNumbers(r: seq<Block>): set<nat> {
    if r == [] then {} else BlockNumbers(r[..|r| - 1]) + Range(r[|r| - 1].left, r[|r| - 1].right)
  }

  lemma Snoc(r: seq<Block>, b: Block)
    requires Separated(r) && b.left < b.right && (r != [] ==> r[|r| - 1].right < b.left)
    ensures Separated(r + [b])
    ensures BlockNumbers(r + [b]) == BlockNumbers(r) + Range(b.left, b.right)
  {
    assert (r + [b])[..|r|] == r;
  }

  lemma NumbersSnoc(p: seq<Segment>, s: Segment)
    ensures Numbers(p + [s]) == Numbers(p) + Range(s.seqno, s.End())
  {
    NumbersAppend(p, [s]);
    assert Numbers([s]) == Range(s.seqno, s.End()) + Numbers([s][1..]);
  }

  lemma {:induction false} RunsSeparated(q: seq<Segment>)
    requires SortedDisjoint(q)
    ensures Separated(Runs(q))
  {
    if q == [] {
    } else {
      var p, s := q[..|q| - 1], q[|q| - 1];
      RunsSeparated(p);
      var r := Runs(p);
      if r == [] {
        Snoc(r, Block(s.seqno, s.End()));
      } else {
        assert r[|r| - 1].right == q[|q| - 2].End() <= s.seqno;
        if r[|r| - 1].right == s.seqno {
          Snoc(r[..|r| - 1], Block(r[|r| - 1].left, s.End()));
        } else {
          Snoc(r, Block(s.seqno, s.End()));
        }
      }
    }
  }

  lemma {:induction false} RunsCover(q: seq<Segment>)
    ensures BlockNumbers(Runs(q)) == Numbers(q)
  {
    if q == [] {
    } else {
      var p, s := q[..|q| - 1], q[|q| - 1];
      RunsCover(p);
      assert q == p + [s];
      NumbersSnoc(p, s);
      var r := Runs(p);
      if r != [] && r[|r| - 1].right == s.seqno {
        Joined(r, s.End());
      } else {
        assert (r + [Block(s.seqno, s.End())])[..|r|] == r;
      }
    }
  }

  lemma Joined(r: seq<Block>, end: nat)
    requires r != [] && r[|r| - 1].left <= r[|r| - 1].right <= end
    ensures var last := r[|r| - 1];
            BlockNumbers(r[..|r| - 1] + [Block(last.left, end)]) == BlockNumbers(r) + Range(last.right, end)
  {
    var init, last := r[..|r| - 1], r[|r| - 1];
    assert (init + [Block(last.left, end)])[..|init|] == init;
    assert Range(last.left, end) == Range(last.left, last.right) + Range(last.right, end);
  }

  /** The runs of a sorted queue cover the same numbers and leave gaps between
      them, so each is as long as it can be, and no other blocks do the same. */
  lemma RunsAreMaximal(q: seq<Segment>, b: seq<Block>)
    requires SortedDisjoint(q)
    ensures Separated(b) && BlockNumbers(b) == Numbers(q) <==> b == Runs(q)
  {
    RunsSeparated(q);
    RunsCover(q);
    if Separated(b) && BlockNumbers(b) == Numbers(q) {
      SeparatedUnique(b, Runs(q));
    }
  }

  lemma {:induction false} BelowLast(r: seq<Block>, n: nat)
    requires Separated(r) && n in BlockNumbers(r)
    ensures r != [] && n < r[|r| - 1].right
  {
    if n in Range(r[|r| - 1].left, r[|r| - 1].right) {
    } else {
      BelowLast(r[..|r| - 1], n);
    }
  }

  /** A set of numbers has one such list of blocks. */
  lemma {:induction false} SeparatedUnique(a: seq<Block>, b: seq<Block>)
    requires Separated(a) && Separated(b) && BlockNumbers(a) == BlockNumbers(b)
    ensures a == b
  {
    if a == [] || b == [] {
      NoNumbers(a);
      NoNumbers(b);
    } else {
      LastAgrees(a, b);
      LastAgrees(b, a);
      var a', b' := a[..|a| - 1], b[..|b| - 1];
      var last := a[|a| - 1];
      assert BlockNumbers(a') == BlockNumbers(b') by {
        RestNumbers(a);
        RestNumbers(b);
      }
      SeparatedUnique(a', b');
      assert a == a' + [last] && b == b' + [last];
    }
  }

  lemma NoNumbers(a: seq<Block>)
    requires Separated(a)
    ensures BlockNumbers(a) == {} <==> a == []
  {
    if a != [] {
      assert a[|a| - 1].left in BlockNumbers(a);
    }
  }

  lemma RestNumbers(a: seq<Block>)
    requires Separated(a) && a != []
    ensures BlockNumbers(a[..|a| - 1]) == BlockNumbers(a) - Range(a[|a| - 1].left, a[|a| - 1].right)
  {
    var a' := a[..|a| - 1];
    forall n | n in BlockNumbers(a')
      ensures n < a[|a| - 1].left
    {
      BelowLast(a', n);
    }
  }

  lemma LastAgrees(a: seq<Block>, b: seq<Block>)
    requires Separated(a) && Separated(b) && a != [] && b != []
    requires BlockNumbers(a) == BlockNumbers(b)
    ensures a[|a| - 1].right <= b[|b| - 1].right
    ensures a[|a| - 1].right == b[|b| - 1].right ==> a[|a| - 1].left >= b[|b| - 1].left
  {
    var x, y := a[|a| - 1], b[|b| - 1];
    assert x.right - 1 in BlockNumbers(a);
    BelowLast(b, x.right - 1);
    if x.right == y.right && x.left < y.left {
      assert y.left - 1 in Range(x.left, x.right);
      assert y.left - 1 in BlockNumbers(b[..|b| - 1]);
      BelowLast(b[..|b| - 1], y.left - 1);
    }
  }

  lemma RunsStep(q: seq<Segment>, i: nat)
    requires i < |q|
    ensures Runs(q[..i + 1]) == Extend(Runs(q[..i]), q[i])
  {
    assert q[..i + 1][..i] == q[..i];
  }

  /** Once a gap follows, the runs found so far stay as they are. */
  lemma {:induction false} RunsStay(q: seq<Segment>, i: nat)
    requires 0 < i < |q| && Runs(q[..i])[|Runs(q[..i])| - 1].right != q[i].seqno
    ensures var r := Runs(q[..i]); |r| < |Runs(q)| && Runs(q)[..|r|] == r
  {
    var p := q[..|q| - 1];
    if i < |p| {
      assert p[..i] == q[..i];
      RunsStay(p, i);
    } else {
      assert p == q[..i];
    }
  }

  // ------------------------------------------------------------ the option bytes

  const SACK: byte := 5

  function Be32(x: nat): (r: seq<byte>)
    requires x < U32
    ensures |r| == 4
  {
    [x / 0x1000000, x / 0x10000 % 0x100, x / 0x100 % 0x100, x % 0x100]
  }

  function FromBe32(b: seq<byte>): nat
    requires |b| == 4
  {
    0x1000000 * (b[0] as int) + 0x10000 * (b[1] as int) + 0x100 * (b[2] as int) + b[3] as int
  }

  predicate Fits(b: Block) {
    b.left < U32 && b.right < U32
  }

  function Encode(b: Block): (r: seq<byte>)
    requires Fits(b)
    ensures |r| == 8
  {
    Be32(b.left) + Be32(b.right)
  }

  /** The blocks in the order in which they are written: the last one first. */
  function EncodeAll(r: seq<Block>): (e: seq<byte>)
    requires forall i :: 0 <= i < |r| ==> Fits(r[i])
    ensures |e| == 8 * |r|
  {
    if r == [] then [] else EncodeAll(r[1..]) + Encode(r[0])
  }

  function Emitted(r: seq<Block>): (e: seq<byte>)
    requires |r| <= 4 && forall i :: 0 <= i < |r| ==> Fits(r[i])
    ensures |e| == 4 + 8 * |r|
  {
    [NOOP, NOOP] + SackOption(EncodeAll(r))
  }

  /** Two bytes of padding, and kind and length as section 3 of RFC 2018 has them. */
  lemma EmittedHead(r: seq<Block>)
    requires |r| <= 4 && forall i :: 0 <= i < |r| ==> Fits(r[i])
    ensures Emitted(r)[..4] == [1, 1, 5, 2 + 8 * |r|]
  {}

  /** Kind, length and the blocks. */
  function SackOption(body: seq<byte>): (e: seq<byte>)
    requires |body| <= 32
    ensures |e| == 2 + |body|
  {
    var head: seq<byte> := [SACK, 2 + |body|];
    head + body
  }

  /** How a peer reads the option (section 3 of RFC 2018). */
  function Decode(e: seq<byte>): Option<seq<Block>> {
    if e == [] then None
    else if e[0] == NOOP then Decode(e[1..])
    else if e[0] != SACK || |e| < 2 then None
    else
      var len := e[1] as int;
      if len < 2 || |e| < len then None else Some(DecodeBlocks(e[2..len]))
  }

  function DecodeBlocks(e: seq<byte>): seq<Block> {
    if |e| < 8 then [] else [Block(FromBe32(e[..4]), FromBe32(e[4..8]))] + DecodeBlocks(e[8..])
  }

  function Reverse<T>(s: seq<T>): seq<T> {
    if s == [] then [] else Reverse(s[1..]) + [s[0]]
  }

  lemma {:induction false} Be32RoundTrip(x: nat)
    requires x < U32
    ensures FromBe32(Be32(x)) == x
  {
    var a, b, c := x / 0x100, x / 0x10000, x / 0x1000000;
    assert b == a / 0x100 && c == b / 0x100;
    assert x == 0x100 * a + x % 0x100 && a == 0x100 * b + a % 0x100 && b == 0x100 * c + b % 0x100;
  }

  lemma {:induction false} DecodeAppend(a: seq<byte>, b: seq<byte>)
    requires |a| % 8 == 0
    ensures DecodeBlocks(a + b) == DecodeBlocks(a) + DecodeBlocks(b)
  {
    if a == [] {
      assert a + b == b;
    } else {
      assert (a + b)[..4] == a[..4] && (a + b)[4..8] == a[4..8] && (a + b)[8..] == a[8..] + b;
      DecodeAppend(a[8..], b);
      var first := [Block(FromBe32(a[..4]), FromBe32(a[4..8]))];
      assert first + (DecodeBlocks(a[8..]) + DecodeBlocks(b)) == (first + DecodeBlocks(a[8..])) + DecodeBlocks(b);
    }
  }

  lemma {:induction false} DecodeAll(r: seq<Block>)
    requires forall i :: 0 <= i < |r| ==> Fits(r[i])
    ensures DecodeBlocks(EncodeAll(r)) == Reverse(r)
  {
    if r == [] {
    } else {
      DecodeAll(r[1..]);
      DecodeAppend(EncodeAll(r[1..]), Encode(r[0]));
      var e := Encode(r[0]);
      assert e[..4] == Be32(r[0].left) && e[4..8] == Be32(r[0].right) && e[8..] == [];
      Be32RoundTrip(r[0].left);
      Be32RoundTrip(r[0].right);
      assert DecodeBlocks(e) == [r[0]] + DecodeBlocks([]);
    }
  }

  /** The peer reads the blocks back, last one first. */
  lemma {:induction false} EmittedRoundTrip(r: seq<Block>)
    requires |r| <= 4 && forall i :: 0 <= i < |r| ==> Fits(r[i])
    ensures Decode(Emitted(r)) == Some(Reverse(r))
  {
    DecodeAll(r);
    var e := SackOption(EncodeAll(r));
    DecodeOption(EncodeAll(r));
    DecodeNoop(e);
    DecodeNoop([NOOP] + e);
    assert Emitted(r) == [NOOP] + ([NOOP] + e);
  }

  lemma {:induction false} DecodeOption(body: seq<byte>)
    requires |body| <= 32
    ensures Decode(SackOption(body)) == Some(DecodeBlocks(body))
  {
    OptionShape(SackOption(body), body);
  }

  lemma OptionShape(e: seq<byte>, body: seq<byte>)
    requires |e| == 2 + |body| && e[0] == SACK && e[1] as int == |e| && e[2..] == body
    ensures Decode(e) == Some(DecodeBlocks(body))
  {
    assert e[2..|e|] == body;
  }

  lemma DecodeNoop(e: seq<byte>)
    ensures Decode([NOOP] + e) == Decode(e)
  {
    assert ([NOOP] + e)[1..] == e;
  }

  // ------------------------------------------------------------------ the socket

  /** The SACK fields of Tcp_Sock. */
  class SackState {
    var sackok: bool
    var sacksAllowed: nat
    var sacklen: nat
    const sacks: array<Block>

    ghost predicate Valid()
      reads this, sacks
    {
      sacks.Length == 4 && sacksAllowed <= 4 && sacklen <= 4
    }

    constructor (allowed: nat)
      requires allowed <= 4
      ensures Valid() && Idle() && fresh(sacks) && sackok && sacksAllowed == allowed
    {
      sackok := true;
      sacksAllowed := allowed;
      sacklen := 0;
      sacks := new Block[4](_ => Block(0, 0));
    }

    /** No blocks are waiting to be sent. */
    ghost predicate Idle()
      requires Valid()
      reads this, sacks
    {
      sacklen == 0 && forall i :: 0 <= i < 4 ==> sacks[i] == Block(0, 0)
    }

    /** How many blocks there is room for; the first is filled in any case. */
    function Room(): nat
      reads this
    {
      Max(1, sacksAllowed)
    }

    /** The array starts with these blocks and is clear behind them. */
    ghost predicate Holds(r: seq<Block>)
      requires Valid()
      reads this, sacks
    {
      && sacklen == |r|
      && (forall k :: 0 <= k < |r| ==> sacks[k] == r[k])
      && (forall k :: |r| <= k < 4 ==> sacks[k] == Block(0, 0))
    }

    /** The array holds r so far, and block `sb` is the one to continue. */
    ghost predicate Open(r: seq<Block>, sb: nat)
      reads this, sacks
    {
      && Valid() && Holds(r) && sacklen <= Room()
      && sb == (if r == [] then 0 else |r| - 1)
      && (r != [] ==> sacks[sb].left > 0 && sacks[sb].right > 0)
    }

    /** What the walk over the queue does with one segment while block `sb` is the
        last one: continue it, open another, or stop for lack of room. */
    method AddSegment(next: Segment, sb: nat, ghost r: seq<Block>) returns (sb': nat, stop: bool)
      requires Open(r, sb) && next.seqno > 0
      modifies this`sacklen, sacks
      ensures stop <==> |r| == Room() && |Extend(r, next)| > |r|
      ensures Open(if stop then r else Extend(r, next), sb')
    {
      sb', stop := sb, false;
      if sacks[sb].left == 0 {
        sacks[sb] := Block(next.seqno, sacks[sb].right);
        sacklen := sacklen + 1;
      }
      if sacks[sb].right == 0 || sacks[sb].right == next.seqno {
        sacks[sb] := Block(sacks[sb].left, next.End());
      } else if sacklen >= sacksAllowed {
        stop := true;
      } else {
        sb' := sacklen;
        sacks[sb'] := Block(next.seqno, next.End());
        sacklen := sacklen + 1;
      }
    }

    /** The walk has come to segment i, or has stopped there. */
    ghost predicate Walked(ofo: seq<Segment>, i: nat, sb: nat, r: seq<Block>, stop: bool)
      reads this, sacks
    {
      && i <= |ofo| && Open(r, sb)
      && if stop then r == Runs(ofo)[..Min(Room(), |Runs(ofo)|)] else r == Runs(ofo[..i])
    }

    method AddNext(ofo: seq<Segment>, i: nat, sb: nat, ghost r: seq<Block>)
        returns (sb': nat, stop: bool, ghost r': seq<Block>)
      requires i < |ofo| && ofo[i].seqno > 0 && Walked(ofo, i, sb, r, false)
      modifies this`sacklen, sacks
      ensures Walked(ofo, if stop then i else i + 1, sb', r', stop)
    {
      RunsStep(ofo, i);
      sb', stop := AddSegment(ofo[i], sb, r);
      if stop {
        RunsStay(ofo, i);
      }
      r' := if stop then r else Extend(r, ofo[i]);
    }

    /** Fills the array with the first runs of the queue, as many as there is
        room for. */
    method CalculateSacks(ofo: seq<Segment>)
      requires Valid() && Idle()
      requires forall i :: 0 <= i < |ofo| ==> ofo[i].seqno > 0
      modifies this`sacklen, sacks
      ensures Valid() && Holds(Runs(ofo)[..Min(Room(), |Runs(ofo)|)])
    {
      var sb := sacklen;
      sacks[sb] := Block(0, 0);
      var i, stop := 0, false;
      ghost var r := [];
      while i < |ofo| && !stop
        invariant i <= |ofo| && Walked(ofo, i, sb, r, stop)
        decreases if stop then 0 else 1 + |ofo| - i
      {
        sb, stop, r := AddNext(ofo, i, sb, r);
        if !stop {
          i := i + 1;
        }
      }
      assert ofo[..|ofo|] == ofo;
    }

    /** The bytes to reserve: whole words, enough for the blocks to be written. */
    method OptionsLen() returns (optLen: nat)
      requires Valid()
      ensures optLen % 4 == 0 && optLen <= 36
      ensures sackok && sacklen > 0 && (forall i :: 0 <= i < sacklen ==> sacks[i].left != 0)
          ==> optLen == 4 + 8 * sacklen
      ensures !(sackok && sacklen > 0) ==> optLen == 0
    {
      optLen := 0;
      if sackok && sacklen > 0 {
        for i := 0 to sacklen
          invariant optLen % 8 == 0 && optLen <= 8 * i
          invariant (forall k :: 0 <= k < i ==> sacks[k].left != 0) ==> optLen == 8 * i
        {
          if sacks[i].left != 0 {
            optLen := optLen + 8;
          }
        }
        optLen := optLen + 2;
      }
      ghost var unpadded, words := optLen, optLen / 4;
      while optLen % 4 > 0
        invariant unpadded == 4 * words || (unpadded == 4 * words + 2 && sackok && sacklen > 0)
        invariant unpadded <= optLen <= unpadded + 2
        invariant unpadded == 4 * words ==> optLen == unpadded
        decreases unpadded + 2 - optLen
      {
        assert (4 * words + 4) % 4 == 0;
        optLen := optLen + 1;
      }
    }

    /** Writes the option behind the fixed header, the last block first, and clears
        the blocks for the next report. */
    method WriteOptions(hdr: array<byte>, ghost r: seq<Block>)
      requires Valid() && Holds(r) && hdr.Length >= 4 + 8 * sacklen
      requires forall k :: 0 <= k < |r| ==> 0 < r[k].left && Fits(r[k])
      modifies this`sacklen, sacks, hdr
      ensures Valid()
      ensures old(sackok) && r != [] ==>
                Idle() && hdr[..4 + 8 * |r|] == Emitted(r) && hdr[4 + 8 * |r|..] == old(hdr[4 + 8 * |r|..])
      ensures !(old(sackok) && r != []) ==> Holds(r) && hdr[..] == old(hdr[..])
    {
      if !sackok || sacks[0].left == 0 {
        return;
      }
      WriteHead(hdr, r);
      var i: nat, ptr: nat := sacklen, 4;
      while i > 0
        invariant Valid() && Writing(hdr, r, i, ptr) && hdr[4 + 8 * |r|..] == old(hdr[4 + 8 * |r|..])
        decreases i
      {
        i := i - 1;
        ptr := WriteBlock(hdr, ptr, sacks[i], r, i);
        sacks[i] := Block(0, 0);
      }
      assert [NOOP, NOOP] + SackOption(EncodeAll(r))[..2] + EncodeAll(r) == Emitted(r);
      assert r[0..] == r;
      sacklen := 0;
    }

    /** Blocks i and later of r are written and cleared, the earlier ones wait. */
    ghost predicate Writing(hdr: array<byte>, r: seq<Block>, i: nat, ptr: nat)
      reads this, sacks, hdr
    {
      && Valid() && i <= |r| <= 4 && ptr == 4 + 8 * (|r| - i) && 4 + 8 * |r| <= hdr.Length
      && (forall k :: 0 <= k < |r| ==> Fits(r[k]))
      && (forall k :: 0 <= k < i ==> sacks[k] == r[k])
      && (forall k :: i <= k < 4 ==> sacks[k] == Block(0, 0))
      && hdr[..ptr] == [NOOP, NOOP] + SackOption(EncodeAll(r))[..2] + EncodeAll(r[i..])
    }

    method WriteHead(hdr: array<byte>, ghost r: seq<Block>)
      requires Valid() && Holds(r) && |r| <= 4 && hdr.Length >= 4 + 8 * sacklen
      requires forall k :: 0 <= k < |r| ==> Fits(r[k])
      modifies hdr
      ensures Writing(hdr, r, |r|, 4) && hdr[4 + 8 * |r|..] == old(hdr[4 + 8 * |r|..])
    {
      hdr[0], hdr[1], hdr[2], hdr[3] := NOOP, NOOP, SACK, 2 + 8 * sacklen;
      assert hdr[..4] == [NOOP, NOOP] + SackOption(EncodeAll(r))[..2];
    }

    method WriteBlock(hdr: array<byte>, at: nat, b: Block, ghost r: seq<Block>, ghost i: nat) returns (next: nat)
      requires Writing(hdr, r, i + 1, at) && b == r[i]
      modifies hdr
      ensures next == at + 8
      ensures hdr[..next] == old(hdr[..at]) + Encode(b)
                          == [NOOP, NOOP] + SackOption(EncodeAll(r))[..2] + EncodeAll(r[i..])
      ensures hdr[4 + 8 * |r|..] == old(hdr[4 + 8 * |r|..])
    {
      var e := Encode(b);
      forall k | 0 <= k < 8 {
        hdr[at + k] := e[k];
      }
      next := at + 8;
      assert r[i..][1..] == r[i + 1..];
      assert hdr[..next] == old(hdr[..at]) + e;
      ghost var head := [NOOP, NOOP] + SackOption(EncodeAll(r))[..2];
      assert (head + EncodeAll(r[i + 1..])) + e == head + (EncodeAll(r[i + 1..]) + e);
    }

    /** One report, as tcp_data_queue and tcp_send_ack make it: find the blocks,
        reserve, write. What is reserved is exactly what is written; the peer
        reads the first runs of the queue, last one first; and the blocks are
        clear again, which the next report relies on. */
    method Report(ofo: seq<Segment>) returns (options: array<byte>, hl: nat)
      requires Valid() && Idle()
      requires forall i :: 0 <= i < |ofo| ==> 0 < ofo[i].seqno && ofo[i].End() < U32
      modifies this`sacklen, sacks
      ensures Valid() && Idle() && fresh(options)
      ensures hl == 5 + options.Length / 4 && options.Length % 4 == 0 && hl <= 14
      ensures var r := Runs(ofo)[..Min(Room(), |Runs(ofo)|)];
              if sackok && r != [] then
                && (forall k :: 0 <= k < |r| ==> Fits(r[k]))
                && options[..] == Emitted(r) && Decode(options[..]) == Some(Reverse(r))
              else options.Length == 0
    {
      if sackok {
        CalculateSacks(ofo);
      }
      ghost var r := if sackok then Runs(ofo)[..Min(Room(), |Runs(ofo)|)] else [];
      if sackok {
        RunsFit(ofo);
      }
      var optLen := OptionsLen();
      options := new byte[optLen](_ => 0);
      hl := 5 + optLen / 4;
      if hl > 5 {
        WriteOptions(options, r);
        assert options[..4 + 8 * |r|] == options[..];
        EmittedRoundTrip(r);
      }
    }
  }

  /** After any run of arrivals and reads, the blocks to report are the maximal
      intervals of what was let in above rcvNxt. */
  lemma SacksDescribeRun(base: nat, wnd: nat, es: seq<RxEvent>, segs: set<Segment>)
    requires Pieces(segs) && forall i :: 0 <= i < |es| && es[i].Arrive? ==> es[i].s in segs
    ensures var h := Run(Start(base, wnd), es);
            forall b :: b == Runs(h.st.ofo) <==>
                        Separated(b) && BlockNumbers(b) == set n | n in h.got && n > h.st.rcvNxt
  {
    RunComplete(base, wnd, es, segs);
    var h := Run(Start(base, wnd), es);
    forall b {
      RunsAreMaximal(h.st.ofo, b);
    }
  }

  lemma {:induction false} RunsFit(q: seq<Segment>)
    requires forall i :: 0 <= i < |q| ==> 0 < q[i].seqno && q[i].End() < U32
    ensures forall k :: 0 <= k < |Runs(q)| ==> 0 < Runs(q)[k].left && Fits(Runs(q)[k])
  {
    if q == [] {
    } else {
      RunsFit(q[..|q| - 1]);
      var r, r' := Runs(q[..|q| - 1]), Runs(q);
      assert forall k :: 0 <= k < |r'| - 1 ==> r'[k] == r[k];
      assert |r'| == |r| ==> r'[|r| - 1].left == r[|r| - 1].left;
    }
  }
}
