/** The write queue of src/tcp_output.cpp and tcp_clean_rto_queue of
    src/tcp_input.cpp: one list of transmitted and untransmitted segments and the
    counter `inflight` beside it, as functions on values. */
module SendQueue {
  import opened Common

  /** The values smss can have: 536 at first, then what tcp_parse_opts lets in. */
  type Mss = m: nat | 536 <= m <= 1460 witness 536

  /** A queued buffer. Sequence number 0 marks one not transmitted yet. */
  datatype TxSeg = TxSeg(seqno: nat, endSeq: nat, data: seq<byte>, syn: bool, fin: bool, psh: bool) {
    /** The sequence numbers it takes: its bytes, and one each for SYN and FIN. */
    function Span(): nat {
      |data| + (if syn then 1 else 0) + (if fin then 1 else 0)
    }
  }

  /** What goes out for a queued buffer: the number in its header, and the buffer. */
  datatype Frame = Frame(seqno: nat, data: seq<byte>, syn: bool, fin: bool, psh: bool)

  function FrameOf(s: TxSeg, seqno: nat): Frame {
    Frame(seqno, s.data, s.syn, s.fin, s.psh)
  }

  /** The frames of stamped buffers, each under its own number. */
  function FramesOf(q: seq<TxSeg>): seq<Frame> {
    if q == [] then [] else FramesOf(q[..|q| - 1]) + [FrameOf(q[|q| - 1], q[|q| - 1].seqno)]
  }

  datatype TxState = TxState(una: nat, nxt: nat, q: seq<TxSeg>, inflight: nat)

  function Fresh(data: seq<byte>, syn: bool, fin: bool, psh: bool): TxSeg {
    TxSeg(0, 0, data, syn, fin, psh)
  }

  // --------------------------------------------------------------- operations

  function Stamp(s: TxSeg, nxt: nat): TxSeg {
    s.(seqno := nxt, endSeq := nxt + |s.data|)
  }

  /** What sndNxt grows by when a segment goes out; the SYN is counted by tcp_connect. */
  function Advance(s: TxSeg): nat {
    |s.data| + (if s.fin then 1 else 0)
  }

  /** tcp_queue_transmit_skb. */
  function QueueTransmit(st: TxState, s: TxSeg): TxState {
    if st.inflight == 0
    then st.(inflight := 1, nxt := st.nxt + Advance(s), q := st.q + [Stamp(s, st.nxt)])
    else st.(q := st.q + [s])
  }

  /** The queue after tcp_connect: the SYN, and one more sequence number. */
  function Connected(iss: nat): TxState {
    var st := QueueTransmit(TxState(iss, iss, [], 0), Fresh([], true, false, false));
    st.(nxt := st.nxt + 1)
  }

  function StampAll(q: seq<TxSeg>, nxt: nat): (r: seq<TxSeg>)
    ensures |r| == |q|
  {
    if q == [] then [] else StampAll(q[..|q| - 1], nxt) + [Stamp(q[|q| - 1], AdvanceAll(q[..|q| - 1], nxt))]
  }

  function AdvanceAll(q: seq<TxSeg>, nxt: nat): (r: nat)
    ensures nxt <= r
  {
    if q == [] then nxt else AdvanceAll(q[..|q| - 1], nxt) + Advance(q[|q| - 1])
  }

  /** How many segments tcp_send_next sends. Written: the walk stops at once while
      its count is below `amount` (src/tcp_output.cpp:192), and otherwise never.
      Intended: it stops when the count passes `amount`. */
  function Sends(form: Form, size: nat, amount: int): (k: nat)
    ensures k <= size
  {
    if form.Written? then (if 1 < amount then 0 else size)
    else if amount < 0 then 0 else Min(size, amount)
  }

  function SendNext(form: Form, st: TxState, amount: int): TxState {
    var k := Sends(form, |st.q|, amount);
    st.(q := StampAll(st.q[..k], st.nxt) + st.q[k..], nxt := AdvanceAll(st.q[..k], st.nxt))
  }

  /** How many segments tcp_clean_rto_queue removes. */
  function Cleaned(q: seq<TxSeg>, una: nat): (k: nat)
    ensures k <= |q|
  {
    if q != [] && q[0].seqno > 0 && q[0].endSeq <= una then 1 + Cleaned(q[1..], una) else 0
  }

  /** inflight is unsigned: one less than 0 is the largest value, and the maximum
      with 0 does not change that. */
  function Decrement(n: nat): nat {
    if n == 0 then U32 - 1 else n - 1
  }

  function DecrementBy(n: nat, k: nat): nat {
    if k == 0 then n else Decrement(DecrementBy(n, k - 1))
  }

  function CleanRtoQueue(st: TxState, una: nat): TxState {
    var k := Cleaned(st.q, una);
    st.(q := st.q[k..], inflight := DecrementBy(st.inflight, k))
  }

  // --------------------------------------------------------------- invariants

  function Transmitted(q: seq<TxSeg>): (k: nat)
    ensures k <= |q|
  {
    if q == [] then 0 else Transmitted(q[..|q| - 1]) + if q[|q| - 1].seqno > 0 then 1 else 0
  }

  /** The counter agrees with the queue. */
  predicate Counted(st: TxState) {
    st.inflight == Transmitted(st.q)
  }

  /** The segments are transmitted and cover the numbers up to nxt, each beginning
      where the one before it ends. */
  predicate Tiles(q: seq<TxSeg>, nxt: nat) {
    q == [] ||
    var last := q[|q| - 1];
    && last.seqno > 0
    && last.endSeq == last.seqno + |last.data|
    && last.seqno + last.Span() == nxt
    && Tiles(q[..|q| - 1], last.seqno)
  }

  ghost predicate Untransmitted(q: seq<TxSeg>) {
    forall i :: 0 <= i < |q| ==> q[i].seqno == 0
  }

  /** A transmitted prefix, inflight long, that tiles the numbers up to nxt, and
      an untransmitted suffix. */
  ghost predicate Tiled(st: TxState) {
    && st.inflight <= |st.q|
    && Tiles(st.q[..st.inflight], st.nxt)
    && Untransmitted(st.q[st.inflight..])
  }

  lemma {:induction false} TransmittedAppend(p: seq<TxSeg>, q: seq<TxSeg>)
    ensures Transmitted(p + q) == Transmitted(p) + Transmitted(q)
  {
    if q == [] {
      assert p + q == p;
    } else {
      TransmittedAppend(p, q[..|q| - 1]);
      assert (p + q)[..|p + q| - 1] == p + q[..|q| - 1];
    }
  }

  lemma {:induction false} TilesTransmitted(q: seq<TxSeg>, nxt: nat)
    requires Tiles(q, nxt)
    ensures Transmitted(q) == |q|
  {
    if q == [] {
    } else {
      TilesTransmitted(q[..|q| - 1], q[|q| - 1].seqno);
    }
  }

  lemma {:induction false} UntransmittedCount(q: seq<TxSeg>)
    ensures Untransmitted(q) <==> Transmitted(q) == 0
  {
    if q == [] {
    } else {
      UntransmittedCount(q[..|q| - 1]);
    }
  }

  lemma TiledIsCounted(st: TxState)
    requires Tiled(st)
    ensures Counted(st)
  {
    assert st.q == st.q[..st.inflight] + st.q[st.inflight..];
    TransmittedAppend(st.q[..st.inflight], st.q[st.inflight..]);
    TilesTransmitted(st.q[..st.inflight], st.nxt);
    UntransmittedCount(st.q[st.inflight..]);
  }

  // ---------------------------------------------------------- what keeps them

  lemma TilesOne(s: TxSeg, nxt: nat)
    ensures Tiles([s], nxt) <==> s.seqno > 0 && s.endSeq == s.seqno + |s.data| && s.seqno + s.Span() == nxt
  {
    assert [s][..0] == [];
  }

  /** The SYN is told from an untransmitted segment exactly when iss is not 0. */
  lemma ConnectTiles(iss: nat)
    ensures Tiled(Connected(iss)) <==> iss > 0
  {
    var syn := Stamp(Fresh([], true, false, false), iss);
    TilesOne(syn, iss + 1);
    assert Connected(iss).q == [syn];
    assert [syn][..1] == [syn] && [syn][1..] == [];
  }

  /** Queueing keeps the shape exactly when something is in flight or the queue is
      empty; otherwise the new segment overtakes those that wait. */
  lemma QueueTransmitTiles(st: TxState, s: TxSeg)
    requires Tiled(st) && st.nxt > 0 && s.seqno == 0 && !s.syn
    ensures Tiled(QueueTransmit(st, s)) <==> st.inflight > 0 || st.q == []
  {
    var st' := QueueTransmit(st, s);
    if st.inflight > 0 {
      assert st'.q[..st.inflight] == st.q[..st.inflight];
      assert st'.q[st.inflight..] == st.q[st.inflight..] + [s];
    } else if st.q == [] {
      assert st'.q[..1] == [Stamp(s, st.nxt)] && st'.q[..1][..0] == [];
    } else {
      assert st'.q[..1] == [st.q[0]] && st.q[0..][0].seqno == 0;
      assert st'.q[..1][0].seqno == 0;
    }
  }

  /** A segment is sent ahead of one that waits. */
  lemma OvertakingSend()
    ensures var waiting := TxState(5, 5, [Fresh([1], false, false, false)], 0);
            Tiled(waiting) && !Tiled(QueueTransmit(waiting, Fresh([2], false, false, true)))
  {
    var waiting := TxState(5, 5, [Fresh([1], false, false, false)], 0);
    assert waiting.q[..0] == [] && waiting.q[0..] == waiting.q;
    QueueTransmitTiles(waiting, Fresh([2], false, false, true));
  }

  /** Whatever the order in the queue, the counter stays right. */
  lemma QueueTransmitCounted(st: TxState, s: TxSeg)
    requires Counted(st) && s.seqno == 0 && st.nxt > 0
    ensures Counted(QueueTransmit(st, s))
  {
    TransmittedAppend(st.q, [s]);
    TransmittedAppend(st.q, [Stamp(s, st.nxt)]);
    assert Transmitted([s]) == Transmitted([s][..0]) + 0;
    assert Transmitted([Stamp(s, st.nxt)]) == Transmitted([Stamp(s, st.nxt)][..0]) + 1;
  }

  lemma {:induction false} StampAllTiles(q: seq<TxSeg>, nxt: nat)
    requires nxt > 0 && forall i :: 0 <= i < |q| ==> !q[i].syn
    ensures Tiles(StampAll(q, nxt), AdvanceAll(q, nxt))
  {
    if q == [] {
    } else {
      var p := q[..|q| - 1];
      StampAllTiles(p, nxt);
      assert StampAll(q, nxt)[..|q| - 1] == StampAll(p, nxt);
    }
  }

  lemma SentTiles(st: TxState, k: nat)
    requires Tiled(st) && st.inflight == 0 && st.nxt > 0 && k <= |st.q|
    requires forall i :: 0 <= i < |st.q| ==> !st.q[i].syn
    ensures Tiled(TxState(st.una, AdvanceAll(st.q[..k], st.nxt), StampAll(st.q[..k], st.nxt) + st.q[k..], k))
  {
    var p, r := StampAll(st.q[..k], st.nxt), st.q[k..];
    StampAllTiles(st.q[..k], st.nxt);
    assert (p + r)[..k] == p && (p + r)[k..] == r;
    assert st.q[0..] == st.q;
  }

  /** With nothing in flight, sending the first `pending` segments and counting
      them keeps the shape. As written it does so exactly for a queue of one:
      with more, none is sent and yet all `pending` are counted. */
  lemma SendNextTiles(form: Form, st: TxState, pending: nat)
    requires Tiled(st) && st.inflight == 0 && st.nxt > 0
    requires 0 < pending == Min(|st.q|, 3)
    requires forall i :: 0 <= i < |st.q| ==> !st.q[i].syn
    ensures Tiled(SendNext(form, st, pending).(inflight := pending)) <==> form.Intended? || |st.q| == 1
  {
    if form.Intended? || |st.q| == 1 {
      SentTiles(st, pending);
    } else {
      assert st.q[..0] == [] && [] + st.q[0..] == st.q[0..] == st.q;
      OvertakenIsUntiled(SendNext(form, st, pending).(inflight := pending));
    }
  }

  lemma {:induction false} StampAllCount(q: seq<TxSeg>, nxt: nat)
    requires nxt > 0
    ensures Transmitted(StampAll(q, nxt)) == |q|
  {
    if q == [] {
    } else {
      StampAllCount(q[..|q| - 1], nxt);
      assert StampAll(q, nxt)[..|q| - 1] == StampAll(q[..|q| - 1], nxt);
    }
  }

  lemma SendNextCounted(st: TxState, pending: nat)
    requires Counted(st) && st.inflight == 0 && st.nxt > 0 && pending <= |st.q|
    ensures Counted(SendNext(Intended, st, pending).(inflight := pending))
  {
    var p, r := st.q[..pending], st.q[pending..];
    assert st.q == p + r;
    TransmittedAppend(p, r);
    TransmittedAppend(StampAll(p, st.nxt), r);
    StampAllCount(p, st.nxt);
  }

  // ------------------------------------------------------------ acknowledgments

  lemma {:induction false} DecrementByFits(n: nat, k: nat)
    requires k <= n
    ensures DecrementBy(n, k) == n - k
  {
    if k == 0 {
    } else {
      DecrementByFits(n, k - 1);
    }
  }

  lemma {:induction false} CleanedPrefix(q: seq<TxSeg>, una: nat)
    ensures var k := Cleaned(q, una);
            && Transmitted(q[..k]) == k
            && (forall i :: 0 <= i < k ==> q[i].seqno > 0 && q[i].endSeq <= una)
            && (k < |q| ==> q[k].seqno == 0 || q[k].endSeq > una)
  {
    var k := Cleaned(q, una);
    if k == 0 {
    } else {
      CleanedPrefix(q[1..], una);
      assert q[..k] == [q[0]] + q[1..][..k - 1];
      TransmittedAppend([q[0]], q[1..][..k - 1]);
      assert Transmitted([q[0]]) == Transmitted([q[0]][..0]) + 1;
      assert forall i :: 0 < i <= k && i < |q| ==> q[i] == q[1..][i - 1];
    }
  }

  /** A right counter never wraps below zero and stays right. */
  lemma CleanCounted(st: TxState, una: nat)
    requires Counted(st)
    ensures Counted(CleanRtoQueue(st, una))
    ensures CleanRtoQueue(st, una).inflight == st.inflight - Cleaned(st.q, una)
  {
    var k := Cleaned(st.q, una);
    CleanedPrefix(st.q, una);
    assert st.q == st.q[..k] + st.q[k..];
    TransmittedAppend(st.q[..k], st.q[k..]);
    DecrementByFits(st.inflight, k);
  }

  /** Ends and numbers grow along a tiled prefix. */
  lemma {:induction false} TilesGrow(q: seq<TxSeg>, nxt: nat, i: nat)
    requires Tiles(q, nxt) && i < |q|
    ensures q[i].seqno > 0 && q[i].endSeq <= nxt
    ensures i + 1 < |q| ==> q[i].endSeq <= q[i + 1].seqno <= q[i + 1].endSeq
  {
    if i == |q| - 1 {
    } else {
      TilesGrow(q[..|q| - 1], q[|q| - 1].seqno, i);
    }
  }

  lemma {:induction false} TilesFrom(q: seq<TxSeg>, nxt: nat, k: nat)
    requires Tiles(q, nxt) && k <= |q|
    ensures Tiles(q[k..], nxt)
  {
    if k == |q| {
    } else {
      TilesFrom(q[..|q| - 1], q[|q| - 1].seqno, k);
      assert q[k..][..|q| - k - 1] == q[..|q| - 1][k..];
    }
  }

  lemma {:induction false} TilesAbove(q: seq<TxSeg>, nxt: nat, una: nat, k: nat, i: nat)
    requires Tiles(q, nxt) && k <= i < |q| && q[k].endSeq > una
    ensures q[i].endSeq > una
  {
    if k == i {
    } else {
      TilesAbove(q, nxt, una, k, i - 1);
      TilesGrow(q, nxt, i - 1);
    }
  }

  lemma CleanedWithin(st: TxState, una: nat)
    requires Tiled(st)
    ensures Cleaned(st.q, una) <= st.inflight
  {
    CleanedPrefix(st.q, una);
    assert st.inflight < |st.q| ==> st.q[st.inflight..][0] == st.q[st.inflight];
  }

  lemma CleanLeaves(st: TxState, una: nat, i: nat)
    requires Tiled(st) && Cleaned(st.q, una) <= i < st.inflight
    ensures st.q[i].endSeq > una
  {
    var k, p := Cleaned(st.q, una), st.q[..st.inflight];
    CleanedPrefix(st.q, una);
    TilesGrow(p, st.nxt, k);
    assert p[k] == st.q[k] && p[i] == st.q[i];
    TilesAbove(p, st.nxt, una, k, i);
  }

  lemma CleanTiles(st: TxState, una: nat)
    requires Tiled(st)
    ensures CleanRtoQueue(st, una).inflight == st.inflight - Cleaned(st.q, una)
    ensures Tiled(CleanRtoQueue(st, una))
  {
    TiledIsCounted(st);
    CleanCounted(st, una);
    CleanedWithin(st, una);
    var k, st' := Cleaned(st.q, una), CleanRtoQueue(st, una);
    TilesFrom(st.q[..st.inflight], st.nxt, k);
    assert st'.q[..st'.inflight] == st.q[..st.inflight][k..];
    assert st'.q[st'.inflight..] == st.q[st.inflight..];
  }

  /** An acknowledgment removes exactly the transmitted segments that end at or
      below it: those left end above it, untransmitted ones stay, the order stays,
      inflight drops by as many, and the shape is kept. */
  lemma CleanIsExact(st: TxState, una: nat)
    requires Tiled(st)
    ensures var st', k := CleanRtoQueue(st, una), Cleaned(st.q, una);
            && k <= st.inflight && st'.q == st.q[k..] && st'.inflight == st.inflight - k
            && (forall i :: 0 <= i < st.inflight ==> (st.q[i].endSeq <= una <==> i < k))
            && Tiled(st')
  {
    CleanTiles(st, una);
    CleanedWithin(st, una);
    CleanedPrefix(st.q, una);
    forall i | Cleaned(st.q, una) <= i < st.inflight
      ensures st.q[i].endSeq > una
    {
      CleanLeaves(st, una, i);
    }
  }

  /** A segment in flight behind one that waits. */
  predicate Overtaken(st: TxState) {
    st.q != [] && st.q[0].seqno == 0 && st.inflight > 0
  }

  lemma OvertakenIsUntiled(st: TxState)
    requires Overtaken(st)
    ensures !Tiled(st)
  {
    if Tiled(st) {
      TilesGrow(st.q[..st.inflight], st.nxt, 0);
    }
  }

  // ------------------------------------------------------- cutting into segments

  /** The lengths tcp_send cuts `slen` remaining bytes of `len` into. Written: the
      last piece is taken to be `len` long (src/tcp_output.cpp:441). */
  function ChunkLens(form: Form, slen: int, mss: nat, len: int): seq<int>
    requires 0 < mss && slen <= len
    decreases slen
  {
    if slen <= 0 then []
    else
      var dlen := if slen > mss then mss else if form.Written? then len else slen;
      [dlen] + ChunkLens(form, slen - dlen, mss, len)
  }

  function Sum(s: seq<int>): int {
    if s == [] then 0 else s[0] + Sum(s[1..])
  }

  lemma {:induction false} ChunkSum(form: Form, slen: int, mss: nat, len: int)
    requires 0 < mss && slen <= len
    ensures var sum := Sum(ChunkLens(form, slen, mss, len));
            if slen <= 0 then sum == 0
            else if form.Intended? then sum == slen
            else sum == slen - LastPiece(slen, mss) + len
    decreases slen
  {
    if slen <= 0 {
    } else {
      var dlen := if slen > mss then mss else if form.Written? then len else slen;
      ChunkSum(form, slen - dlen, mss, len);
      assert ChunkLens(form, slen, mss, len)[1..] == ChunkLens(form, slen - dlen, mss, len);
    }
  }

  /** What is left of `slen` bytes after all full pieces but the last. */
  function LastPiece(slen: int, mss: nat): (r: int)
    requires 0 < mss
    ensures 0 < slen ==> 0 < r <= mss && r <= slen
    ensures 0 < slen <= mss <==> 0 < slen == r
    decreases slen
  {
    if slen > mss then LastPiece(slen - mss, mss) else slen
  }

  /** As written, a call takes as many bytes as it was given exactly when they fit
      one segment; longer calls read past the end of their buffer. */
  lemma WrittenSendLength(len: int, mss: nat)
    requires 0 < mss
    ensures Sum(ChunkLens(Intended, len, mss, len)) == Max(len, 0)
    ensures Sum(ChunkLens(Written, len, mss, len)) == Max(len, 0) <==> len <= mss
  {
    ChunkSum(Intended, len, mss, len);
    ChunkSum(Written, len, mss, len);
  }

  /** The segments of one call, as intended; PSH marks the last one. */
  function Chunks(data: seq<byte>, mss: nat): seq<TxSeg>
    requires 0 < mss
  {
    if data == [] then []
    else if |data| > mss then [Fresh(data[..mss], false, false, false)] + Chunks(data[mss..], mss)
    else [Fresh(data, false, false, true)]
  }

  function Payload(q: seq<TxSeg>): seq<byte> {
    if q == [] then [] else Payload(q[..|q| - 1]) + q[|q| - 1].data
  }

  lemma {:induction false} PayloadAppend(p: seq<TxSeg>, q: seq<TxSeg>)
    ensures Payload(p + q) == Payload(p) + Payload(q)
  {
    if q == [] {
      assert p + q == p;
    } else {
      PayloadAppend(p, q[..|q| - 1]);
      assert (p + q)[..|p + q| - 1] == p + q[..|q| - 1];
      assert Payload(p) + (Payload(q[..|q| - 1]) + q[|q| - 1].data)
          == (Payload(p) + Payload(q[..|q| - 1])) + q[|q| - 1].data;
    }
  }

  /** The pieces of a call are the bytes of the call, none longer than mss, all but
      the last exactly mss long, and PSH on the last only. */
  lemma {:induction false} ChunksCut(data: seq<byte>, mss: nat)
    requires 0 < mss
    ensures var c := Chunks(data, mss);
            && Payload(c) == data
            && (forall i :: 0 <= i < |c| ==> c[i] == Fresh(c[i].data, false, false, i == |c| - 1))
            && (forall i :: 0 <= i < |c| ==> 0 < |c[i].data| <= mss)
            && (forall i :: 0 <= i < |c| - 1 ==> |c[i].data| == mss)
  {
    var c := Chunks(data, mss);
    if |data| > mss {
      var first, rest := Fresh(data[..mss], false, false, false), Chunks(data[mss..], mss);
      ChunksCut(data[mss..], mss);
      PayloadAppend([first], rest);
      assert Payload([first]) == Payload([first][..0]) + first.data;
      assert data == data[..mss] + data[mss..];
      assert forall i :: 0 < i < |c| ==> c[i] == rest[i - 1];
    } else if data != [] {
      assert Payload(c) == Payload(c[..0]) + data;
    }
  }

  function QueueAll(st: TxState, c: seq<TxSeg>): TxState
    decreases |c|
  {
    if c == [] then st else QueueAll(QueueTransmit(st, c[0]), c[1..])
  }
}
