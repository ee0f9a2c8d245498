/** The frames a connection sends for its queued segments, retransmissions included,
    and when the number in their header is the one their bytes have in the stream.
    src/tcp_output.cpp:330 and :369 send the head of the queue again under snd_una. */
module Frames {
  import opened Common
  import opened Reassembly
  import opened SendQueue
  import opened Rto
  import opened Connection
  import opened Diagram
  import opened Progress
  import opened SendStream
  import opened QueueShape
  import opened Flight
  import opened RtoTimer

  // ---------------------------------------------------------- what keeps the labels right

  /** Every queued segment takes a number, and is one of a SYN, a FIN and bytes. */
  predicate Solid(q: seq<TxSeg>) {
    forall i :: 0 <= i < |q| ==>
      (q[i].data != [] || q[i].syn || q[i].fin) && (q[i].fin ==> !q[i].syn && q[i].data == [])
  }

  /** snd_una is not below the first byte that is not acknowledged; or the SYN is not. */
  predicate Floor(c: Conn) {
    c.log.connects > 0 ==>
      if c.tx.q != [] && c.tx.q[0].syn then c.log.acked == [] else c.iss + |c.log.acked| < c.tx.una
  }

  /** While the timer runs, something is in flight. */
  predicate Running(c: Conn) {
    c.armed.Some? ==> c.tx.inflight > 0
  }

  /** Nothing in flight begins below snd_una. */
  predicate NoneBelow(st: TxState) {
    forall i :: 0 <= i < st.inflight && i < |st.q| ==> st.una <= st.q[i].seqno
  }

  predicate Labelled(c: Conn) {
    c.armed.Some? ==> NoneBelow(c.tx)
  }

  /** Nothing was accepted before the connection stands, and all is acknowledged in FIN_WAIT_2. */
  predicate Staged(c: Conn) {
    && (c.state in {SynSent, SynReceived} ==> c.log.accepted == [] && c.log.finsQueued == 0)
    && (c.state == FinWait2 ==> c.tx.q == [])
  }

  ghost predicate Tidy(c: Conn) {
    && Sound(c) && Ordered(c) && Opening(c) && Solid(c.tx.q) && Staged(c) && Floor(c) && Running(c) && Labelled(c)
  }

  /** The acknowledgment ends inside a segment in flight. */
  predicate SplitBy(c: Conn, ackSeq: nat) {
    && c.armed.Some? && c.tx.una < ackSeq <= c.tx.nxt
    && exists i :: 0 <= i < c.tx.inflight && i < |c.tx.q| && c.tx.q[i].seqno < ackSeq < c.tx.q[i].endSeq
  }

  /** An arrival whose acknowledgment is taken and ends inside a segment in flight. */
  predicate Splits(c: Conn, e: Event) {
    e.Arrival? && Considered(c, e.h, e.data) && c.state in ACK_STATES && SplitBy(c, e.h.ackSeq)
  }

  // ------------------------------------------------------------------ the acknowledgment

  /** The number of a transmitted segment is not below that of its bytes. */
  lemma NumberFloor(c: Conn, i: nat)
    requires Sound(c) && i < c.tx.inflight && !c.tx.q[i].syn
    ensures c.iss + 1 + |c.log.acked| + |Payload(c.tx.q[..i])| <= c.tx.q[i].seqno
    ensures c.tx.q[i].endSeq == c.tx.q[i].seqno + |c.tx.q[i].data|
    ensures Payload(c.tx.q[..i + 1]) == Payload(c.tx.q[..i]) + c.tx.q[i].data
  {
    var q := c.tx.q;
    Remaining(c, i);
    assert q == q[..i] + q[i..] && q[..i + 1][..i] == q[..i];
    FinsAppend(q[..i], q[i..]);
    PayloadAppend(q[..i], q[i..]);
    NotClosed(c, i);
    TilesEnd(q[..c.tx.inflight], c.tx.nxt, i);
  }

  lemma NotClosed(c: Conn, i: nat)
    requires Sound(c) && i < c.tx.inflight
    ensures c.log.connects > 0
  {
    TilesGrow(c.tx.q[..c.tx.inflight], c.tx.nxt, i);
  }

  lemma {:induction false} TilesEnd(q: seq<TxSeg>, nxt: nat, i: nat)
    requires Tiles(q, nxt) && i < |q|
    ensures q[i].endSeq == q[i].seqno + |q[i].data|
  {
    if i == |q| - 1 {
    } else {
      TilesEnd(q[..|q| - 1], q[|q| - 1].seqno, i);
    }
  }

  /** Segments that end at or below snd_una have their bytes below it. */
  lemma RemovedBelow(c: Conn, k: nat)
    requires Sound(c) && 0 < k <= c.tx.inflight && c.iss < c.tx.una && c.tx.q[k - 1].endSeq <= c.tx.una
    requires c.tx.q[0].syn ==> c.log.acked == []
    ensures c.iss + |c.log.acked + Payload(c.tx.q[..k])| < c.tx.una
  {
    if c.tx.q[k - 1].syn {
      PayloadOne(c.tx.q[0]);
      assert c.tx.q[..1] == [c.tx.q[0]];
    } else {
      NumberFloor(c, k - 1);
    }
  }

  lemma CleanFloors(c: Conn, una: nat)
    requires Sound(c) && Floor(c) && c.state != Close && c.iss < una == c.tx.una
    requires c.tx.q != [] && c.tx.q[0].syn ==> c.log.acked == []
    ensures Floor(Clean(c, una))
  {
    var k, q := Cleaned(c.tx.q, una), c.tx.q;
    CleanIsExact(c.tx, una);
    if k == 0 {
      assert Payload(q[..0]) == [] && c.log.acked + [] == c.log.acked;
    } else {
      RemovedBelow(c, k);
      HeadIsNoSyn(c.tx.q, k);
    }
  }

  lemma HeadIsNoSyn(q: seq<TxSeg>, k: nat)
    requires 0 < k <= |q| && forall i :: 0 <= i < |q| && q[i].syn ==> i == 0
    ensures q[k..] != [] ==> !q[k..][0].syn
  {}

  /** Nothing in flight has una strictly inside. */
  predicate Whole(st: TxState, una: nat) {
    forall i :: 0 <= i < st.inflight && i < |st.q| ==> !(st.q[i].seqno < una < st.q[i].endSeq)
  }

  lemma TiledEnds(st: TxState)
    requires Tiled(st)
    ensures forall i :: 0 <= i < st.inflight ==> st.q[i].endSeq == st.q[i].seqno + |st.q[i].data|
  {
    forall i | 0 <= i < st.inflight
      ensures st.q[i].endSeq == st.q[i].seqno + |st.q[i].data|
    {
      TilesEnd(st.q[..st.inflight], st.nxt, i);
    }
  }

  lemma CleanOfWhole(st: TxState, una: nat)
    requires Tiled(st) && una == st.una && Whole(st, una)
    ensures NoneBelow(CleanRtoQueue(st, una))
  {
    var k, st' := Cleaned(st.q, una), CleanRtoQueue(st, una);
    CleanIsExact(st, una);
    TiledEnds(st);
    forall i | 0 <= i < st'.inflight && i < |st'.q|
      ensures una <= st'.q[i].seqno
    {
      assert st'.q[i] == st.q[i + k];
    }
  }

  lemma CleanOfSplit(st: TxState, una: nat)
    requires Tiled(st) && una == st.una && !Whole(st, una)
    ensures !NoneBelow(CleanRtoQueue(st, una)) && CleanRtoQueue(st, una).inflight > 0
  {
    var i :| 0 <= i < st.inflight && i < |st.q| && st.q[i].seqno < una < st.q[i].endSeq;
    CleanIsExact(st, una);
    var k, st' := Cleaned(st.q, una), CleanRtoQueue(st, una);
    assert i >= k && st'.q[i - k] == st.q[i];
  }

  lemma CleanLabels(c: Conn, una: nat)
    requires Sound(c) && una == c.tx.una && Running(c)
    ensures Running(Clean(c, una))
    ensures Labelled(Clean(c, una)) <==> c.armed.None? || Whole(c.tx, una)
  {
    CleanIsExact(c.tx, una);
    if Whole(c.tx, una) {
      CleanOfWhole(c.tx, una);
    } else {
      CleanOfSplit(c.tx, una);
    }
  }

  lemma CleanStaysSolid(c: Conn, una: nat)
    requires Solid(c.tx.q)
    ensures Solid(Clean(c, una).tx.q) && (c.tx.q == [] ==> Clean(c, una).tx.q == [])
  {}

  /** An acknowledgment of something new. */
  lemma AdvanceLabels(c: Conn, c1: Conn, ackSeq: nat)
    requires Tidy(c) && c.tx.una < ackSeq <= c.tx.nxt && c.state !in {Close, Listen, SynSent}
    requires c1 == c.(state := c1.state, tx := c.tx.(una := ackSeq), rtt := c1.rtt)
    requires c1.state in ACK_STATES
    ensures var c' := Clean(c1, ackSeq);
            && Solid(c'.tx.q) && Floor(c') && Running(c') && (Labelled(c') <==> !SplitBy(c, ackSeq))
  {
    assert Sound(c1) && Floor(c1);
    CleanFloors(c1, ackSeq);
    CleanLabels(c1, ackSeq);
    CleanStaysSolid(c1, ackSeq);
    assert Whole(c1.tx, ackSeq) <==> Whole(c.tx, ackSeq);
  }

  lemma {:induction false} AckLabels(c: Conn, h: Header, now: int)
    requires Tidy(c) && c.state !in {Close, Listen, SynSent}
    ensures var c' := AckInput(Intended, c, h, now).0;
            && Solid(c'.tx.q) && Floor(c') && Running(c')
            && (Labelled(c') <==> !(c.state in ACK_STATES && SplitBy(c, h.ackSeq)))
  {
    if c.state in ACK_STATES && c.tx.una < h.ackSeq <= c.tx.nxt {
      var c1 := Acknowledging(c, h.ackSeq, now);
      SomethingAcknowledged(c, h, now);
      AdvanceLabels(c, c1, h.ackSeq);
    } else {
      NothingAcknowledged(c, h, now);
    }
  }

  /** The connection with the acknowledgment taken, before the queue is cleaned. */
  function Acknowledging(c: Conn, ackSeq: nat, now: int): Conn {
    c.(state := if c.state == SynReceived then Established else c.state,
       tx := c.tx.(una := ackSeq), rtt := OnAck(c.rtt, c.armed, now))
  }

  lemma SomethingAcknowledged(c: Conn, h: Header, now: int)
    requires c.state in ACK_STATES && c.tx.una < h.ackSeq <= c.tx.nxt
    ensures AckInput(Intended, c, h, now).0 == Clean(Acknowledging(c, h.ackSeq, now), h.ackSeq)
  {}

  lemma NothingAcknowledged(c: Conn, h: Header, now: int)
    requires !(c.state in ACK_STATES && c.tx.una < h.ackSeq <= c.tx.nxt)
    ensures var c' := AckInput(Intended, c, h, now).0; c' == c.(state := c'.state)
  {}

  // ----------------------------------------------------------------------- other steps

  /** c' keeps what c has of the labels. */
  predicate SameLabels(c: Conn, c': Conn) {
    && (Solid(c.tx.q) ==> Solid(c'.tx.q)) && (Floor(c) ==> Floor(c')) && Running(c')
    && (Labelled(c') <==> Labelled(c))
  }

  lemma EmptyLabels(c: Conn, h: Header)
    requires Running(c) && c.tx.inflight <= |c.tx.q|
    ensures SameLabels(c, QueueEmptyInput(c, h).0)
  {}

  lemma FinLabels(c: Conn, data: seq<byte>)
    requires Running(c) && c.tx.inflight <= |c.tx.q| && (c.state == FinWait2 ==> c.tx.q == [])
    ensures SameLabels(c, FinInput(c, data))
  {}

  lemma {:induction false} StampAllNumbers(q: seq<TxSeg>, nxt: nat)
    ensures forall i :: 0 <= i < |q| ==>
              nxt <= StampAll(q, nxt)[i].seqno && StampAll(q, nxt)[i] == q[i].(seqno := StampAll(q, nxt)[i].seqno,
                                                                             endSeq := StampAll(q, nxt)[i].endSeq)
  {
    if q == [] {
    } else {
      StampAllNumbers(q[..|q| - 1], nxt);
    }
  }

  lemma SentNoneBelow(st: TxState, k: nat)
    requires st.una <= st.nxt && k <= |st.q|
    ensures var st' := SendNext(Intended, st, k).(inflight := k);
            && NoneBelow(st') && (Solid(st.q) ==> Solid(st'.q))
            && (st.q != [] ==> st'.q != [] && st'.q[0].syn == st.q[0].syn)
  {
    StampAllNumbers(st.q[..k], st.nxt);
    var q' := SendNext(Intended, st, k).q;
    assert forall i :: 0 <= i < |st.q| ==> q'[i] == st.q[i].(seqno := q'[i].seqno, endSeq := q'[i].endSeq);
  }

  lemma SendMoreLabels(c: Conn, now: int)
    requires Running(c) && Shaped(c) && c.tx.una <= c.tx.nxt
    ensures SameLabels(c, SendMore(Intended, c, now))
  {
    SendMoreKeeps(Intended, c, now);
    if c.state in {Established, FinWait1, FinWait2} && c.tx.inflight == 0 && c.tx.q != [] {
      SentNoneBelow(c.tx, Min(|c.tx.q|, 3));
      assert SendMore(Intended, c, now).tx.inflight > 0;
    }
  }

  lemma {:induction false} DeliverLabels(c: Conn, h: Header, data: seq<byte>, now: int)
    requires Running(c) && Shaped(c) && c.tx.una <= c.tx.nxt && (c.state == FinWait2 ==> c.tx.q == [])
    ensures SameLabels(c, Deliver(Intended, c, h, data, now))
  {
    var c3 := TextInput(c, h, data);
    assert SameLabels(c, c3) && Shaped(c3);
    FinLabels(c3, data);
    FinShapes(c3, data);
    var c4 := if h.fin && h.seqno == c.rx.rcvNxt then FinInput(c3, data) else c3;
    SendMoreLabels(c4, now);
  }

  lemma {:induction false} AckedLabels(c: Conn, h: Header, data: seq<byte>, now: int)
    requires Running(c) && Shaped(c) && c.tx.una <= c.tx.nxt && (c.state == FinWait2 ==> c.tx.q == [])
    requires c.state !in {Close, Listen, SynSent}
    ensures SameLabels(c, AckedInput(Intended, c, h, data, now))
  {
    EmptyLabels(c, h);
    EmptyShapes(c, h);
    DeliverLabels(QueueEmptyInput(c, h).0, h, data, now);
  }

  lemma {:induction false} SyncedLabels(c: Conn, h: Header, data: seq<byte>, now: int)
    requires Tidy(c) && c.state !in {Close, Listen, SynSent}
    ensures var c' := SyncedInput(Intended, c, h, data, now);
            && Solid(c'.tx.q) && Floor(c') && Running(c')
            && (Labelled(c') <==> !Splits(c, Arrival(h, data)))
  {
    if Considered(c, h, data) {
      AckLabels(c, h, now);
      AckShapes(c, h, now);
      AckForward(Intended, c, h, now);
      AckStages(c, h, now);
      var (c1, dropped) := AckInput(Intended, c, h, now);
      if !dropped {
        AckedLabels(c1, h, data, now);
      }
    }
  }

  lemma {:induction false} AckStages(c: Conn, h: Header, now: int)
    requires Staged(c) && c.state !in {Close, Listen, SynSent}
    ensures Staged(AckInput(Intended, c, h, now).0)
  {}

  /** A SYN is answered: nothing but the SYN was queued. */
  lemma SynSentLabels(c: Conn, h: Header)
    requires Tidy(c) && c.state == SynSent
    ensures var c' := SynSentInput(Intended, c, h);
            Solid(c'.tx.q) && Floor(c') && Running(c') && Labelled(c') && Staged(c')
  {
    NoBytes(c);
    var c1 := c.(irs := h.seqno, rx := c.rx.(rcvNxt := h.seqno + 1), log := c.log.(synSeen := true));
    var c2 := c1.(tx := c1.tx.(una := h.ackSeq));
    assert Sound(c2);
    if c.iss < h.ackSeq <= c.tx.nxt {
      CleanFloors(c2, h.ackSeq);
      CleanLabels(c2, h.ackSeq);
      NothingLeft(c2.tx);
    }
  }

  /** An acknowledgment of everything sent leaves nothing in flight. */
  lemma NothingLeft(st: TxState)
    requires Tiled(st) && st.una == st.nxt
    ensures CleanRtoQueue(st, st.una).inflight == 0
  {
    CleanIsExact(st, st.una);
    forall i | 0 <= i < st.inflight
      ensures st.q[i].endSeq <= st.nxt
    {
      TilesGrow(st.q[..st.inflight], st.nxt, i);
    }
  }

  /** Without accepted bytes nothing queued has any. */
  lemma NoBytes(c: Conn)
    requires Sound(c) && c.log.accepted == []
    ensures c.log.acked == [] && forall i :: 0 <= i < |c.tx.q| ==> c.tx.q[i].data == []
  {
    assert Payload(c.tx.q) == [];
    NoPayload(c.tx.q);
  }

  lemma {:induction false} NoPayload(q: seq<TxSeg>)
    requires Payload(q) == []
    ensures forall i :: 0 <= i < |q| ==> q[i].data == []
  {
    if q == [] {
    } else {
      NoPayload(q[..|q| - 1]);
      assert forall i :: 0 <= i < |q| - 1 ==> q[i] == q[..|q| - 1][i];
    }
  }

  lemma QueueLabels(c: Conn, s: TxSeg, now: int)
    requires Solid(c.tx.q) && Solid([s]) && Floor(c) && Running(c) && Labelled(c) && c.tx.una <= c.tx.nxt
    requires c.tx.inflight <= |c.tx.q| && (c.tx.inflight > 0 || c.tx.q == []) && s.seqno == 0 && !s.syn
    ensures var c' := Queue(c, s, now);
            Solid(c'.tx.q) && Floor(c') && Running(c') && Labelled(c') && c'.tx.una <= c'.tx.nxt
  {
    assert [s][0] == s;
  }

  lemma {:induction false} QueueEachLabels(c: Conn, segs: seq<TxSeg>, now: int)
    requires Solid(c.tx.q) && Solid(segs) && Floor(c) && Running(c) && Labelled(c) && c.tx.una <= c.tx.nxt
    requires c.tx.inflight <= |c.tx.q| && (c.tx.inflight > 0 || c.tx.q == [])
    requires forall i :: 0 <= i < |segs| ==> segs[i].seqno == 0 && !segs[i].syn
    ensures var c' := QueueEach(c, segs, now); Solid(c'.tx.q) && Floor(c') && Running(c') && Labelled(c')
    decreases |segs|
  {
    if segs == [] {
    } else {
      QueueLabels(c, segs[0], now);
      QueueEachLabels(Queue(c, segs[0], now), segs[1..], now);
    }
  }

  lemma {:induction false} WriteLabels(c: Conn, bytes: seq<byte>, now: int)
    requires Tidy(c) && Orderly(c, Write(bytes))
    ensures var c' := WriteCall(c, bytes, now); Solid(c'.tx.q) && Floor(c') && Running(c') && Labelled(c')
  {
    if c.err == NoErr && c.state in {Established, CloseWait} && bytes != [] {
      ChunksCut(bytes, c.smss);
      QueueEachLabels(c, Chunks(bytes, c.smss), now);
      QueueEachKeeps(c, Chunks(bytes, c.smss), now);
    }
  }

  lemma CloseLabels(c: Conn, now: int)
    requires Tidy(c) && Orderly(c, CloseCall)
    ensures var c' := CloseSocket(c, now); Solid(c'.tx.q) && Floor(c') && Running(c') && Labelled(c')
  {
    if c.state == Established {
      QueueFinLabels(c.(state := FinWait1), now);
    } else if c.state == CloseWait {
      QueueFinLabels(c, now);
    }
  }

  lemma QueueFinLabels(c: Conn, now: int)
    requires Solid(c.tx.q) && Floor(c) && Running(c) && Labelled(c) && c.tx.una <= c.tx.nxt
    requires c.tx.inflight <= |c.tx.q| && (c.tx.inflight > 0 || c.tx.q == [])
    ensures var c' := QueueFin(c, now); Solid(c'.tx.q) && Floor(c') && Running(c') && Labelled(c')
  {
    QueueLabels(c, Fresh([], false, true, false), now);
  }

  lemma ConnectLabels(c: Conn, iss: nat, now: int)
    requires Tidy(c)
    ensures var c' := ConnectCall(c, iss, now); Solid(c'.tx.q) && Floor(c') && Running(c') && Labelled(c')
  {
    if c.state == Close {
      assert c.tx == TxState(0, 0, [], 0) && c.log.acked == [];
      assert ConnectCall(c, iss, now).tx == Connected(iss);
      assert Connected(iss).q == [Stamp(Fresh([], true, false, false), iss)];
    }
  }

  lemma TimerLabels(c: Conn, now: int, e: Event)
    requires Tidy(c) && !e.Arrival? && !e.Connect? && !e.Write? && !e.CloseCall? && Expires(c, e)
    ensures var c' := Next(Intended, c, now, e); Solid(c'.tx.q) && Floor(c') && Running(c') && Labelled(c')
  {
    if e.DataTimer? {
      DataTimerLabels(c, now);
    }
  }

  lemma DataTimerLabels(c: Conn, now: int)
    requires Tidy(c) && c.armed.Some?
    ensures var c' := DataExpiry(c, now); Solid(c'.tx.q) && Floor(c') && Running(c') && Labelled(c')
  {}

  /** A step in order keeps the labels right exactly if no acknowledgment splits a
      segment in flight. */
  lemma {:induction false} StepLabels(c: Conn, now: int, e: Event)
    requires Tidy(c) && Orderly(c, e) && Polite(c, e) && Expires(c, e)
    ensures Tidy(Next(Intended, c, now, e)) <==> !Splits(c, e)
  {
    StepSound(c, now, e);
    StepForward(Intended, c, now, e);
    StepKeepsOpening(Intended, c, now, e);
    StepStages(c, now, e);
    if !e.Arrival? {
      CallLabels(c, now, e);
    } else if c.state == SynSent {
      SynSentLabels(c, e.h);
    } else if c.state !in {Close, Listen} {
      SyncedLabels(c, e.h, e.data, now);
    }
  }

  lemma {:induction false} CallLabels(c: Conn, now: int, e: Event)
    requires Tidy(c) && Orderly(c, e) && Expires(c, e) && !e.Arrival?
    ensures var c' := Next(Intended, c, now, e); Solid(c'.tx.q) && Floor(c') && Running(c') && Labelled(c')
  {
    match e
    case Connect(iss) => ConnectLabels(c, iss, now);
    case Write(bytes) => WriteLabels(c, bytes, now);
    case CloseCall => CloseLabels(c, now);
    case _ => TimerLabels(c, now, e);
  }

  /** Nothing is accepted before the connection stands, nothing queued in FIN_WAIT_2. */
  lemma {:induction false} StepStages(c: Conn, now: int, e: Event)
    requires Sound(c) && Staged(c) && Opening(c) && Orderly(c, e)
    ensures Staged(Next(Intended, c, now, e))
  {
    if e.Arrival? {
      ArrivalConnects(Intended, c, e.h, e.data, now);
      StepForward(Intended, c, now, e);
      ArrivalStages(c, e.h, e.data, now);
    } else if e.Write? {
      QueueEachKeeps(c, Chunks(e.bytes, c.smss), now);
    } else {
      CallStages(c, now, e);
    }
  }

  lemma CallStages(c: Conn, now: int, e: Event)
    requires Sound(c) && Staged(c) && Opening(c) && !e.Arrival? && !e.Write?
    ensures Staged(Next(Intended, c, now, e))
  {
    if e.CloseCall? {
      CloseStages(c, now);
    } else if e.DataTimer? {
      DataTimerStages(c, now);
    }
  }

  lemma CloseStages(c: Conn, now: int)
    requires Staged(c) && c.state != Listen
    ensures Staged(CloseSocket(c, now))
  {}

  lemma DataTimerStages(c: Conn, now: int)
    requires Staged(c)
    ensures Staged(DataExpiry(c, now))
  {}

  lemma {:induction false} ArrivalStages(c: Conn, h: Header, data: seq<byte>, now: int)
    requires Staged(c) && c.tx.inflight <= |c.tx.q|
    ensures var c' := Input(Intended, c, h, data, now); c'.state == FinWait2 ==> c'.tx.q == []
  {
    if c.state !in {Close, Listen, SynSent} {
      AckStages(c, h, now);
      DeliverStages(QueueEmptyInput(AckInput(Intended, c, h, now).0, h).0, h, data, now);
    }
  }

  lemma DeliverStages(c: Conn, h: Header, data: seq<byte>, now: int)
    requires c.state == FinWait2 ==> c.tx.q == []
    ensures var c' := Deliver(Intended, c, h, data, now); c'.state == FinWait2 ==> c'.tx.q == []
  {
    var c3 := TextInput(c, h, data);
    assert c3.state == c.state && c3.tx == c.tx;
    FinStages(c3, data);
    SendMoreKeeps(Intended, c3, now);
    SendMoreKeeps(Intended, FinInput(c3, data), now);
  }

  lemma FinStages(c: Conn, data: seq<byte>)
    ensures FinInput(c, data).tx == c.tx && (FinInput(c, data).state == FinWait2 ==> c.state == FinWait2)
  {}

  // ------------------------------------------------------------------ the frames sent

  /** The bytes of the frame, if any, are those of the stream written at its number;
      a FIN is behind all that was written and ever will be. */
  ghost predicate FrameFits(f: Frame, c: Conn) {
    && Agrees(Segment(f.seqno, f.data, f.psh), c.log.accepted, c.iss + 1)
    && (f.fin ==> f.data == [] && c.log.finsQueued > 0 && c.iss + 1 + |c.log.accepted| <= f.seqno)
  }

  ghost predicate FramesFit(c: Conn) {
    && (forall i :: 0 <= i < |c.log.sent| ==> FrameFits(c.log.sent[i], c))
    && (c.state == Close ==> c.log.sent == [])
  }

  /** No bytes are queued behind a FIN, so none have been accepted that it does not end. */
  lemma FinIsLast(q: seq<TxSeg>, i: nat)
    requires FinsLast(q) && i < |q| && q[i].fin && q[i].data == []
    ensures Payload(q) == Payload(q[..i]) && Fins(q) > 0
  {
    var r := q[i..];
    assert q == q[..i] + r && r == [q[i]] + r[1..];
    FinsAppend(q[..i], r);
    PayloadAppend(q[..i], r);
    FinsAppend([q[i]], r[1..]);
    FinsOne(q[i]);
    FirstBytes(r);
  }

  /** Everything in flight fits under its own number. */
  lemma InFlightFrameFits(c: Conn, i: nat)
    requires Sound(c) && Solid(c.tx.q) && i < c.tx.inflight
    ensures FrameFits(FrameOf(c.tx.q[i], c.tx.q[i].seqno), c)
  {
    if c.tx.q[i].data != [] {
      InFlightAgrees(c, i, c.tx.q[i].psh);
    } else if c.tx.q[i].fin {
      FinIsLast(c.tx.q, i);
      NumberFloor(c, i);
    }
  }

  /** snd_una is the number of the head of the queue, if that has bytes. */
  lemma HeadIsUna(c: Conn)
    requires Tidy(c) && c.armed.Some? && c.tx.q[0].data != []
    ensures c.tx.una == c.tx.q[0].seqno
  {
    InFlightNumber(c, 0);
    NotClosed(c, 0);
    assert Payload(c.tx.q[..0]) == [];
  }

  /** So what the timer sends again fits as well. */
  lemma HeadFrameFits(c: Conn)
    requires Tidy(c) && c.armed.Some? && c.tx.q != []
    ensures FrameFits(FrameOf(c.tx.q[0], c.tx.una), c)
  {
    if c.tx.q[0].data != [] {
      HeadIsUna(c);
      InFlightFrameFits(c, 0);
    } else if c.tx.q[0].fin {
      FinIsLast(c.tx.q, 0);
      NotClosed(c, 0);
      assert Payload(c.tx.q[..0]) == [];
    }
  }

  ghost predicate IsInFlight(c: Conn, f: Frame) {
    exists i :: 0 <= i < c.tx.inflight && i < |c.tx.q| && f == FrameOf(c.tx.q[i], c.tx.q[i].seqno)
  }

  /** The frames sent between c and c' are in flight in c'. */
  ghost predicate SendsInFlight(c: Conn, c': Conn) {
    && c.log.sent <= c'.log.sent
    && forall j :: |c.log.sent| <= j < |c'.log.sent| ==> IsInFlight(c', c'.log.sent[j])
  }

  lemma {:induction false} FramesOfAt(q: seq<TxSeg>)
    ensures |FramesOf(q)| == |q| && forall i :: 0 <= i < |q| ==> FramesOf(q)[i] == FrameOf(q[i], q[i].seqno)
  {
    if q == [] {
    } else {
      FramesOfAt(q[..|q| - 1]);
    }
  }

  lemma SendMoreSends(c: Conn, now: int)
    ensures SendsInFlight(c, SendMore(Intended, c, now))
  {
    var pending := Min(|c.tx.q|, 3);
    var tx, c' := SendNext(Intended, c.tx, pending), SendMore(Intended, c, now);
    FramesOfAt(tx.q[..pending]);
    forall j | |c.log.sent| <= j < |c'.log.sent|
      ensures IsInFlight(c', c'.log.sent[j])
    {
      assert c'.log.sent[j] == FrameOf(c'.tx.q[j - |c.log.sent|], c'.tx.q[j - |c.log.sent|].seqno);
    }
  }

  lemma {:induction false} AckedSends(c: Conn, h: Header, data: seq<byte>, now: int)
    ensures SendsInFlight(c, AckedInput(Intended, c, h, data, now))
  {
    var c1 := QueueEmptyInput(c, h).0;
    var c3 := TextInput(c1, h, data);
    FinSendsNothing(c3, data);
    var c4 := if h.fin && h.seqno == c1.rx.rcvNxt then FinInput(c3, data) else c3;
    assert c4.log.sent == c.log.sent;
    SendMoreSends(c4, now);
  }

  lemma FinSendsNothing(c: Conn, data: seq<byte>)
    ensures FinInput(c, data).log.sent == c.log.sent
  {}

  lemma AckSendsNothing(c: Conn, h: Header, now: int)
    ensures AckInput(Intended, c, h, now).0.log.sent == c.log.sent
  {}

  lemma SyncedSends(c: Conn, h: Header, data: seq<byte>, now: int)
    ensures SendsInFlight(c, SyncedInput(Intended, c, h, data, now))
  {
    AckSendsNothing(c, h, now);
    AckedSends(AckInput(Intended, c, h, now).0, h, data, now);
  }

  lemma {:induction false} QueueEachSends(c: Conn, segs: seq<TxSeg>, now: int)
    requires c.tx.inflight > 0 || c.tx.q == []
    ensures SendsInFlight(c, QueueEach(c, segs, now))
    ensures c.tx.inflight > 0 ==> QueueEach(c, segs, now).log.sent == c.log.sent
    ensures c.tx.inflight > 0 ==> QueueEach(c, segs, now).tx.inflight == c.tx.inflight
    ensures c.tx.q <= QueueEach(c, segs, now).tx.q
    decreases |segs|
  {
    if segs == [] {
    } else {
      var c1, c' := Queue(c, segs[0], now), QueueEach(c, segs, now);
      QueueEachSends(c1, segs[1..], now);
      if c.tx.inflight == 0 {
        assert c1.tx.q[0] == Stamp(segs[0], c.tx.nxt) == c'.tx.q[0];
        assert c'.log.sent[|c.log.sent|] == FrameOf(c'.tx.q[0], c'.tx.q[0].seqno);
      }
    }
  }

  lemma WriteSends(c: Conn, bytes: seq<byte>, now: int)
    requires Orderly(c, Write(bytes))
    ensures SendsInFlight(c, WriteCall(c, bytes, now))
  {
    if c.err == NoErr && c.state in {Established, CloseWait} && bytes != [] {
      QueueEachSends(c, Chunks(bytes, c.smss), now);
    }
  }

  lemma CloseSends(c: Conn, now: int)
    requires Orderly(c, CloseCall)
    ensures SendsInFlight(c, CloseSocket(c, now))
  {
    var fin := Fresh([], false, true, false);
    if c.state == Established {
      QueueEachSends(c.(state := FinWait1), [fin], now);
    } else if c.state == CloseWait {
      QueueEachSends(c, [fin], now);
    }
  }

  lemma ConnectSends(c: Conn, iss: nat, now: int)
    requires Tidy(c)
    ensures SendsInFlight(c, ConnectCall(c, iss, now))
  {
    if c.state == Close {
      QueueEachSends(Initiate(c, iss), [Fresh([], true, false, false)], now);
      var c' := ConnectCall(c, iss, now);
      assert c'.tx.q == [Stamp(Fresh([], true, false, false), iss)];
    }
  }

  /** Every frame is of something in flight, or the head of the queue again under snd_una. */
  lemma {:induction false} StepSends(c: Conn, now: int, e: Event)
    requires Tidy(c) && Orderly(c, e)
    ensures var c' := Next(Intended, c, now, e);
            || SendsInFlight(c, c')
            || (&& (e == SynTimer || e == DataTimer) && c.tx.q != []
                && c'.log.sent == c.log.sent + [FrameOf(c.tx.q[0], c.tx.una)])
  {
    if e.Arrival? {
      if c.state !in {Close, Listen, SynSent} {
        SyncedSends(c, e.h, e.data, now);
      }
    } else if e.SynTimer? || e.DataTimer? {
      TimerSends(c, now, e);
    } else {
      CallSends(c, now, e);
    }
  }

  lemma TimerSends(c: Conn, now: int, e: Event)
    requires e == SynTimer || e == DataTimer
    ensures var c' := Next(Intended, c, now, e);
            || c'.log.sent == c.log.sent
            || (c.tx.q != [] && c'.log.sent == c.log.sent + [FrameOf(c.tx.q[0], c.tx.una)])
  {}

  lemma CallSends(c: Conn, now: int, e: Event)
    requires Tidy(c) && Orderly(c, e) && !e.Arrival? && !e.SynTimer? && !e.DataTimer?
    ensures SendsInFlight(c, Next(Intended, c, now, e))
  {
    match e
    case Write(bytes) => WriteSends(c, bytes, now);
    case CloseCall => CloseSends(c, now);
    case Connect(iss) => ConnectSends(c, iss, now);
    case _ =>
  }

  lemma CallAfterFin(c: Conn, now: int, e: Event)
    requires !e.Arrival? && (c.state == Close ==> c.tx.q == [])
    ensures var c' := Next(Intended, c, now, e); c'.state == Close ==> c'.log.sent == c.log.sent
  {
    if e.Write? {
      QueueEachKeeps(c, Chunks(e.bytes, c.smss), now);
    }
  }

  lemma {:induction false} StepAfterFin(c: Conn, now: int, e: Event)
    requires Polite(c, e) && (c.state == Close ==> c.tx.q == [])
    ensures var c' := Next(Intended, c, now, e);
            && c.log.finsQueued <= c'.log.finsQueued
            && (c.log.finsQueued > 0 ==> c'.log.accepted == c.log.accepted)
            && (c'.state == Close ==> c'.log.sent == c.log.sent)
  {
    if e.Arrival? {
      ArrivalConnects(Intended, c, e.h, e.data, now);
      StepForward(Intended, c, now, e);
    } else {
      CallLogs(Intended, c, now, e);
      CallAfterFin(c, now, e);
    }
  }

  lemma FrameStillFits(f: Frame, c: Conn, c': Conn)
    requires FrameFits(f, c) && c.state != Close && Later(c, c') && c.log.finsQueued <= c'.log.finsQueued
    requires c.log.finsQueued > 0 ==> c'.log.accepted == c.log.accepted
    ensures FrameFits(f, c')
  {}

  /** What goes out in a step fits the stream as it is after the step. */
  lemma {:induction false} NewFrameFits(c: Conn, now: int, e: Event, j: nat)
    requires Tidy(c) && Orderly(c, e) && Polite(c, e) && Expires(c, e) && !Splits(c, e)
    requires |c.log.sent| <= j < |Next(Intended, c, now, e).log.sent|
    ensures FrameFits(Next(Intended, c, now, e).log.sent[j], Next(Intended, c, now, e))
  {
    var c' := Next(Intended, c, now, e);
    StepSends(c, now, e);
    StepLabels(c, now, e);
    if SendsInFlight(c, c') {
      var i :| 0 <= i < c'.tx.inflight && i < |c'.tx.q| && c'.log.sent[j] == FrameOf(c'.tx.q[i], c'.tx.q[i].seqno);
      InFlightFrameFits(c', i);
    } else {
      HeadStillFits(c, now, e);
    }
  }

  lemma {:induction false} HeadStillFits(c: Conn, now: int, e: Event)
    requires Tidy(c) && Polite(c, e) && Expires(c, e) && !e.Arrival?
    requires c.tx.q != [] && (e == SynTimer || e == DataTimer)
    ensures FrameFits(FrameOf(c.tx.q[0], c.tx.una), Next(Intended, c, now, e))
  {
    HeadFrameFits(c);
    StepLater(c, now, e);
    StepAfterFin(c, now, e);
    FrameStillFits(FrameOf(c.tx.q[0], c.tx.una), c, Next(Intended, c, now, e));
  }

  lemma {:induction false} StepFrames(c: Conn, now: int, e: Event)
    requires Tidy(c) && FramesFit(c)
    requires Orderly(c, e) && Polite(c, e) && Expires(c, e) && !Splits(c, e)
    ensures FramesFit(Next(Intended, c, now, e))
  {
    var c' := Next(Intended, c, now, e);
    StepSends(c, now, e);
    StepLater(c, now, e);
    StepAfterFin(c, now, e);
    forall j | 0 <= j < |c'.log.sent|
      ensures FrameFits(c'.log.sent[j], c')
    {
      if j < |c.log.sent| {
        FrameStillFits(c.log.sent[j], c, c');
      } else {
        NewFrameFits(c, now, e, j);
      }
    }
  }

  // ----------------------------------------------------------------------- whole runs

  /** What a caller and a network can see to before an event: that it is in order, that
      a timer expires when armed, and that no acknowledgment splits a segment. */
  ghost predicate Careful(c: Conn, e: Event) {
    Orderly(c, e) && Polite(c, e) && Expires(c, e) && !Splits(c, e)
  }

  ghost predicate AllCareful(smss: Mss, es: seq<(int, Event)>) {
    forall k :: 0 <= k < |es| ==> Careful(RunAll(Intended, New(smss), es[..k]), es[k].1)
  }

  lemma CarefulPrefix(smss: Mss, es: seq<(int, Event)>, k: nat)
    requires AllCareful(smss, es) && k <= |es|
    ensures AllCareful(smss, es[..k])
  {
    forall j | 0 <= j < k
      ensures es[..k][..j] == es[..j] && es[..k][j] == es[j]
    {}
  }

  /** Over every careful run, each frame that went out for a queued segment, for the
      first time or again, carries the bytes that the stream has at its number. */
  lemma {:induction false} RunFrames(smss: Mss, es: seq<(int, Event)>)
    requires AllCareful(smss, es)
    ensures Tidy(RunAll(Intended, New(smss), es)) && FramesFit(RunAll(Intended, New(smss), es))
  {
    if es == [] {
    } else {
      var k := |es| - 1;
      CarefulPrefix(smss, es, k);
      RunFrames(smss, es[..k]);
      var c := RunAll(Intended, New(smss), es[..k]);
      assert Careful(c, es[k].1);
      StepLabels(c, es[k].0, es[k].1);
      StepFrames(c, es[k].0, es[k].1);
    }
  }

  // ------------------------------------------------------------------ when it goes wrong

  /** What the timer sends is in flight under its number exactly if snd_una is at its
      beginning. */
  lemma RetransmissionFits(c: Conn, psh: bool)
    requires Sound(c) && c.tx.inflight > 0 && c.tx.q[0].data != [] && c.tx.una < c.tx.q[0].endSeq
    ensures InFlight(c, Segment(c.tx.una, c.tx.q[0].data, psh)) <==> c.tx.una == c.tx.q[0].seqno
  {
    var s := Segment(c.tx.una, c.tx.q[0].data, psh);
    if InFlight(c, s) {
      var i :| 0 <= i < c.tx.inflight <= |c.tx.q| && InPlace(c.tx.q[i], s);
      if i > 0 {
        TilesBehind(c.tx.q[..c.tx.inflight], c.tx.nxt, i);
      }
    } else if c.tx.una == c.tx.q[0].seqno {
      assert InPlace(c.tx.q[0], s);
    }
  }

  lemma {:induction false} TilesBehind(q: seq<TxSeg>, nxt: nat, i: nat)
    requires Tiles(q, nxt) && 0 < i < |q|
    ensures q[0].endSeq <= q[i].seqno
  {
    TilesGrow(q, nxt, i - 1);
    if i == 1 {
    } else {
      TilesGrow(q, nxt, i - 2);
      TilesBehind(q, nxt, i - 1);
    }
  }
}
