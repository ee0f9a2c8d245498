/** Segments that wait to be sent: when one of them ever will be. */
module Waiting {
  import opened Common
  import opened SendQueue
  import opened Rto
  import opened Connection
  import opened Diagram
  import opened Flight
  import opened Frames
  import opened Openings
  import opened Progress
  import opened QueueShape

  /** The segments that have not been sent, in order. */
  function Unsent(q: seq<TxSeg>): seq<TxSeg> {
    if q == [] then []
    else Unsent(q[..|q| - 1]) + if q[|q| - 1].seqno == 0 then [q[|q| - 1]] else []
  }

  lemma {:induction false} UnsentAppend(p: seq<TxSeg>, q: seq<TxSeg>)
    ensures Unsent(p + q) == Unsent(p) + Unsent(q)
  {
    if q == [] {
      assert p + q == p;
    } else {
      UnsentAppend(p, q[..|q| - 1]);
      assert (p + q)[..|p + q| - 1] == p + q[..|q| - 1];
    }
  }

  lemma {:induction false} AllSent(q: seq<TxSeg>)
    requires forall i :: 0 <= i < |q| ==> q[i].seqno > 0
    ensures Unsent(q) == []
  {
    if q == [] {
    } else {
      AllSent(q[..|q| - 1]);
    }
  }

  lemma CleanLeavesUnsent(st: TxState, una: nat)
    ensures Unsent(CleanRtoQueue(st, una).q) == Unsent(st.q)
  {
    var k := Cleaned(st.q, una);
    CleanedPrefix(st.q, una);
    assert st.q == st.q[..k] + st.q[k..];
    UnsentAppend(st.q[..k], st.q[k..]);
    AllSent(st.q[..k]);
  }

  lemma {:induction false} QueueAllLeavesUnsent(st: TxState, segs: seq<TxSeg>)
    ensures Unsent(st.q) <= Unsent(QueueAll(st, segs).q)
    decreases |segs|
  {
    if segs == [] {
    } else {
      var st' := QueueTransmit(st, segs[0]);
      UnsentAppend(st.q, [segs[0]]);
      UnsentAppend(st.q, [Stamp(segs[0], st.nxt)]);
      QueueAllLeavesUnsent(st', segs[1..]);
    }
  }

  /** The peer has closed its side, or both sides have. */
  const PEER_CLOSED := {CloseWait, LastAck, Closing, TimeWait}

  lemma {:induction false} AckLeavesUnsent(form: Form, c: Conn, h: Header, now: int)
    requires c.state in PEER_CLOSED
    ensures var c' := AckInput(form, c, h, now).0; c'.state == c.state && Unsent(c'.tx.q) == Unsent(c.tx.q)
  {
    CleanLeavesUnsent(c.tx.(una := h.ackSeq), h.ackSeq);
  }

  lemma {:induction false} DeliverSendsNothing(form: Form, c: Conn, h: Header, data: seq<byte>, now: int)
    requires c.state in PEER_CLOSED
    ensures Deliver(form, c, h, data, now).tx == c.tx
  {
    assert TextInput(c, h, data) == c;
    var c4 := if h.fin && h.seqno == c.rx.rcvNxt then FinInput(c, data) else c;
    FinStaysClosed(c, data);
    ClosedSendsNothing(form, c4, now);
  }

  lemma ClosedSendsNothing(form: Form, c: Conn, now: int)
    requires c.state in PEER_CLOSED
    ensures SendMore(form, c, now) == c
  {}

  lemma FinStaysClosed(c: Conn, data: seq<byte>)
    requires c.state in PEER_CLOSED
    ensures FinInput(c, data).state in PEER_CLOSED && FinInput(c, data).tx == c.tx
  {}

  lemma {:induction false} SyncedLeavesUnsent(form: Form, c: Conn, h: Header, data: seq<byte>, now: int)
    requires c.state in PEER_CLOSED
    ensures Unsent(SyncedInput(form, c, h, data, now).tx.q) == Unsent(c.tx.q)
  {
    AckLeavesUnsent(form, c, h, now);
    var (c1, _) := AckInput(form, c, h, now);
    DeliverSendsNothing(form, QueueEmptyInput(c1, h).0, h, data, now);
  }

  lemma {:induction false} CallLeavesUnsent(form: Form, c: Conn, now: int, e: Event)
    requires c.state in PEER_CLOSED && !e.Arrival?
    ensures Unsent(c.tx.q) <= Unsent(Next(form, c, now, e).tx.q)
  {
    match e
    case Write(bytes) => WriteLeavesUnsent(c, bytes, now);
    case CloseCall => CloseLeavesUnsent(c, now);
    case DataTimer => DataTimerLeavesUnsent(c, now);
    case _ =>
  }

  lemma WriteLeavesUnsent(c: Conn, bytes: seq<byte>, now: int)
    ensures Unsent(c.tx.q) <= Unsent(WriteCall(c, bytes, now).tx.q)
  {
    QueueEachKeeps(c, Chunks(bytes, c.smss), now);
    QueueAllLeavesUnsent(c.tx, Chunks(bytes, c.smss));
  }

  lemma CloseLeavesUnsent(c: Conn, now: int)
    ensures Unsent(c.tx.q) <= Unsent(CloseSocket(c, now).tx.q)
  {
    QueueAllLeavesUnsent(c.tx, [Fresh([], false, true, false)]);
  }

  lemma DataTimerLeavesUnsent(c: Conn, now: int)
    ensures DataExpiry(c, now).tx == c.tx
  {}

  lemma {:induction false} StaysClosed(form: Form, c: Conn, now: int, e: Event)
    requires c.state in PEER_CLOSED
    ensures Next(form, c, now, e).state in PEER_CLOSED
  {
    if e.Arrival? {
      ArrivalLeads(form, c, e.h, e.data, now);
    } else {
      CallStaysClosed(form, c, now, e);
    }
  }

  lemma CallStaysClosed(form: Form, c: Conn, now: int, e: Event)
    requires c.state in PEER_CLOSED && !e.Arrival?
    ensures Next(form, c, now, e).state in PEER_CLOSED
  {
    if e.Write? {
      QueueEachKeeps(c, Chunks(e.bytes, c.smss), now);
    }
  }

  lemma {:induction false} StepLeavesUnsent(form: Form, c: Conn, now: int, e: Event)
    requires c.state in PEER_CLOSED
    ensures var c' := Next(form, c, now, e);
            c'.state in PEER_CLOSED && Unsent(c.tx.q) <= Unsent(c'.tx.q)
  {
    StaysClosed(form, c, now, e);
    if e.Arrival? {
      SyncedLeavesUnsent(form, c, e.h, e.data, now);
    } else {
      CallLeavesUnsent(form, c, now, e);
    }
  }

  /** Once the peer has closed, whatever waits to be sent waits for ever, though
      CLOSE_WAIT accepts more of it: no run of events, as written or as intended,
      gives any of it a sequence number or takes it off the queue. */
  lemma {:induction false} WaitingForEver(form: Form, c: Conn, es: seq<(int, Event)>)
    requires c.state in PEER_CLOSED
    ensures var c' := RunAll(form, c, es);
            c'.state in PEER_CLOSED && Unsent(c.tx.q) <= Unsent(c'.tx.q)
  {
    if es == [] {
    } else {
      var k := |es| - 1;
      WaitingForEver(form, c, es[..k]);
      StepLeavesUnsent(form, RunAll(form, c, es[..k]), es[k].0, es[k].1);
    }
  }

  /** Before that, an in-sequence segment that is looked at leaves nothing waiting
      with nothing in flight. */
  lemma {:induction false} ArrivalResumes(form: Form, c: Conn, h: Header, data: seq<byte>, now: int)
    requires c.state !in {Close, Listen, SynSent}
    requires Considered(c, h, data) && AckTaken(form, c, h) && h.seqno == c.rx.rcvNxt
    ensures var c' := Input(form, c, h, data, now);
            c'.state in {Established, FinWait1, FinWait2} ==> c'.tx.inflight > 0 || c'.tx.q == []
  {
    AckLeaves(form, c, h, now);
    AckedResumes(form, AckInput(form, c, h, now).0, h, data, now);
  }

  lemma {:induction false} AckedResumes(form: Form, c: Conn, h: Header, data: seq<byte>, now: int)
    requires c.state !in {Close, Listen, SynSent, SynReceived} && h.seqno == c.rx.rcvNxt
    ensures var c' := AckedInput(form, c, h, data, now);
            c'.state in {Established, FinWait1, FinWait2} ==> c'.tx.inflight > 0 || c'.tx.q == []
  {
    EmptyLeads(c, h);
    var (c1, done) := QueueEmptyInput(c, h);
    var c3 := TextInput(c1, h, data);
    var c4 := if h.fin then FinInput(c3, data) else c3;
    SendMoreResumes(form, c4, now);
  }

  lemma SendMoreResumes(form: Form, c: Conn, now: int)
    ensures var c' := SendMore(form, c, now);
            c'.state in {Established, FinWait1, FinWait2} ==> c'.tx.inflight > 0 || c'.tx.q == []
  {}

  // -------------------------------------------------------------------- when it is sent

  /** Something in flight of an open connection is not acknowledged. */
  predicate Outstanding(c: Conn) {
    c.state in {SynSent, SynReceived, Established, FinWait1} && c.tx.inflight > 0 ==> c.tx.una < c.tx.nxt
  }

  /** What orderly steps of a polite application keep, whatever is acknowledged. */
  ghost predicate Steady(c: Conn) {
    Sound(c) && Ordered(c) && Opening(c) && Staged(c) && Solid(c.tx.q) && Outstanding(c)
  }

  lemma CleanSteady(c: Conn, una: nat)
    requires Shaped(c) && Solid(c.tx.q) && una == c.tx.una <= c.tx.nxt
    ensures var c' := Clean(c, una); Solid(c'.tx.q) && (c'.tx.inflight > 0 ==> una < c'.tx.nxt)
  {
    CleanIsExact(c.tx, una);
    if CleanRtoQueue(c.tx, una).inflight > 0 {
      TilesGrow(c.tx.q[..c.tx.inflight], c.tx.nxt, Cleaned(c.tx.q, una));
    }
  }

  lemma {:induction false} AckSteady(c: Conn, h: Header, now: int)
    requires Steady(c) && c.state !in {Close, Listen, SynSent}
    ensures var c' := AckInput(Intended, c, h, now).0; Solid(c'.tx.q) && Outstanding(c')
  {
    var c1 := if c.state == SynReceived then c.(state := Established) else c;
    if c1.state in ACK_STATES && c.tx.una < h.ackSeq <= c.tx.nxt {
      CleanSteady(c1.(tx := c1.tx.(una := h.ackSeq), rtt := OnAck(c1.rtt, c1.armed, now)), h.ackSeq);
    } else {
      assert AckInput(Intended, c, h, now).0.tx == c.tx;
    }
  }

  lemma {:induction false} StampRaises(q: seq<TxSeg>, nxt: nat)
    requires q != [] && Solid(q) && forall i :: 0 <= i < |q| ==> !q[i].syn
    ensures nxt < AdvanceAll(q, nxt)
  {
    assert Advance(q[|q| - 1]) > 0;
  }

  lemma SendMoreSteady(c: Conn, now: int)
    requires Shaped(c) && Solid(c.tx.q) && Outstanding(c) && c.tx.una <= c.tx.nxt
    ensures var c' := SendMore(Intended, c, now); Solid(c'.tx.q) && Outstanding(c')
  {
    SendMoreKeeps(Intended, c, now);
    if c.state in {Established, FinWait1, FinWait2} && c.tx.inflight == 0 && c.tx.q != [] {
      var k := Min(|c.tx.q|, 3);
      SentNoneBelow(c.tx, k);
      StampRaises(c.tx.q[..k], c.tx.nxt);
    }
  }

  lemma {:induction false} AckedSteady(c: Conn, h: Header, data: seq<byte>, now: int)
    requires Shaped(c) && Solid(c.tx.q) && Outstanding(c) && c.tx.una <= c.tx.nxt
    requires c.state !in {Close, Listen, SynSent, SynReceived}
    ensures var c' := AckedInput(Intended, c, h, data, now); Solid(c'.tx.q) && Outstanding(c')
  {
    var c1 := QueueEmptyInput(c, h).0;
    assert c1.tx == c.tx && Outstanding(c1);
    EmptyShapes(c, h);
    var c3 := TextInput(c1, h, data);
    FinSteady(c3, data);
    FinShapes(c3, data);
    var c4 := if h.fin && h.seqno == c1.rx.rcvNxt then FinInput(c3, data) else c3;
    SendMoreSteady(c4, now);
  }

  lemma FinSteady(c: Conn, data: seq<byte>)
    requires Outstanding(c) && c.state != SynReceived
    ensures FinInput(c, data).tx == c.tx && Outstanding(FinInput(c, data))
  {}

  lemma {:induction false} SyncedSteady(c: Conn, h: Header, data: seq<byte>, now: int)
    requires Steady(c) && c.state !in {Close, Listen, SynSent}
    ensures var c' := SyncedInput(Intended, c, h, data, now); Solid(c'.tx.q) && Outstanding(c')
  {
    if Considered(c, h, data) {
      AckSteady(c, h, now);
      AckShapes(c, h, now);
      AckForward(Intended, c, h, now);
      AckLeaves(Intended, c, h, now);
      var (c1, dropped) := AckInput(Intended, c, h, now);
      if !dropped {
        AckedSteady(c1, h, data, now);
      }
    }
  }

  /** Before the connection stands, the SYN is all there is in the queue. */
  lemma OnlySyn(c: Conn)
    requires Steady(c) && c.state in {SynSent, SynReceived}
    ensures |c.tx.q| <= 1 && forall i :: 0 <= i < |c.tx.q| ==> c.tx.q[i].syn
  {
    NoBytes(c);
    forall i | 0 <= i < |c.tx.q|
      ensures c.tx.q[i].syn
    {
      if c.tx.q[i].fin {
        FinIsLast(c.tx.q, i);
      }
    }
  }

  lemma SynSentSteady(c: Conn, h: Header)
    requires Steady(c) && c.state == SynSent
    ensures var c' := SynSentInput(Intended, c, h); Solid(c'.tx.q) && Outstanding(c')
  {
    OnlySyn(c);
    var c1 := c.(irs := h.seqno, rx := c.rx.(rcvNxt := h.seqno + 1), log := c.log.(synSeen := true));
    var c2 := c1.(tx := c1.tx.(una := h.ackSeq));
    if c.iss < h.ackSeq <= c.tx.nxt {
      CleanSteady(c2, h.ackSeq);
    }
  }

  lemma QueueSteady(c: Conn, s: TxSeg, now: int)
    requires Solid(c.tx.q) && Solid([s]) && Outstanding(c) && c.tx.una <= c.tx.nxt && s.seqno == 0 && !s.syn
    requires c.tx.inflight > 0 || c.tx.q == []
    ensures var c' := Queue(c, s, now); Solid(c'.tx.q) && Outstanding(c') && c'.tx.una <= c'.tx.nxt
  {
    assert [s][0] == s;
  }

  lemma {:induction false} QueueEachSteady(c: Conn, segs: seq<TxSeg>, now: int)
    requires Solid(c.tx.q) && Solid(segs) && Outstanding(c) && c.tx.una <= c.tx.nxt
    requires c.tx.inflight > 0 || c.tx.q == []
    requires forall i :: 0 <= i < |segs| ==> segs[i].seqno == 0 && !segs[i].syn
    ensures var c' := QueueEach(c, segs, now); Solid(c'.tx.q) && Outstanding(c')
    decreases |segs|
  {
    if segs == [] {
    } else {
      QueueSteady(c, segs[0], now);
      QueueEachSteady(Queue(c, segs[0], now), segs[1..], now);
    }
  }

  lemma WriteSteady(c: Conn, bytes: seq<byte>, now: int)
    requires Steady(c) && Orderly(c, Write(bytes))
    ensures var c' := WriteCall(c, bytes, now); Solid(c'.tx.q) && Outstanding(c')
  {
    if c.err == NoErr && c.state in {Established, CloseWait} && bytes != [] {
      ChunksCut(bytes, c.smss);
      QueueEachSteady(c, Chunks(bytes, c.smss), now);
    }
  }

  lemma CloseSteady(c: Conn, now: int)
    requires Steady(c) && Orderly(c, CloseCall)
    ensures var c' := CloseSocket(c, now); Solid(c'.tx.q) && Outstanding(c')
  {
    var fin := Fresh([], false, true, false);
    if c.state == Established {
      QueueSteady(c.(state := FinWait1), fin, now);
    } else if c.state == CloseWait {
      QueueSteady(c, fin, now);
    }
  }

  lemma ConnectSteady(c: Conn, iss: nat, now: int)
    requires Steady(c)
    ensures var c' := ConnectCall(c, iss, now); Solid(c'.tx.q) && Outstanding(c')
  {
    if c.state == Close {
      assert ConnectCall(c, iss, now).tx == Connected(iss);
      assert Connected(iss).q == [Stamp(Fresh([], true, false, false), iss)];
    }
  }

  lemma {:induction false} StepSteady(c: Conn, now: int, e: Event)
    requires Steady(c) && Orderly(c, e) && Polite(c, e)
    ensures Steady(Next(Intended, c, now, e))
  {
    StepSound(c, now, e);
    StepForward(Intended, c, now, e);
    StepKeepsOpening(Intended, c, now, e);
    StepStages(c, now, e);
    if e.Arrival? {
      if c.state == SynSent {
        SynSentSteady(c, e.h);
      } else if c.state !in {Close, Listen} {
        SyncedSteady(c, e.h, e.data, now);
      }
    } else {
      CallSteady(c, now, e);
    }
  }

  lemma {:induction false} CallSteady(c: Conn, now: int, e: Event)
    requires Steady(c) && Orderly(c, e) && !e.Arrival?
    ensures var c' := Next(Intended, c, now, e); Solid(c'.tx.q) && Outstanding(c')
  {
    match e
    case Connect(iss) => ConnectSteady(c, iss, now);
    case Write(bytes) => WriteSteady(c, bytes, now);
    case CloseCall => CloseSteady(c, now);
    case _ =>
  }

  lemma {:induction false} RunSteady(smss: Mss, es: seq<(int, Event)>)
    requires Proper(smss, es)
    ensures Steady(RunAll(Intended, New(smss), es))
  {
    if es == [] {
    } else {
      var k := |es| - 1;
      ProperPrefix(smss, es, k);
      RunSteady(smss, es[..k]);
      StepSteady(RunAll(Intended, New(smss), es[..k]), es[k].0, es[k].1);
    }
  }

  lemma {:induction false} UnsentSuffix(q: seq<TxSeg>)
    requires Untransmitted(q)
    ensures Unsent(q) == q
  {
    if q == [] {
    } else {
      assert Untransmitted(q[..|q| - 1]);
      UnsentSuffix(q[..|q| - 1]);
    }
  }

  /** In a tiled queue what waits is what stands behind the segments in flight. */
  lemma UnsentIs(st: TxState)
    requires Tiled(st)
    ensures Unsent(st.q) == st.q[st.inflight..]
  {
    assert st.q == st.q[..st.inflight] + st.q[st.inflight..];
    UnsentAppend(st.q[..st.inflight], st.q[st.inflight..]);
    UnsentSuffix(st.q[st.inflight..]);
    forall i | 0 <= i < st.inflight
      ensures st.q[i].seqno > 0
    {
      TilesGrow(st.q[..st.inflight], st.nxt, i);
    }
    AllSent(st.q[..st.inflight]);
  }

  /** An acknowledgment of everything sent, and nothing else. */
  function AckAll(c: Conn): Event {
    Arrival(Ack(c.rx.rcvNxt, c.tx.nxt), [])
  }

  /** It leaves nothing in flight, and what waited is the queue. */
  lemma {:induction false} AckAllClears(c: Conn, now: int)
    requires Steady(c) && c.state in {Established, FinWait1} && Unsent(c.tx.q) != []
    ensures var (c', dropped) := AckInput(Intended, c, Ack(c.rx.rcvNxt, c.tx.nxt), now);
            && !dropped && c'.tx.inflight == 0 && c'.tx.q == Unsent(c.tx.q) && c'.state == c.state && c'.rx == c.rx
            && Shaped(c')
  {
    UnsentIs(c.tx);
    AckShapes(c, Ack(c.rx.rcvNxt, c.tx.nxt), now);
    AllCleaned(c.tx);
    AckAllIs(c, now);
  }

  lemma AckAllIs(c: Conn, now: int)
    requires Ordered(c) && c.state in {Established, FinWait1}
    ensures AckInput(Intended, c, Ack(c.rx.rcvNxt, c.tx.nxt), now)
         == (if c.tx.una < c.tx.nxt
             then Clean(c.(tx := c.tx.(una := c.tx.nxt), rtt := OnAck(c.rtt, c.armed, now)), c.tx.nxt)
             else c, false)
  {}

  /** An acknowledgment of everything sent removes what is in flight. */
  lemma AllCleaned(st: TxState)
    requires Tiled(st)
    ensures Cleaned(st.q, st.nxt) == st.inflight
  {
    CleanIsExact(st, st.nxt);
    forall i | 0 <= i < st.inflight
      ensures st.q[i].endSeq <= st.nxt
    {
      TilesGrow(st.q[..st.inflight], st.nxt, i);
    }
  }

  /** In turn up to three of the waiting segments get their numbers. */
  lemma {:induction false} SendMoreNumbers(c: Conn, now: int)
    requires Shaped(c) && c.state in {Established, FinWait1} && c.tx.inflight == 0 && c.tx.q != []
    ensures Unsent(SendMore(Intended, c, now).tx.q) == c.tx.q[Min(|c.tx.q|, 3)..]
  {
    SendMoreShapes(c, now);
    UnsentIs(SendMore(Intended, c, now).tx);
  }

  lemma {:induction false} AckedIsSending(c: Conn, h: Header, now: int)
    requires c.state in {Established, FinWait1} && c.tx.q != [] && h == Ack(c.rx.rcvNxt, h.ackSeq)
    ensures AckedInput(Intended, c, h, [], now) == SendMore(Intended, c, now)
  {
    assert QueueEmptyInput(c, h) == (c, false) && TextInput(c, h, []) == c;
  }

  lemma {:induction false} AckAllNumbers(c: Conn, now: int)
    requires Steady(c) && c.state in {Established, FinWait1} && Unsent(c.tx.q) != []
    ensures |Unsent(SyncedInput(Intended, c, Ack(c.rx.rcvNxt, c.tx.nxt), [], now).tx.q)| < |Unsent(c.tx.q)|
  {
    var h := Ack(c.rx.rcvNxt, c.tx.nxt);
    AckAllClears(c, now);
    var c' := AckInput(Intended, c, h, now).0;
    AckedIsSending(c', h, now);
    SendMoreNumbers(c', now);
  }

  /** Where something waits: never before the connection stands, nor in FIN_WAIT_2. */
  lemma WhereWaiting(c: Conn)
    requires Steady(c) && Unsent(c.tx.q) != []
    ensures c.state in {Established, FinWait1} || c.state in PEER_CLOSED
  {
    UnsentIs(c.tx);
    if c.state in {SynSent, SynReceived} {
      OnlySyn(c);
    }
  }

  /** From c the run gives the first segment that waits a number. */
  ghost predicate Numbers(form: Form, c: Conn, es: seq<(int, Event)>) {
    !(Unsent(c.tx.q) <= Unsent(RunAll(form, c, es).tx.q))
  }

  lemma {:induction false} OpenRunNumbers(c: Conn)
    requires Steady(c) && c.state in {Established, FinWait1} && Unsent(c.tx.q) != []
    ensures Numbers(Intended, c, [(0, AckAll(c))])
  {
    AckAllNumbers(c, 0);
    AckAllRun(c);
  }

  lemma AckAllRun(c: Conn)
    requires c.state in {Established, FinWait1}
    ensures RunAll(Intended, c, [(0, AckAll(c))])
         == SyncedInput(Intended, c, Ack(c.rx.rcvNxt, c.tx.nxt), [], 0)
  {
    var es: seq<(int, Event)> := [(0, AckAll(c))];
    RunSnoc(Intended, c, [], 0, AckAll(c));
    assert [] + es == es;
  }

  /** In any state that a proper run reaches and in which segments wait: some run of
      events gives the first of them a number if and only if the peer has not closed. */
  lemma {:induction false} WaitingIsSentExactly(smss: Mss, before: seq<(int, Event)>, c: Conn)
    requires Proper(smss, before) && c == RunAll(Intended, New(smss), before) && Unsent(c.tx.q) != []
    ensures (exists es :: Numbers(Intended, c, es)) <==> c.state !in PEER_CLOSED
  {
    RunSteady(smss, before);
    WhereWaiting(c);
    if c.state in PEER_CLOSED {
      forall es: seq<(int, Event)>
        ensures !Numbers(Intended, c, es)
      {
        WaitingForEver(Intended, c, es);
      }
    } else {
      OpenRunNumbers(c);
    }
  }

  /** A connection that wrote twice, and whose peer closes before it acknowledges. */
  function ClosedEarly(): Events {
    SecondWrite(9, 100, [1], [2]) + [(40, Arrival(Header(101, 10, false, true, true, false, false), []))]
  }

  lemma ClosedEarlyIs(smss: Mss)
    ensures RunAll(Intended, New(smss), ClosedEarly()) == FinInput(WroteTwice(smss, 9, 100, [1], [2]), [])
  {
    var h, c := Header(101, 10, false, true, true, false, false), WroteTwice(smss, 9, 100, [1], [2]);
    SecondWriteRun(smss, 9, 100, [1], [2]);
    RunSnoc(Intended, New(smss), SecondWrite(9, 100, [1], [2]), 40, Arrival(h, []));
    assert AckInput(Intended, c, h, 40) == (c, false);
    assert Deliver(Intended, c, h, [], 40) == FinInput(c, []);
  }

  /** The second byte waits in CLOSE_WAIT, and no run of events gives it a number. */
  lemma ClosedEarlyRun(smss: Mss)
    ensures var c := RunAll(Intended, New(smss), ClosedEarly());
            && c.state == CloseWait && Unsent(c.tx.q) == [Fresh([2], false, false, true)] && c.err == NoErr
            && forall es :: !Numbers(Intended, c, es)
  {
    ClosedEarlyIs(smss);
    var c := WroteTwice(smss, 9, 100, [1], [2]);
    var s, waits := c.tx.q[0], Fresh([2], false, false, true);
    UnsentAppend([s], [waits]);
    AllSent([s]);
    UnsentSuffix([waits]);
    assert c.tx.q == [s] + [waits];
    var c' := RunAll(Intended, New(smss), ClosedEarly());
    forall es: seq<(int, Event)>
      ensures !Numbers(Intended, c', es)
    {
      WaitingForEver(Intended, c', es);
    }
  }
}
