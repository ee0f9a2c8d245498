/** When the write queue keeps its shape over a run: a transmitted prefix that
    tiles the sequence numbers up to snd_nxt, then what waits. */
module QueueShape {
  import opened Common
  import opened SendQueue
  import opened Rto
  import opened Connection
  import opened SendStream

  /** The shape, with what the states say about it. */
  ghost predicate Shaped(c: Conn) {
    && Tiled(c.tx)
    && (forall i :: c.tx.inflight <= i < |c.tx.q| ==> !c.tx.q[i].syn)
    && (Sending(c.state) ==> c.tx.nxt > 0)
    && (c.state == Close ==> c.tx == TxState(0, 0, [], 0))
  }

  /** What a caller can check before an event: the events that queue a segment must
      not find segments waiting with nothing in flight. */
  predicate Orderly(c: Conn, e: Event) {
    match e
    case Connect(iss) => c.state == Close ==> iss > 0
    case Write(bytes) =>
      c.err == NoErr && c.state in {Established, CloseWait} && bytes != [] ==>
        c.tx.inflight > 0 || c.tx.q == []
    case CloseCall => c.state in {Established, CloseWait} ==> c.tx.inflight > 0 || c.tx.q == []
    case _ => true
  }

  lemma {:induction false} OvertakenStays(st: TxState, segs: seq<TxSeg>)
    requires Overtaken(st)
    ensures Overtaken(QueueAll(st, segs))
    decreases |segs|
  {
    if segs == [] {
    } else {
      OvertakenStays(QueueTransmit(st, segs[0]), segs[1..]);
    }
  }

  lemma {:induction false} QueueAllTiles(st: TxState, segs: seq<TxSeg>)
    requires Tiled(st) && st.nxt > 0 && segs != []
    requires forall i :: 0 <= i < |segs| ==> segs[i].seqno == 0 && !segs[i].syn
    ensures Tiled(QueueAll(st, segs)) <==> st.inflight > 0 || st.q == []
    decreases |segs|
  {
    QueueTransmitTiles(st, segs[0]);
    var st' := QueueTransmit(st, segs[0]);
    if st.inflight > 0 || st.q == [] {
      if segs[1..] != [] {
        QueueAllTiles(st', segs[1..]);
      }
    } else {
      assert st.q[0..][0].seqno == 0;
      OvertakenStays(st', segs[1..]);
      OvertakenIsUntiled(QueueAll(st, segs));
    }
  }

  lemma {:induction false} QueueAllNoSyn(st: TxState, segs: seq<TxSeg>)
    requires st.inflight <= |st.q| && forall i :: st.inflight <= i < |st.q| ==> !st.q[i].syn
    requires forall i :: 0 <= i < |segs| ==> !segs[i].syn
    ensures var st' := QueueAll(st, segs);
            st'.inflight <= |st'.q| && st'.nxt >= st.nxt && forall i :: st'.inflight <= i < |st'.q| ==> !st'.q[i].syn
    decreases |segs|
  {
    if segs == [] {
    } else {
      QueueAllNoSyn(QueueTransmit(st, segs[0]), segs[1..]);
    }
  }

  lemma CleanShapes(c: Conn, una: nat)
    requires Shaped(c) && c.state != Close
    ensures Shaped(Clean(c, una))
  {
    CleanIsExact(c.tx, una);
  }

  lemma {:induction false} AckShapes(c: Conn, h: Header, now: int)
    requires Shaped(c) && c.state != Close
    ensures Shaped(AckInput(Intended, c, h, now).0)
  {
    var c1 := if c.state == SynReceived then c.(state := Established) else c;
    CleanShapes(c1.(tx := c1.tx.(una := h.ackSeq), rtt := OnAck(c1.rtt, c1.armed, now)), h.ackSeq);
  }

  lemma SynSentShapes(c: Conn, h: Header)
    requires Shaped(c) && c.state == SynSent
    ensures Shaped(SynSentInput(Intended, c, h))
  {
    var c1 := c.(irs := h.seqno, rx := c.rx.(rcvNxt := h.seqno + 1), log := c.log.(synSeen := true));
    CleanShapes(c1.(tx := c1.tx.(una := h.ackSeq)), h.ackSeq);
  }

  lemma SendMoreShapes(c: Conn, now: int)
    requires Shaped(c)
    ensures Shaped(SendMore(Intended, c, now))
  {
    var pending := Min(|c.tx.q|, 3);
    if c.state in {Established, FinWait1, FinWait2} && c.tx.inflight == 0 && pending > 0 {
      SendNextTiles(Intended, c.tx, pending);
    }
  }

  lemma FinShapes(c: Conn, data: seq<byte>)
    requires Shaped(c)
    ensures Shaped(FinInput(c, data))
  {}

  lemma {:induction false} DeliverShapes(c: Conn, h: Header, data: seq<byte>, now: int)
    requires Shaped(c)
    ensures Shaped(Deliver(Intended, c, h, data, now))
  {
    var c3 := TextInput(c, h, data);
    FinShapes(c3, data);
    SendMoreShapes(c3, now);
    SendMoreShapes(FinInput(c3, data), now);
  }

  lemma EmptyShapes(c: Conn, h: Header)
    requires Shaped(c) && c.state != Close
    ensures Shaped(QueueEmptyInput(c, h).0)
  {}

  lemma {:induction false} SyncedShapes(c: Conn, now: int, h: Header, data: seq<byte>)
    requires Shaped(c) && c.state !in {Close, Listen, SynSent}
    ensures Shaped(SyncedInput(Intended, c, h, data, now))
  {
    AckShapes(c, h, now);
    var c1 := AckInput(Intended, c, h, now).0;
    EmptyShapes(c1, h);
    DeliverShapes(QueueEmptyInput(c1, h).0, h, data, now);
  }

  lemma {:induction false} ArrivalShapes(c: Conn, now: int, h: Header, data: seq<byte>)
    requires Shaped(c)
    ensures Shaped(Input(Intended, c, h, data, now))
  {
    if c.state == SynSent {
      SynSentShapes(c, h);
    } else if c.state !in {Close, Listen} {
      SyncedShapes(c, now, h, data);
    }
  }

  lemma ConnectShapes(c: Conn, iss: nat, now: int)
    requires Shaped(c)
    ensures Shaped(ConnectCall(c, iss, now)) <==> Orderly(c, Connect(iss))
  {
    if c.state == Close {
      ConnectTiles(iss);
      assert ConnectCall(c, iss, now).tx == Connected(iss);
    }
  }

  lemma WriteShapes(c: Conn, bytes: seq<byte>, now: int)
    requires Shaped(c)
    ensures Shaped(WriteCall(c, bytes, now)) <==> Orderly(c, Write(bytes))
  {
    if c.err == NoErr && c.state in {Established, CloseWait} {
      var segs := Chunks(bytes, c.smss);
      ChunksCut(bytes, c.smss);
      QueueEachKeeps(c, segs, now);
      QueueAllNoSyn(c.tx, segs);
      if bytes != [] {
        QueueAllTiles(c.tx, segs);
      }
    }
  }

  lemma FinQueueShapes(c: Conn, now: int)
    requires Shaped(c) && c.state in {FinWait1, CloseWait}
    ensures Shaped(QueueFin(c, now)) <==> c.tx.inflight > 0 || c.tx.q == []
  {
    QueueTransmitTiles(c.tx, Fresh([], false, true, false));
  }

  /** A step keeps the shape exactly when it is orderly. */
  lemma {:induction false} StepShapes(c: Conn, now: int, e: Event)
    requires Shaped(c)
    ensures Shaped(Next(Intended, c, now, e)) <==> Orderly(c, e)
  {
    match e
    case Connect(iss) => ConnectShapes(c, iss, now);
    case Arrival(h, data) => ArrivalShapes(c, now, h, data);
    case Write(bytes) => WriteShapes(c, bytes, now);
    case CloseCall => CloseShapes(c, now);
    case DataTimer => DataTimerShapes(c, now);
    case _ =>
  }

  lemma CloseShapes(c: Conn, now: int)
    requires Shaped(c)
    ensures Shaped(CloseSocket(c, now)) <==> Orderly(c, CloseCall)
  {
    if c.state == Established {
      FinQueueShapes(c.(state := FinWait1), now);
    } else if c.state == CloseWait {
      FinQueueShapes(c, now);
    }
  }

  lemma DataTimerShapes(c: Conn, now: int)
    requires Shaped(c)
    ensures Shaped(DataExpiry(c, now))
  {}

  /** In every state of an orderly run the queue is a transmitted prefix, inflight
      long, that tiles the numbers up to snd_nxt, and an untransmitted suffix. */
  lemma {:induction false} RunShapes(smss: Mss, es: seq<(int, Event)>)
    requires forall k :: 0 <= k < |es| ==> Orderly(RunAll(Intended, New(smss), es[..k]), es[k].1)
    ensures Shaped(RunAll(Intended, New(smss), es))
  {
    if es == [] {
    } else {
      var k := |es| - 1;
      forall j | 0 <= j < k
        ensures Orderly(RunAll(Intended, New(smss), es[..k][..j]), es[..k][j].1)
      {
        assert es[..k][..j] == es[..j];
      }
      RunShapes(smss, es[..k]);
      StepShapes(RunAll(Intended, New(smss), es[..k]), es[k].0, es[k].1);
    }
  }
}
