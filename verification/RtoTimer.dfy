/** The retransmission timer over whole runs: it runs exactly while something is
    in flight (sections 5.1 and 5.2 of RFC 6298). And the simultaneous open, which
    leaves a SYN without a timer or a timer without a timeout. */
module RtoTimer {
  import opened Common
  import opened Reassembly
  import opened SendQueue
  import opened Rto
  import opened Connection
  import opened QueueShape
  import opened GivingUp
  import opened Openings

  /** The timer runs exactly while something is in flight, but in the states where
      nothing is retransmitted any more; stopped, it has forgotten its backoff. */
  predicate Covered(c: Conn) {
    && (c.armed.Some? ==> c.tx.inflight > 0)
    && (c.armed.None? && c.state !in {Closing, TimeWait} ==> c.tx.inflight == 0 && c.rtt.backoff == 0)
  }

  /** Only an armed timer expires. */
  predicate Expires(c: Conn, e: Event) {
    e.SynTimer? || e.DataTimer? ==> c.armed.Some?
  }

  /** The timer of the SYN does not outlive SYN_SENT. */
  predicate Timely(c: Conn, e: Event) {
    e.SynTimer? ==> c.state in {SynSent, Closing, TimeWait}
  }

  lemma CleanCovers(c: Conn, una: nat)
    requires Shaped(c) && Covered(c)
    ensures Covered(Clean(c, una))
  {
    CleanIsExact(c.tx, una);
  }

  lemma {:induction false} AckCovers(c: Conn, h: Header, now: int)
    requires Shaped(c) && Covered(c) && c.state != Close
    ensures Covered(AckInput(Intended, c, h, now).0)
  {
    var c1 := if c.state == SynReceived then c.(state := Established) else c;
    CleanCovers(c1.(tx := c1.tx.(una := h.ackSeq), rtt := OnAck(c1.rtt, c1.armed, now)), h.ackSeq);
  }

  lemma SynSentCovers(c: Conn, h: Header)
    requires Shaped(c) && Covered(c) && c.state == SynSent
    ensures Covered(SynSentInput(Intended, c, h))
  {
    var c1 := c.(irs := h.seqno, rx := c.rx.(rcvNxt := h.seqno + 1), log := c.log.(synSeen := true));
    CleanCovers(c1.(tx := c1.tx.(una := h.ackSeq)), h.ackSeq);
  }

  lemma {:induction false} DeliverCovers(c: Conn, h: Header, data: seq<byte>, now: int)
    requires Covered(c) && c.tx.inflight <= |c.tx.q|
    ensures Covered(Deliver(Intended, c, h, data, now))
  {
    var c3 := TextInput(c, h, data);
    FinCovers(c3, data);
    SendMoreCovers(c3, now);
    SendMoreCovers(FinInput(c3, data), now);
  }

  lemma FinCovers(c: Conn, data: seq<byte>)
    requires Covered(c)
    ensures Covered(FinInput(c, data)) && FinInput(c, data).tx == c.tx
  {}

  lemma SendMoreCovers(c: Conn, now: int)
    requires Covered(c)
    ensures Covered(SendMore(Intended, c, now))
  {}

  lemma {:induction false} SyncedCovers(c: Conn, h: Header, data: seq<byte>, now: int)
    requires Shaped(c) && Covered(c) && c.state !in {Close, Listen, SynSent}
    ensures Covered(SyncedInput(Intended, c, h, data, now))
  {
    AckCovers(c, h, now);
    AckShapes(c, h, now);
    var (c1, _) := AckInput(Intended, c, h, now);
    DeliverCovers(QueueEmptyInput(c1, h).0, h, data, now);
  }

  lemma {:induction false} QueueEachCovers(c: Conn, segs: seq<TxSeg>, now: int)
    requires Covered(c) && c.state !in {Closing, TimeWait} && c.tx.inflight <= |c.tx.q|
    requires c.tx.inflight > 0 || c.tx.q == []
    ensures Covered(QueueEach(c, segs, now))
    decreases |segs|
  {
    if segs == [] {
    } else {
      QueueEachCovers(Queue(c, segs[0], now), segs[1..], now);
    }
  }

  /** A step in order keeps the timer running exactly while something is in flight,
      unless it is the timer of the SYN that expires later than in SYN_SENT. */
  lemma {:induction false} StepCovers(c: Conn, now: int, e: Event)
    requires Shaped(c) && Covered(c) && Orderly(c, e) && Expires(c, e)
    ensures Covered(Next(Intended, c, now, e)) <==> Timely(c, e)
  {
    match e
    case Arrival(h, data) =>
      if c.state == SynSent {
        SynSentCovers(c, h);
      } else if c.state !in {Close, Listen} {
        SyncedCovers(c, h, data, now);
      }
    case Write(bytes) =>
      if c.err == NoErr && c.state in {Established, CloseWait} && bytes != [] {
        QueueEachCovers(c, Chunks(bytes, c.smss), now);
      }
    case _ =>
  }

  /** In every state of an orderly run in which timers expire when armed, and the
      timer of the SYN in SYN_SENT only. */
  lemma {:induction false} RunCovers(smss: Mss, es: seq<(int, Event)>)
    requires forall k :: 0 <= k < |es| ==>
      var c := RunAll(Intended, New(smss), es[..k]);
      Orderly(c, es[k].1) && Expires(c, es[k].1) && Timely(c, es[k].1)
    ensures Covered(RunAll(Intended, New(smss), es))
  {
    if es == [] {
    } else {
      var k := |es| - 1;
      forall j | 0 <= j < k
        ensures es[..k][..j] == es[..j]
      {}
      RunCovers(smss, es[..k]);
      RunShapes(smss, es[..k]);
      StepCovers(RunAll(Intended, New(smss), es[..k]), es[k].0, es[k].1);
    }
  }

  /** A simultaneous open: the peer's SYN arrives, then the timer of ours expires.
      Our SYN is in flight and nothing will send it again. */
  lemma SimultaneousOpenUncovered(smss: Mss, peer: nat)
    ensures var c := RunAll(Intended, New(smss),
                            [(0, Connect(1)), (10, Arrival(Header(peer, 0, true, false, false, false, false), []))]
                            + [(500, SynTimer)]);
            c.state == SynReceived && c.tx.inflight == 1 && c.armed == None
  {
    SynAlone(smss, peer);
    RunSnoc(Intended, New(smss),
            [(0, Connect(1)), (10, Arrival(Header(peer, 0, true, false, false, false, false), []))], 500, SynTimer);
  }

  /** A simultaneous open that is closed again: our SYN is acknowledged, and the FIN is in
      flight under a timeout that no one ever set. */
  function SimultaneousClose(peer: nat): Events {
    [(0, Connect(1)), (10, Arrival(Header(peer, 0, true, false, false, false, false), []))]
    + [(20, Arrival(Ack(peer + 1, 2), []))] + [(30, CloseCall)]
  }

  /** So the FIN is retransmitted every 0 milliseconds, as long as it is not answered and
      nothing else ends the socket. */
  lemma {:induction false} ZeroTimeoutRun(smss: Mss, peer: nat, es: Events)
    requires NoAnswer(Intended, RunAll(Intended, New(smss), SimultaneousClose(peer)), es)
    requires NothingElseEnds(Intended, RunAll(Intended, New(smss), SimultaneousClose(peer)), es)
    ensures var c := RunAll(Intended, New(smss), SimultaneousClose(peer));
            && c.state == FinWait1 && c.rtt.rto == 0 && c.armed == Some(30)
            && |c.tx.q| == 1 && c.tx.q[0].fin && c.tx.inflight == 1
            && !RunAll(Intended, c, es).log.ended && RunAll(Intended, c, es).rtt.rto == 0
  {
    ClosedAtOnce(smss, peer);
    ZeroNeverGivesUp(Intended, RunAll(Intended, New(smss), SimultaneousClose(peer)), es);
  }

  lemma {:induction false} ClosedAtOnce(smss: Mss, peer: nat)
    ensures var c := RunAll(Intended, New(smss), SimultaneousClose(peer));
            && c.state == FinWait1 && c.rtt.rto == 0 && c.armed == Some(30) && !c.log.ended
            && |c.tx.q| == 1 && c.tx.q[0].fin && c.tx.inflight == 1
  {
    var syn := Header(peer, 0, true, false, false, false, false);
    var es: Events := [(0, Connect(1)), (10, Arrival(syn, []))];
    SynAlone(smss, peer);
    RunSnoc(Intended, New(smss), es, 20, Arrival(Ack(peer + 1, 2), []));
    RunSnoc(Intended, New(smss), es + [(20, Arrival(Ack(peer + 1, 2), []))], 30, CloseCall);
    var c := RunAll(Intended, New(smss), es);
    SynAcknowledged(c, peer);
    FinAtOnce(SyncedInput(Intended, c, Ack(peer + 1, 2), [], 20));
  }

  lemma SynAcknowledged(c: Conn, peer: nat)
    requires c.state == SynReceived && c.tx == TxState(1, 2, [TxSeg(1, 1, [], true, false, false)], 1)
    requires c.armed == Some(SYN_BACKOFF) && c.rtt == Rtt(0, 0, 0, 0) && c.err == InProgress
    requires c.rx == RxState(peer + 1, 44477, [], [], false, false, false) && !c.log.ended
    ensures var c' := SyncedInput(Intended, c, Ack(peer + 1, 2), [], 20);
            && c'.state == Established && c'.tx == TxState(2, 2, [], 0) && c'.rtt == c.rtt && c'.err == c.err
            && c'.armed == None && !c'.log.ended
  {
    var h := Ack(peer + 1, 2);
    var c1 := c.(state := Established, tx := c.tx.(una := 2));
    CleanOne(c1, c.tx.q[0], 2);
    var c2 := Clean(c1, 2);
    assert OnAck(c.rtt, c.armed, 20) == c.rtt;
    assert AckInput(Intended, c, h, 20) == (c2, false);
    assert AckedInput(Intended, c2, h, [], 20) == c2;
  }

  lemma FinAtOnce(c: Conn)
    requires c.state == Established && c.tx == TxState(2, 2, [], 0)
    ensures var c' := CloseSocket(c, 30);
            && c'.state == FinWait1 && c'.rtt == c.rtt && c'.armed == Some(30 + c.rtt.rto)
            && c'.log.ended == c.log.ended
            && c'.tx.inflight == 1 && |c'.tx.q| == 1 && c'.tx.q[0].fin
  {}

  lemma SynAlone(smss: Mss, peer: nat)
    ensures var c := RunAll(Intended, New(smss),
                            [(0, Connect(1)), (10, Arrival(Header(peer, 0, true, false, false, false, false), []))]);
            && c.state == SynReceived && c.tx == TxState(1, 2, [TxSeg(1, 1, [], true, false, false)], 1)
            && c.armed == Some(SYN_BACKOFF) && c.rtt == Rtt(0, 0, 0, 0) && c.err == InProgress && c.iss == 1
            && c.rx == RxState(peer + 1, 44477, [], [], false, false, false) && !c.log.ended
  {
    var syn := Header(peer, 0, true, false, false, false, false);
    Connecting(smss, 1);
    RunSnoc(Intended, New(smss), [], 0, Connect(1));
    RunSnoc(Intended, New(smss), [(0, Connect(1))], 10, Arrival(syn, []));
    assert [] + [(0, Connect(1))] == [(0, Connect(1))];
    assert [(0, Connect(1)), (10, Arrival(syn, []))] == [(0, Connect(1))] + [(10, Arrival(syn, []))];
  }
}
