/** Both ends together: what one socket writes, over a network that loses, repeats and
    reorders its frames as it likes, is what another socket reads. */
module EndToEnd {
  import opened Common
  import opened Reassembly
  import opened SendQueue
  import opened Rto
  import opened Connection
  import opened Delivery
  import opened Frames
  import opened Openings
  import opened ReceiveStream

  /** Bytes and FINs arrive in frames that a sent; acknowledgments and the rest may be
      anything. */
  predicate Carried(a: Conn, e: Event) {
    e.Arrival? && (e.data != [] || e.h.fin) ==>
      exists j :: 0 <= j < |a.log.sent| && Carries(a.log.sent[j], e.h, e.data)
  }

  predicate Carries(f: Frame, h: Header, data: seq<byte>) {
    f.seqno == h.seqno && f.data == data && f.fin == h.fin
  }

  lemma CarriedIsGenuine(a: Conn, e: Event)
    requires FramesFit(a) && Carried(a, e)
    ensures GenuineEvent(e, a.log.accepted, a.iss + 1) && (e.Arrival? && e.h.fin ==> e.data == [])
  {
    if e.Arrival? && (e.data != [] || e.h.fin) {
      var j :| 0 <= j < |a.log.sent| && Carries(a.log.sent[j], e.h, e.data);
      assert FrameFits(a.log.sent[j], a);
    }
  }

  /** Let one socket run carefully, ending as a, and another one in any way, ending as b,
      with a network between them that hands b frames of a, first transmissions and
      retransmissions alike, in any order, any number of times, or not at all. What the
      application of b has got or can get is a prefix of what the one of a wrote; and it
      is all of it once b has consumed a FIN. */
  lemma {:induction false} ReaderGetsPrefix(smss: Mss, es: seq<(int, Event)>, a: Conn,
                                            form: Form, smss': Mss, es': seq<(int, Event)>, b: Conn)
    requires AllCareful(smss, es) && a == RunAll(Intended, New(smss), es)
    requires b == RunAll(form, New(smss'), es') && (b.log.synSeen ==> b.irs == a.iss)
    requires forall i :: 0 <= i < |es'| ==> Carried(a, es'[i].1)
    ensures Stream(b) <= a.log.accepted
    ensures b.log.synSeen && b.log.fins > 0 ==> Stream(b) == a.log.accepted
  {
    RunFrames(smss, es);
    forall k | 0 <= k < |es'|
      ensures GenuineEvent(es'[k].1, a.log.accepted, a.iss + 1)
      ensures es'[k].1.Arrival? && es'[k].1.h.fin ==> es'[k].1.data == []
    {
      CarriedIsGenuine(a, es'[k].1);
    }
    RunHears(form, smss', es', a.log.accepted, a.iss + 1);
    RunUncut(form, smss', es');
  }

  // ------------------------------------------------------------------- as it goes wrong

  /** A connection that wrote two bytes, of which one is acknowledged. */
  function HalfAcknowledged(): Events {
    FirstWrite(9, 100, [1, 2]) + [(120, Arrival(Ack(101, 11), []))]
  }

  /** What it then is: the round trip was measured, the segment is still queued. */
  function Half(smss: Mss): Conn {
    var c := Wrote(smss, 9, 100, [1, 2]);
    c.(tx := c.tx.(una := 11), rtt := Rtt(100, 50, 300, 0))
  }

  lemma HalfRun(smss: Mss)
    ensures RunAll(Intended, New(smss), HalfAcknowledged()) == Half(smss)
  {
    FirstWriteRun(smss, 9, 100, [1, 2]);
    RunSnoc(Intended, New(smss), FirstWrite(9, 100, [1, 2]), 120, Arrival(Ack(101, 11), []));
    var c, h := Wrote(smss, 9, 100, [1, 2]), Ack(101, 11);
    assert OnAck(c.rtt, c.armed, 120) == Rtt(100, 50, 300, 0);
    var c1 := c.(tx := c.tx.(una := 11), rtt := Rtt(100, 50, 300, 0));
    assert Clean(c1, 11) == c1 by {
      assert c.tx.q[0..] == c.tx.q && c.tx.q[..0] == [] && c.log.acked + [] == c.log.acked;
    }
    assert AckInput(Intended, c, h, 120) == (c1, false);
    assert AckedInput(Intended, c1, h, [], 120) == c1;
  }

  /** The timer then sends both bytes again under the number of the second. */
  lemma PartialAckRun(smss: Mss)
    ensures var c := RunAll(Intended, New(smss), HalfAcknowledged());
            var c' := Next(Intended, c, 1020, DataTimer);
            && Splits(RunAll(Intended, New(smss), FirstWrite(9, 100, [1, 2])), Arrival(Ack(101, 11), []))
            && c.armed == Some(1020) && c'.log.sent == c.log.sent + [Frame(11, [1, 2], false, false, true)]
            && !FrameFits(Frame(11, [1, 2], false, false, true), c')
  {
    HalfRun(smss);
    FirstWriteRun(smss, 9, 100, [1, 2]);
    var c := Wrote(smss, 9, 100, [1, 2]);
    assert c.tx.q[0].seqno < 11 < c.tx.q[0].endSeq;
  }

  /** The rest is acknowledged 200 milliseconds after the timer was armed. Because the first
      acknowledgment lowered rto and left the timer alone, the difference is taken to be
      negative, and nothing is measured. */
  lemma SecondAckRun(smss: Mss)
    ensures var c := RunAll(Intended, New(smss), HalfAcknowledged());
            var c' := RunAll(Intended, New(smss), HalfAcknowledged() + [(220, Arrival(Ack(101, 12), []))]);
            && c.log.armedAt == 20 && c.log.delay == 1000 && c.rtt.rto == 300
            && c'.tx.una == 12 && c'.rtt == c.rtt && Sample(c.rtt, 220 - c.log.armedAt) != c.rtt
  {
    HalfRun(smss);
    var c, h := Half(smss), Ack(101, 12);
    RunSnoc(Intended, New(smss), HalfAcknowledged(), 220, Arrival(h, []));
    assert OnAck(c.rtt, c.armed, 220) == c.rtt;
    var c1 := c.(tx := c.tx.(una := 12));
    CleanOne(c1, c.tx.q[0], 12);
    assert AckInput(Intended, c, h, 220) == (Clean(c1, 12), false);
    assert AckedInput(Intended, Clean(c1, 12), h, [], 220) == Clean(c1, 12);
  }

  /** Three writes: the second one waits when the first is acknowledged by a segment that
      is out of order, and the third overtakes it. */
  function Overtaking(): Events {
    SecondWrite(9, 100, [1], [2]) + [(40, Arrival(Ack(102, 11), []))] + [(50, Write([3]))]
  }

  function Left(smss: Mss): Conn {
    var c, waits := WroteTwice(smss, 9, 100, [1], [2]), Fresh([2], false, false, true);
    c.(tx := TxState(11, 11, [waits], 0), rtt := Rtt(20, 10, 220, 0), armed := None, log := c.log.(acked := [1]))
  }

  lemma LeftWaiting(smss: Mss)
    ensures Next(Intended, WroteTwice(smss, 9, 100, [1], [2]), 40, Arrival(Ack(102, 11), [])) == Left(smss)
  {
    var c, h := WroteTwice(smss, 9, 100, [1], [2]), Ack(102, 11);
    assert OnAck(c.rtt, c.armed, 40) == Rtt(20, 10, 220, 0);
    var c1 := c.(tx := c.tx.(una := 11), rtt := Rtt(20, 10, 220, 0));
    CleanFirst(c1, c.tx.q[0], Fresh([2], false, false, true), 11);
    assert [] + [1] == [1];
    assert Clean(c1, 11) == Left(smss);
    assert AckInput(Intended, c, h, 40) == (Left(smss), false);
    assert AckedInput(Intended, Left(smss), h, [], 40) == Left(smss);
  }

  /** The first of two queued segments is acknowledged. */
  lemma CleanFirst(c: Conn, s: TxSeg, waits: TxSeg, una: nat)
    requires c.tx.q == [s, waits] && c.tx.inflight == 1 && 0 < s.seqno && s.endSeq <= una && waits.seqno == 0
    ensures Clean(c, una)
         == StopRto(c.(tx := c.tx.(q := [waits], inflight := 0), log := c.log.(acked := c.log.acked + s.data)))
  {
    assert [s, waits][1..] == [waits];
    assert Cleaned([s, waits], una) == 1 + Cleaned([waits], una) == 1;
    assert DecrementBy(1, 1) == Decrement(DecrementBy(1, 0)) == 0;
    assert [s, waits][..1] == [s] && Payload([s]) == Payload([s][..0]) + s.data;
  }

  lemma OvertakingFrames(smss: Mss)
    ensures var c := RunAll(Intended, New(smss), Overtaking());
            && c.log.accepted == [1, 2, 3] && c.iss == 9
            && c.log.sent == [Frame(9, [], true, false, false), Frame(10, [1], false, false, true),
                              Frame(11, [3], false, false, true)]
  {
    var es := SecondWrite(9, 100, [1], [2]);
    SecondWriteRun(smss, 9, 100, [1], [2]);
    RunSnoc(Intended, New(smss), es, 40, Arrival(Ack(102, 11), []));
    RunSnoc(Intended, New(smss), es + [(40, Arrival(Ack(102, 11), []))], 50, Write([3]));
    LeftWaiting(smss);
    var c, s := Left(smss), Fresh([3], false, false, true);
    assert Chunks([3], smss) == [s] && [s][1..] == [];
    assert QueueEach(c, [s], 50) == QueueEach(Queue(c, s, 50), [], 50) == Queue(c, s, 50);
  }

  /** Another socket that gets the two frames with bytes in order. */
  function Reading(): Events {
    ActiveOpen(50, 9)
    + [(60, Arrival(Header(10, 51, false, true, false, false, true), [1]))]
    + [(70, Arrival(Header(11, 51, false, true, false, false, true), [3]))]
  }

  lemma ReadingRun(smss: Mss)
    ensures Stream(RunAll(Intended, New(smss), Reading())) == [1, 3]
    ensures RunAll(Intended, New(smss), Reading()).irs == 9
  {
    var h, h' := Header(10, 51, false, true, false, false, true), Header(11, 51, false, true, false, false, true);
    var s, s' := Segment(10, [1], true), Segment(11, [3], true);
    ActiveOpenRun(smss, 50, 9);
    RunSnoc(Intended, New(smss), ActiveOpen(50, 9), 60, Arrival(h, [1]));
    RunSnoc(Intended, New(smss), ActiveOpen(50, 9) + [(60, Arrival(h, [1]))], 70, Arrival(h', [3]));
    var c := Opened(smss, 50, 9);
    InOrderTaken(c, h, [1], 60);
    InOrderTaken(c.(rx := c.rx.(rcvNxt := 11, recv := [s], pollIn := true)), h', [3], 70);
    BytesSnoc([], s);
    BytesSnoc([s], s');
    assert [] + [s] == [s] && [s] + [s'] == [s, s'];
  }

  /** It reads the first and the third byte, as if they were next to each other. */
  lemma OvertakingRun(smss: Mss)
    ensures var a, b := RunAll(Intended, New(smss), Overtaking()), RunAll(Intended, New(smss), Reading());
            && a.log.accepted == [1, 2, 3] && Stream(b) == [1, 3] && b.irs == a.iss
            && forall i :: 0 <= i < |Reading()| ==> Carried(a, Reading()[i].1)
  {
    OvertakingFrames(smss);
    ReadingRun(smss);
    var a, es := RunAll(Intended, New(smss), Overtaking()), Reading();
    assert es[0].1.Connect? && es[1].1.data == [] && !es[1].1.h.fin;
    assert Carries(a.log.sent[1], es[2].1.h, es[2].1.data);
    assert Carries(a.log.sent[2], es[3].1.h, es[3].1.data);
  }
}
