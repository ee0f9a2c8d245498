/** How connections come to their end: what leads to FIN_WAIT_1 and LAST_ACK, the close
    after the peer's, and the FIN that is taken for acknowledged. */
module Teardown {
  import opened Common
  import opened SendQueue
  import opened Rto
  import opened Connection
  import opened Diagram
  import opened Openings
  import opened Progress
  import opened Frames

  // ------------------------------------------------- FIN_WAIT_1 and LAST_ACK

  /** The timer sends a FIN again, and does not give up. */
  predicate FinAgain(c: Conn, e: Event) {
    e.DataTimer? && c.tx.q != [] && c.tx.q[0].fin && c.rtt.rto <= 60000
  }

  /** LAST_ACK is entered from CLOSE_WAIT, exactly when the FIN is sent again: the close
      itself does not lead there. */
  lemma {:induction false} EntersLastAck(form: Form, c: Conn, now: int, e: Event)
    requires c.state != LastAck
    ensures Next(form, c, now, e).state == LastAck <==> c.state == CloseWait && FinAgain(c, e)
  {
    if e.Arrival? {
      ArrivalTargets(form, c, now, e);
    } else {
      CallTargets(form, c, now, e);
    }
  }

  /** FIN_WAIT_1 is entered from ESTABLISHED, by a close, or by a FIN that is sent again. */
  lemma {:induction false} EntersFinWait1(form: Form, c: Conn, now: int, e: Event)
    requires c.state != FinWait1
    ensures Next(form, c, now, e).state == FinWait1 <==> c.state == Established && (e.CloseCall? || FinAgain(c, e))
  {
    if e.Arrival? {
      ArrivalTargets(form, c, now, e);
    } else {
      CallTargets(form, c, now, e);
    }
  }

  lemma {:induction false} ArrivalTargets(form: Form, c: Conn, now: int, e: Event)
    requires e.Arrival?
    ensures var s := Next(form, c, now, e).state; s in {FinWait1, LastAck} ==> s == c.state
  {
    if c.state !in {Close, Listen, SynSent} {
      ArrivalLeads(form, c, e.h, e.data, now);
    }
  }

  lemma CallTargets(form: Form, c: Conn, now: int, e: Event)
    requires !e.Arrival?
    ensures var s := Next(form, c, now, e).state;
            && (c.state != LastAck ==> (s == LastAck <==> c.state == CloseWait && FinAgain(c, e)))
            && (c.state != FinWait1 ==>
                  (s == FinWait1 <==> c.state == Established && (e.CloseCall? || FinAgain(c, e))))
  {
    if e.Write? {
      QueueEachKeeps(c, Chunks(e.bytes, c.smss), now);
    }
  }

  // ------------------------------------------------------------ the passive close

  const PEERS_FIN := Header(101, 10, false, true, true, false, false)

  /** The peer closes first, then we do. */
  function BothClosed(): Events {
    ActiveOpen(9, 100) + [(20, Arrival(PEERS_FIN, []))] + [(30, CloseCall)]
  }

  /** Our FIN is in flight; the state has not followed. */
  function WaitsForAck(smss: Mss): Conn {
    var c := Opened(smss, 9, 100);
    c.(state := CloseWait, tx := TxState(10, 11, [TxSeg(10, 10, [], false, true, false)], 1),
       rx := c.rx.(rcvNxt := 102, finSeen := true, pollIn := true), armed := Some(1030),
       log := c.log.(fins := 1, finsQueued := 1, sent := c.log.sent + [Frame(10, [], false, true, false)],
                     armedAt := 30, delay := 1000))
  }

  lemma BothClosedRun(smss: Mss)
    ensures RunAll(Intended, New(smss), BothClosed()) == WaitsForAck(smss)
  {
    ActiveOpenRun(smss, 9, 100);
    RunSnoc(Intended, New(smss), ActiveOpen(9, 100), 20, Arrival(PEERS_FIN, []));
    RunSnoc(Intended, New(smss), ActiveOpen(9, 100) + [(20, Arrival(PEERS_FIN, []))], 30, CloseCall);
    var c := Opened(smss, 9, 100);
    assert AckInput(Intended, c, PEERS_FIN, 20) == (c, false);
    assert AckedInput(Intended, c, PEERS_FIN, [], 20) == Deliver(Intended, c, PEERS_FIN, [], 20);
    var c1 := FinInput(c, []);
    assert Deliver(Intended, c, PEERS_FIN, [], 20) == c1;
    assert c1.tx.q + [Stamp(Fresh([], false, true, false), 10)] == [TxSeg(10, 10, [], false, true, false)];
    assert CloseSocket(c1, 30) == QueueFin(c1, 30);
  }

  /** The timer expires once, and then the FIN is acknowledged: the socket ends. */
  lemma PassiveCloseRun(smss: Mss)
    ensures var expired := BothClosed() + [(1030, DataTimer)];
            var c, c' := RunAll(Intended, New(smss), expired),
                         RunAll(Intended, New(smss), expired + [(1040, Arrival(Ack(102, 11), []))]);
            && c.state == LastAck && c.armed == Some(3030) && c.rx.finSeen
            && c'.log.ended && c'.tx.q == [] && c'.armed == None
  {
    BothClosedRun(smss);
    RunSnoc(Intended, New(smss), BothClosed(), 1030, DataTimer);
    RunSnoc(Intended, New(smss), BothClosed() + [(1030, DataTimer)], 1040, Arrival(Ack(102, 11), []));
    FinAcknowledged(DataExpiry(WaitsForAck(smss), 1030), 1040);
  }

  /** The FIN is acknowledged at once: the state stays CLOSE_WAIT. */
  lemma PromptRun(smss: Mss)
    ensures var c := RunAll(Intended, New(smss), BothClosed() + [(40, Arrival(Ack(102, 11), []))]);
            c.state == CloseWait && c.tx.q == [] && c.tx.una == c.tx.nxt && !c.log.ended
  {
    BothClosedRun(smss);
    RunSnoc(Intended, New(smss), BothClosed(), 40, Arrival(Ack(102, 11), []));
    FinAcknowledged(WaitsForAck(smss), 40);
  }

  lemma FinAcknowledged(c: Conn, now: int)
    requires c.tx == TxState(10, 11, [TxSeg(10, 10, [], false, true, false)], 1)
    requires c.rx.rcvNxt == 102 && c.state in {CloseWait, LastAck}
    ensures var c' := SyncedInput(Intended, c, Ack(102, 11), [], now);
            && c'.tx == TxState(11, 11, [], 0) && c'.armed == None
            && if c.state == LastAck then c'.log.ended else c'.state == CloseWait && c'.log.ended == c.log.ended
  {
    var h := Ack(102, 11);
    var c1 := c.(tx := c.tx.(una := 11), rtt := OnAck(c.rtt, c.armed, now));
    CleanOne(c1, c.tx.q[0], 11);
    assert AckInput(Intended, c, h, now) == (Clean(c1, 11), false);
    if c.state == CloseWait {
      assert AckedInput(Intended, Clean(c1, 11), h, [], now) == Clean(c1, 11);
    }
  }

  /** What would take such a socket further: another call, or an end by force. */
  predicate Moves(c: Conn, e: Event) {
    e in {CloseCall, Abort, LingerTimer, UserTimer} || (e.Write? && Accepts(c, e)) || Resets(c, e)
  }

  /** After a close that was acknowledged before the timer expired, nothing ends the
      socket: neither the peer's segments but a reset, nor reads, nor the other timers. */
  lemma {:induction false} StaysInCloseWait(form: Form, c: Conn, es: seq<(int, Event)>)
    requires c.state == CloseWait && c.tx.q == [] && !c.log.ended
    requires forall k :: 0 <= k < |es| ==> !Moves(RunAll(form, c, es[..k]), es[k].1)
    ensures var c' := RunAll(form, c, es); c'.state == CloseWait && c'.tx.q == [] && !c'.log.ended
  {
    if es == [] {
    } else {
      var k := |es| - 1;
      forall j | 0 <= j < k
        ensures !Moves(RunAll(form, c, es[..k][..j]), es[..k][j].1)
      {
        assert es[..k][..j] == es[..j] && !Moves(RunAll(form, c, es[..j]), es[j].1);
      }
      StaysInCloseWait(form, c, es[..k]);
      assert !Moves(RunAll(form, c, es[..k]), es[k].1);
      CloseWaitStays(form, RunAll(form, c, es[..k]), es[k].0, es[k].1);
    }
  }

  lemma {:induction false} CloseWaitStays(form: Form, c: Conn, now: int, e: Event)
    requires c.state == CloseWait && c.tx.q == [] && !c.log.ended && !Moves(c, e)
    ensures var c' := Next(form, c, now, e); c'.state == CloseWait && c'.tx.q == [] && !c'.log.ended
  {
    if e.Arrival? {
      ArrivalLeads(form, c, e.h, e.data, now);
      EmptyStaysEmpty(form, c, e.h, e.data, now);
    }
  }

  lemma {:induction false} EmptyStaysEmpty(form: Form, c: Conn, h: Header, data: seq<byte>, now: int)
    requires c.state !in {Close, Listen, SynSent} && c.tx.q == []
    ensures var c' := Input(form, c, h, data, now); c'.tx.q == [] && c'.log.sent == c.log.sent
  {
    if Considered(c, h, data) {
      var (c1, dropped) := AckInput(form, c, h, now);
      assert c1.tx.q == [] && c1.log.sent == c.log.sent;
      if !dropped {
        EmptyAcked(form, c1, h, data, now);
      }
    }
  }

  lemma {:induction false} EmptyAcked(form: Form, c: Conn, h: Header, data: seq<byte>, now: int)
    requires c.tx.q == []
    ensures var c' := AckedInput(form, c, h, data, now); c'.tx.q == [] && c'.log.sent == c.log.sent
  {
    var c2 := QueueEmptyInput(c, h).0;
    assert c2.tx.q == [] && c2.log.sent == c.log.sent;
    FinKeepsQueue(TextInput(c2, h, data), data);
  }

  lemma FinKeepsQueue(c: Conn, data: seq<byte>)
    ensures FinInput(c, data).tx == c.tx && FinInput(c, data).log.sent == c.log.sent
  {}

  // ------------------------------------------------- a FIN taken for acknowledged

  /** The FIN at place i of the transmitted segments is taken off by an acknowledgment that
      reaches its number; it is acknowledged by one that is past it. So exactly the
      acknowledgment of everything before the FIN takes it off without acknowledging it. */
  lemma FinRemoved(st: TxState, una: nat, i: nat)
    requires Tiled(st) && i < st.inflight && st.q[i].fin && st.q[i].data == []
    ensures i < Cleaned(st.q, una) <==> st.q[i].seqno <= una
  {
    CleanIsExact(st, una);
    TilesEnd(st.q[..st.inflight], st.nxt, i);
  }

  function Closed(): Events {
    SecondWrite(9, 100, [1], [2]) + [(40, CloseCall)]
  }

  /** Two bytes and a FIN in three segments; the first is acknowledged, which sends the
      other two, and then the second, but not the FIN. */
  function FinAcknowledgedEarly(): Events {
    Closed() + [(50, Arrival(Ack(101, 11), []))] + [(60, Arrival(Ack(101, 12), []))]
  }

  /** The second byte and the FIN are in flight. */
  function LastInFlight(smss: Mss): Conn {
    var c := WroteTwice(smss, 9, 100, [1], [2]);
    c.(state := FinWait1, rtt := Rtt(30, 15, 230, 0), armed := Some(280),
       tx := TxState(11, 13, [TxSeg(11, 12, [2], false, false, true), TxSeg(12, 12, [], false, true, false)], 2),
       log := c.log.(finsQueued := 1, acked := [1], armedAt := 50, delay := 230,
                     sent := c.log.sent + [Frame(11, [2], false, false, true), Frame(12, [], false, true, false)]))
  }

  lemma SendsLast(smss: Mss)
    ensures var c := QueueFin(WroteTwice(smss, 9, 100, [1], [2]).(state := FinWait1), 40);
            SyncedInput(Intended, c, Ack(101, 11), [], 50) == LastInFlight(smss)
  {
    var c, h := QueueFin(WroteTwice(smss, 9, 100, [1], [2]).(state := FinWait1), 40), Ack(101, 11);
    var waits, fin := Fresh([2], false, false, true), Fresh([], false, true, false);
    var first := TxSeg(10, 11, [1], false, false, true);
    assert c.tx == TxState(10, 11, [first, waits, fin], 1);
    assert OnAck(c.rtt, c.armed, 50) == Rtt(30, 15, 230, 0);
    var c1 := c.(tx := c.tx.(una := 11), rtt := Rtt(30, 15, 230, 0));
    CleanFirstOf(c1, first, [waits, fin], 11);
    var c2 := Clean(c1, 11);
    assert [] + [1] == [1];
    assert AckInput(Intended, c, h, 50) == (c2, false);
    SendsTwo(c2, waits, fin);
    assert AckedInput(Intended, c2, h, [], 50) == SendMore(Intended, c2, 50);
  }

  /** The first of the queued segments is acknowledged, and what is behind it waits. */
  lemma CleanFirstOf(c: Conn, s: TxSeg, rest: seq<TxSeg>, una: nat)
    requires c.tx.q == [s] + rest && c.tx.inflight == 1 && 0 < s.seqno && s.endSeq <= una
    requires rest != [] && rest[0].seqno == 0
    ensures Clean(c, una)
         == StopRto(c.(tx := c.tx.(q := rest, inflight := 0), log := c.log.(acked := c.log.acked + s.data)))
  {
    assert c.tx.q[1..] == rest && c.tx.q[..1] == [s];
    assert Cleaned(c.tx.q, una) == 1 + Cleaned(rest, una) == 1;
    assert DecrementBy(1, 1) == Decrement(DecrementBy(1, 0)) == 0;
    assert Payload([s]) == Payload([s][..0]) + s.data;
  }

  lemma SendsTwo(c: Conn, waits: TxSeg, fin: TxSeg)
    requires c.tx == TxState(11, 11, [waits, fin], 0) && c.state == FinWait1 && c.rtt.rto == 230
    requires waits == Fresh([2], false, false, true) && fin == Fresh([], false, true, false)
    ensures var tx := TxState(11, 13, [Stamp(waits, 11), Stamp(fin, 12)], 2);
            var sent := [Frame(11, [2], false, false, true), Frame(12, [], false, true, false)];
            SendMore(Intended, c, 50) ==
            c.(tx := tx, armed := Some(280), log := c.log.(sent := c.log.sent + sent, armedAt := 50, delay := 230))
  {
    var q := [waits, fin];
    assert Sends(Intended, 2, 2) == 2 && q[..2] == q && q[2..] == [];
    assert q[..1] == [waits] && q[..1][..0] == [];
    assert StampAll(q[..1], 11) == StampAll([], 11) + [Stamp(waits, 11)] == [Stamp(waits, 11)];
    assert AdvanceAll(q[..1], 11) == AdvanceAll([], 11) + 1 == 12;
    assert StampAll(q, 11) == StampAll(q[..1], 11) + [Stamp(fin, 12)];
    assert AdvanceAll(q, 11) == 13;
    var r := [Stamp(waits, 11), Stamp(fin, 12)];
    assert StampAll(q, 11) == r;
    assert SendNext(Intended, c.tx, 2) == TxState(11, 13, r + [], 0) && r + [] == r && r[..2] == r;
    assert r[..1] == [r[0]] && r[..1][..0] == [];
    assert FramesOf(r[..1]) == FramesOf([]) + [FrameOf(r[0], 11)];
    assert FramesOf(r) == FramesOf(r[..1]) + [FrameOf(r[1], 12)];
  }

  lemma {:induction false} TakenForAcknowledged(smss: Mss)
    ensures var c := SyncedInput(Intended, LastInFlight(smss), Ack(101, 12), [], 60);
            && c.state == FinWait2 && c.tx.q == [] && c.tx.una == 12 && c.tx.nxt == 13 && c.armed == None
            && c.log.sent == LastInFlight(smss).log.sent
  {
    var c, h := LastInFlight(smss), Ack(101, 12);
    var c1 := c.(tx := c.tx.(una := 12), rtt := OnAck(c.rtt, c.armed, 60));
    assert c.tx.q[1..] == [c.tx.q[1]] && c.tx.q[1..][1..] == [];
    assert Cleaned(c.tx.q, 12) == 1 + Cleaned(c.tx.q[1..], 12) == 2;
    assert Clean(c1, 12).tx.q == [];
    assert AckInput(Intended, c, h, 60) == (Clean(c1, 12), false);
  }

  lemma ClosedRun(smss: Mss)
    ensures RunAll(Intended, New(smss), Closed())
         == QueueFin(WroteTwice(smss, 9, 100, [1], [2]).(state := FinWait1), 40)
  {
    SecondWriteRun(smss, 9, 100, [1], [2]);
    RunSnoc(Intended, New(smss), SecondWrite(9, 100, [1], [2]), 40, CloseCall);
  }

  lemma LastInFlightRun(smss: Mss)
    ensures RunAll(Intended, New(smss), Closed() + [(50, Arrival(Ack(101, 11), []))]) == LastInFlight(smss)
  {
    ClosedRun(smss);
    RunSnoc(Intended, New(smss), Closed(), 50, Arrival(Ack(101, 11), []));
    SendsLast(smss);
  }

  /** The frame with the FIN need not have arrived; but the socket is in FIN_WAIT_2 with
      its number unacknowledged and no timer, and no run of events sends it again. */
  lemma FinLostRun(smss: Mss, es: Events)
    ensures var c := RunAll(Intended, New(smss), FinAcknowledgedEarly());
            && c.state == FinWait2 && c.tx.una == 12 && c.tx.nxt == 13 && c.armed == None
            && c.log.sent == LastInFlight(smss).log.sent && RunAll(Intended, c, es).log.sent == c.log.sent
  {
    LastInFlightRun(smss);
    RunSnoc(Intended, New(smss), Closed() + [(50, Arrival(Ack(101, 11), []))], 60, Arrival(Ack(101, 12), []));
    TakenForAcknowledged(smss);
    SilentFrom(Intended, RunAll(Intended, New(smss), FinAcknowledgedEarly()), es);
  }

  /** Nothing is queued, and nothing can be any more. */
  predicate Silent(c: Conn) {
    c.tx.q == [] && c.state in {FinWait2, Closing, TimeWait}
  }

  lemma {:induction false} SilentFrom(form: Form, c: Conn, es: seq<(int, Event)>)
    requires Silent(c)
    ensures Silent(RunAll(form, c, es)) && RunAll(form, c, es).log.sent == c.log.sent
  {
    if es == [] {
    } else {
      var k := |es| - 1;
      SilentFrom(form, c, es[..k]);
      SilentStep(form, RunAll(form, c, es[..k]), es[k].0, es[k].1);
    }
  }

  lemma {:induction false} SilentStep(form: Form, c: Conn, now: int, e: Event)
    requires Silent(c)
    ensures var c' := Next(form, c, now, e); Silent(c') && c'.log.sent == c.log.sent
  {
    if e.Arrival? {
      EmptyStaysEmpty(form, c, e.h, e.data, now);
      ArrivalLeads(form, c, e.h, e.data, now);
    }
  }
}
