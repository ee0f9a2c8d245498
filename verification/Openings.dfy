/** The beginning of concrete runs: an active open that is answered, and how a run
    goes on by one event. */
module Openings {
  import opened Common
  import opened Reassembly
  import opened SendQueue
  import opened Rto
  import opened Connection

  type Events = seq<(int, Event)>

  /** A connect, and the peer's SYN with its ACK ten milliseconds later. */
  function ActiveOpen(iss: nat, peer: nat): Events {
    [(0, Connect(iss)), (10, Arrival(Header(peer, iss + 1, true, true, false, false, false), []))]
  }

  /** The connection that these establish. */
  function Opened(smss: Mss, iss: nat, peer: nat): Conn {
    Conn(Established, NoErr, iss, peer, smss,
         TxState(iss + 1, iss + 1, [], 0), RxState(peer + 1, 44477, [], [], false, false, false),
         Rtt(0, 0, 1000, 0), None,
         Log([], [], [], true, 0, 0, 1, [Frame(iss, [], true, false, false)], 0, SYN_BACKOFF, false, false))
  }

  lemma RunSnoc(form: Form, c: Conn, es: Events, now: int, e: Event)
    ensures RunAll(form, c, es + [(now, e)]) == Next(form, RunAll(form, c, es), now, e)
  {
    assert (es + [(now, e)])[..|es|] == es;
  }

  lemma Connecting(smss: Mss, iss: nat)
    ensures var syn := TxSeg(iss, iss, [], true, false, false);
            ConnectCall(New(smss), iss, 0) ==
            New(smss).(state := SynSent, err := InProgress, iss := iss, tx := TxState(iss, iss + 1, [syn], 1),
                       armed := Some(SYN_BACKOFF),
                       log := NO_LOG.(connects := 1, sent := [Frame(iss, [], true, false, false)],
                                      delay := SYN_BACKOFF))
  {
    assert Pow2(0) == 1;
    assert Connected(iss).q == [TxSeg(iss, iss, [], true, false, false)];
  }

  /** A write queue of one acknowledged segment is emptied. */
  lemma CleanOne(c: Conn, s: TxSeg, una: nat)
    requires c.tx.q == [s] && c.tx.inflight == 1 && 0 < s.seqno && s.endSeq <= una
    ensures Clean(c, una)
         == StopRto(c.(tx := c.tx.(q := [], inflight := 0), log := c.log.(acked := c.log.acked + s.data)))
  {
    assert Cleaned([s], una) == 1 + Cleaned([s][1..], una) == 1;
    assert DecrementBy(1, 1) == Decrement(DecrementBy(1, 0)) == 0;
    assert Payload([s][..1]) == Payload([s][..1][..0]) + s.data;
  }

  lemma ActiveOpenRun(smss: Mss, iss: nat, peer: nat)
    requires iss > 0
    ensures RunAll(Intended, New(smss), ActiveOpen(iss, peer)) == Opened(smss, iss, peer)
  {
    var es := ActiveOpen(iss, peer);
    var begun := ConnectCall(New(smss), iss, 0);
    assert es[..1] == [] + [es[0]] && es == [es[0]] + [es[1]];
    RunSnoc(Intended, New(smss), [], 0, es[0].1);
    RunSnoc(Intended, New(smss), [es[0]], 10, es[1].1);
    Connecting(smss, iss);
    var syn := TxSeg(iss, iss, [], true, false, false);
    var c1 := begun.(irs := peer, rx := begun.rx.(rcvNxt := peer + 1), log := begun.log.(synSeen := true),
                     tx := begun.tx.(una := iss + 1));
    CleanOne(c1, syn, iss + 1);
    assert Settle(Clean(c1, iss + 1)) == Opened(smss, iss, peer);
  }

  /** The first write of such a connection, at 20 milliseconds, of bytes that fit one segment. */
  function FirstWrite(iss: nat, peer: nat, data: seq<byte>): Events {
    ActiveOpen(iss, peer) + [(20, Write(data))]
  }

  function Wrote(smss: Mss, iss: nat, peer: nat, data: seq<byte>): Conn {
    var c := Opened(smss, iss, peer);
    c.(tx := TxState(iss + 1, iss + 1 + |data|, [TxSeg(iss + 1, iss + 1 + |data|, data, false, false, true)], 1),
       armed := Some(1020),
       log := c.log.(accepted := data, sent := c.log.sent + [Frame(iss + 1, data, false, false, true)],
                     armedAt := 20, delay := 1000))
  }

  lemma FirstWriteRun(smss: Mss, iss: nat, peer: nat, data: seq<byte>)
    requires iss > 0 && 0 < |data| <= 536
    ensures RunAll(Intended, New(smss), FirstWrite(iss, peer, data)) == Wrote(smss, iss, peer, data)
  {
    ActiveOpenRun(smss, iss, peer);
    RunSnoc(Intended, New(smss), ActiveOpen(iss, peer), 20, Write(data));
    var c, s := Opened(smss, iss, peer), Fresh(data, false, false, true);
    assert Chunks(data, smss) == [s] && [s][1..] == [];
    assert QueueEach(c, [s], 20) == QueueEach(Queue(c, s, 20), [], 20) == Queue(c, s, 20);
    assert c.tx.q + [Stamp(s, iss + 1)] == [Stamp(s, iss + 1)] && c.log.accepted + data == data;
  }

  /** An acknowledgment and nothing else. */
  function Ack(seqno: nat, ackSeq: nat): Header {
    Header(seqno, ackSeq, false, true, false, false, false)
  }

  /** A second write while the first one is in flight. */
  function SecondWrite(iss: nat, peer: nat, data: seq<byte>, more: seq<byte>): Events {
    FirstWrite(iss, peer, data) + [(30, Write(more))]
  }

  function WroteTwice(smss: Mss, iss: nat, peer: nat, data: seq<byte>, more: seq<byte>): Conn {
    var c := Wrote(smss, iss, peer, data);
    c.(tx := c.tx.(q := c.tx.q + [Fresh(more, false, false, true)]), log := c.log.(accepted := data + more))
  }

  lemma SecondWriteRun(smss: Mss, iss: nat, peer: nat, data: seq<byte>, more: seq<byte>)
    requires iss > 0 && 0 < |data| <= 536 && 0 < |more| <= 536
    ensures RunAll(Intended, New(smss), SecondWrite(iss, peer, data, more)) == WroteTwice(smss, iss, peer, data, more)
  {
    FirstWriteRun(smss, iss, peer, data);
    RunSnoc(Intended, New(smss), FirstWrite(iss, peer, data), 30, Write(more));
    var c, s := Wrote(smss, iss, peer, data), Fresh(more, false, false, true);
    assert Chunks(more, smss) == [s] && [s][1..] == [];
    assert QueueEach(c, [s], 30) == QueueEach(Queue(c, s, 30), [], 30) == Queue(c, s, 30);
  }
}
