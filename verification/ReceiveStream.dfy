/** The receive side over whole runs of a connection: what rcv_nxt counts, when a
    FIN has been consumed, and that the application's stream only grows, and not
    after a FIN. */
module ReceiveStream {
  import opened Common
  import opened Reassembly
  import opened SendQueue
  import opened Connection

  /** All the bytes the application got or can get. */
  function Stream(c: Conn): seq<byte> {
    c.log.taken + Bytes(c.rx.recv)
  }

  /** rcv_nxt is one past the peer's SYN, and then the bytes taken in order and the
      FINs consumed; the states say whether a FIN has been. */
  ghost predicate Received(c: Conn) {
    && c.rx.rcvNxt == (if c.log.synSeen then c.irs + 1 else 0) + |Stream(c)| + c.log.fins
    && (c.state in {Close, Listen, SynSent} ==> !c.log.synSeen && Stream(c) == [] && c.log.fins == 0)
    && (c.state in {SynReceived, Established, FinWait1, FinWait2} ==> c.log.synSeen && c.log.fins == 0)
    && (c.state in {CloseWait, LastAck} ==> c.log.synSeen && c.log.fins > 0)
  }

  /** From c to c' the stream only grows, and not once a FIN has been consumed. */
  ghost predicate Grows(c: Conn, c': Conn) {
    && Stream(c) <= Stream(c')
    && c.log.fins <= c'.log.fins
    && (c.log.fins > 0 ==> Stream(c') == Stream(c))
    && (c.log.synSeen ==> c'.log.synSeen)
  }

  lemma {:induction false} ConsumeCounts(st: RxState)
    ensures var st' := Consume(Intended, st);
            Bytes(st.recv) <= Bytes(st'.recv) && st'.rcvNxt - |Bytes(st'.recv)| == st.rcvNxt - |Bytes(st.recv)|
    decreases |st.ofo|
  {
    if !Consumable(st) {
    } else {
      BytesSnoc(st.recv, st.ofo[0]);
      ConsumeCounts(ConsumeOnce(Intended, st));
    }
  }

  lemma DataQueueCounts(st: RxState, s: Segment)
    ensures var st' := DataQueue(Intended, st, s);
            Bytes(st.recv) <= Bytes(st'.recv) && st'.rcvNxt - |Bytes(st'.recv)| == st.rcvNxt - |Bytes(st.recv)|
  {
    if st.rcvWnd > 0 && s.seqno == st.rcvNxt {
      BytesSnoc(st.recv, s);
      ConsumeCounts(st.(rcvNxt := st.rcvNxt + |s.data|, recv := st.recv + [s]));
    }
  }

  lemma TextGrows(c: Conn, h: Header, data: seq<byte>)
    requires Received(c)
    ensures Received(TextInput(c, h, data)) && Grows(c, TextInput(c, h, data))
  {
    DataQueueCounts(c.rx, Segment(h.seqno, data, h.psh));
  }

  lemma FinGrows(c: Conn, data: seq<byte>)
    requires Received(c)
    ensures Received(FinInput(c, data)) && Grows(c, FinInput(c, data))
  {}

  lemma SendMoreGrows(form: Form, c: Conn, now: int)
    requires Received(c)
    ensures Received(SendMore(form, c, now)) && Grows(c, SendMore(form, c, now))
  {}

  lemma DeliverGrows(form: Form, c: Conn, h: Header, data: seq<byte>, now: int)
    requires Received(c)
    ensures Received(Deliver(form, c, h, data, now)) && Grows(c, Deliver(form, c, h, data, now))
  {
    TextGrows(c, h, data);
    var c3 := TextInput(c, h, data);
    FinGrows(c3, data);
    SendMoreGrows(form, c3, now);
    SendMoreGrows(form, FinInput(c3, data), now);
  }

  lemma AckGrows(form: Form, c: Conn, h: Header, now: int)
    requires Received(c)
    ensures Received(AckInput(form, c, h, now).0) && Grows(c, AckInput(form, c, h, now).0)
  {}

  lemma EmptyGrows(c: Conn, h: Header)
    requires Received(c) && c.state !in {Close, Listen, SynSent}
    ensures Received(QueueEmptyInput(c, h).0) && Grows(c, QueueEmptyInput(c, h).0)
  {}

  lemma SynSentGrows(form: Form, c: Conn, h: Header)
    requires Received(c) && c.state == SynSent
    ensures Received(SynSentInput(form, c, h)) && Grows(c, SynSentInput(form, c, h))
  {}

  lemma {:induction false} SyncedGrows(form: Form, c: Conn, h: Header, data: seq<byte>, now: int)
    requires Received(c) && c.state !in {Close, Listen, SynSent}
    ensures Received(SyncedInput(form, c, h, data, now)) && Grows(c, SyncedInput(form, c, h, data, now))
  {
    AckGrows(form, c, h, now);
    var c1 := AckInput(form, c, h, now).0;
    EmptyGrows(c1, h);
    DeliverGrows(form, QueueEmptyInput(c1, h).0, h, data, now);
  }

  lemma {:induction false} ArrivalGrows(form: Form, c: Conn, h: Header, data: seq<byte>, now: int)
    requires Received(c)
    ensures Received(Input(form, c, h, data, now)) && Grows(c, Input(form, c, h, data, now))
  {
    if c.state == SynSent {
      SynSentGrows(form, c, h);
    } else if c.state !in {Close, Listen} {
      SyncedGrows(form, c, h, data, now);
    }
  }

  lemma WriteGrows(c: Conn, bytes: seq<byte>, now: int)
    requires Received(c)
    ensures Received(WriteCall(c, bytes, now)) && Grows(c, WriteCall(c, bytes, now))
  {
    QueueEachKeeps(c, Chunks(bytes, c.smss), now);
  }

  lemma CallGrows(form: Form, c: Conn, now: int, e: Event)
    requires Received(c) && !e.Arrival? && !e.ReadBytes? && !e.Write?
    ensures Received(Next(form, c, now, e)) && Grows(c, Next(form, c, now, e))
  {
    match e
    case Connect(iss) => ConnectGrows(c, iss, now);
    case CloseCall => CloseGrows(c, now);
    case DataTimer => DataTimerGrows(c, now);
    case _ =>
  }

  lemma ConnectGrows(c: Conn, iss: nat, now: int)
    requires Received(c)
    ensures Received(ConnectCall(c, iss, now)) && Grows(c, ConnectCall(c, iss, now))
  {}

  lemma CloseGrows(c: Conn, now: int)
    requires Received(c)
    ensures Received(CloseSocket(c, now)) && Grows(c, CloseSocket(c, now))
  {}

  lemma DataTimerGrows(c: Conn, now: int)
    requires Received(c)
    ensures Received(DataExpiry(c, now)) && Grows(c, DataExpiry(c, now))
  {}

  lemma DequeueKeeps(st: RxState, room: int, taken: seq<byte>)
    ensures var (out, st') := DataDequeue(st, room);
            (taken + out) + Bytes(st'.recv) == taken + Bytes(st.recv) && st'.rcvNxt == st.rcvNxt
  {
    var t := Take(st.recv, if room < 0 then 0 else room);
    TakeSplits(st.recv, if room < 0 then 0 else room);
    assert (taken + t.out) + Bytes(t.rest) == taken + (t.out + Bytes(t.rest));
  }

  lemma ReadGrows(form: Form, c: Conn, now: int, room: int)
    requires Received(c)
    ensures var c' := Next(form, c, now, ReadBytes(room)); Received(c') && Stream(c') == Stream(c)
  {
    DequeueKeeps(c.rx, room, c.log.taken);
  }

  lemma {:induction false} StepGrows(form: Form, c: Conn, now: int, e: Event)
    requires Received(c)
    ensures Received(Next(form, c, now, e)) && Grows(c, Next(form, c, now, e))
  {
    match e
    case Arrival(h, data) => ArrivalGrows(form, c, h, data, now);
    case ReadBytes(room) => ReadGrows(form, c, now, room);
    case Write(bytes) => WriteGrows(c, bytes, now);
    case _ => CallGrows(form, c, now, e);
  }

  lemma {:induction false} RunReceives(form: Form, smss: Mss, es: seq<(int, Event)>)
    ensures Received(RunAll(form, New(smss), es))
  {
    if es == [] {
    } else {
      var k := |es| - 1;
      RunReceives(form, smss, es[..k]);
      StepGrows(form, RunAll(form, New(smss), es[..k]), es[k].0, es[k].1);
    }
  }

  /** Over every run: rcv_nxt counts the SYN, the bytes and the FINs; a FIN has been
      consumed in CLOSE_WAIT and LAST_ACK and not before; and between any two
      moments the application's stream only grew, and not after a FIN. */
  lemma {:induction false} RunGrows(form: Form, smss: Mss, es: seq<(int, Event)>, k: nat)
    requires k <= |es|
    ensures Received(RunAll(form, New(smss), es))
    ensures Grows(RunAll(form, New(smss), es[..k]), RunAll(form, New(smss), es))
    decreases |es|
  {
    RunReceives(form, smss, es);
    if k == |es| {
      assert es[..k] == es;
    } else {
      var p := es[..|es| - 1];
      assert p[..k] == es[..k];
      RunGrows(form, smss, p, k);
      StepGrows(form, RunAll(form, New(smss), p), es[|es| - 1].0, es[|es| - 1].1);
    }
  }
}
