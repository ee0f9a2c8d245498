/** What becomes of the parts of an arriving segment: its text, its FIN, and the room its
    acknowledgment makes for more to send. */
module Arrivals {
  import opened Common
  import opened Reassembly
  import opened SendQueue
  import opened Connection
  import opened Delivery
  import opened Diagram
  import opened Progress
  import opened Readable

  // ------------------------------------------------------------------------- text

  /** Text in sequence, or a PSH alone, goes to the reader, and with it what follows on;
      text out of sequence goes to its place among what waits; a bare acknowledgment or
      FIN goes nowhere. */
  predicate Sorted(st: RxState, s: Segment, st': RxState) {
    if s.data == [] && !s.psh then st'.recv == st.recv && st'.ofo == st.ofo
    else if s.seqno == st.rcvNxt then st.recv + [s] <= st'.recv
    else st'.recv == st.recv && st'.ofo == InsertOrdered(Intended, st.ofo, s)
  }

  lemma {:induction false} ConsumeAppends(st: RxState)
    ensures st.recv <= Consume(Intended, st).recv
    decreases |st.ofo|
  {
    if Consumable(st) {
      ConsumeAppends(ConsumeOnce(Intended, st));
    }
  }

  lemma TextSorted(c: Conn, h: Header, data: seq<byte>)
    requires c.state in {Established, FinWait1, FinWait2} && c.rx.rcvWnd > 0
    ensures Sorted(c.rx, Segment(h.seqno, data, h.psh), TextInput(c, h, data).rx)
  {
    var s := Segment(h.seqno, data, h.psh);
    ConsumeAppends(c.rx.(rcvNxt := c.rx.rcvNxt + |data|, recv := c.rx.recv + [s]));
  }

  lemma FinSorts(c: Conn, data: seq<byte>)
    ensures FinInput(c, data).rx.recv == c.rx.recv && FinInput(c, data).rx.ofo == c.rx.ofo
  {}

  lemma {:induction false} AckedSorted(form: Form, c: Conn, h: Header, data: seq<byte>, now: int)
    requires c.state in {Established, FinWait1, FinWait2} && c.rx.rcvWnd > 0
    ensures Sorted(c.rx, Segment(h.seqno, data, h.psh), AckedInput(form, c, h, data, now).rx)
  {
    var c2 := QueueEmptyInput(c, h).0;
    assert c2.rx == c.rx && c2.state in {Established, FinWait1, FinWait2};
    TextSorted(c2, h, data);
    var c3 := TextInput(c2, h, data);
    FinSorts(c3, data);
    SendMoreKeeps(form, c3, now);
    SendMoreKeeps(form, FinInput(c3, data), now);
  }

  /** In the states in which text is taken, up to FIN_WAIT_2, nothing else becomes of it. */
  lemma {:induction false} ArrivalSorted(form: Form, c: Conn, h: Header, data: seq<byte>, now: int)
    requires Shown(c) && c.state in {SynReceived, Established, FinWait1, FinWait2}
    requires Considered(c, h, data) && AckTaken(form, c, h)
    ensures Sorted(c.rx, Segment(h.seqno, data, h.psh), Input(form, c, h, data, now).rx)
  {
    AckLeaves(form, c, h, now);
    AckedSorted(form, AckInput(form, c, h, now).0, h, data, now);
  }

  // -------------------------------------------------------------------- the FIN flag

  /** What sets the FIN flag: a FIN that is consumed; and in TIME_WAIT, with nothing queued,
      any segment that begins at rcv_nxt, with a FIN or without. */
  ghost predicate Flags(form: Form, c: Conn, e: Event) {
    || TakesFin(form, c, e)
    || (c.state == TimeWait && c.tx.q == [] && e.Arrival? && Considered(c, e.h, e.data)
        && e.h.seqno == c.rx.rcvNxt)
  }

  lemma {:induction false} FlagSet(form: Form, c: Conn, now: int, e: Event)
    ensures Next(form, c, now, e).rx.finSeen <==> c.rx.finSeen || Flags(form, c, e)
  {
    if !e.Arrival? {
      CallKeepsFlag(form, c, now, e);
    } else if c.state !in {Close, Listen, SynSent} && Considered(c, e.h, e.data) {
      AckLeaves(form, c, e.h, now);
      var (c1, dropped) := AckInput(form, c, e.h, now);
      if !dropped {
        AckedFlag(form, c1, e.h, e.data, now);
      }
    }
  }

  lemma CallKeepsFlag(form: Form, c: Conn, now: int, e: Event)
    requires !e.Arrival?
    ensures Next(form, c, now, e).rx.finSeen == c.rx.finSeen
  {
    if !e.ReadBytes? {
      CallKeepsRx(form, c, now, e);
    }
  }

  lemma {:induction false} AckedFlag(form: Form, c: Conn, h: Header, data: seq<byte>, now: int)
    requires c.state !in {Close, Listen, SynSent, SynReceived}
    ensures AckedInput(form, c, h, data, now).rx.finSeen <==>
            || c.rx.finSeen
            || (h.fin && h.seqno == c.rx.rcvNxt && !(c.state == LastAck && c.tx.q == []))
            || (c.state == TimeWait && c.tx.q == [] && h.seqno == c.rx.rcvNxt)
  {
    EmptyFlag(c, h);
    var (c2, done) := QueueEmptyInput(c, h);
    if !done {
      DeliverFlag(form, c2, h, data, now);
    }
  }

  lemma EmptyFlag(c: Conn, h: Header)
    requires c.state !in {Close, Listen, SynSent}
    ensures var (c', done) := QueueEmptyInput(c, h);
            && c'.state !in {Close, Listen, SynSent} && c'.rx.rcvNxt == c.rx.rcvNxt
            && (done <==> c.state == LastAck && c.tx.q == [])
            && (c'.rx.finSeen <==> c.rx.finSeen || (c.state == TimeWait && c.tx.q == [] && h.seqno == c.rx.rcvNxt))
  {}

  lemma {:induction false} DeliverFlag(form: Form, c: Conn, h: Header, data: seq<byte>, now: int)
    requires c.state !in {Close, Listen, SynSent}
    ensures Deliver(form, c, h, data, now).rx.finSeen <==> c.rx.finSeen || (h.fin && h.seqno == c.rx.rcvNxt)
  {
    var s := Segment(h.seqno, data, h.psh);
    ConsumeShows(c.rx.(rcvNxt := c.rx.rcvNxt + |data|, recv := c.rx.recv + [s]));
    var c3 := TextInput(c, h, data);
    assert c3.rx.finSeen == c.rx.finSeen && c3.state == c.state;
    FinFlags(c3, data);
    SendMoreKeeps(form, c3, now);
    SendMoreKeeps(form, FinInput(c3, data), now);
  }

  lemma FinFlags(c: Conn, data: seq<byte>)
    requires c.state !in {Close, Listen, SynSent}
    ensures FinInput(c, data).rx.finSeen
  {}

  // ------------------------------------------------------------------- what goes out

  /** What an arrival sends: nothing, or all that is then in flight, the first three of
      what is queued or, with fewer, all of it. */
  predicate SendsThree(c: Conn, c': Conn) {
    || c'.log.sent == c.log.sent
    || (c'.tx.inflight == Min(|c'.tx.q|, 3)
        && c'.log.sent == c.log.sent + FramesOf(c'.tx.q[..Min(|c'.tx.q|, 3)]))
  }

  lemma SendMoreThree(b: Conn, c: Conn, now: int)
    requires c.log.sent == b.log.sent
    ensures SendsThree(b, SendMore(Intended, c, now))
  {}

  lemma {:induction false} AckedThree(c: Conn, h: Header, data: seq<byte>, now: int)
    ensures SendsThree(c, AckedInput(Intended, c, h, data, now))
  {
    var c2 := QueueEmptyInput(c, h).0;
    assert c2.log.sent == c.log.sent;
    var c3 := TextInput(c2, h, data);
    FinSendsNothing(c3, data);
    SendMoreThree(c, c3, now);
    SendMoreThree(c, FinInput(c3, data), now);
  }

  lemma FinSendsNothing(c: Conn, data: seq<byte>)
    ensures FinInput(c, data).log.sent == c.log.sent
  {}

  lemma {:induction false} ArrivalSendsThree(c: Conn, h: Header, data: seq<byte>, now: int)
    ensures SendsThree(c, Input(Intended, c, h, data, now))
  {
    if c.state !in {Close, Listen, SynSent} && Considered(c, h, data) {
      var (c1, dropped) := AckInput(Intended, c, h, now);
      assert c1.log.sent == c.log.sent;
      if !dropped {
        AckedThree(c1, h, data, now);
      }
    }
  }
}
