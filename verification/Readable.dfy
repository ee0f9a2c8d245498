/** When a reader is told that there is something to read: the flag of a FIN and POLLIN,
    over whole runs. */
module Readable {
  import opened Common
  import opened Reassembly
  import opened SendQueue
  import opened Connection
  import opened Progress

  /** A consumed FIN is shown, and one is shown only if consumed, unless the socket is at
      its end; POLLIN is set while bytes wait or a FIN was consumed, and only while
      something waits or a FIN is shown. The window offered stays the initial one. */
  predicate Shown(c: Conn) {
    && (c.log.fins > 0 ==> c.rx.finSeen)
    && (c.rx.finSeen ==> c.log.fins > 0 || c.state == TimeWait || c.log.ended)
    && (c.rx.recv != [] || c.log.fins > 0 ==> c.rx.pollIn)
    && (c.rx.pollIn ==> c.rx.recv != [] || c.rx.finSeen)
    && c.rx.rcvWnd == 44477
  }

  lemma {:induction false} ConsumeShows(st: RxState)
    ensures var st' := Consume(Intended, st);
            st' == st.(rcvNxt := st'.rcvNxt, ofo := st'.ofo, recv := st'.recv) && |st.recv| <= |st'.recv|
    decreases |st.ofo|
  {
    if Consumable(st) {
      ConsumeShows(ConsumeOnce(Intended, st));
    }
  }

  lemma TextShows(c: Conn, h: Header, data: seq<byte>)
    requires Shown(c)
    ensures Shown(TextInput(c, h, data))
  {
    var s := Segment(h.seqno, data, h.psh);
    ConsumeShows(c.rx.(rcvNxt := c.rx.rcvNxt + |data|, recv := c.rx.recv + [s]));
  }

  lemma FinShows(c: Conn, data: seq<byte>)
    requires Shown(c)
    ensures Shown(FinInput(c, data))
  {}

  lemma EmptyShows(c: Conn, h: Header)
    requires Shown(c)
    ensures Shown(QueueEmptyInput(c, h).0)
  {}

  lemma AckShows(form: Form, c: Conn, h: Header, now: int)
    requires Shown(c)
    ensures Shown(AckInput(form, c, h, now).0)
  {}

  lemma SendMoreShows(form: Form, c: Conn, now: int)
    requires Shown(c)
    ensures Shown(SendMore(form, c, now))
  {
    SendMoreKeeps(form, c, now);
  }

  lemma {:induction false} DeliverShows(form: Form, c: Conn, h: Header, data: seq<byte>, now: int)
    requires Shown(c)
    ensures Shown(Deliver(form, c, h, data, now))
  {
    TextShows(c, h, data);
    var c3 := TextInput(c, h, data);
    FinShows(c3, data);
    SendMoreShows(form, c3, now);
    SendMoreShows(form, FinInput(c3, data), now);
  }

  lemma {:induction false} AckedShows(form: Form, c: Conn, h: Header, data: seq<byte>, now: int)
    requires Shown(c)
    ensures Shown(AckedInput(form, c, h, data, now))
  {
    EmptyShows(c, h);
    DeliverShows(form, QueueEmptyInput(c, h).0, h, data, now);
  }

  lemma {:induction false} ArrivalShows(form: Form, c: Conn, h: Header, data: seq<byte>, now: int)
    requires Shown(c)
    ensures Shown(Input(form, c, h, data, now))
  {
    if c.state !in {Close, Listen, SynSent} && Considered(c, h, data) {
      var (c1, dropped) := AckInput(form, c, h, now);
      AckShows(form, c, h, now);
      if !dropped {
        AckedShows(form, c1, h, data, now);
      }
    }
  }

  lemma CallShows(form: Form, c: Conn, now: int, e: Event)
    requires Shown(c) && !e.Arrival?
    ensures Shown(Next(form, c, now, e))
  {
    match e
    case Write(bytes) => QueueEachKeeps(c, Chunks(bytes, c.smss), now);
    case CloseCall => CloseShows(c, now);
    case DataTimer => DataTimerShows(c, now);
    case SynTimer => SynTimerShows(c, now);
    case ReadBytes(room) => ReadShows(form, c, now, room);
    case _ =>
  }

  lemma ReadShows(form: Form, c: Conn, now: int, room: int)
    requires Shown(c)
    ensures Shown(Next(form, c, now, ReadBytes(room)))
  {
    if c.rx.recv == [] {
      assert Take([], if room < 0 then 0 else room).rest == [];
    }
  }

  lemma SynTimerShows(c: Conn, now: int)
    requires Shown(c)
    ensures Shown(SynExpiry(c, now))
  {}

  lemma CloseShows(c: Conn, now: int)
    requires Shown(c)
    ensures Shown(CloseSocket(c, now))
  {}

  lemma DataTimerShows(c: Conn, now: int)
    requires Shown(c)
    ensures Shown(DataExpiry(c, now))
  {}

  lemma {:induction false} StepShows(form: Form, c: Conn, now: int, e: Event)
    requires Shown(c)
    ensures Shown(Next(form, c, now, e))
  {
    if e.Arrival? {
      ArrivalShows(form, c, e.h, e.data, now);
    } else {
      CallShows(form, c, now, e);
    }
  }

  /** What a synchronized connection looks at, in numbers: a segment that begins in the
      window of 44477, has no SYN and has an ACK. Any other changes nothing at all but a
      reset in the window, which leads to TIME_WAIT and stops the timer. */
  lemma {:induction false} OutsideIsIgnored(form: Form, c: Conn, now: int, h: Header, data: seq<byte>)
    requires Shown(c) && c.state !in {Close, Listen, SynSent}
    ensures var c', inside := Next(form, c, now, Arrival(h, data)), 0 <= h.seqno - c.rx.rcvNxt <= 44477;
            && (!inside ==> c' == c)
            && (inside && h.rst ==> c' == c.(state := TimeWait, armed := None, rtt := c.rtt.(backoff := 0)))
            && (inside && !h.rst && (h.syn || !h.ack) ==> c' == c)
            && (Considered(c, h, data) <==> inside && !h.rst && !h.syn && h.ack)
  {}

  /** In every state of every run, as written and as intended. */
  lemma {:induction false} RunShows(form: Form, smss: Mss, es: seq<(int, Event)>)
    ensures Shown(RunAll(form, New(smss), es))
  {
    if es == [] {
    } else {
      var k := |es| - 1;
      RunShows(form, smss, es[..k]);
      StepShows(form, RunAll(form, New(smss), es[..k]), es[k].0, es[k].1);
    }
  }
}
