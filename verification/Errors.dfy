/** The pending error of a socket, which tcp_write returns before anything else:
    what sets it, that only one thing clears it, and what that means for writing. */
module Errors {
  import opened Common
  import opened SendQueue
  import opened Connection
  import opened Progress
  import opened Diagram
  import opened Openings

  /** The answer to our SYN that establishes the connection. */
  predicate Answered(form: Form, c: Conn, e: Event) {
    && form.Intended? && c.state == SynSent
    && e.Arrival? && e.h.syn && e.h.ack && !e.h.rst && e.h.ackSeq == c.iss + 1
  }

  lemma ArrivalErrors(form: Form, c: Conn, h: Header, data: seq<byte>, now: int)
    requires c.state != SynSent
    ensures Input(form, c, h, data, now).err == c.err
  {
    if c.state !in {Close, Listen} {
      var (c1, _) := AckInput(form, c, h, now);
      DeliverErrors(form, QueueEmptyInput(c1, h).0, h, data, now);
    }
  }

  lemma DeliverErrors(form: Form, c: Conn, h: Header, data: seq<byte>, now: int)
    ensures Deliver(form, c, h, data, now).err == c.err
  {}

  /** An error is cleared exactly by the answer that establishes the connection. */
  lemma {:induction false} StepErrors(form: Form, c: Conn, now: int, e: Event)
    requires Opening(c) && c.err != NoErr
    ensures Next(form, c, now, e).err == NoErr <==> Answered(form, c, e)
  {
    if e.Arrival? {
      if c.state == SynSent {
        SynSentErrors(form, c, e.h);
      } else {
        ArrivalErrors(form, c, e.h, e.data, now);
      }
    } else if e.Write? {
      QueueEachKeeps(c, Chunks(e.bytes, c.smss), now);
    }
  }

  lemma SynSentErrors(form: Form, c: Conn, h: Header)
    requires Opening(c) && c.state == SynSent && c.err != NoErr
    ensures SynSentInput(form, c, h).err == NoErr <==> Answered(form, c, Arrival(h, []))
  {}

  /** The event leaves this error, whatever was pending. */
  predicate Raises(form: Form, c: Conn, e: Event, x: Err) {
    match x
    case NoErr => Answered(form, c, e)
    case InProgress => e.Connect? && c.state == Close
    case IsConn => e.Connect? && c.state != Close
    case BadF => e.CloseCall? && c.state in {Close, Closing, LastAck, TimeWait, FinWait1, FinWait2}
    case ConnRefused =>
      && e.Arrival? && c.state == SynSent && e.h.rst
      && (e.h.ack ==> form.Intended? && c.iss < e.h.ackSeq <= c.tx.nxt && c.tx.una <= e.h.ackSeq)
    case TimedOut =>
      || (e.DataTimer? && c.tx.q != [] && c.rtt.rto > 60000)
      || (e.SynTimer? && c.state == SynSent && c.rtt.backoff > 3)
  }

  /** Every event leaves exactly the error it raises, or the one that was pending. */
  lemma {:induction false} StepRaises(form: Form, c: Conn, now: int, e: Event)
    requires Opening(c)
    ensures var err := Next(form, c, now, e).err;
            && (forall x :: Raises(form, c, e, x) ==> err == x)
            && ((forall x :: !Raises(form, c, e, x)) ==> err == c.err)
  {
    if e.Arrival? {
      if c.state == SynSent {
        SynSentRaises(form, c, e.h, e.data);
      } else {
        ArrivalErrors(form, c, e.h, e.data, now);
      }
    } else {
      CallRaises(form, c, now, e);
    }
  }

  lemma SynSentRaises(form: Form, c: Conn, h: Header, data: seq<byte>)
    requires Opening(c) && c.state == SynSent
    ensures var err, e := SynSentInput(form, c, h).err, Arrival(h, data);
            && (Raises(form, c, e, NoErr) ==> err == NoErr) && (Raises(form, c, e, ConnRefused) ==> err == ConnRefused)
            && (!Raises(form, c, e, NoErr) && !Raises(form, c, e, ConnRefused) ==> err == c.err)
  {}

  lemma CallRaises(form: Form, c: Conn, now: int, e: Event)
    requires !e.Arrival?
    ensures var err := Next(form, c, now, e).err;
            && (forall x :: Raises(form, c, e, x) ==> err == x)
            && ((forall x :: !Raises(form, c, e, x)) ==> err == c.err)
  {
    match e
    case Write(bytes) => QueueEachKeeps(c, Chunks(bytes, c.smss), now);
    case Connect(_) => assert Raises(form, c, e, if c.state == Close then InProgress else IsConn);
    case CloseCall => CloseRaises(form, c, now);
    case SynTimer => assert Raises(form, c, e, TimedOut) <==> c.state == SynSent && c.rtt.backoff > 3;
    case DataTimer => assert Raises(form, c, e, TimedOut) <==> c.tx.q != [] && c.rtt.rto > 60000;
    case _ =>
  }

  lemma CloseRaises(form: Form, c: Conn, now: int)
    ensures CloseSocket(c, now).err == if Raises(form, c, CloseCall, BadF) then BadF else c.err
  {
    match c.state {
      case Close => case Listen => case SynSent => case SynReceived => case Established => case FinWait1 =>
      case FinWait2 => case CloseWait => case Closing => case LastAck => case TimeWait =>
    }
  }

  lemma {:induction false} StepAccepts(form: Form, c: Conn, now: int, e: Event)
    ensures Next(form, c, now, e).log.accepted == c.log.accepted + if Accepts(c, e) then e.bytes else []
  {
    if e.Arrival? {
      ArrivalConnects(form, c, e.h, e.data, now);
    } else {
      CallLogs(form, c, now, e);
    }
  }

  /** After the opening an error stays for good: a socket closed or connected a
      second time never accepts another byte. */
  lemma {:induction false} ErrorsStay(form: Form, smss: Mss, before: seq<(int, Event)>, es: seq<(int, Event)>)
    requires var c := RunAll(form, New(smss), before); c.err != NoErr && c.state !in {Close, SynSent}
    ensures var c, c' := RunAll(form, New(smss), before), RunAll(form, RunAll(form, New(smss), before), es);
            c'.err != NoErr && c'.log.accepted == c.log.accepted
  {
    RunOpens(form, smss, before);
    StaysFrom(form, RunAll(form, New(smss), before), es);
  }

  lemma {:induction false} StaysFrom(form: Form, c: Conn, es: seq<(int, Event)>)
    requires Opening(c) && c.err != NoErr && c.state !in {Close, SynSent}
    ensures var c' := RunAll(form, c, es);
            && Opening(c') && c'.err != NoErr && c'.state !in {Close, SynSent}
            && c'.log.accepted == c.log.accepted
  {
    if es == [] {
    } else {
      var k, e := |es| - 1, es[|es| - 1];
      StaysFrom(form, c, es[..k]);
      var b := RunAll(form, c, es[..k]);
      StepKeepsOpening(form, b, e.0, e.1);
      StepForward(form, b, e.0, e.1);
      StepErrors(form, b, e.0, e.1);
      StepAccepts(form, b, e.0, e.1);
    }
  }

  /** Nothing pending, and yet nothing open. */
  predicate Unwritable(c: Conn) {
    c.err == NoErr ==> c.state in {Close, Closing, TimeWait}
  }

  /** As written no run of any events ever accepts a byte: what clears the error of
      an opening is the answer that is dropped (src/tcp_input.cpp:161), and a
      simultaneous open does not clear it. */
  lemma {:induction false} WrittenNeverWrites(smss: Mss, es: seq<(int, Event)>)
    ensures var c := RunAll(Written, New(smss), es); Unwritable(c) && c.log.accepted == []
  {
    if es == [] {
    } else {
      var k, e := |es| - 1, es[|es| - 1];
      WrittenNeverWrites(smss, es[..k]);
      RunOpens(Written, smss, es[..k]);
      StepUnwritable(RunAll(Written, New(smss), es[..k]), e.0, e.1);
      StepAccepts(Written, RunAll(Written, New(smss), es[..k]), e.0, e.1);
    }
  }

  lemma {:induction false} StepUnwritable(c: Conn, now: int, e: Event)
    requires Opening(c) && Unwritable(c)
    ensures Unwritable(Next(Written, c, now, e))
  {
    if c.err != NoErr {
      StepErrors(Written, c, now, e);
    } else {
      StepInDiagram(Written, c, now, e);
      StepForward(Written, c, now, e);
      if c.state == Close && e.Connect? {
        assert Next(Written, c, now, e).err == InProgress;
      }
    }
  }

  /** A connection that is connected once more stays ESTABLISHED, and no run of events makes
      it accept a byte again. */
  lemma SecondConnectRun(smss: Mss, es: Events)
    ensures var c := RunAll(Intended, New(smss), ActiveOpen(9, 100) + [(30, Connect(5))]);
            && c.state == Established && c.err == IsConn
            && RunAll(Intended, c, es).err != NoErr && RunAll(Intended, c, es).log.accepted == []
  {
    ActiveOpenRun(smss, 9, 100);
    RunSnoc(Intended, New(smss), ActiveOpen(9, 100), 30, Connect(5));
    ErrorsStay(Intended, smss, ActiveOpen(9, 100) + [(30, Connect(5))], es);
  }
}
