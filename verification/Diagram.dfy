/** The states a connection goes through, against the state diagram of section 3.2
    of RFC 793: where an arrival leads, across everything tcp_input_state does with
    it, and that no step leaves the diagram but to reset or to end. */
module Diagram {
  import opened Common
  import opened Reassembly
  import opened SendQueue
  import opened Rto
  import opened Connection
  import opened Progress

  // ---------------------------------------------------------- where arrivals lead

  const ACK_STATES := {SynReceived, Established, FinWait1, CloseWait, Closing, LastAck}

  /** Its acknowledgment is one that does not get it dropped. */
  predicate AckTaken(form: Form, c: Conn, h: Header) {
    if c.state == SynReceived then c.tx.una <= h.ackSeq && AckFits(form, c, h.ackSeq)
    else c.state in ACK_STATES ==> c.tx.una <= h.ackSeq <= c.tx.nxt
  }

  /** Everything queued has been sent and is acknowledged, or nothing was queued. */
  ghost predicate AllAcknowledged(form: Form, c: Conn, h: Header) {
    || c.tx.q == []
    || (&& c.state in ACK_STATES && c.tx.una < h.ackSeq && AckFits(form, c, h.ackSeq)
        && forall i :: 0 <= i < |c.tx.q| ==> c.tx.q[i].seqno > 0 && c.tx.q[i].endSeq <= h.ackSeq)
  }

  /** Where a segment that is looked at leads. */
  function Target(s: State, allAcked: bool, fin: bool): State {
    match s
    case SynReceived => if fin then CloseWait else Established
    case Established => if fin then CloseWait else Established
    case FinWait1 =>
      if allAcked then (if fin then TimeWait else FinWait2)
      else if fin then Closing else FinWait1
    case FinWait2 => if fin then TimeWait else FinWait2
    case Closing => if allAcked then TimeWait else Closing
    case LastAck => if allAcked then Closing else LastAck
    case _ => s
  }

  lemma {:induction false} CleanedAll(q: seq<TxSeg>, una: nat)
    ensures Cleaned(q, una) == |q| <==> forall i :: 0 <= i < |q| ==> q[i].seqno > 0 && q[i].endSeq <= una
  {
    if q == [] {
    } else {
      CleanedAll(q[1..], una);
      assert forall i :: 1 <= i < |q| ==> q[i] == q[1..][i - 1];
    }
  }

  lemma AckLeaves(form: Form, c: Conn, h: Header, now: int)
    ensures var (c', dropped) := AckInput(form, c, h, now);
            && dropped == !AckTaken(form, c, h)
            && (c'.tx.q == [] <==> AllAcknowledged(form, c, h))
            && c'.rx == c.rx
            && c'.log.ended == c.log.ended
            && c'.state == if c.state == SynReceived && !dropped then Established else c.state
  {
    CleanedAll(c.tx.q, h.ackSeq);
  }

  /** Text and what is sent in turn do not change the state; an in-sequence FIN does. */
  lemma DeliverLeads(form: Form, c: Conn, h: Header, data: seq<byte>, now: int)
    requires c.state !in {Close, Listen, SynSent, SynReceived}
    ensures var t := Deliver(form, c, h, data, now).state;
            t == if h.fin && h.seqno == c.rx.rcvNxt
                 then Target(c.state, c.tx.q == [] && c.state == FinWait1, true) else c.state
    ensures Deliver(form, c, h, data, now).log.ended == c.log.ended
  {
    var c3 := TextInput(c, h, data);
    FinLeads(c3, data);
    SendMoreKeeps(form, c3, now);
    SendMoreKeeps(form, FinInput(c3, data), now);
  }

  lemma FinLeads(c: Conn, data: seq<byte>)
    requires c.state !in {Close, Listen, SynSent, SynReceived}
    ensures FinInput(c, data).state == Target(c.state, c.tx.q == [] && c.state == FinWait1, true)
    ensures FinInput(c, data).log.ended == c.log.ended
  {}

  /** Where an arrival leaves a synchronized connection. */
  ghost function ArrivalTarget(form: Form, c: Conn, h: Header, data: seq<byte>): State {
    if Considered(c, h, data) && AckTaken(form, c, h) then
      Target(c.state, AllAcknowledged(form, c, h), h.fin && h.seqno == c.rx.rcvNxt)
    else if h.rst && VerifySegment(c.rx, Segment(h.seqno, data, h.psh)) then TimeWait
    else c.state
  }

  lemma EmptyLeads(c: Conn, h: Header)
    requires c.state !in {Close, Listen, SynSent, SynReceived}
    ensures var (c', done) := QueueEmptyInput(c, h);
            && c'.state == Target(c.state, c.tx.q == [], false)
            && (done <==> c.state == LastAck && c.tx.q == [])
            && (!done ==> c'.tx == c.tx && c'.rx.rcvNxt == c.rx.rcvNxt && c'.log.ended == c.log.ended)
            && (done ==> c'.log.ended)
  {}

  /** Acknowledgment, empty queue, text, FIN and sending together lead where the
      target says; and the socket is finished exactly in LAST_ACK with all acknowledged. */
  lemma {:induction false} ArrivalLeads(form: Form, c: Conn, h: Header, data: seq<byte>, now: int)
    requires c.state !in {Close, Listen, SynSent}
    ensures var c' := Input(form, c, h, data, now);
            && c'.state == ArrivalTarget(form, c, h, data)
            && (c'.log.ended <==> c.log.ended || LastAckDone(form, c, h, data))
  {
    if Considered(c, h, data) {
      AckLeaves(form, c, h, now);
      var (c1, dropped) := AckInput(form, c, h, now);
      if !dropped {
        AckedLeads(form, c1, h, data, now);
      }
    }
  }

  ghost predicate LastAckDone(form: Form, c: Conn, h: Header, data: seq<byte>) {
    c.state == LastAck && Considered(c, h, data) && AckTaken(form, c, h) && AllAcknowledged(form, c, h)
  }

  lemma {:induction false} AckedLeads(form: Form, c: Conn, h: Header, data: seq<byte>, now: int)
    requires c.state !in {Close, Listen, SynSent, SynReceived}
    ensures var c' := AckedInput(form, c, h, data, now);
            && c'.state == Target(c.state, c.tx.q == [], h.fin && h.seqno == c.rx.rcvNxt)
            && (c'.log.ended <==> c.log.ended || (c.state == LastAck && c.tx.q == []))
  {
    EmptyLeads(c, h);
    var (c', done) := QueueEmptyInput(c, h);
    if !done {
      DeliverLeads(form, c', h, data, now);
    }
  }

  // -------------------------------------------------------------------- the diagram

  /** The edges of figure 6. */
  predicate Edge(s: State, t: State) {
    match s
    case Close => t in {Listen, SynSent}
    case Listen => t in {SynReceived, SynSent, Close}
    case SynSent => t in {SynReceived, Established, Close}
    case SynReceived => t in {Established, FinWait1}
    case Established => t in {FinWait1, CloseWait}
    case FinWait1 => t in {FinWait2, Closing, TimeWait}
    case FinWait2 => t == TimeWait
    case Closing => t == TimeWait
    case CloseWait => t == LastAck
    case LastAck => t == Close
    case TimeWait => t == Close
  }

  /** A segment can take two edges at once, as its ACK and then its FIN are seen. */
  predicate Path(s: State, t: State) {
    s == t || Edge(s, t) || exists m: State :: Edge(s, m) && Edge(m, t)
  }

  /** What ends a socket with tcp_done, in place of the diagram's edge to CLOSED. */
  ghost predicate Ends(form: Form, c: Conn, e: Event) {
    match e
    case Arrival(h, data) =>
      || (c.state == SynSent && h.rst && (h.ack ==> form.Intended? && !Unacceptable(c, h)))
      || LastAckDone(form, c, h, data)
    case CloseCall => c.state in {Listen, SynSent, SynReceived}
    case SynTimer => c.state == SynSent && c.rtt.backoff > CONN_RETRIES
    case DataTimer => c.tx.q != [] && c.rtt.rto > 60000
    case Abort => true
    case LingerTimer => true
    case UserTimer => true
    case _ => false
  }

  /** A reset that a synchronized connection accepts; it waits rather than ends. */
  predicate Resets(c: Conn, e: Event) {
    && e.Arrival? && e.h.rst && c.state !in {Close, Listen, SynSent}
    && VerifySegment(c.rx, Segment(e.h.seqno, e.data, e.h.psh))
  }

  /** A finished socket: its timer is stopped and nothing waits out of order. */
  predicate Ended(c: Conn) {
    c.log.ended && c.state == Closing && c.armed == None && c.rtt.backoff == 0 && c.rx.ofo == []
  }

  /** The step to c' ends the socket, or is an accepted reset, or moves along the diagram,
      never to LISTEN; and it does not end the socket otherwise. */
  ghost predicate Follows(form: Form, c: Conn, e: Event, c': Conn) {
    if Ends(form, c, e) then Ended(c')
    else
      && c'.log.ended == c.log.ended
      && if Resets(c, e) then c'.state == TimeWait
         else Path(c.state, c'.state) && (c'.state == Listen ==> c.state == Listen)
  }

  lemma TargetOnPath(s: State, allAcked: bool, fin: bool)
    requires s == LastAck ==> !allAcked
    ensures Path(s, Target(s, allAcked, fin))
  {
    assert Edge(SynReceived, Established) && Edge(Established, CloseWait);
    assert Edge(FinWait1, FinWait2) && Edge(FinWait2, TimeWait);
  }

  lemma SynSentLeads(form: Form, c: Conn, h: Header, data: seq<byte>)
    requires c.state == SynSent
    ensures var c' := SynSentInput(form, c, h);
            if Ends(form, c, Arrival(h, data)) then Ended(c')
            else c'.log.ended == c.log.ended && c'.state in {SynSent, SynReceived, Established}
  {}

  lemma LastAckEnds(form: Form, c: Conn, h: Header, data: seq<byte>, now: int)
    requires c.state == LastAck && Ends(form, c, Arrival(h, data))
    ensures Ended(SyncedInput(form, c, h, data, now))
  {
    AckLeaves(form, c, h, now);
  }

  lemma {:induction false} ArrivalInDiagram(form: Form, c: Conn, h: Header, data: seq<byte>, now: int)
    ensures Follows(form, c, Arrival(h, data), Input(form, c, h, data, now))
  {
    if c.state == SynSent {
      SynSentLeads(form, c, h, data);
    } else if c.state !in {Close, Listen} {
      ArrivalLeads(form, c, h, data, now);
      if Ends(form, c, Arrival(h, data)) {
        LastAckEnds(form, c, h, data, now);
      } else if Considered(c, h, data) && AckTaken(form, c, h) {
        TargetOnPath(c.state, AllAcknowledged(form, c, h), h.fin && h.seqno == c.rx.rcvNxt);
      }
    }
  }

  lemma {:induction false} CallInDiagram(form: Form, c: Conn, now: int, e: Event)
    requires !e.Arrival?
    ensures Follows(form, c, e, Next(form, c, now, e))
  {
    match e
    case Write(bytes) => QueueEachKeeps(c, Chunks(bytes, c.smss), now);
    case CloseCall => CloseInDiagram(form, c, now);
    case DataTimer => DataTimerInDiagram(form, c, now);
    case SynTimer => SynTimerInDiagram(form, c, now);
    case _ =>
  }

  lemma CloseInDiagram(form: Form, c: Conn, now: int)
    ensures Follows(form, c, CloseCall, CloseSocket(c, now))
  {}

  lemma DataTimerInDiagram(form: Form, c: Conn, now: int)
    ensures Follows(form, c, DataTimer, DataExpiry(c, now))
  {}

  lemma SynTimerInDiagram(form: Form, c: Conn, now: int)
    ensures Follows(form, c, SynTimer, SynExpiry(c, now))
  {}

  /** Every step ends the socket exactly where Ends says, is an accepted reset, or
      moves along the diagram, never to LISTEN. */
  lemma {:induction false} StepInDiagram(form: Form, c: Conn, now: int, e: Event)
    ensures Follows(form, c, e, Next(form, c, now, e))
  {
    if e.Arrival? {
      ArrivalInDiagram(form, c, e.h, e.data, now);
    } else {
      CallInDiagram(form, c, now, e);
    }
  }

  // ---------------------------------------------------------------------- opening

  /** While the SYN is unanswered it is all that has been sent; nothing listens. */
  predicate Opening(c: Conn) {
    c.state != Listen && (c.state == SynSent ==> c.tx.una == c.iss && c.tx.nxt == c.iss + 1)
  }

  lemma {:induction false} StepKeepsOpening(form: Form, c: Conn, now: int, e: Event)
    requires Opening(c)
    ensures Opening(Next(form, c, now, e))
  {
    StepInDiagram(form, c, now, e);
    if c.state == SynSent {
      if e.Arrival? {
        SynSentLeads(form, c, e.h, e.data);
      }
    } else if c.state != Close {
      StepForward(form, c, now, e);
    }
  }

  lemma {:induction false} RunOpens(form: Form, smss: Mss, es: seq<(int, Event)>)
    ensures Opening(RunAll(form, New(smss), es))
  {
    if es == [] {
    } else {
      var k := |es| - 1;
      RunOpens(form, smss, es[..k]);
      StepKeepsOpening(form, RunAll(form, New(smss), es[..k]), es[k].0, es[k].1);
    }
  }

  /** In every reachable state: no socket listens; a SYN alone is what takes an
      opening to SYN_RECEIVED; a SYN that acknowledges ours takes it to ESTABLISHED
      as intended, and as written nothing does. */
  lemma {:induction false} HowOpeningsEnd(form: Form, smss: Mss, es: seq<(int, Event)>, now: int, e: Event)
    ensures var c := RunAll(form, New(smss), es);
            && c.state != Listen
            && (c.state == SynSent ==>
                  var s, syn := Next(form, c, now, e).state, e.Arrival? && e.h.syn && !e.h.rst;
                  && (s == SynReceived <==> syn && !e.h.ack)
                  && (s == Established <==> form.Intended? && syn && e.h.ack && e.h.ackSeq == c.iss + 1))
  {
    RunOpens(form, smss, es);
    var c := RunAll(form, New(smss), es);
    if c.state == SynSent {
      OpeningEnds(form, c, now, e);
    }
  }

  lemma OpeningEnds(form: Form, c: Conn, now: int, e: Event)
    requires Opening(c) && c.state == SynSent
    ensures var s, syn := Next(form, c, now, e).state, e.Arrival? && e.h.syn && !e.h.rst;
            && (s == SynReceived <==> syn && !e.h.ack)
            && (s == Established <==> form.Intended? && syn && e.h.ack && e.h.ackSeq == c.iss + 1)
  {}
}
