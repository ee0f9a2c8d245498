/** What the retransmission timer is set to whenever something is sent, and that nothing is
    sent again once the socket is at its end. */
module Rearming {
  import opened Common
  import opened SendQueue
  import opened Rto
  import opened Connection
  import opened Diagram
  import opened Progress
  import opened QueueShape
  import opened RtoTimer

  // ------------------------------------------------------------- set to the timeout

  /** From c to c' nothing was sent or numbered, and the timer was left or stopped; or the
      timer is now set to the timeout of c'; or the socket has given up. */
  predicate SetTo(c: Conn, now: int, c': Conn) {
    || Stopped(c, c')
    || (c'.armed == Some(now + c'.rtt.rto) && c'.log.armedAt == now)
    || (c'.armed == None && c'.log.ended && c'.tx.nxt == c.tx.nxt)
  }

  predicate Stopped(c: Conn, c': Conn) {
    c'.log.sent == c.log.sent && c'.tx.nxt == c.tx.nxt && (c'.armed == None || c'.armed == c.armed)
  }

  lemma AckStops(form: Form, c: Conn, h: Header, now: int)
    ensures Stopped(c, AckInput(form, c, h, now).0)
  {}

  lemma EmptyStops(c: Conn, h: Header)
    ensures Stopped(c, QueueEmptyInput(c, h).0)
  {}

  lemma FinStops(c: Conn, data: seq<byte>)
    ensures Stopped(c, FinInput(c, data))
  {}

  lemma SendMoreSets(form: Form, b: Conn, c: Conn, now: int)
    requires Stopped(b, c)
    ensures SetTo(b, now, SendMore(form, c, now))
  {}

  lemma {:induction false} DeliverSets(form: Form, b: Conn, c: Conn, h: Header, data: seq<byte>, now: int)
    requires Stopped(b, c)
    ensures SetTo(b, now, Deliver(form, c, h, data, now))
  {
    var c3 := TextInput(c, h, data);
    assert Stopped(b, c3);
    FinStops(c3, data);
    SendMoreSets(form, b, c3, now);
    SendMoreSets(form, b, FinInput(c3, data), now);
  }

  lemma {:induction false} AckedSets(form: Form, b: Conn, c: Conn, h: Header, data: seq<byte>, now: int)
    requires Stopped(b, c)
    ensures SetTo(b, now, AckedInput(form, c, h, data, now))
  {
    EmptyStops(c, h);
    DeliverSets(form, b, QueueEmptyInput(c, h).0, h, data, now);
  }

  lemma {:induction false} ArrivalSets(form: Form, c: Conn, h: Header, data: seq<byte>, now: int)
    ensures SetTo(c, now, Input(form, c, h, data, now))
  {
    if c.state == SynSent {
      SynSentStops(form, c, h);
    } else if c.state !in {Close, Listen} && Considered(c, h, data) {
      var (c1, dropped) := AckInput(form, c, h, now);
      AckStops(form, c, h, now);
      if !dropped {
        AckedSets(form, c, c1, h, data, now);
      }
    }
  }

  lemma SynSentStops(form: Form, c: Conn, h: Header)
    ensures Stopped(c, SynSentInput(form, c, h))
  {}

  lemma {:induction false} QueueEachSets(c: Conn, segs: seq<TxSeg>, now: int)
    requires c.tx.inflight > 0 || c.tx.q == []
    requires c.state != SynSent
    ensures var c' := QueueEach(c, segs, now);
            || c' == c.(tx := c'.tx.(nxt := c.tx.nxt))
            || (c.tx.q == [] && c'.armed == Some(now + c.rtt.rto) && c'.log.armedAt == now)
    decreases |segs|
  {
    if segs == [] {
    } else {
      QueueEachSets(Queue(c, segs[0], now), segs[1..], now);
    }
  }

  lemma {:induction false} WriteSets(c: Conn, bytes: seq<byte>, now: int)
    requires Orderly(c, Write(bytes))
    ensures SetTo(c, now, WriteCall(c, bytes, now))
  {
    if c.err == NoErr && c.state in {Established, CloseWait} && bytes != [] {
      QueueEachSets(c, Chunks(bytes, c.smss), now);
      QueueEachKeeps(c, Chunks(bytes, c.smss), now);
    }
  }

  lemma CloseSets(c: Conn, now: int)
    requires Orderly(c, CloseCall)
    ensures SetTo(c, now, CloseSocket(c, now))
  {}

  lemma DataTimerSets(c: Conn, now: int)
    ensures SetTo(c, now, DataExpiry(c, now))
  {}

  /** Whenever an orderly step sends something queued, first or again, or gives a segment
      its number, it leaves the timer at the timeout from now, whatever the timer was
      before, unless the socket gives up or is in SYN_SENT. */
  lemma {:induction false} StepSets(form: Form, c: Conn, now: int, e: Event)
    requires Orderly(c, e)
    ensures Next(form, c, now, e).state != SynSent ==> SetTo(c, now, Next(form, c, now, e))
  {
    match e
    case Arrival(h, data) => ArrivalSets(form, c, h, data, now);
    case Write(bytes) => WriteSets(c, bytes, now);
    case CloseCall => CloseSets(c, now);
    case DataTimer => DataTimerSets(c, now);
    case _ =>
  }

  // ------------------------------------------------------------------ over whole runs

  /** What the event that leads to c sets the timer to: in SYN_SENT half a second, doubled
      for every time the SYN was sent again, and otherwise the timeout. */
  function Timeout(c: Conn, e: Event): int {
    if c.state == SynSent && !e.DataTimer? then 500 * Pow2(c.rtt.backoff) else c.rtt.rto
  }

  predicate Leaves(c: Conn, now: int, e: Event, c': Conn) {
    c'.armed == None || c'.armed == c.armed || c'.armed == Some(now + Timeout(c', e))
  }

  lemma {:induction false} QueueEachLeaves(c: Conn, segs: seq<TxSeg>, now: int)
    requires c.state != SynSent
    ensures var c' := QueueEach(c, segs, now); c'.armed == c.armed || c'.armed == Some(now + c.rtt.rto)
    decreases |segs|
  {
    if segs == [] {
    } else {
      QueueEachLeaves(Queue(c, segs[0], now), segs[1..], now);
    }
  }

  lemma WriteLeaves(c: Conn, bytes: seq<byte>, now: int)
    ensures Leaves(c, now, Write(bytes), WriteCall(c, bytes, now))
  {
    if c.state != SynSent {
      QueueEachLeaves(c, Chunks(bytes, c.smss), now);
      QueueEachKeeps(c, Chunks(bytes, c.smss), now);
    }
  }

  lemma CloseLeaves(c: Conn, now: int)
    ensures Leaves(c, now, CloseCall, CloseSocket(c, now))
  {}

  lemma SynTimerLeaves(c: Conn, now: int)
    ensures Leaves(c, now, SynTimer, SynExpiry(c, now))
  {}

  lemma {:induction false} StepLeaves(form: Form, c: Conn, now: int, e: Event)
    ensures Leaves(c, now, e, Next(form, c, now, e))
  {
    match e
    case Arrival(h, data) => ArrivalLeaves(form, c, h, data, now);
    case Write(bytes) => WriteLeaves(c, bytes, now);
    case CloseCall => CloseLeaves(c, now);
    case SynTimer => SynTimerLeaves(c, now);
    case DataTimer => DataTimerLeaves(c, now);
    case _ =>
  }

  lemma DataTimerLeaves(c: Conn, now: int)
    ensures Leaves(c, now, DataTimer, DataExpiry(c, now))
  {}

  lemma {:induction false} ArrivalLeaves(form: Form, c: Conn, h: Header, data: seq<byte>, now: int)
    ensures Leaves(c, now, Arrival(h, data), Input(form, c, h, data, now))
  {
    if c.state == SynSent {
      SynSentStops(form, c, h);
    } else {
      ArrivalSets(form, c, h, data, now);
      NotSynSent(form, c, h, data, now);
      SetLeaves(c, now, Arrival(h, data), Input(form, c, h, data, now));
    }
  }

  lemma {:induction false} NotSynSent(form: Form, c: Conn, h: Header, data: seq<byte>, now: int)
    requires c.state != SynSent
    ensures Input(form, c, h, data, now).state != SynSent
  {
    if c.state !in {Close, Listen} {
      ArrivalLeads(form, c, h, data, now);
    }
  }

  lemma SetLeaves(c: Conn, now: int, e: Event, c': Conn)
    requires SetTo(c, now, c') && c'.state != SynSent
    ensures Leaves(c, now, e, c')
  {}

  /** The k-th step of the run set the timer, and so that it expires at v. */
  ghost predicate SetAt(form: Form, smss: Mss, es: seq<(int, Event)>, k: nat, v: int)
    requires k < |es|
  {
    v == es[k].0 + Timeout(RunAll(form, New(smss), es[..k + 1]), es[k].1)
  }

  /** The timer of c is not running, or was set by the k-th step of the run. */
  ghost predicate SetBy(form: Form, smss: Mss, es: seq<(int, Event)>, k: nat, c: Conn) {
    c.armed.Some? ==> k < |es| && SetAt(form, smss, es, k, c.armed.value)
  }

  lemma {:induction false} LastSets(form: Form, smss: Mss, es: seq<(int, Event)>, b: Conn, c: Conn)
    requires es != [] && c == RunAll(form, New(smss), es) && Leaves(b, es[|es| - 1].0, es[|es| - 1].1, c)
    ensures c.armed == b.armed || SetBy(form, smss, es, |es| - 1, c)
  {
    assert es[..|es| - 1 + 1] == es;
  }

  lemma {:induction false} SetBefore(form: Form, smss: Mss, es: seq<(int, Event)>, k: nat, c: Conn)
    requires es != [] && SetBy(form, smss, es[..|es| - 1], k, c)
    ensures SetBy(form, smss, es, k, c)
  {
    if c.armed.Some? {
      assert es[..|es| - 1][..k + 1] == es[..k + 1];
    }
  }

  lemma KeptSet(form: Form, smss: Mss, es: seq<(int, Event)>, k: nat, b: Conn, c: Conn)
    requires SetBy(form, smss, es, k, b) && c.armed == b.armed
    ensures SetBy(form, smss, es, k, c)
  {}

  /** In every state of every run, as written and as intended: a timer that runs was set by
      some step of the run, to the timeout that step left, counted from its time. */
  lemma {:induction false} RunSets(form: Form, smss: Mss, es: seq<(int, Event)>) returns (k: nat)
    ensures SetBy(form, smss, es, k, RunAll(form, New(smss), es))
  {
    if es == [] {
      k := 0;
    } else {
      var n := |es| - 1;
      var b := RunAll(form, New(smss), es[..n]);
      StepLeaves(form, b, es[n].0, es[n].1);
      LastSets(form, smss, es, b, RunAll(form, New(smss), es));
      k := RunSets(form, smss, es[..n]);
      SetBefore(form, smss, es, k, b);
      if RunAll(form, New(smss), es).armed == b.armed {
        KeptSet(form, smss, es, k, b, RunAll(form, New(smss), es));
      } else {
        k := n;
      }
    }
  }

  // --------------------------------------------------------------------- at the end

  /** A timer runs only with something queued, and not once the socket is in TIME_WAIT or
      ended, whatever is queued then; and of an ended socket nothing waits out of order. */
  predicate Quiet(c: Conn) {
    && (c.armed.Some? ==> c.tx.q != [])
    && (c.log.ended ==> c.state in {Closing, TimeWait} && c.rx.ofo == [])
    && (AtEnd(c) ==> c.armed == None)
  }

  predicate AtEnd(c: Conn) {
    c.state == TimeWait || c.log.ended
  }

  lemma AckQuiet(form: Form, c: Conn, h: Header, now: int)
    requires Quiet(c) && c.state !in {Close, Listen, SynSent}
    ensures Quiet(AckInput(form, c, h, now).0)
  {}

  lemma EmptyQuiet(c: Conn, h: Header)
    requires Quiet(c)
    ensures Quiet(QueueEmptyInput(c, h).0)
  {}

  lemma FinQuiet(c: Conn, data: seq<byte>)
    requires Quiet(c)
    ensures Quiet(FinInput(c, data))
  {}

  lemma SendMoreQuiet(form: Form, c: Conn, now: int)
    requires Quiet(c)
    ensures Quiet(SendMore(form, c, now))
  {
    if AtEnd(c) {
      assert SendMore(form, c, now) == c;
    } else {
      SendMoreQueues(form, c, now);
    }
  }

  lemma SendMoreQueues(form: Form, c: Conn, now: int)
    ensures var c' := SendMore(form, c, now);
            && |c'.tx.q| == |c.tx.q| && (c.tx.q == [] ==> c' == c)
            && c'.state == c.state && c'.log.ended == c.log.ended && c'.rx == c.rx
  {}

  lemma {:induction false} AckedQuiet(form: Form, c: Conn, h: Header, data: seq<byte>, now: int)
    requires Quiet(c)
    ensures Quiet(AckedInput(form, c, h, data, now))
  {
    EmptyQuiet(c, h);
    DeliverQuiet(form, QueueEmptyInput(c, h).0, h, data, now);
  }

  lemma {:induction false} DeliverQuiet(form: Form, c: Conn, h: Header, data: seq<byte>, now: int)
    requires Quiet(c)
    ensures Quiet(Deliver(form, c, h, data, now))
  {
    var c3 := TextInput(c, h, data);
    assert Quiet(c3);
    FinQuiet(c3, data);
    SendMoreQuiet(form, c3, now);
    SendMoreQuiet(form, FinInput(c3, data), now);
  }

  lemma SynSentQuiet(form: Form, c: Conn, h: Header)
    requires Quiet(c) && c.state == SynSent
    ensures Quiet(SynSentInput(form, c, h))
  {}

  lemma {:induction false} ArrivalQuiet(form: Form, c: Conn, h: Header, data: seq<byte>, now: int)
    requires Quiet(c)
    ensures Quiet(Input(form, c, h, data, now))
  {
    if c.state == SynSent {
      SynSentQuiet(form, c, h);
    } else if c.state !in {Close, Listen} && Considered(c, h, data) {
      var (c1, dropped) := AckInput(form, c, h, now);
      AckQuiet(form, c, h, now);
      if !dropped {
        AckedQuiet(form, c1, h, data, now);
      }
    }
  }

  lemma {:induction false} QueueEachQuiet(c: Conn, segs: seq<TxSeg>, now: int)
    requires Quiet(c) && !AtEnd(c)
    ensures Quiet(QueueEach(c, segs, now))
    decreases |segs|
  {
    if segs == [] {
    } else {
      QueueEachQuiet(Queue(c, segs[0], now), segs[1..], now);
    }
  }

  lemma WriteQuiet(c: Conn, bytes: seq<byte>, now: int)
    requires Quiet(c)
    ensures Quiet(WriteCall(c, bytes, now))
  {
    if c.state in {Established, CloseWait} {
      QueueEachQuiet(c, Chunks(bytes, c.smss), now);
    }
  }

  lemma CloseQuiet(c: Conn, now: int)
    requires Quiet(c)
    ensures Quiet(CloseSocket(c, now))
  {}

  lemma DataTimerQuiet(c: Conn, now: int)
    requires Quiet(c) && c.armed.Some?
    ensures Quiet(DataExpiry(c, now))
  {}

  /** A step into TIME_WAIT, by a FIN, a reset or the last acknowledgment, stops the timer,
      and so does one that ends the socket; and it is never set again. */
  lemma {:induction false} StepQuiet(form: Form, c: Conn, now: int, e: Event)
    requires Quiet(c) && Expires(c, e)
    ensures Quiet(Next(form, c, now, e))
  {
    match e
    case Arrival(h, data) => ArrivalQuiet(form, c, h, data, now);
    case Write(bytes) => WriteQuiet(c, bytes, now);
    case CloseCall => CloseQuiet(c, now);
    case DataTimer => DataTimerQuiet(c, now);
    case _ =>
  }

  /** An abort, by the application or the user timer, ends the socket in CLOSING with
      everything it sent counted as acknowledged; the linger timer ends it as it is. */
  lemma AbortEnds(form: Form, c: Conn, now: int, e: Event)
    requires e in {Abort, UserTimer, LingerTimer}
    ensures var c' := Next(form, c, now, e);
            && c'.tx == (if e.LingerTimer? then c.tx else c.tx.(una := c.tx.nxt))
            && c'.log.ended && c'.state == Closing && c'.armed == None && c'.rx.ofo == []
  {}

  lemma {:induction false} AtEndSilent(form: Form, c: Conn, now: int, e: Event)
    requires Quiet(c) && Expires(c, e) && AtEnd(c)
    ensures var c' := Next(form, c, now, e); AtEnd(c') && c'.log.sent == c.log.sent
  {
    if e.Arrival? {
      ArrivalSilent(form, c, e.h, e.data, now);
    } else {
      CallSilent(form, c, now, e);
    }
  }

  lemma CallSilent(form: Form, c: Conn, now: int, e: Event)
    requires Quiet(c) && Expires(c, e) && AtEnd(c) && !e.Arrival?
    ensures var c' := Next(form, c, now, e); AtEnd(c') && c'.log.sent == c.log.sent
  {}

  lemma {:induction false} ArrivalSilent(form: Form, c: Conn, h: Header, data: seq<byte>, now: int)
    requires Quiet(c) && AtEnd(c)
    ensures var c' := Input(form, c, h, data, now); AtEnd(c') && c'.log.sent == c.log.sent
  {
    if Considered(c, h, data) {
      var (c1, dropped) := AckInput(form, c, h, now);
      assert AtEnd(c1) && c1.state in {Closing, TimeWait} && c1.log.sent == c.log.sent;
      if !dropped {
        AckedSilent(form, c1, h, data, now);
      }
    }
  }

  lemma {:induction false} AckedSilent(form: Form, c: Conn, h: Header, data: seq<byte>, now: int)
    requires AtEnd(c) && c.state in {Closing, TimeWait}
    ensures var c' := AckedInput(form, c, h, data, now); AtEnd(c') && c'.log.sent == c.log.sent
  {
    var c2 := QueueEmptyInput(c, h).0;
    assert AtEnd(c2) && c2.state in {Closing, TimeWait} && c2.log.sent == c.log.sent;
    DeliverSilent(form, c2, h, data, now);
  }

  lemma {:induction false} DeliverSilent(form: Form, c: Conn, h: Header, data: seq<byte>, now: int)
    requires AtEnd(c) && c.state in {Closing, TimeWait}
    ensures var c' := Deliver(form, c, h, data, now); AtEnd(c') && c'.log.sent == c.log.sent
  {
    assert TextInput(c, h, data) == c;
    FinSilent(c, data);
  }

  lemma FinSilent(c: Conn, data: seq<byte>)
    requires AtEnd(c) && c.state in {Closing, TimeWait}
    ensures var c' := FinInput(c, data); AtEnd(c') && c'.state in {Closing, TimeWait} && c'.log.sent == c.log.sent
  {}

  /** Over every run in which only an armed timer expires: in TIME_WAIT and after the end no
      timer runs, and from then on nothing that is queued is sent, first or again. */
  lemma {:induction false} RunQuiet(form: Form, smss: Mss, es: seq<(int, Event)>, k: nat)
    requires k <= |es| && forall j :: 0 <= j < |es| ==> Expires(RunAll(form, New(smss), es[..j]), es[j].1)
    ensures var b, c := RunAll(form, New(smss), es[..k]), RunAll(form, New(smss), es);
            Quiet(c) && (AtEnd(b) ==> AtEnd(c) && c.armed == None && c.log.sent == b.log.sent)
    decreases |es|
  {
    if k == |es| {
      assert es[..k] == es;
    }
    if es != [] {
      var n, p := |es| - 1, es[..|es| - 1];
      forall j | 0 <= j < n
        ensures Expires(RunAll(form, New(smss), p[..j]), p[j].1)
      {
        assert p[..j] == es[..j];
      }
      RunQuiet(form, smss, p, if k <= n then k else n);
      StepQuiet(form, RunAll(form, New(smss), p), es[n].0, es[n].1);
      if k <= n && AtEnd(RunAll(form, New(smss), es[..k])) {
        assert p[..k] == es[..k];
        AtEndSilent(form, RunAll(form, New(smss), p), es[n].0, es[n].1);
      }
    }
  }
}
