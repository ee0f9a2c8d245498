/** How long a connection goes on without an answer, over runs in which anything else may
    happen: calls, reads, text, duplicate acknowledgments, more to send. */
module GivingUp {
  import opened Common
  import opened SendQueue
  import opened Rto
  import opened Connection
  import opened Diagram
  import opened Progress

  /** How often an event happens in a run. */
  function Count(es: seq<(int, Event)>, e: Event): nat {
    if es == [] then 0 else Count(es[..|es| - 1], e) + if es[|es| - 1].1 == e then 1 else 0
  }

  // --------------------------------------------------------------- data in the queue

  /** The k-th event of a run is no answer, as it does not move snd_una; and the timer of
      a finished socket does not expire. */
  ghost predicate NoAnswerAt(form: Form, c: Conn, es: seq<(int, Event)>, k: nat)
    requires k < |es|
  {
    var b := RunAll(form, c, es[..k]);
    Next(form, b, es[k].0, es[k].1).tx.una == b.tx.una && (es[k].1.DataTimer? ==> !b.log.ended)
  }

  ghost predicate NoAnswer(form: Form, c: Conn, es: seq<(int, Event)>) {
    forall k :: 0 <= k < |es| ==> NoAnswerAt(form, c, es, k)
  }

  lemma NoAnswerPrefix(form: Form, c: Conn, es: seq<(int, Event)>)
    requires es != [] && NoAnswer(form, c, es)
    ensures NoAnswer(form, c, es[..|es| - 1]) && NoAnswerAt(form, c, es, |es| - 1)
  {
    var p := es[..|es| - 1];
    forall j | 0 <= j < |p|
      ensures NoAnswerAt(form, c, p, j)
    {
      assert p[..j] == es[..j] && NoAnswerAt(form, c, es, j);
    }
  }

  predicate Synchronized(c: Conn) {
    c.state !in {Close, Listen, SynSent}
  }

  /** From c to c' nothing was answered: segments are still queued, the timeout is the
      same, and the timer, if something was in flight, is at most stopped. */
  predicate Waits(c: Conn, c': Conn) {
    && Synchronized(c') && c'.tx.q != [] && c'.rtt.rto == c.rtt.rto
    && (c.tx.inflight > 0 ==> c'.tx.inflight > 0 && (c'.armed.None? || c'.armed == c.armed))
  }

  lemma AckWaits(form: Form, c: Conn, h: Header, now: int)
    requires Synchronized(c) && c.tx.q != [] && AckInput(form, c, h, now).0.tx.una == c.tx.una
    ensures Waits(c, AckInput(form, c, h, now).0)
  {}

  lemma FinWaits(c: Conn, data: seq<byte>)
    requires Synchronized(c) && c.tx.q != []
    ensures Waits(c, FinInput(c, data)) && FinInput(c, data).tx == c.tx
  {}

  lemma SendMoreWaits(form: Form, c: Conn, now: int)
    requires Synchronized(c) && c.tx.q != []
    ensures Waits(c, SendMore(form, c, now))
  {}

  lemma {:induction false} AckedWaits(form: Form, c: Conn, h: Header, data: seq<byte>, now: int)
    requires Synchronized(c) && c.tx.q != []
    ensures Waits(c, AckedInput(form, c, h, data, now)) && AckedInput(form, c, h, data, now).tx.una == c.tx.una
  {
    var c3 := TextInput(c, h, data);
    FinWaits(c3, data);
    var c4 := if h.fin && h.seqno == c.rx.rcvNxt then FinInput(c3, data) else c3;
    SendMoreWaits(form, c4, now);
    SendMoreKeeps(form, c4, now);
    assert AckedInput(form, c, h, data, now) == Deliver(form, c, h, data, now);
  }

  lemma {:induction false} AckedKeepsUna(form: Form, c: Conn, h: Header, data: seq<byte>, now: int)
    ensures AckedInput(form, c, h, data, now).tx.una == c.tx.una
  {
    var c1 := QueueEmptyInput(c, h).0;
    assert c1.tx.una == c.tx.una;
    var c3 := TextInput(c1, h, data);
    FinKeepsUna(c3, data);
    var c4 := if h.fin && h.seqno == c1.rx.rcvNxt then FinInput(c3, data) else c3;
    SendMoreKeeps(form, c4, now);
  }

  lemma FinKeepsUna(c: Conn, data: seq<byte>)
    ensures FinInput(c, data).tx.una == c.tx.una
  {}

  lemma {:induction false} SyncedWaits(form: Form, c: Conn, h: Header, data: seq<byte>, now: int)
    requires Synchronized(c) && c.tx.q != [] && SyncedInput(form, c, h, data, now).tx.una == c.tx.una
    ensures Waits(c, SyncedInput(form, c, h, data, now))
  {
    if Considered(c, h, data) {
      var c1 := AckInput(form, c, h, now).0;
      AckedKeepsUna(form, c1, h, data, now);
      AckWaits(form, c, h, now);
      AckedWaits(form, c1, h, data, now);
    }
  }

  lemma {:induction false} QueueEachWaits(c: Conn, segs: seq<TxSeg>, now: int)
    requires Synchronized(c) && c.tx.q != []
    ensures Waits(c, QueueEach(c, segs, now))
    decreases |segs|
  {
    if segs == [] {
    } else {
      QueueEachWaits(Queue(c, segs[0], now), segs[1..], now);
    }
  }

  lemma {:induction false} StepWaits(form: Form, c: Conn, now: int, e: Event)
    requires Synchronized(c) && c.tx.q != [] && !e.DataTimer? && Next(form, c, now, e).tx.una == c.tx.una
    ensures Waits(c, Next(form, c, now, e))
  {
    match e
    case Arrival(h, data) => SyncedWaits(form, c, h, data, now);
    case Write(bytes) => QueueEachWaits(c, Chunks(bytes, c.smss), now);
    case CloseCall => CloseWaits(c, now);
    case _ =>
  }

  lemma CloseWaits(c: Conn, now: int)
    requires Synchronized(c) && c.tx.q != []
    ensures Waits(c, CloseSocket(c, now))
  {}

  /** An expiry sends the head of the queue again under snd_una. Then it ends the socket,
      or doubles the timeout and arms the timer with it. */
  lemma ExpiryWaits(form: Form, c: Conn, now: int)
    requires Synchronized(c) && c.tx.q != []
    ensures var c' := Next(form, c, now, DataTimer);
            && Synchronized(c') && c'.tx == c.tx
            && c'.log.sent == c.log.sent + [FrameOf(c.tx.q[0], c.tx.una)]
            && if c.rtt.rto > 60000 then c'.log.ended && c'.err == TimedOut && c'.state == Closing && c'.armed.None?
               else c'.rtt.rto == 2 * c.rtt.rto && c'.armed == Some(now + c'.rtt.rto) && c'.log.ended == c.log.ended
  {}

  /** b comes n expiries after c, with no answer in between. */
  predicate BackedOff(c: Conn, b: Conn, n: nat)
    requires c.rtt.rto >= 1
  {
    && Synchronized(b) && b.tx.q != [] && b.rtt.rto >= 1 && n <= Expiries(c.rtt.rto)
    && (!b.log.ended ==> n + Expiries(b.rtt.rto) == Expiries(c.rtt.rto) && b.rtt.rto == Doubled(c.rtt.rto, n))
    && (n == Expiries(c.rtt.rto) ==> b.log.ended)
  }

  lemma {:induction false} StepBacksOff(form: Form, c: Conn, b: Conn, n: nat, now: int, e: Event)
    requires c.rtt.rto >= 1 && BackedOff(c, b, n)
    requires Next(form, b, now, e).tx.una == b.tx.una && (e.DataTimer? ==> !b.log.ended)
    ensures BackedOff(c, Next(form, b, now, e), if e.DataTimer? then n + 1 else n)
    ensures e.DataTimer? && n + 1 == Expiries(c.rtt.rto) ==>
              Next(form, b, now, e).err == TimedOut && Next(form, b, now, e).state == Closing
  {
    if e.DataTimer? {
      ExpiryWaits(form, b, now);
    } else {
      StepWaits(form, b, now, e);
      if b.log.ended {
        StepEnds(form, b, now, e);
      }
    }
  }

  lemma {:induction false} StepEnds(form: Form, c: Conn, now: int, e: Event)
    requires c.log.ended
    ensures Next(form, c, now, e).log.ended
  {
    StepInDiagram(form, c, now, e);
  }

  /** Without an answer, whatever else happens, the timeout doubles with every expiry, and
      the connection is given up at the expiry that Expiries says, at the seventeenth at
      the latest, if nothing has ended it before. */
  lemma {:induction false} NoAnswerGivesUp(form: Form, c: Conn, es: seq<(int, Event)>)
    requires Synchronized(c) && !c.log.ended && c.tx.q != [] && c.rtt.rto >= 1 && NoAnswer(form, c, es)
    ensures var c', n := RunAll(form, c, es), Count(es, DataTimer);
            && n <= Expiries(c.rtt.rto) <= 17
            && (!c'.log.ended ==> n < Expiries(c.rtt.rto) && c'.rtt.rto == Doubled(c.rtt.rto, n))
            && (n == Expiries(c.rtt.rto) ==> c'.log.ended)
            && (n == Expiries(c.rtt.rto) && es[|es| - 1].1 == DataTimer ==> c'.err == TimedOut && c'.state == Closing)
  {
    GivesUpInTime(c.rtt.rto);
    RunBacksOff(form, c, es);
    if es != [] {
      var k := |es| - 1;
      NoAnswerPrefix(form, c, es);
      RunBacksOff(form, c, es[..k]);
      StepBacksOff(form, c, RunAll(form, c, es[..k]), Count(es[..k], DataTimer), es[k].0, es[k].1);
    }
  }

  lemma {:induction false} RunBacksOff(form: Form, c: Conn, es: seq<(int, Event)>)
    requires Synchronized(c) && !c.log.ended && c.tx.q != [] && c.rtt.rto >= 1 && NoAnswer(form, c, es)
    ensures BackedOff(c, RunAll(form, c, es), Count(es, DataTimer))
  {
    if es == [] {
    } else {
      var k := |es| - 1;
      NoAnswerPrefix(form, c, es);
      RunBacksOff(form, c, es[..k]);
      LastBacksOff(form, c, es);
    }
  }

  lemma {:induction false} LastBacksOff(form: Form, c: Conn, es: seq<(int, Event)>)
    requires es != [] && c.rtt.rto >= 1 && NoAnswerAt(form, c, es, |es| - 1)
    requires BackedOff(c, RunAll(form, c, es[..|es| - 1]), Count(es[..|es| - 1], DataTimer))
    ensures BackedOff(c, RunAll(form, c, es), Count(es, DataTimer))
  {
    var k := |es| - 1;
    LastIsNoAnswer(form, c, es);
    StepBacksOff(form, c, RunAll(form, c, es[..k]), Count(es[..k], DataTimer), es[k].0, es[k].1);
    CountLast(es);
  }

  lemma CountLast(es: seq<(int, Event)>)
    requires es != []
    ensures var k := |es| - 1; var n := Count(es[..k], DataTimer);
            Count(es, DataTimer) == if es[k].1.DataTimer? then n + 1 else n
  {}

  lemma LastIsNoAnswer(form: Form, c: Conn, es: seq<(int, Event)>)
    requires es != [] && NoAnswerAt(form, c, es, |es| - 1)
    ensures var k := |es| - 1; var b := RunAll(form, c, es[..k]);
            Next(form, b, es[k].0, es[k].1).tx.una == b.tx.una && (es[k].1.DataTimer? ==> !b.log.ended)
  {}

  // ------------------------------------------------------------------- and in what time

  /** The data timer expires when it was armed to. */
  ghost predicate OnTime(form: Form, c: Conn, es: seq<(int, Event)>, e: Event) {
    forall k :: 0 <= k < |es| && es[k].1 == e ==> OnTimeAt(form, c, es, k)
  }

  ghost predicate OnTimeAt(form: Form, c: Conn, es: seq<(int, Event)>, k: nat)
    requires k < |es|
  {
    RunAll(form, c, es[..k]).armed == Some(es[k].0)
  }

  lemma OnTimePrefix(form: Form, c: Conn, es: seq<(int, Event)>, e: Event)
    requires es != [] && OnTime(form, c, es, e)
    ensures OnTime(form, c, es[..|es| - 1], e)
    ensures es[|es| - 1].1 == e ==> RunAll(form, c, es[..|es| - 1]).armed == Some(es[|es| - 1].0)
  {
    var p := es[..|es| - 1];
    forall j | 0 <= j < |p| && p[j].1 == e
      ensures OnTimeAt(form, c, p, j)
    {
      assert p[..j] == es[..j] && OnTimeAt(form, c, es, j);
    }
    if es[|es| - 1].1 == e {
      assert OnTimeAt(form, c, es, |es| - 1);
    }
  }

  /** The timer that c armed with its timeout began to run at this time. */
  function Begun(c: Conn): int
    requires c.armed.Some?
  {
    c.armed.value - c.rtt.rto
  }

  /** While something is in flight and the timer runs, it runs for as long as the timeouts
      so far say. */
  predicate Timed(c: Conn, b: Conn, n: nat)
    requires c.armed.Some?
  {
    b.tx.inflight > 0 && (b.armed.Some? ==> b.armed.value == Begun(c) + SumDoubled(c.rtt.rto, n + 1))
  }

  lemma {:induction false} RunTimed(form: Form, c: Conn, es: seq<(int, Event)>)
    requires Synchronized(c) && !c.log.ended && c.tx.q != [] && c.rtt.rto >= 1 && NoAnswer(form, c, es)
    requires c.armed.Some? && c.tx.inflight > 0 && OnTime(form, c, es, DataTimer)
    ensures Timed(c, RunAll(form, c, es), Count(es, DataTimer))
  {
    if es == [] {
      assert SumDoubled(c.rtt.rto, 1) == SumDoubled(c.rtt.rto, 0) + Doubled(c.rtt.rto, 0);
    } else {
      var k := |es| - 1;
      var b, n := RunAll(form, c, es[..k]), Count(es[..k], DataTimer);
      NoAnswerPrefix(form, c, es);
      OnTimePrefix(form, c, es, DataTimer);
      RunTimed(form, c, es[..k]);
      RunBacksOff(form, c, es[..k]);
      StepTimed(form, c, b, n, es[k].0, es[k].1);
    }
  }

  lemma {:induction false} StepTimed(form: Form, c: Conn, b: Conn, n: nat, now: int, e: Event)
    requires c.rtt.rto >= 1 && c.armed.Some? && BackedOff(c, b, n) && Timed(c, b, n)
    requires Next(form, b, now, e).tx.una == b.tx.una && (e.DataTimer? ==> !b.log.ended && b.armed == Some(now))
    ensures Timed(c, Next(form, b, now, e), if e.DataTimer? then n + 1 else n)
  {
    if e.DataTimer? {
      ExpiryWaits(form, b, now);
    } else {
      StepWaits(form, b, now, e);
    }
  }

  lemma {:induction false} SumDoubledGrows(rto: int, m: nat, n: nat)
    requires rto >= 1 && m <= n
    ensures SumDoubled(rto, m) <= SumDoubled(rto, n)
    decreases n
  {
    if m == n {
    } else {
      SumDoubledGrows(rto, m, n - 1);
      DoubledPositive(rto, n - 1);
    }
  }

  lemma {:induction false} DoubledPositive(rto: int, n: nat)
    requires rto >= 1
    ensures Doubled(rto, n) >= 1
  {
    if n == 0 {
    } else {
      DoubledPositive(rto, n - 1);
    }
  }

  /** And every expiry of such a run comes at the time that the timeout at the beginning
      fixes, the one that gives up included: with at most two minutes, within four. */
  lemma {:induction false} GivenUpInTime(form: Form, c: Conn, es: seq<(int, Event)>)
    requires Synchronized(c) && !c.log.ended && c.tx.q != [] && c.rtt.rto >= 1 && NoAnswer(form, c, es)
    requires c.armed.Some? && c.tx.inflight > 0 && OnTime(form, c, es, DataTimer)
    requires es != [] && es[|es| - 1].1 == DataTimer
    ensures var at, n := es[|es| - 1].0 - Begun(c), Count(es, DataTimer);
            && at == SumDoubled(c.rtt.rto, n) <= TimeToGiveUp(c.rtt.rto)
            && (n == Expiries(c.rtt.rto) ==> at == TimeToGiveUp(c.rtt.rto))
            && (c.rtt.rto <= 120000 ==> at <= 240000 - c.rtt.rto)
  {
    var k := |es| - 1;
    NoAnswerGivesUp(form, c, es);
    NoAnswerPrefix(form, c, es);
    OnTimePrefix(form, c, es, DataTimer);
    RunTimed(form, c, es[..k]);
    GivesUpInTime(c.rtt.rto);
    TimeIsSum(c.rtt.rto);
    SumDoubledGrows(c.rtt.rto, Count(es, DataTimer), Expiries(c.rtt.rto));
  }

  // ---------------------------------------------------------------------- a timeout of 0

  /** No event of the run but an expiry of the data timer would end the socket. */
  ghost predicate NothingElseEnds(form: Form, c: Conn, es: seq<(int, Event)>) {
    forall k :: 0 <= k < |es| && !es[k].1.DataTimer? ==> !EndsAt(form, c, es, k)
  }

  ghost predicate EndsAt(form: Form, c: Conn, es: seq<(int, Event)>, k: nat)
    requires k < |es|
  {
    Ends(form, RunAll(form, c, es[..k]), es[k].1)
  }

  /** A timeout of 0, which a socket has until a SYN is answered or a round trip measured,
      stays 0, and without an answer the connection is retransmitted for ever, whatever else
      happens. */
  lemma {:induction false} ZeroNeverGivesUp(form: Form, c: Conn, es: seq<(int, Event)>)
    requires Synchronized(c) && !c.log.ended && c.tx.q != [] && c.rtt.rto == 0
    requires NoAnswer(form, c, es) && NothingElseEnds(form, c, es)
    ensures var c' := RunAll(form, c, es);
            Synchronized(c') && !c'.log.ended && c'.tx.q != [] && c'.rtt.rto == 0
  {
    if es == [] {
    } else {
      var k, p := |es| - 1, es[..|es| - 1];
      NoAnswerPrefix(form, c, es);
      EndsPrefix(form, c, es);
      ZeroNeverGivesUp(form, c, p);
      var b := RunAll(form, c, p);
      if es[k].1 == DataTimer {
        ExpiryWaits(form, b, es[k].0);
      } else {
        StepWaits(form, b, es[k].0, es[k].1);
        StepInDiagram(form, b, es[k].0, es[k].1);
        assert !EndsAt(form, c, es, k);
      }
    }
  }

  lemma EndsPrefix(form: Form, c: Conn, es: seq<(int, Event)>)
    requires es != [] && NothingElseEnds(form, c, es)
    ensures NothingElseEnds(form, c, es[..|es| - 1])
  {
    var p := es[..|es| - 1];
    forall j | 0 <= j < |p| && !p[j].1.DataTimer?
      ensures !EndsAt(form, c, p, j)
    {
      assert p[..j] == es[..j] && !EndsAt(form, c, es, j);
    }
  }

  // ------------------------------------------------------------------------------ a SYN

  /** An answer to our SYN: a SYN or a reset, without an ACK or with one that counts. */
  predicate Answers(form: Form, c: Conn, h: Header) {
    (h.rst || h.syn) && (h.ack ==> form.Intended? && !Unacceptable(c, h))
  }

  /** The k-th event of a run is no answer to our SYN, nor a timer that is not armed. */
  ghost predicate SynUnansweredAt(form: Form, c: Conn, es: seq<(int, Event)>, k: nat)
    requires k < |es|
  {
    var b, e := RunAll(form, c, es[..k]), es[k].1;
    && !e.DataTimer? && (e.SynTimer? ==> !b.log.ended)
    && (e.Arrival? && b.state == SynSent ==> !Answers(form, b, e.h))
  }

  ghost predicate SynUnanswered(form: Form, c: Conn, es: seq<(int, Event)>) {
    forall k :: 0 <= k < |es| ==> SynUnansweredAt(form, c, es, k)
  }

  lemma SynUnansweredPrefix(form: Form, c: Conn, es: seq<(int, Event)>)
    requires es != [] && SynUnanswered(form, c, es)
    ensures SynUnanswered(form, c, es[..|es| - 1]) && SynUnansweredAt(form, c, es, |es| - 1)
  {
    var p := es[..|es| - 1];
    forall j | 0 <= j < |p|
      ensures SynUnansweredAt(form, c, p, j)
    {
      assert p[..j] == es[..j] && SynUnansweredAt(form, c, es, j);
    }
  }

  /** b comes n expiries of the SYN's timer after c, with no answer in between: the SYN was
      sent again n times, or four times and the socket given up. */
  predicate SynSentAgain(c: Conn, b: Conn, n: nat)
    requires c.tx.q != []
  {
    && n <= 5 && b.log.sent == c.log.sent + Repeat(FrameOf(c.tx.q[0], c.tx.una), Min(n, 4))
    && if b.log.ended then b.state in {Closing, TimeWait}
       else b.state == SynSent && b.tx == c.tx && b.rtt == c.rtt.(backoff := n) && n < 5
  }

  lemma {:induction false} StepSynUnanswered(form: Form, c: Conn, b: Conn, n: nat, now: int, e: Event)
    requires c.tx.q != [] && c.rtt.backoff == 0 && SynSentAgain(c, b, n) && !e.DataTimer? && !e.SynTimer?
    requires e.Arrival? && b.state == SynSent ==> !Answers(form, b, e.h)
    ensures var b' := Next(form, b, now, e);
            SynSentAgain(c, b', n) && (!b'.log.ended ==> b'.armed == b.armed)
  {
    StepInDiagram(form, b, now, e);
    StepForward(form, b, now, e);
    if b.log.ended {
      ClosedSends(form, b, now, e);
    } else if e.Arrival? {
      assert SynSentInput(form, b, e.h) == b;
    }
  }

  /** A socket that is done for, or reset, sends no queued segment but by the data timer. */
  lemma {:induction false} ClosedSends(form: Form, c: Conn, now: int, e: Event)
    requires c.state in {Closing, TimeWait} && !e.DataTimer?
    ensures Next(form, c, now, e).log.sent == c.log.sent
  {
    if e.Arrival? {
      var c1 := AckInput(form, c, e.h, now).0;
      assert c1.log.sent == c.log.sent && c1.state == c.state;
      ClosedDelivers(form, QueueEmptyInput(c1, e.h).0, e.h, e.data, now);
    } else if e.Write? {
      QueueEachKeeps(c, Chunks(e.bytes, c.smss), now);
    }
  }

  lemma {:induction false} ClosedDelivers(form: Form, c: Conn, h: Header, data: seq<byte>, now: int)
    requires c.state in {Closing, TimeWait}
    ensures Deliver(form, c, h, data, now).log.sent == c.log.sent
  {
    var c3 := TextInput(c, h, data);
    assert c3 == c;
    var c4 := if h.fin && h.seqno == c.rx.rcvNxt then FinInput(c, data) else c;
    assert c4.state == c.state && c4.log.sent == c.log.sent;
  }

  lemma SynExpires(form: Form, c: Conn, b: Conn, n: nat, now: int)
    requires c.tx.q != [] && c.rtt.backoff == 0 && SynSentAgain(c, b, n) && !b.log.ended
    ensures var b' := Next(form, b, now, SynTimer);
            && SynSentAgain(c, b', n + 1)
            && if n == 4 then b'.log.ended && b'.err == TimedOut && b'.state == Closing
               else !b'.log.ended && b'.armed == Some(now + 500 * Pow2(n + 1))
  {
    var f := FrameOf(c.tx.q[0], c.tx.una);
    if n < 4 {
      assert (c.log.sent + Repeat(f, n)) + [f] == c.log.sent + (Repeat(f, n) + [f]);
    }
  }

  /** Without an answer, whatever else happens, a SYN is sent again at each of the first
      four expiries and not otherwise, and the fifth gives up with ETIMEDOUT, if nothing
      has ended the socket before. */
  lemma {:induction false} SynGivesUp(form: Form, c: Conn, es: seq<(int, Event)>)
    requires c.state == SynSent && !c.log.ended && c.tx.q != [] && c.rtt.backoff == 0 && SynUnanswered(form, c, es)
    ensures var c', n := RunAll(form, c, es), Count(es, SynTimer);
            && n <= 5 && c'.log.sent == c.log.sent + Repeat(FrameOf(c.tx.q[0], c.tx.una), Min(n, 4))
            && (!c'.log.ended ==> n < 5 && c'.state == SynSent && c'.tx == c.tx)
            && (n == 5 ==> c'.log.ended)
            && (n == 5 && es[|es| - 1].1 == SynTimer ==> c'.err == TimedOut && c'.state == Closing)
  {
    RunSyn(form, c, es);
    if es != [] {
      var k := |es| - 1;
      SynUnansweredPrefix(form, c, es);
      RunSyn(form, c, es[..k]);
      if es[k].1.SynTimer? {
        SynExpires(form, c, RunAll(form, c, es[..k]), Count(es[..k], SynTimer), es[k].0);
      }
    }
  }

  lemma {:induction false} RunSyn(form: Form, c: Conn, es: seq<(int, Event)>)
    requires c.state == SynSent && !c.log.ended && c.tx.q != [] && c.rtt.backoff == 0 && SynUnanswered(form, c, es)
    ensures SynSentAgain(c, RunAll(form, c, es), Count(es, SynTimer))
    ensures Count(es, SynTimer) == 5 ==> RunAll(form, c, es).log.ended
  {
    if es == [] {
      assert c.log.sent + [] == c.log.sent;
    } else {
      var k := |es| - 1;
      var b, n := RunAll(form, c, es[..k]), Count(es[..k], SynTimer);
      SynUnansweredPrefix(form, c, es);
      RunSyn(form, c, es[..k]);
      if es[k].1.SynTimer? {
        SynExpires(form, c, b, n, es[k].0);
      } else {
        StepSynUnanswered(form, c, b, n, es[k].0, es[k].1);
      }
    }
  }

  predicate SynTimed(c: Conn, b: Conn, n: nat)
    requires c.armed.Some?
  {
    !b.log.ended ==> b.armed == Some(c.armed.value + 500 * (Pow2(n + 1) - 2))
  }

  lemma {:induction false} StepSynTimed(form: Form, c: Conn, b: Conn, n: nat, now: int, e: Event)
    requires c.tx.q != [] && c.rtt.backoff == 0 && c.armed.Some? && SynSentAgain(c, b, n) && SynTimed(c, b, n)
    requires !e.DataTimer? && (e.SynTimer? ==> !b.log.ended && b.armed == Some(now))
    requires e.Arrival? && b.state == SynSent ==> !Answers(form, b, e.h)
    ensures SynTimed(c, Next(form, b, now, e), if e.SynTimer? then n + 1 else n)
  {
    if e.SynTimer? {
      SynExpires(form, c, b, n, now);
      assert Pow2(n + 2) == 2 * Pow2(n + 1);
    } else {
      StepSynUnanswered(form, c, b, n, now, e);
      if b.log.ended {
        StepEnds(form, b, now, e);
      }
    }
  }

  lemma {:induction false} RunSynTimed(form: Form, c: Conn, es: seq<(int, Event)>)
    requires c.state == SynSent && !c.log.ended && c.tx.q != [] && c.rtt.backoff == 0 && SynUnanswered(form, c, es)
    requires c.armed.Some? && OnTime(form, c, es, SynTimer)
    ensures SynTimed(c, RunAll(form, c, es), Count(es, SynTimer))
  {
    if es == [] {
      assert Pow2(1) == 2 * Pow2(0) == 2;
    } else {
      var k := |es| - 1;
      SynUnansweredPrefix(form, c, es);
      OnTimePrefix(form, c, es, SynTimer);
      RunSyn(form, c, es[..k]);
      RunSynTimed(form, c, es[..k]);
      StepSynTimed(form, c, RunAll(form, c, es[..k]), Count(es[..k], SynTimer), es[k].0, es[k].1);
    }
  }

  /** With the timer expiring when it was armed to, the n-th expiry comes 500 * 2^(n - 1)
      after the one before, and the fifth one fifteen seconds after the first. */
  lemma {:induction false} SynTimes(form: Form, c: Conn, es: seq<(int, Event)>)
    requires c.state == SynSent && !c.log.ended && c.tx.q != [] && c.rtt.backoff == 0 && SynUnanswered(form, c, es)
    requires c.armed.Some? && OnTime(form, c, es, SynTimer) && es != [] && es[|es| - 1].1 == SynTimer
    ensures var at, n := es[|es| - 1].0, Count(es, SynTimer);
            at == c.armed.value + 500 * (Pow2(n) - 2) && (n == 5 ==> at == c.armed.value + 15000)
  {
    var k := |es| - 1;
    SynUnansweredPrefix(form, c, es);
    OnTimePrefix(form, c, es, SynTimer);
    RunSyn(form, c, es[..k]);
    RunSynTimed(form, c, es[..k]);
    assert Pow2(5) == 2 * Pow2(4) && Pow2(4) == 2 * Pow2(3) && Pow2(3) == 8;
  }
}
