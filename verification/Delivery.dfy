/** What a connection delivers over whole runs: the bytes of its peer, in order, and
    all of them by the time a FIN is consumed, unless an ended or reset socket takes the
    FIN and not the bytes with it. And the FIN that a segment with bytes brings too early,
    which is lost for good. */
module Delivery {
  import opened Common
  import opened Reassembly
  import opened SendQueue
  import opened Connection
  import opened Diagram
  import opened Openings
  import opened Progress
  import opened ReceiveStream

  /** What the application of c got or can get is the beginning of the peer's stream
      w, whose first byte has the number base. Once a FIN has been consumed it is all of
      w, exactly if the FIN did not lose the bytes it came with. */
  ghost predicate Heard(c: Conn, w: seq<byte>, base: nat) {
    && Received(c) && (c.log.cut ==> c.log.fins > 0)
    && (!c.log.synSeen ==> c.rx.ofo == [] && Stream(c) == [])
    && (c.log.synSeen && c.irs + 1 == base ==>
          if c.log.fins == 0 then InStream(c.rx, c.log.taken, w, base)
          else Stream(c) <= w && (Stream(c) == w <==> !c.log.cut))
  }

  /** A segment of a peer that sends w: its bytes are those of w at its numbers, and a
      FIN is behind all of w. */
  ghost predicate Genuine(h: Header, data: seq<byte>, w: seq<byte>, base: nat) {
    base <= h.seqno ==>
      && Agrees(Segment(h.seqno, data, h.psh), w, base)
      && (h.fin ==> base + |w| <= h.seqno + |data|)
  }

  lemma {:induction false} ConsumeRaises(st: RxState)
    ensures Consume(Intended, st).rcvNxt >= st.rcvNxt
    decreases |st.ofo|
  {
    if !Consumable(st) {
    } else {
      ConsumeRaises(ConsumeOnce(Intended, st));
    }
  }

  lemma TextHears(c: Conn, h: Header, data: seq<byte>, w: seq<byte>, base: nat)
    requires Heard(c, w, base) && Genuine(h, data, w, base)
    requires VerifySegment(c.rx, Segment(h.seqno, data, h.psh))
    ensures var c' := TextInput(c, h, data);
            && Heard(c', w, base) && c'.irs == c.irs && c'.log == c.log && c'.state == c.state
            && (h.seqno == c.rx.rcvNxt && (data == [] || c.state in TEXT_STATES) ==>
                  h.seqno + |data| <= c'.rx.rcvNxt)
            && (c.state !in TEXT_STATES ==> c' == c)
  {
    TextGrows(c, h, data);
    var s := Segment(h.seqno, data, h.psh);
    if c.state in TEXT_STATES {
      if c.irs + 1 == base {
        DataQueueInStream(c.rx, s, c.log.taken, w, base);
      }
      if c.rx.rcvWnd > 0 && h.seqno == c.rx.rcvNxt {
        ConsumeRaises(c.rx.(rcvNxt := s.End(), recv := c.rx.recv + [s]));
      }
    }
  }

  /** The FIN stands where the stream ends; with its bytes dropped, rcv_nxt does not. */
  lemma FinHears(c: Conn, data: seq<byte>, w: seq<byte>, base: nat)
    requires Heard(c, w, base) && c.state != SynReceived
    requires c.log.synSeen && c.irs + 1 == base && c.log.fins == 0 ==>
               (base + |w| <= c.rx.rcvNxt <==> data == [] || c.state in TEXT_STATES)
    ensures Heard(FinInput(c, data), w, base)
  {
    FinGrows(c, data);
    if c.log.synSeen && c.irs + 1 == base && c.log.fins == 0 {
      assert w[..|w|] == w;
    }
  }

  lemma {:induction false} SendMoreHears(form: Form, c: Conn, now: int, w: seq<byte>, base: nat)
    requires Heard(c, w, base)
    ensures Heard(SendMore(form, c, now), w, base)
  {
    SendMoreGrows(form, c, now);
  }

  lemma {:induction false} DeliverHears(form: Form, c: Conn, h: Header, data: seq<byte>, now: int,
      w: seq<byte>, base: nat)
    requires Heard(c, w, base) && Genuine(h, data, w, base) && c.state !in {Close, Listen, SynSent, SynReceived}
    requires VerifySegment(c.rx, Segment(h.seqno, data, h.psh))
    ensures Heard(Deliver(form, c, h, data, now), w, base)
  {
    TextHears(c, h, data, w, base);
    var c3 := TextInput(c, h, data);
    SendMoreHears(form, c3, now, w, base);
    if h.fin && h.seqno == c.rx.rcvNxt {
      FinHears(c3, data, w, base);
      SendMoreHears(form, FinInput(c3, data), now, w, base);
    }
  }

  lemma {:induction false} AckHears(form: Form, c: Conn, h: Header, now: int, w: seq<byte>, base: nat)
    requires Heard(c, w, base)
    ensures var c' := AckInput(form, c, h, now).0;
            && Heard(c', w, base) && c'.irs == c.irs && c'.rx == c.rx && c'.log == c.log.(acked := c'.log.acked)
            && c'.state == if c.state == SynReceived && !AckInput(form, c, h, now).1 then Established else c.state
  {
    AckGrows(form, c, h, now);
  }

  lemma EmptyHears(c: Conn, h: Header, data: seq<byte>, w: seq<byte>, base: nat)
    requires Heard(c, w, base) && Genuine(h, data, w, base) && c.state !in {Close, Listen, SynSent, SynReceived}
    ensures var (c', done) := QueueEmptyInput(c, h);
            && Heard(c', w, base)
            && (!done ==> c'.rx == c.rx.(finSeen := c'.rx.finSeen) && Genuine(h, data, w, base)
                          && c'.state !in {Close, Listen, SynSent, SynReceived})
  {
    EmptyGrows(c, h);
  }

  lemma {:induction false} AckedHears(form: Form, c: Conn, h: Header, data: seq<byte>, now: int,
      w: seq<byte>, base: nat)
    requires Heard(c, w, base) && Genuine(h, data, w, base) && c.state !in {Close, Listen, SynSent, SynReceived}
    requires VerifySegment(c.rx, Segment(h.seqno, data, h.psh))
    ensures Heard(AckedInput(form, c, h, data, now), w, base)
  {
    EmptyHears(c, h, data, w, base);
    var (c', done) := QueueEmptyInput(c, h);
    if !done {
      DeliverHears(form, c', h, data, now, w, base);
    }
  }

  lemma {:induction false} SyncedHears(form: Form, c: Conn, h: Header, data: seq<byte>, now: int,
      w: seq<byte>, base: nat)
    requires Heard(c, w, base) && Genuine(h, data, w, base) && c.state !in {Close, Listen, SynSent}
    ensures Heard(SyncedInput(form, c, h, data, now), w, base)
  {
    AckHears(form, c, h, now, w, base);
    var (c1, dropped) := AckInput(form, c, h, now);
    if Considered(c, h, data) && !dropped {
      AckedHears(form, c1, h, data, now, w, base);
    }
  }

  lemma SynSentHears(form: Form, c: Conn, h: Header, w: seq<byte>, base: nat)
    requires Heard(c, w, base) && c.state == SynSent
    ensures Heard(SynSentInput(form, c, h), w, base)
  {
    SynSentGrows(form, c, h);
    assert w[..0] == [];
  }

  lemma CallHears(form: Form, c: Conn, now: int, e: Event, w: seq<byte>, base: nat)
    requires Heard(c, w, base) && !e.Arrival?
    ensures Heard(Next(form, c, now, e), w, base)
  {
    StepGrows(form, c, now, e);
    CallLogs(form, c, now, e);
    match e
    case ReadBytes(room) =>
      if c.log.synSeen && c.irs + 1 == base && c.log.fins == 0 {
        DequeueInStream(c.rx, room, c.log.taken, w, base);
      }
    case _ => CallKeepsRx(form, c, now, e);
  }

  /** What ends a socket drops what waits out of order; nothing else touches the receiver. */
  lemma CallKeepsRx(form: Form, c: Conn, now: int, e: Event)
    requires !e.Arrival? && !e.ReadBytes?
    ensures var c' := Next(form, c, now, e);
            c'.irs == c.irs && (c'.rx == c.rx || c'.rx == c.rx.(ofo := []))
  {
    if e.Write? {
      QueueEachKeeps(c, Chunks(e.bytes, c.smss), now);
    }
  }

  lemma {:induction false} StepHears(form: Form, c: Conn, now: int, e: Event, w: seq<byte>, base: nat)
    requires Heard(c, w, base) && GenuineEvent(e, w, base)
    ensures Heard(Next(form, c, now, e), w, base)
  {
    if !e.Arrival? {
      CallHears(form, c, now, e, w, base);
    } else if c.state == SynSent {
      SynSentHears(form, c, e.h, w, base);
    } else if c.state !in {Close, Listen} {
      SyncedHears(form, c, e.h, e.data, now, w, base);
    }
  }

  ghost predicate GenuineEvent(e: Event, w: seq<byte>, base: nat) {
    e.Arrival? ==> Genuine(e.h, e.data, w, base)
  }

  ghost predicate AllGenuine(es: seq<(int, Event)>, w: seq<byte>, base: nat) {
    forall k :: 0 <= k < |es| ==> GenuineEvent(es[k].1, w, base)
  }

  lemma {:induction false} RunHears(form: Form, smss: Mss, es: seq<(int, Event)>, w: seq<byte>, base: nat)
    requires AllGenuine(es, w, base)
    ensures Heard(RunAll(form, New(smss), es), w, base)
  {
    if es == [] {
    } else {
      var k := |es| - 1;
      RunHears(form, smss, es[..k], w, base);
      StepHears(form, RunAll(form, New(smss), es[..k]), es[k].0, es[k].1, w, base);
    }
  }

  /** Over every run, of calls and timers and of genuine segments in any order, repeated,
      overlapping or lost: the application got and can get the beginning of the peer's
      stream, rcv_nxt is where it ends, and once a FIN is consumed all of it is there,
      exactly if the FIN did not lose the bytes it came with. */
  lemma {:induction false} DeliversPeersStream(form: Form, smss: Mss, es: seq<(int, Event)>, c: Conn, w: seq<byte>)
    requires c == RunAll(form, New(smss), es) && AllGenuine(es, w, c.irs + 1)
    ensures Stream(c) <= w
    ensures c.log.synSeen ==> c.rx.rcvNxt == c.irs + 1 + |Stream(c)| + c.log.fins
    ensures c.log.fins > 0 && c.log.synSeen ==> (Stream(c) == w <==> !c.log.cut)
  {
    RunHears(form, smss, es, w, c.irs + 1);
  }

  // ------------------------------------------------------- a FIN that comes too early

  /** The arrival of a FIN that is consumed: it must be looked at, and begin where
      rcv_nxt stands. */
  ghost predicate TakesFin(form: Form, c: Conn, e: Event) {
    && e.Arrival? && e.h.fin && c.state !in {Close, Listen, SynSent}
    && Considered(c, e.h, e.data) && AckTaken(form, c, e.h) && e.h.seqno == c.rx.rcvNxt
    && !(c.state == LastAck && AllAcknowledged(form, c, e.h))
  }

  /** The FIN is consumed or not, and rcv_nxt does not go back. */
  ghost predicate FinCounted(c: Conn, c': Conn, taken: bool) {
    && c'.log.fins == c.log.fins + (if taken then 1 else 0)
    && c.rx.rcvNxt <= c'.rx.rcvNxt
    && c'.state !in {Close, Listen, SynSent}
  }

  lemma {:induction false} DeliverCountsFin(form: Form, c: Conn, h: Header, data: seq<byte>, now: int)
    requires c.state !in {Close, Listen, SynSent}
    ensures FinCounted(c, Deliver(form, c, h, data, now), h.fin && h.seqno == c.rx.rcvNxt)
  {
    var c3, s := TextInput(c, h, data), Segment(h.seqno, data, h.psh);
    ConsumeRaises(c.rx.(rcvNxt := s.End(), recv := c.rx.recv + [s]));
    assert FinCounted(c, c3, false);
    FinInputCounts(c3, data);
    SendMoreCounts(form, c3, now);
    SendMoreCounts(form, FinInput(c3, data), now);
  }

  lemma FinInputCounts(c: Conn, data: seq<byte>)
    requires c.state !in {Close, Listen, SynSent}
    ensures FinCounted(c, FinInput(c, data), true)
  {}

  lemma SendMoreCounts(form: Form, c: Conn, now: int)
    requires c.state !in {Close, Listen, SynSent}
    ensures FinCounted(c, SendMore(form, c, now), false)
  {}

  lemma {:induction false} AckedCountsFin(form: Form, c: Conn, h: Header, data: seq<byte>, now: int)
    requires c.state !in {Close, Listen, SynSent}
    ensures FinCounted(c, AckedInput(form, c, h, data, now),
                       h.fin && h.seqno == c.rx.rcvNxt && !(c.state == LastAck && c.tx.q == []))
  {
    EmptyCounts(c, h);
    DeliverCountsFin(form, QueueEmptyInput(c, h).0, h, data, now);
  }

  lemma EmptyCounts(c: Conn, h: Header)
    requires c.state !in {Close, Listen, SynSent}
    ensures var (c', done) := QueueEmptyInput(c, h);
            && FinCounted(c, c', false) && c'.rx.rcvNxt == c.rx.rcvNxt
            && (done <==> c.state == LastAck && c.tx.q == [])
  {}

  /** The arrival of a FIN that is consumed while its bytes are not: the socket was ended
      or reset before. */
  ghost predicate Cuts(form: Form, c: Conn, e: Event) {
    TakesFin(form, c, e) && e.data != [] && c.log.fins == 0 && c.state in {Closing, TimeWait}
  }

  lemma {:induction false} DeliverCuts(form: Form, c: Conn, h: Header, data: seq<byte>, now: int)
    requires c.state !in {Close, Listen, SynSent}
    ensures Deliver(form, c, h, data, now).log.cut <==>
            c.log.cut || (h.fin && h.seqno == c.rx.rcvNxt && data != [] && c.state !in TEXT_STATES && c.log.fins == 0)
  {
    var c3 := TextInput(c, h, data);
    assert c3.log == c.log && c3.state == c.state;
    var c4 := if h.fin && h.seqno == c.rx.rcvNxt then FinInput(c3, data) else c3;
    FinCuts(c3, data);
    SendMoreKeeps(form, c4, now);
  }

  lemma FinCuts(c: Conn, data: seq<byte>)
    requires c.state !in {Close, Listen, SynSent}
    ensures FinInput(c, data).log.cut == (c.log.cut || (data != [] && c.state !in TEXT_STATES && c.log.fins == 0))
  {}

  lemma {:induction false} AckedCuts(form: Form, c: Conn, h: Header, data: seq<byte>, now: int)
    requires Received(c) && c.state !in {Close, Listen, SynSent, SynReceived}
    ensures AckedInput(form, c, h, data, now).log.cut <==>
            c.log.cut || (h.fin && h.seqno == c.rx.rcvNxt && data != [] && c.log.fins == 0
                          && c.state in {Closing, TimeWait})
  {
    var (c', done) := QueueEmptyInput(c, h);
    assert c'.log.cut == c.log.cut && c'.log.fins == c.log.fins;
    if !done {
      assert c'.state in TEXT_STATES <==> c.state in TEXT_STATES;
      DeliverCuts(form, c', h, data, now);
    }
  }

  /** Exactly such an arrival cuts the stream off. */
  lemma {:induction false} StepCuts(form: Form, c: Conn, now: int, e: Event)
    requires Received(c)
    ensures Next(form, c, now, e).log.cut <==> c.log.cut || Cuts(form, c, e)
  {
    if !e.Arrival? {
      CallLogs(form, c, now, e);
    } else if c.state !in {Close, Listen, SynSent} {
      SyncedCuts(form, c, e.h, e.data, now);
    }
  }

  lemma {:induction false} SyncedCuts(form: Form, c: Conn, h: Header, data: seq<byte>, now: int)
    requires Received(c) && c.state !in {Close, Listen, SynSent}
    ensures SyncedInput(form, c, h, data, now).log.cut <==> c.log.cut || Cuts(form, c, Arrival(h, data))
  {
    AckLeaves(form, c, h, now);
    AckGrows(form, c, h, now);
    var (c1, dropped) := AckInput(form, c, h, now);
    assert c1.log.cut == c.log.cut && c1.log.fins == c.log.fins;
    if Considered(c, h, data) && !dropped {
      AckedCuts(form, c1, h, data, now);
    }
  }

  /** So the application's stream is whole after a FIN exactly if no arrival of the run
      was such a one. */
  lemma {:induction false} RunCuts(form: Form, smss: Mss, es: seq<(int, Event)>)
    ensures RunAll(form, New(smss), es).log.cut <==>
            exists k :: 0 <= k < |es| && CutsAt(form, New(smss), es, k)
  {
    if es == [] {
    } else {
      var k, p := |es| - 1, es[..|es| - 1];
      RunCuts(form, smss, p);
      RunReceives(form, smss, p);
      StepCuts(form, RunAll(form, New(smss), p), es[k].0, es[k].1);
      CutsPrefix(form, New(smss), es);
      assert CutsAt(form, New(smss), es, k) == Cuts(form, RunAll(form, New(smss), p), es[k].1);
      if RunAll(form, New(smss), p).log.cut {
        var j :| 0 <= j < k && CutsAt(form, New(smss), p, j);
        assert CutsAt(form, New(smss), es, j);
      } else {
        assert forall j :: 0 <= j < k ==> !CutsAt(form, New(smss), p, j) && !CutsAt(form, New(smss), es, j);
      }
    }
  }

  ghost predicate CutsAt(form: Form, c: Conn, es: seq<(int, Event)>, k: nat)
    requires k < |es|
  {
    Cuts(form, RunAll(form, c, es[..k]), es[k].1)
  }

  lemma CutsPrefix(form: Form, c: Conn, es: seq<(int, Event)>)
    requires es != []
    ensures forall j :: 0 <= j < |es| - 1 ==> CutsAt(form, c, es[..|es| - 1], j) == CutsAt(form, c, es, j)
  {
    forall j | 0 <= j < |es| - 1
      ensures es[..|es| - 1][..j] == es[..j]
    {}
  }

  lemma {:induction false} RunUncut(form: Form, smss: Mss, es: seq<(int, Event)>)
    requires forall k :: 0 <= k < |es| && es[k].1.Arrival? && es[k].1.h.fin ==> es[k].1.data == []
    ensures !RunAll(form, New(smss), es).log.cut
  {
    RunCuts(form, smss, es);
  }

  lemma {:induction false} ArrivalCountsFin(form: Form, c: Conn, h: Header, data: seq<byte>, now: int)
    requires c.state !in {Close, Listen, SynSent}
    ensures FinCounted(c, SyncedInput(form, c, h, data, now), TakesFin(form, c, Arrival(h, data)))
  {
    AckLeaves(form, c, h, now);
    AckGrowsNot(form, c, h, now);
    AckedCountsFin(form, AckInput(form, c, h, now).0, h, data, now);
  }

  lemma AckGrowsNot(form: Form, c: Conn, h: Header, now: int)
    ensures AckInput(form, c, h, now).0.log.fins == c.log.fins
  {}

  lemma {:induction false} StepCountsFin(form: Form, c: Conn, now: int, e: Event)
    requires c.state !in {Close, Listen, SynSent}
    ensures FinCounted(c, Next(form, c, now, e), TakesFin(form, c, e))
  {
    if e.Arrival? {
      ArrivalCountsFin(form, c, e.h, e.data, now);
    } else {
      CallCountsNoFin(form, c, now, e);
    }
  }

  lemma {:induction false} CallCountsNoFin(form: Form, c: Conn, now: int, e: Event)
    requires c.state !in {Close, Listen, SynSent} && !e.Arrival?
    ensures FinCounted(c, Next(form, c, now, e), false)
  {
    CallLogs(form, c, now, e);
    if !e.ReadBytes? {
      CallKeepsRx(form, c, now, e);
    }
    CallForward(form, c, now, e);
  }

  ghost predicate TakesFinAt(form: Form, c: Conn, es: seq<(int, Event)>, k: nat)
    requires k < |es|
  {
    TakesFin(form, RunAll(form, c, es[..k]), es[k].1)
  }

  lemma {:induction false} RunStaysSynced(form: Form, c: Conn, es: seq<(int, Event)>)
    requires c.state !in {Close, Listen, SynSent}
    ensures var c' := RunAll(form, c, es);
            c.rx.rcvNxt <= c'.rx.rcvNxt && c'.state !in {Close, Listen, SynSent} && c.log.fins <= c'.log.fins
  {
    if es == [] {
    } else {
      var k := |es| - 1;
      RunStaysSynced(form, c, es[..k]);
      StepCountsFin(form, RunAll(form, c, es[..k]), es[k].0, es[k].1);
    }
  }

  /** Over every run from a synchronized connection: a FIN is consumed exactly if one
      arrives while rcv_nxt stands at the beginning of its segment. */
  lemma {:induction false} FinTakenInRun(form: Form, c: Conn, es: seq<(int, Event)>)
    requires c.state !in {Close, Listen, SynSent}
    ensures RunAll(form, c, es).log.fins > c.log.fins <==> exists k :: 0 <= k < |es| && TakesFinAt(form, c, es, k)
  {
    if es == [] {
    } else {
      var k, p := |es| - 1, es[..|es| - 1];
      FinTakenInRun(form, c, p);
      RunStaysSynced(form, c, p);
      StepCountsFin(form, RunAll(form, c, p), es[k].0, es[k].1);
      TakesFinPrefix(form, c, es);
      assert TakesFinAt(form, c, es, k) == TakesFin(form, RunAll(form, c, p), es[k].1);
      if RunAll(form, c, p).log.fins > c.log.fins {
        var j :| 0 <= j < k && TakesFinAt(form, c, p, j);
        assert TakesFinAt(form, c, es, j);
      } else {
        assert forall j :: 0 <= j < k ==> !TakesFinAt(form, c, p, j) && !TakesFinAt(form, c, es, j);
      }
    }
  }

  lemma TakesFinPrefix(form: Form, c: Conn, es: seq<(int, Event)>)
    requires es != []
    ensures forall j :: 0 <= j < |es| - 1 ==> TakesFinAt(form, c, es[..|es| - 1], j) == TakesFinAt(form, c, es, j)
  {
    forall j | 0 <= j < |es| - 1
      ensures es[..|es| - 1][..j] == es[..j]
    {}
  }

  /** A segment that brings bytes and the FIN ahead of its turn is queued without the
      FIN. Once rcv_nxt has passed its beginning, as it does when the gap is filled, no
      repetition of it is looked at: the FIN is lost, whatever else happens. */
  lemma {:induction false} EarlyFinIsLost(form: Form, c: Conn, seqno: nat, es: seq<(int, Event)>)
    requires c.state !in {Close, Listen, SynSent} && seqno < c.rx.rcvNxt
    requires forall i :: 0 <= i < |es| && es[i].1.Arrival? && es[i].1.h.fin ==> es[i].1.h.seqno == seqno
    ensures RunAll(form, c, es).log.fins == c.log.fins
  {
    FinTakenInRun(form, c, es);
    RunStaysSynced(form, c, es);
    forall k | 0 <= k < |es|
      ensures !TakesFinAt(form, c, es, k)
    {
      RunStaysSynced(form, c, es[..k]);
    }
  }

  /** A reset, and then the peer's last byte with its FIN: the FIN is seen, the byte is not. */
  lemma CutRun(smss: Mss)
    ensures var reset := (20, Arrival(Header(101, 10, false, true, false, true, false), []));
            var last := (30, Arrival(Header(101, 10, false, true, true, false, false), [7]));
            var c := RunAll(Intended, New(smss), ActiveOpen(9, 100) + [reset] + [last]);
            && GenuineEvent(reset.1, [7], 101) && GenuineEvent(last.1, [7], 101)
            && c.log.fins == 1 && c.rx.finSeen && c.rx.rcvNxt == 102 && Stream(c) == [] && c.log.cut
  {
    var h1 := Header(101, 10, false, true, false, true, false);
    var h2 := Header(101, 10, false, true, true, false, false);
    var c0 := Opened(smss, 9, 100);
    ActiveOpenRun(smss, 9, 100);
    RunSnoc(Intended, New(smss), ActiveOpen(9, 100), 20, Arrival(h1, []));
    RunSnoc(Intended, New(smss), ActiveOpen(9, 100) + [(20, Arrival(h1, []))], 30, Arrival(h2, [7]));
    var c1 := EnterTimeWait(c0);
    assert SyncedInput(Intended, c0, h1, [], 20) == c1;
    assert AckInput(Intended, c1, h2, 30) == (c1, false);
    var c2 := c1.(rx := c1.rx.(finSeen := true));
    assert QueueEmptyInput(c1, h2) == (c2, false);
    assert Deliver(Intended, c2, h2, [7], 30) == FinInput(c2, [7]);
  }

  /** Two bytes and, ahead of them, a last one with the FIN: all three are delivered and
      acknowledged, and no FIN is seen. */
  lemma EarlyFinRun(smss: Mss)
    ensures var early := (20, Arrival(Header(103, 10, false, true, true, false, false), [3]));
            var gap := (30, Arrival(Header(101, 10, false, true, false, false, false), [1, 2]));
            var c := RunAll(Intended, New(smss), ActiveOpen(9, 100) + [early] + [gap]);
            c.rx.rcvNxt == 104 && Stream(c) == [1, 2, 3] && c.log.fins == 0 && c.state == Established
  {
    var h1 := Header(103, 10, false, true, true, false, false);
    var h2 := Header(101, 10, false, true, false, false, false);
    var c0 := Opened(smss, 9, 100);
    ActiveOpenRun(smss, 9, 100);
    RunSnoc(Intended, New(smss), ActiveOpen(9, 100), 20, Arrival(h1, [3]));
    RunSnoc(Intended, New(smss), ActiveOpen(9, 100) + [(20, Arrival(h1, [3]))], 30, Arrival(h2, [1, 2]));
    var last, first := Segment(103, [3], false), Segment(101, [1, 2], false);
    assert InsertOrdered(Intended, [], last) == [last];
    var c1 := c0.(rx := c0.rx.(ofo := [last]));
    EarlyFinQueued(c0, h1, [3], 20);
    Filled(c1.rx, first, last);
    BytesSnoc([first], last);
    BytesSnoc([], first);
    assert [first] + [last] == [first, last] && [] + [first] == [first];
  }

  /** Ahead of its turn, a segment is queued and its FIN ignored. */
  lemma EarlyFinQueued(c: Conn, h: Header, data: seq<byte>, now: int)
    requires c.state == Established && c.tx.una == h.ackSeq == c.tx.nxt && c.rx.ofo == []
    requires h.ack && !h.rst && !h.syn && c.rx.rcvNxt < h.seqno <= c.rx.rcvNxt + c.rx.rcvWnd && data != []
    ensures SyncedInput(Intended, c, h, data, now) == c.(rx := c.rx.(ofo := [Segment(h.seqno, data, h.psh)]))
  {
    var s := Segment(h.seqno, data, h.psh);
    assert InsertOrdered(Intended, [], s) == [s];
  }

  lemma Filled(st: RxState, first: Segment, last: Segment)
    requires st.recv == [] && st.ofo == [last] && st.rcvNxt == first.seqno && st.rcvWnd > 0
    requires first.End() == last.seqno
    ensures DataQueue(Intended, st, first) ==
            st.(rcvNxt := last.End(), ofo := [], recv := [first, last], pollIn := true)
  {
    var st' := st.(rcvNxt := first.End(), recv := [first]);
    assert st.recv + [first] == [first] && [first] + [last] == [first, last];
    assert ConsumeOnce(Intended, st') == st'.(rcvNxt := last.End(), ofo := [], recv := [first, last]);
    assert Consume(Intended, st') == Consume(Intended, ConsumeOnce(Intended, st')) == ConsumeOnce(Intended, st');
  }

  /** In its turn, with nothing queued and nothing to send, a segment goes to the reader. */
  lemma InOrderTaken(c: Conn, h: Header, data: seq<byte>, now: int)
    requires c.state == Established && c.tx == TxState(h.ackSeq, h.ackSeq, [], 0) && c.rx.ofo == [] && c.rx.rcvWnd > 0
    requires h.ack && !h.rst && !h.syn && !h.fin && c.rx.rcvNxt == h.seqno && data != []
    ensures SyncedInput(Intended, c, h, data, now) ==
            c.(rx := c.rx.(rcvNxt := h.seqno + |data|, recv := c.rx.recv + [Segment(h.seqno, data, h.psh)],
                           pollIn := true))
  {}
}
