/** The receive half of a connection over whole runs: until it ends or is closed by its
    peer, rcv_nxt is the end of the gapless prefix of what was let in, and the out-of-order
    queue is the rest, sorted. */
module Gapless {
  import opened Common
  import opened Reassembly
  import opened SendQueue
  import opened Completeness
  import opened Connection
  import opened Diagram
  import opened Progress
  import opened ReceiveStream

  /** The arrival of text that is taken: it is looked at, in a state that takes text. */
  ghost predicate LetsIn(form: Form, c: Conn, e: Event) {
    && e.Arrival? && (c.state == SynReceived || c.state in TEXT_STATES)
    && Considered(c, e.h, e.data) && AckTaken(form, c, e.h) && (e.h.psh || e.data != [])
  }

  function Text(e: Event): Segment
    requires e.Arrival?
  {
    Segment(e.h.seqno, e.data, e.h.psh)
  }

  /** The sequence numbers of all text that was let in. */
  ghost function Got(form: Form, smss: Mss, es: seq<(int, Event)>): set<nat> {
    if es == [] then {}
    else
      var p, e := es[..|es| - 1], es[|es| - 1].1;
      Got(form, smss, p) + Added(form, RunAll(form, New(smss), p), e)
  }

  ghost function Added(form: Form, c: Conn, e: Event): set<nat> {
    if LetsIn(form, c, e) then Range(Text(e).seqno, Text(e).End()) else {}
  }

  /** Before the SYN nothing is there; then, until a FIN or the end, it is the plain set. */
  ghost predicate Assembled(c: Conn, got: set<nat>, segs: set<Segment>) {
    && Received(c)
    && (!c.log.synSeen ==> got == {} && c.rx.ofo == [])
    && (c.log.synSeen && c.log.fins == 0 && !c.log.ended ==>
          Complete(History(c.rx, c.log.taken, got), c.irs + 1, segs))
  }

  /** Nothing of the receive half that matters here has changed. */
  predicate SameQueues(c: Conn, c': Conn) {
    && c'.irs == c.irs && c'.log.synSeen == c.log.synSeen
    && (c'.log.fins == 0 && !c'.log.ended ==>
          c.log.fins == 0 && !c.log.ended && c'.rx.rcvNxt == c.rx.rcvNxt && c'.rx.ofo == c.rx.ofo)
    && (c.rx.ofo == [] ==> c'.rx.ofo == [])
  }

  lemma SameAssembled(c: Conn, c': Conn, got: set<nat>, segs: set<Segment>)
    requires Assembled(c, got, segs) && SameQueues(c, c') && Received(c')
    ensures Assembled(c', got, segs)
  {}

  /** The numbers let in once the text of an arrival is taken, if it is. */
  function With(c: Conn, got: set<nat>, h: Header, data: seq<byte>): set<nat> {
    got + if c.state in TEXT_STATES && (h.psh || data != []) then Range(h.seqno, h.seqno + |data|) else {}
  }

  lemma QueueAssembles(rx: RxState, taken: seq<byte>, s: Segment, base: nat, got: set<nat>, segs: set<Segment>)
    requires Complete(History(rx, taken, got), base, segs) && Pieces(segs) && s in segs && VerifySegment(rx, s)
    ensures Complete(History(DataQueue(Intended, rx, s), taken, got + Range(s.seqno, s.End())), base, segs)
  {
    var h := History(rx, taken, got);
    ArrivalComplete(h, s, base, segs);
    assert Step(h, Arrive(s)) == History(DataQueue(Intended, rx, s), taken, got + Range(s.seqno, s.End()));
  }

  lemma {:induction false} TakenAssembles(c: Conn, h: Header, data: seq<byte>, got: set<nat>, segs: set<Segment>)
    requires Assembled(c, got, segs) && Pieces(segs) && VerifySegment(c.rx, Segment(h.seqno, data, h.psh))
    requires c.state in TEXT_STATES && (h.psh || data != []) && Segment(h.seqno, data, h.psh) in segs
    ensures Assembled(TextInput(c, h, data), got + Range(h.seqno, h.seqno + |data|), segs)
  {
    var s := Segment(h.seqno, data, h.psh);
    var rx := DataQueue(Intended, c.rx, s);
    assert TextInput(c, h, data) == c.(rx := rx);
    TextGrows(c, h, data);
    if !c.log.ended {
      QueueAssembles(c.rx, c.log.taken, s, c.irs + 1, got, segs);
    }
    QueuedAssembled(c, rx, got + Range(s.seqno, s.End()), segs);
  }

  lemma QueuedAssembled(c: Conn, rx: RxState, got: set<nat>, segs: set<Segment>)
    requires c.log.synSeen && Received(c.(rx := rx))
    requires !c.log.ended ==> Complete(History(rx, c.log.taken, got), c.irs + 1, segs)
    ensures Assembled(c.(rx := rx), got, segs)
  {}

  lemma {:induction false} TextAssembles(c: Conn, h: Header, data: seq<byte>, got: set<nat>, segs: set<Segment>)
    requires Assembled(c, got, segs) && Pieces(segs) && VerifySegment(c.rx, Segment(h.seqno, data, h.psh))
    requires c.state in TEXT_STATES && (h.psh || data != []) ==> Segment(h.seqno, data, h.psh) in segs
    ensures Assembled(TextInput(c, h, data), With(c, got, h, data), segs)
  {
    if c.state in TEXT_STATES && (h.psh || data != []) {
      TakenAssembles(c, h, data, got, segs);
    } else {
      assert TextInput(c, h, data) == c && With(c, got, h, data) == got;
    }
  }

  lemma FinSame(c: Conn, data: seq<byte>)
    requires c.state !in {Close, Listen, SynSent}
    ensures SameQueues(c, FinInput(c, data))
  {}

  lemma SendMoreSame(form: Form, c: Conn, now: int)
    ensures SameQueues(c, SendMore(form, c, now))
  {
    SendMoreKeeps(form, c, now);
  }

  lemma {:induction false} DeliverAssembles(form: Form, c: Conn, h: Header, data: seq<byte>, now: int,
                                            got: set<nat>, segs: set<Segment>)
    requires Assembled(c, got, segs) && Pieces(segs) && c.state !in {Close, Listen, SynSent}
    requires VerifySegment(c.rx, Segment(h.seqno, data, h.psh))
    requires c.state in TEXT_STATES && (h.psh || data != []) ==> Segment(h.seqno, data, h.psh) in segs
    ensures Assembled(Deliver(form, c, h, data, now), With(c, got, h, data), segs)
  {
    var c3, got' := TextInput(c, h, data), With(c, got, h, data);
    TextAssembles(c, h, data, got, segs);
    var c4 := if h.fin && h.seqno == c.rx.rcvNxt then FinInput(c3, data) else c3;
    if h.fin && h.seqno == c.rx.rcvNxt {
      FinSame(c3, data);
      FinGrows(c3, data);
      SameAssembled(c3, c4, got', segs);
    }
    SendMoreSame(form, c4, now);
    SendMoreGrows(form, c4, now);
    SameAssembled(c4, SendMore(form, c4, now), got', segs);
  }

  lemma {:induction false} AckedAssembles(form: Form, c: Conn, h: Header, data: seq<byte>, now: int,
                                          got: set<nat>, segs: set<Segment>)
    requires Assembled(c, got, segs) && Pieces(segs) && c.state !in {Close, Listen, SynSent, SynReceived}
    requires VerifySegment(c.rx, Segment(h.seqno, data, h.psh))
    requires c.state in TEXT_STATES && (h.psh || data != []) ==> Segment(h.seqno, data, h.psh) in segs
    ensures Assembled(AckedInput(form, c, h, data, now), With(c, got, h, data), segs)
  {
    EmptySame(c, h);
    EmptyGrows(c, h);
    var (c', done) := QueueEmptyInput(c, h);
    SameAssembled(c, c', got, segs);
    if !done {
      DeliverAssembles(form, c', h, data, now, got, segs);
    }
  }

  lemma EmptySame(c: Conn, h: Header)
    ensures var (c', done) := QueueEmptyInput(c, h);
            SameQueues(c, c') && (c'.state in TEXT_STATES <==> c.state in TEXT_STATES)
    ensures QueueEmptyInput(c, h).1 ==> c.state == LastAck
    ensures var (c', done) := QueueEmptyInput(c, h); !done ==> c'.rx == c.rx.(finSeen := c'.rx.finSeen)
  {}

  /** A segment that is not looked at leaves everything, or resets. */
  lemma {:induction false} UnseenSame(form: Form, c: Conn, h: Header, data: seq<byte>, now: int)
    requires !Considered(c, h, data)
    ensures SyncedInput(form, c, h, data, now) == c || SyncedInput(form, c, h, data, now) == EnterTimeWait(c)
    ensures SameQueues(c, SyncedInput(form, c, h, data, now))
  {}

  lemma {:induction false} SyncedAssembles(form: Form, c: Conn, h: Header, data: seq<byte>, now: int,
                                           got: set<nat>, segs: set<Segment>)
    requires Assembled(c, got, segs) && Pieces(segs) && c.state !in {Close, Listen, SynSent}
    requires LetsIn(form, c, Arrival(h, data)) ==> Segment(h.seqno, data, h.psh) in segs
    ensures Assembled(SyncedInput(form, c, h, data, now), got + Added(form, c, Arrival(h, data)), segs)
  {
    if !Considered(c, h, data) {
      UnseenSame(form, c, h, data, now);
      assert got + Added(form, c, Arrival(h, data)) == got;
      SameAssembled(c, SyncedInput(form, c, h, data, now), got, segs);
    } else {
      SeenAssembles(form, c, h, data, now, got, segs);
    }
  }

  lemma {:induction false} SeenAssembles(form: Form, c: Conn, h: Header, data: seq<byte>, now: int,
                                         got: set<nat>, segs: set<Segment>)
    requires Assembled(c, got, segs) && Pieces(segs) && c.state !in {Close, Listen, SynSent} && Considered(c, h, data)
    requires LetsIn(form, c, Arrival(h, data)) ==> Segment(h.seqno, data, h.psh) in segs
    ensures Assembled(SyncedInput(form, c, h, data, now), got + Added(form, c, Arrival(h, data)), segs)
  {
    AckLeaves(form, c, h, now);
    AckGrows(form, c, h, now);
    AckSame(form, c, h, now);
    var (c1, dropped) := AckInput(form, c, h, now);
    SameAssembled(c, c1, got, segs);
    if dropped {
      assert got + Added(form, c, Arrival(h, data)) == got;
    } else {
      assert With(c1, got, h, data) == got + Added(form, c, Arrival(h, data));
      AckedAssembles(form, c1, h, data, now, got, segs);
    }
  }

  lemma AckSame(form: Form, c: Conn, h: Header, now: int)
    ensures SameQueues(c, AckInput(form, c, h, now).0)
  {}

  lemma {:induction false} SynSentAssembles(form: Form, c: Conn, h: Header, got: set<nat>, segs: set<Segment>)
    requires Assembled(c, got, segs) && c.state == SynSent
    ensures Assembled(SynSentInput(form, c, h), got, segs)
  {
    SynSentGrows(form, c, h);
    assert Range(h.seqno + 1, h.seqno + 1) + Numbers([]) == {};
  }

  lemma {:induction false} CallAssembles(form: Form, c: Conn, now: int, e: Event, got: set<nat>, segs: set<Segment>)
    requires Assembled(c, got, segs) && !e.Arrival?
    ensures Assembled(Next(form, c, now, e), got, segs)
  {
    StepGrows(form, c, now, e);
    CallSame(form, c, now, e);
    SameAssembled(c, Next(form, c, now, e), got, segs);
  }

  lemma CallSame(form: Form, c: Conn, now: int, e: Event)
    requires !e.Arrival?
    ensures SameQueues(c, Next(form, c, now, e))
  {
    if e.Write? {
      QueueEachKeeps(c, Chunks(e.bytes, c.smss), now);
    } else if e.CloseCall? {
      CloseSame(c, now);
    } else if e.DataTimer? {
      DataTimerSame(c, now);
    }
  }

  lemma CloseSame(c: Conn, now: int)
    ensures SameQueues(c, CloseSocket(c, now))
  {}

  lemma DataTimerSame(c: Conn, now: int)
    ensures SameQueues(c, DataExpiry(c, now))
  {}

  lemma {:induction false} StepAssembles(form: Form, c: Conn, now: int, e: Event, got: set<nat>, segs: set<Segment>)
    requires Assembled(c, got, segs) && Pieces(segs) && (LetsIn(form, c, e) ==> Text(e) in segs)
    ensures Assembled(Next(form, c, now, e), got + Added(form, c, e), segs)
  {
    if e.Arrival? && c.state !in {Close, Listen, SynSent} {
      SyncedAssembles(form, c, e.h, e.data, now, got, segs);
    } else {
      assert got + Added(form, c, e) == got;
      OtherAssembles(form, c, now, e, got, segs);
    }
  }

  lemma {:induction false} OtherAssembles(form: Form, c: Conn, now: int, e: Event, got: set<nat>, segs: set<Segment>)
    requires Assembled(c, got, segs) && (e.Arrival? ==> c.state in {Close, Listen, SynSent})
    ensures Assembled(Next(form, c, now, e), got, segs)
  {
    if !e.Arrival? {
      CallAssembles(form, c, now, e, got, segs);
    } else if c.state == SynSent {
      SynSentAssembles(form, c, e.h, got, segs);
    }
  }

  /** What the run lets in is cut from one segmentation. */
  ghost predicate LetsInPieces(form: Form, smss: Mss, es: seq<(int, Event)>, segs: set<Segment>) {
    forall k :: 0 <= k < |es| ==> PieceAt(form, smss, es, segs, k)
  }

  ghost predicate PieceAt(form: Form, smss: Mss, es: seq<(int, Event)>, segs: set<Segment>, k: nat)
    requires k < |es|
  {
    LetsIn(form, RunAll(form, New(smss), es[..k]), es[k].1) ==> Text(es[k].1) in segs
  }

  lemma PiecesPrefix(form: Form, smss: Mss, es: seq<(int, Event)>, segs: set<Segment>)
    requires es != [] && LetsInPieces(form, smss, es, segs)
    ensures LetsInPieces(form, smss, es[..|es| - 1], segs)
  {
    var p := es[..|es| - 1];
    forall j | 0 <= j < |p|
      ensures PieceAt(form, smss, p, segs, j)
    {
      assert p[..j] == es[..j] && PieceAt(form, smss, es, segs, j);
    }
  }

  lemma {:induction false} RunAssembles(form: Form, smss: Mss, es: seq<(int, Event)>, segs: set<Segment>)
    requires Pieces(segs) && LetsInPieces(form, smss, es, segs)
    ensures Assembled(RunAll(form, New(smss), es), Got(form, smss, es), segs)
  {
    if es == [] {
    } else {
      var k := |es| - 1;
      PiecesPrefix(form, smss, es, segs);
      RunAssembles(form, smss, es[..k], segs);
      assert PieceAt(form, smss, es, segs, k);
      StepAssembles(form, RunAll(form, New(smss), es[..k]), es[k].0, es[k].1, Got(form, smss, es[..k]), segs);
    }
  }

  /** Over every run of a connection, calls and timers included, with text that comes in
      any order and any number of times: while no FIN was consumed and the socket is not
      ended, rcv_nxt is the end of the longest gapless prefix of what was let in, and the
      out-of-order queue is sorted, without overlaps, and exactly what lies above. */
  lemma {:induction false} ConnectionComplete(form: Form, smss: Mss, es: seq<(int, Event)>, c: Conn, segs: set<Segment>)
    requires c == RunAll(form, New(smss), es) && Pieces(segs) && LetsInPieces(form, smss, es, segs)
    requires c.log.synSeen && c.log.fins == 0 && !c.log.ended
    ensures var got := Got(form, smss, es);
            && Range(c.irs + 1, c.rx.rcvNxt) <= got && c.rx.rcvNxt !in got
            && SortedDisjoint(c.rx.ofo) && Numbers(c.rx.ofo) == set n | n in got && n > c.rx.rcvNxt
  {
    RunAssembles(form, smss, es, segs);
    forall n | n in Numbers(c.rx.ofo)
      ensures n > c.rx.rcvNxt
    {
      NumbersAbove(c.rx.ofo, c.rx.rcvNxt + 1, n);
    }
  }
}
