/** Two sockets and the network between them as one system. The acknowledgments that one
    gets are numbers up to which the other has received; they never end inside a segment
    in flight, so everything proved of careful runs holds of the system. */
module TwoSockets {
  import opened Common
  import opened Reassembly
  import opened SendQueue
  import opened Connection
  import opened Delivery
  import opened Diagram
  import EndToEnd
  import opened Flight
  import opened Frames
  import opened Progress
  import opened QueueShape
  import opened ReceiveStream
  import opened RtoTimer

  // ------------------------------------------------------- numbers that split nothing

  /** A number that has been used and is strictly inside nothing in flight. */
  predicate Safe(st: TxState, v: nat) {
    v <= st.nxt && Whole(st, v)
  }

  /** What is in flight in st' was in flight in st, or begins at its snd_nxt or later. */
  predicate FlightFrom(st: TxState, st': TxState) {
    && st.nxt <= st'.nxt
    && forall i :: 0 <= i < st'.inflight && i < |st'.q| ==> OldOrNew(st, st'.q[i])
  }

  predicate OldOrNew(st: TxState, t: TxSeg) {
    (exists j :: 0 <= j < st.inflight && j < |st.q| && st.q[j] == t) || st.nxt <= t.seqno
  }

  lemma SafeStays(st: TxState, st': TxState, v: nat)
    requires Safe(st, v) && FlightFrom(st, st')
    ensures Safe(st', v)
  {
    forall i | 0 <= i < st'.inflight && i < |st'.q|
      ensures !(st'.q[i].seqno < v < st'.q[i].endSeq)
    {
      assert OldOrNew(st, st'.q[i]);
    }
  }

  lemma SameFlight(st: TxState)
    ensures FlightFrom(st, st)
  {
    forall i | 0 <= i < st.inflight && i < |st.q|
      ensures OldOrNew(st, st.q[i])
    {}
  }

  lemma FlightTwice(st: TxState, st1: TxState, st2: TxState)
    requires FlightFrom(st, st1) && FlightFrom(st1, st2)
    ensures FlightFrom(st, st2)
  {
    forall i | 0 <= i < st2.inflight && i < |st2.q|
      ensures OldOrNew(st, st2.q[i])
    {
      assert OldOrNew(st1, st2.q[i]);
      if j :| 0 <= j < st1.inflight && j < |st1.q| && st1.q[j] == st2.q[i] {
        assert OldOrNew(st, st1.q[j]);
      }
    }
  }

  lemma CleanFlight(c: Conn, una: nat)
    requires Tiled(c.tx)
    ensures FlightFrom(c.tx, Clean(c, una).tx)
  {
    CleanIsExact(c.tx, una);
    var k, st' := Cleaned(c.tx.q, una), CleanRtoQueue(c.tx, una);
    forall i | 0 <= i < st'.inflight && i < |st'.q|
      ensures OldOrNew(c.tx, st'.q[i])
    {
      assert c.tx.q[i + k] == st'.q[i];
    }
  }

  lemma AckFlight(c: Conn, h: Header, now: int)
    requires Shaped(c)
    ensures FlightFrom(c.tx, AckInput(Intended, c, h, now).0.tx)
  {
    SameFlight(c.tx);
    if c.state in ACK_STATES && c.tx.una < h.ackSeq <= c.tx.nxt {
      SomethingAcknowledged(c, h, now);
      CleanFlight(Acknowledging(c, h.ackSeq, now), h.ackSeq);
    } else {
      NothingAcknowledged(c, h, now);
    }
  }

  lemma SendMoreFlight(c: Conn, now: int)
    requires c.tx.inflight <= |c.tx.q|
    ensures FlightFrom(c.tx, SendMore(Intended, c, now).tx)
  {
    SameFlight(c.tx);
    SendMoreKeeps(Intended, c, now);
    var k, st' := Min(|c.tx.q|, 3), SendMore(Intended, c, now).tx;
    if c.state in {Established, FinWait1, FinWait2} && c.tx.inflight == 0 && k > 0 {
      StampAllNumbers(c.tx.q[..k], c.tx.nxt);
      assert forall i :: 0 <= i < k ==> st'.q[i] == StampAll(c.tx.q[..k], c.tx.nxt)[i];
    }
  }

  lemma {:induction false} AckedFlight(c: Conn, h: Header, data: seq<byte>, now: int)
    requires c.tx.inflight <= |c.tx.q|
    ensures FlightFrom(c.tx, AckedInput(Intended, c, h, data, now).tx)
  {
    SameFlight(c.tx);
    var c1 := QueueEmptyInput(c, h).0;
    assert c1.tx == c.tx;
    var c3 := TextInput(c1, h, data);
    FinKeepsTx(c3, data);
    var c4 := if h.fin && h.seqno == c1.rx.rcvNxt then FinInput(c3, data) else c3;
    SendMoreFlight(c4, now);
  }

  lemma FinKeepsTx(c: Conn, data: seq<byte>)
    ensures FinInput(c, data).tx == c.tx
  {}

  lemma {:induction false} QueueEachFlight(c: Conn, segs: seq<TxSeg>, now: int)
    requires c.tx.inflight <= |c.tx.q| && (c.tx.inflight > 0 || c.tx.q == [])
    ensures FlightFrom(c.tx, QueueEach(c, segs, now).tx)
    decreases |segs|
  {
    SameFlight(c.tx);
    if segs == [] {
    } else {
      var c1 := Queue(c, segs[0], now);
      QueueFlight(c, segs[0], now);
      QueueEachFlight(c1, segs[1..], now);
      FlightTwice(c.tx, c1.tx, QueueEach(c1, segs[1..], now).tx);
    }
  }

  lemma QueueFlight(c: Conn, s: TxSeg, now: int)
    requires c.tx.inflight <= |c.tx.q| && (c.tx.inflight > 0 || c.tx.q == [])
    ensures FlightFrom(c.tx, Queue(c, s, now).tx)
  {
    var st' := Queue(c, s, now).tx;
    forall i | 0 <= i < st'.inflight && i < |st'.q|
      ensures OldOrNew(c.tx, st'.q[i])
    {
      if i < |c.tx.q| {
        assert st'.q[i] == c.tx.q[i];
      }
    }
  }

  lemma {:induction false} SynSentFlight(c: Conn, h: Header)
    requires Shaped(c) && c.state == SynSent
    ensures FlightFrom(c.tx, SynSentInput(Intended, c, h).tx)
  {
    SameFlight(c.tx);
    var c1 := c.(irs := h.seqno, rx := c.rx.(rcvNxt := h.seqno + 1), log := c.log.(synSeen := true));
    CleanFlight(c1.(tx := c1.tx.(una := h.ackSeq)), h.ackSeq);
  }

  lemma {:induction false} SyncedFlight(c: Conn, h: Header, data: seq<byte>, now: int)
    requires Shaped(c) && c.state !in {Close, Listen, SynSent}
    ensures FlightFrom(c.tx, SyncedInput(Intended, c, h, data, now).tx)
  {
    SameFlight(c.tx);
    AckFlight(c, h, now);
    AckShapes(c, h, now);
    var c1 := AckInput(Intended, c, h, now).0;
    AckedFlight(c1, h, data, now);
    FlightTwice(c.tx, c1.tx, AckedInput(Intended, c1, h, data, now).tx);
  }

  lemma {:induction false} StepFlight(c: Conn, now: int, e: Event)
    requires Shaped(c) && Orderly(c, e)
    ensures FlightFrom(c.tx, Next(Intended, c, now, e).tx)
  {
    SameFlight(c.tx);
    if e.Arrival? {
      if c.state == SynSent {
        SynSentFlight(c, e.h);
      } else if c.state !in {Close, Listen} {
        SyncedFlight(c, e.h, e.data, now);
      }
    } else {
      CallFlight(c, now, e);
    }
  }

  lemma {:induction false} CallFlight(c: Conn, now: int, e: Event)
    requires Shaped(c) && Orderly(c, e) && !e.Arrival?
    ensures FlightFrom(c.tx, Next(Intended, c, now, e).tx)
  {
    SameFlight(c.tx);
    match e
    case Write(bytes) =>
      if c.err == NoErr && c.state in {Established, CloseWait} && bytes != [] {
        QueueEachFlight(c, Chunks(bytes, c.smss), now);
      }
    case CloseCall => CloseFlight(c, now);
    case Connect(iss) => ConnectFlight(c, iss, now);
    case _ =>
  }

  lemma CloseFlight(c: Conn, now: int)
    requires Shaped(c) && Orderly(c, CloseCall)
    ensures FlightFrom(c.tx, CloseSocket(c, now).tx)
  {
    SameFlight(c.tx);
    var fin := Fresh([], false, true, false);
    if c.state == Established {
      QueueFlight(c.(state := FinWait1), fin, now);
    } else if c.state == CloseWait {
      QueueFlight(c, fin, now);
    }
  }

  lemma ConnectFlight(c: Conn, iss: nat, now: int)
    requires Shaped(c)
    ensures FlightFrom(c.tx, ConnectCall(c, iss, now).tx)
  {
    SameFlight(c.tx);
  }

  // ------------------------------------------------------------- where frames end

  /** Where the frame ends, in the number that acknowledges it, nothing in flight is split. */
  predicate EndsSafely(st: TxState, f: Frame) {
    && (f.data != [] ==> Safe(st, f.seqno + |f.data|))
    && (f.fin ==> Safe(st, f.seqno + 1))
  }

  ghost predicate FramesEndSafely(c: Conn) {
    forall j :: 0 <= j < |c.log.sent| ==> EndsSafely(c.tx, c.log.sent[j])
  }

  lemma {:induction false} TilesInOrder(q: seq<TxSeg>, nxt: nat, i: nat, j: nat)
    requires Tiles(q, nxt) && i < j < |q|
    ensures q[i].endSeq <= q[j].seqno
  {
    TilesGrow(q, nxt, j - 1);
    if i == j - 1 {
    } else {
      TilesGrow(q, nxt, j - 2);
      TilesInOrder(q, nxt, i, j - 1);
    }
  }

  lemma {:induction false} TilesSpan(q: seq<TxSeg>, nxt: nat, i: nat)
    requires Tiles(q, nxt) && i < |q|
    ensures q[i].seqno + q[i].Span() <= nxt
  {
    if i == |q| - 1 {
    } else {
      TilesSpan(q[..|q| - 1], q[|q| - 1].seqno, i);
    }
  }

  /** The end of a segment in flight. */
  lemma EndIsSafe(st: TxState, i: nat)
    requires Tiled(st) && i < st.inflight
    ensures Safe(st, st.q[i].endSeq)
  {
    var p := st.q[..st.inflight];
    TilesGrow(p, st.nxt, i);
    TiledEnds(st);
    forall j | 0 <= j < st.inflight && j < |st.q|
      ensures !(st.q[j].seqno < st.q[i].endSeq < st.q[j].endSeq)
    {
      TilesGrow(p, st.nxt, j);
      if j < i {
        TilesInOrder(p, st.nxt, j, i);
      } else if i < j {
        TilesInOrder(p, st.nxt, i, j);
      }
    }
  }

  /** Behind a FIN in flight there are no bytes. */
  lemma FinIsSafe(c: Conn, i: nat, v: nat)
    requires Sound(c) && Solid(c.tx.q) && i < c.tx.inflight && c.tx.q[i].fin
    requires v <= c.tx.q[i].seqno + 1 && (i == 0 || v == c.tx.q[i].seqno + 1)
    ensures Safe(c.tx, v)
  {
    var p := c.tx.q[..c.tx.inflight];
    TilesSpan(p, c.tx.nxt, i);
    TiledEnds(c.tx);
    forall j | 0 <= j < c.tx.inflight && j < |c.tx.q|
      ensures !(c.tx.q[j].seqno < v < c.tx.q[j].endSeq)
    {
      if j < i {
        TilesInOrder(p, c.tx.nxt, j, i);
      } else {
        NoBytesBehind(c.tx.q, i, j);
      }
    }
  }

  lemma NoBytesBehind(q: seq<TxSeg>, i: nat, j: nat)
    requires FinsLast(q) && i <= j < |q| && q[i].fin && q[i].data == []
    ensures q[j].data == []
  {
    FinIsLast(q, i);
    assert q == q[..i] + q[i..];
    PayloadAppend(q[..i], q[i..]);
    assert Payload(q[i..]) == [];
    NoPayload(q[i..]);
    assert q[i..][j - i] == q[j];
  }

  lemma InFlightEndsSafely(c: Conn, i: nat)
    requires Sound(c) && Solid(c.tx.q) && i < c.tx.inflight
    ensures EndsSafely(c.tx, FrameOf(c.tx.q[i], c.tx.q[i].seqno))
  {
    TiledEnds(c.tx);
    EndIsSafe(c.tx, i);
    if c.tx.q[i].fin {
      FinIsSafe(c, i, c.tx.q[i].seqno + 1);
    }
  }

  /** The head of the queue, sent again under snd_una. */
  lemma HeadEndsSafely(c: Conn)
    requires Tidy(c) && c.armed.Some? && c.tx.q != []
    ensures EndsSafely(c.tx, FrameOf(c.tx.q[0], c.tx.una))
  {
    if c.tx.q[0].data != [] {
      HeadIsUna(c);
      InFlightEndsSafely(c, 0);
    } else if c.tx.q[0].fin {
      FinIsSafe(c, 0, c.tx.una + 1);
    }
  }

  lemma EndStaysSafe(st: TxState, st': TxState, f: Frame)
    requires EndsSafely(st, f) && FlightFrom(st, st')
    ensures EndsSafely(st', f)
  {
    if f.data != [] {
      SafeStays(st, st', f.seqno + |f.data|);
    }
    if f.fin {
      SafeStays(st, st', f.seqno + 1);
    }
  }

  lemma {:induction false} StepEndsSafely(c: Conn, now: int, e: Event)
    requires Tidy(c) && FramesEndSafely(c) && Careful(c, e)
    ensures FramesEndSafely(Next(Intended, c, now, e))
  {
    var c' := Next(Intended, c, now, e);
    StepLabels(c, now, e);
    StepFlight(c, now, e);
    forall j | 0 <= j < |c'.log.sent|
      ensures EndsSafely(c'.tx, c'.log.sent[j])
    {
      FrameEndsSafely(c, now, e, j);
    }
  }

  lemma {:induction false} FrameEndsSafely(c: Conn, now: int, e: Event, j: nat)
    requires Tidy(c) && FramesEndSafely(c) && Careful(c, e) && Tidy(Next(Intended, c, now, e))
    requires j < |Next(Intended, c, now, e).log.sent| && FlightFrom(c.tx, Next(Intended, c, now, e).tx)
    ensures EndsSafely(Next(Intended, c, now, e).tx, Next(Intended, c, now, e).log.sent[j])
  {
    var c' := Next(Intended, c, now, e);
    StepSends(c, now, e);
    if j < |c.log.sent| {
      EndStaysSafe(c.tx, c'.tx, c.log.sent[j]);
    } else if SendsInFlight(c, c') {
      var i :| 0 <= i < c'.tx.inflight && i < |c'.tx.q| && c'.log.sent[j] == FrameOf(c'.tx.q[i], c'.tx.q[i].seqno);
      InFlightEndsSafely(c', i);
    } else {
      HeadEndsSafely(c);
      EndStaysSafe(c.tx, c'.tx, FrameOf(c.tx.q[0], c.tx.una));
    }
  }

  // ----------------------------------------------------------------- the other socket

  /** Where b stands in the stream of a, and where the segments it keeps end, nothing that
      a has in flight is split. */
  ghost predicate ReceivesSafely(st: TxState, b: Conn) {
    Safe(st, b.rx.rcvNxt) && forall i :: 0 <= i < |b.rx.ofo| && b.rx.ofo[i].data != [] ==> Safe(st, b.rx.ofo[i].End())
  }

  lemma {:induction false} ConsumesSafely(st: TxState, rx: RxState)
    requires Safe(st, rx.rcvNxt)
    requires forall i :: 0 <= i < |rx.ofo| && rx.ofo[i].data != [] ==> Safe(st, rx.ofo[i].End())
    ensures var rx' := Consume(Intended, rx);
            && Safe(st, rx'.rcvNxt)
            && forall i :: 0 <= i < |rx'.ofo| && rx'.ofo[i].data != [] ==> Safe(st, rx'.ofo[i].End())
    decreases |rx.ofo|
  {
    if !Consumable(rx) {
    } else {
      ConsumesSafely(st, ConsumeOnce(Intended, rx));
    }
  }

  lemma {:induction false} TextSafely(st: TxState, b: Conn, h: Header, data: seq<byte>)
    requires ReceivesSafely(st, b) && (data != [] ==> Safe(st, h.seqno + |data|))
    ensures ReceivesSafely(st, TextInput(b, h, data))
  {
    var s := Segment(h.seqno, data, h.psh);
    if b.state in TEXT_STATES && b.rx.rcvWnd > 0 {
      if s.seqno == b.rx.rcvNxt {
        ConsumesSafely(st, b.rx.(rcvNxt := s.End(), recv := b.rx.recv + [s]));
      } else {
        var ofo := InsertOrdered(Intended, b.rx.ofo, s);
        forall i | 0 <= i < |ofo| && ofo[i].data != []
          ensures Safe(st, ofo[i].End())
        {
          InsertAdds(b.rx.ofo, s, i);
          if ofo[i] in b.rx.ofo {
            var j :| 0 <= j < |b.rx.ofo| && b.rx.ofo[j] == ofo[i];
          }
        }
      }
    }
  }

  lemma {:induction false} DeliverSafely(form: Form, st: TxState, b: Conn, h: Header, data: seq<byte>, now: int)
    requires ReceivesSafely(st, b) && (data != [] ==> Safe(st, h.seqno + |data|))
    requires h.fin && h.seqno == b.rx.rcvNxt ==>
               Safe(st, h.seqno + 1) && TextInput(b, h, data).rx.rcvNxt == b.rx.rcvNxt
    ensures ReceivesSafely(st, Deliver(form, b, h, data, now))
  {
    TextSafely(st, b, h, data);
    var b3 := TextInput(b, h, data);
    var b4 := if h.fin && h.seqno == b.rx.rcvNxt then FinInput(b3, data) else b3;
    FinSafely(st, b3, data);
    SendMoreKeeps(form, b4, now);
  }

  lemma FinSafely(st: TxState, b: Conn, data: seq<byte>)
    requires ReceivesSafely(st, b)
    ensures FinInput(b, data).rx.ofo == b.rx.ofo
    ensures FinInput(b, data).rx.rcvNxt == b.rx.rcvNxt || FinInput(b, data).rx.rcvNxt == b.rx.rcvNxt + 1
  {}

  /** A FIN of a that comes in its turn finds rcv_nxt at the end of the stream, and no
      queued segment moves it on. */
  lemma FinAtEnd(b: Conn, h: Header, data: seq<byte>, w: seq<byte>, base: nat)
    requires Heard(b, w, base) && Genuine(h, data, w, base) && b.log.synSeen && b.irs + 1 == base
    requires VerifySegment(b.rx, Segment(h.seqno, data, h.psh)) && h.fin && data == [] && h.seqno == b.rx.rcvNxt
    ensures TextInput(b, h, data).rx.rcvNxt == b.rx.rcvNxt
  {
    TextHears(b, h, data, w, base);
  }

  lemma {:induction false} AckedSafely(form: Form, st: TxState, b: Conn, h: Header, data: seq<byte>, now: int,
                                       w: seq<byte>, base: nat)
    requires Heard(b, w, base) && Genuine(h, data, w, base) && b.log.synSeen && b.irs + 1 == base
    requires VerifySegment(b.rx, Segment(h.seqno, data, h.psh)) && b.state !in {Close, Listen, SynSent, SynReceived}
    requires ReceivesSafely(st, b) && (data != [] ==> Safe(st, h.seqno + |data|))
    requires h.fin ==> data == [] && Safe(st, h.seqno + 1)
    ensures ReceivesSafely(st, AckedInput(form, b, h, data, now))
  {
    EmptyHears(b, h, data, w, base);
    var (b1, done) := QueueEmptyInput(b, h);
    if !done {
      if h.fin && h.seqno == b1.rx.rcvNxt {
        FinAtEnd(b1, h, data, w, base);
      }
      DeliverSafely(form, st, b1, h, data, now);
    }
  }

  lemma {:induction false} SyncedSafely(form: Form, st: TxState, b: Conn, h: Header, data: seq<byte>, now: int,
                                        w: seq<byte>, base: nat)
    requires Heard(b, w, base) && Genuine(h, data, w, base) && b.log.synSeen && b.irs + 1 == base
    requires b.state !in {Close, Listen, SynSent}
    requires ReceivesSafely(st, b) && (data != [] ==> Safe(st, h.seqno + |data|))
    requires h.fin ==> data == [] && Safe(st, h.seqno + 1)
    ensures ReceivesSafely(st, SyncedInput(form, b, h, data, now))
  {
    AckHears(form, b, h, now, w, base);
    var (b1, dropped) := AckInput(form, b, h, now);
    if VerifySegment(b.rx, Segment(h.seqno, data, h.psh)) && !dropped {
      AckedSafely(form, st, b1, h, data, now, w, base);
    }
  }

  lemma {:induction false} ArrivalSafely(form: Form, st: TxState, b: Conn, h: Header, data: seq<byte>, now: int,
                                         w: seq<byte>, base: nat)
    requires Heard(b, w, base) && Genuine(h, data, w, base) && b.log.synSeen && b.irs + 1 == base
    requires b.state != SynSent && ReceivesSafely(st, b) && (data != [] ==> Safe(st, h.seqno + |data|))
    requires h.fin ==> data == [] && Safe(st, h.seqno + 1)
    ensures ReceivesSafely(st, Input(form, b, h, data, now))
  {
    if b.state !in {Close, Listen} {
      SyncedSafely(form, st, b, h, data, now, w, base);
    }
  }

  lemma {:induction false} CallSafely(form: Form, st: TxState, b: Conn, now: int, e: Event)
    requires ReceivesSafely(st, b) && !e.Arrival?
    ensures ReceivesSafely(st, Next(form, b, now, e))
  {
    if e.Write? {
      QueueEachKeeps(b, Chunks(e.bytes, b.smss), now);
    }
  }

  // --------------------------------------------------------------------------- the system

  /** Both sockets, and the numbers up to which b has received at some time, which are
      what its acknowledgments carry. */
  datatype System = System(a: Conn, b: Conn, acks: set<nat>)

  datatype Move = ToA(now: int, e: Event) | ToB(now: int, e: Event)

  ghost function Acks(b: Conn): set<nat> {
    if b.log.synSeen then {b.rx.rcvNxt} else {}
  }

  ghost function Moved(form: Form, s: System, m: Move): System {
    match m
    case ToA(now, e) => s.(a := Next(Intended, s.a, now, e))
    case ToB(now, e) =>
      var b' := Next(form, s.b, now, e);
      s.(b := b', acks := s.acks + Acks(b'))
  }

  ghost function RunSystem(form: Form, s: System, ms: seq<Move>): System {
    if ms == [] then s else Moved(form, RunSystem(form, s, ms[..|ms| - 1]), ms[|ms| - 1])
  }

  /** What can happen. At a: calls in order by a polite application, timers that are armed,
      and segments whose acknowledgment, if any, is one that b sent. At b: anything, but
      bytes, FINs and SYNs only as a sent them. The network may lose, repeat and reorder
      both ways. */
  ghost predicate Plausible(s: System, m: Move) {
    match m
    case ToA(now, e) =>
      && Orderly(s.a, e) && Polite(s.a, e) && Expires(s.a, e)
      && (e.Arrival? && e.h.ack ==> e.h.ackSeq in s.acks)
    case ToB(now, e) =>
      && EndToEnd.Carried(s.a, e)
      && (e.Arrival? && e.h.syn ==> s.a.log.connects > 0 && e.h.seqno == s.a.iss)
  }

  /** What every move keeps. */
  ghost predicate Good(s: System) {
    Sending(s.a) && Receiving(s)
  }

  ghost predicate Sending(a: Conn) {
    && Tidy(a) && FramesFit(a) && FramesEndSafely(a)
    && (a.log.connects > 0 ==> a.iss < a.tx.nxt && a.state != Close)
  }

  ghost predicate AcksSafe(st: TxState, acks: set<nat>) {
    forall v :: v in acks ==> Safe(st, v)
  }

  ghost predicate Receiving(s: System) {
    && Heard(s.b, s.a.log.accepted, s.a.iss + 1)
    && AcksSafe(s.a.tx, s.acks)
    && (s.b.log.synSeen ==> Synced(s))
  }

  /** b has got a's SYN. */
  ghost predicate Synced(s: System) {
    && s.a.log.connects > 0 && s.b.irs == s.a.iss && ReceivesSafely(s.a.tx, s.b)
    && (s.b.log.fins > 0 ==> s.a.log.finsQueued > 0) && !s.b.log.cut
  }

  /** No acknowledgment splits a segment of a in flight. */
  lemma NothingSplits(s: System, m: Move)
    requires Good(s) && Plausible(s, m) && m.ToA?
    ensures !Splits(s.a, m.e) && Careful(s.a, m.e)
  {
    if m.e.Arrival? && m.e.h.ack {
      assert Safe(s.a.tx, m.e.h.ackSeq);
    }
  }

  lemma HeardLater(b: Conn, w: seq<byte>, base: nat, w': seq<byte>, base': nat)
    requires Heard(b, w, base) && w <= w'
    requires b.log.synSeen ==> base' == base && (b.log.fins > 0 ==> w == w')
    ensures Heard(b, w', base')
  {
    if b.log.synSeen && b.irs + 1 == base && b.log.fins == 0 {
      assert w'[..b.rx.rcvNxt - base] == w[..b.rx.rcvNxt - base];
    }
  }

  lemma BeginningStays(a: Conn, now: int, e: Event)
    requires a.log.connects > 0 ==> a.iss < a.tx.nxt && a.state != Close
    requires Ordered(a)
    ensures var a' := Next(Intended, a, now, e);
            a'.log.connects > 0 ==> a'.iss < a'.tx.nxt && a'.state != Close
  {
    StepConnects(Intended, a, now, e);
    StepForward(Intended, a, now, e);
    StepLater(a, now, e);
  }

  lemma SyncedStays(s: System, now: int, e: Event)
    requires Good(s) && Plausible(s, ToA(now, e)) && s.b.log.synSeen
    ensures Synced(s.(a := Next(Intended, s.a, now, e)))
  {
    var a' := Next(Intended, s.a, now, e);
    StepFlight(s.a, now, e);
    StepLater(s.a, now, e);
    StepAfterFin(s.a, now, e);
    StepConnects(Intended, s.a, now, e);
    SafeStays(s.a.tx, a'.tx, s.b.rx.rcvNxt);
    forall i | 0 <= i < |s.b.rx.ofo| && s.b.rx.ofo[i].data != []
      ensures Safe(a'.tx, s.b.rx.ofo[i].End())
    {
      SafeStays(s.a.tx, a'.tx, s.b.rx.ofo[i].End());
    }
  }

  lemma {:induction false} SendsOn(a: Conn, now: int, e: Event)
    requires Tidy(a) && FramesFit(a) && FramesEndSafely(a) && Careful(a, e)
    ensures var a' := Next(Intended, a, now, e); Tidy(a') && FramesFit(a') && FramesEndSafely(a')
  {
    StepLabels(a, now, e);
    StepFrames(a, now, e);
    StepEndsSafely(a, now, e);
  }

  lemma {:induction false} MoveOfA(form: Form, s: System, now: int, e: Event)
    requires Good(s) && Plausible(s, ToA(now, e))
    ensures Good(Moved(form, s, ToA(now, e)))
  {
    SendingStays(s, now, e);
    ReceivingStays(s, now, e);
  }

  lemma {:induction false} SendingStays(s: System, now: int, e: Event)
    requires Good(s) && Plausible(s, ToA(now, e))
    ensures Sending(Next(Intended, s.a, now, e))
  {
    NothingSplits(s, ToA(now, e));
    SendsOn(s.a, now, e);
    BeginningStays(s.a, now, e);
  }

  lemma {:induction false} ReceivingStays(s: System, now: int, e: Event)
    requires Good(s) && Plausible(s, ToA(now, e))
    ensures Receiving(s.(a := Next(Intended, s.a, now, e)))
  {
    AcksStaySafe(s, now, e);
    if s.b.log.synSeen {
      SyncedStays(s, now, e);
    }
    ListensOn(s, now, e);
  }

  lemma AcksStaySafe(s: System, now: int, e: Event)
    requires Good(s) && Plausible(s, ToA(now, e))
    ensures AcksSafe(Next(Intended, s.a, now, e).tx, s.acks)
  {
    StepFlight(s.a, now, e);
    forall v | v in s.acks
      ensures Safe(Next(Intended, s.a, now, e).tx, v)
    {
      SafeStays(s.a.tx, Next(Intended, s.a, now, e).tx, v);
    }
  }

  lemma ListensOn(s: System, now: int, e: Event)
    requires Good(s) && Plausible(s, ToA(now, e))
    ensures var a' := Next(Intended, s.a, now, e); Heard(s.b, a'.log.accepted, a'.iss + 1)
  {
    StepLater(s.a, now, e);
    if s.a.log.finsQueued > 0 {
      Finished(s, now, e);
    }
    Listens(s);
    StillListens(s, Next(Intended, s.a, now, e));
  }

  lemma Listens(s: System)
    requires Good(s)
    ensures Heard(s.b, s.a.log.accepted, s.a.iss + 1) && (s.b.log.synSeen ==> Synced(s))
    ensures s.a.log.connects > 0 ==> s.a.state != Close
  {}

  lemma Finished(s: System, now: int, e: Event)
    requires Good(s) && Plausible(s, ToA(now, e)) && s.a.log.finsQueued > 0
    ensures Next(Intended, s.a, now, e).log.accepted == s.a.log.accepted
  {
    StepAfterFin(s.a, now, e);
  }

  lemma StillListens(s: System, a': Conn)
    requires Heard(s.b, s.a.log.accepted, s.a.iss + 1) && (s.b.log.synSeen ==> Synced(s)) && Later(s.a, a')
    requires s.a.log.finsQueued > 0 ==> a'.log.accepted == s.a.log.accepted
    requires s.a.log.connects > 0 ==> s.a.state != Close
    ensures Heard(s.b, a'.log.accepted, a'.iss + 1)
  {
    HeardLater(s.b, s.a.log.accepted, s.a.iss + 1, a'.log.accepted, a'.iss + 1);
  }

  // ------------------------------------------------------------------------- moves of b

  /** Just behind a's SYN nothing in flight is split. */
  lemma BaseIsSafe(a: Conn)
    requires Sound(a) && Solid(a.tx.q) && a.iss < a.tx.nxt
    ensures Safe(a.tx, a.iss + 1)
  {
    TiledEnds(a.tx);
    forall i | 0 <= i < a.tx.inflight && i < |a.tx.q|
      ensures !(a.tx.q[i].seqno < a.iss + 1 < a.tx.q[i].endSeq)
    {
      if !a.tx.q[i].syn {
        NumberFloor(a, i);
      }
    }
  }

  /** Bytes and FINs that b gets end where nothing is split. */
  lemma CarriedEndsSafely(a: Conn, e: Event)
    requires FramesEndSafely(a) && FramesFit(a) && EndToEnd.Carried(a, e) && e.Arrival?
    ensures e.data != [] ==> Safe(a.tx, e.h.seqno + |e.data|)
    ensures e.h.fin ==> e.data == [] && Safe(a.tx, e.h.seqno + 1) && a.log.finsQueued > 0
  {
    if e.data != [] || e.h.fin {
      var j :| 0 <= j < |a.log.sent| && EndToEnd.Carries(a.log.sent[j], e.h, e.data);
      assert FrameFits(a.log.sent[j], a) && EndsSafely(a.tx, a.log.sent[j]);
    }
  }

  lemma {:induction false} SyncedReceives(form: Form, s: System, now: int, e: Event)
    requires Good(s) && Plausible(s, ToB(now, e)) && s.b.log.synSeen
    ensures ReceivesSafely(s.a.tx, Next(form, s.b, now, e))
  {
    Synchronized(s);
    if !e.Arrival? {
      CallSafely(form, s.a.tx, s.b, now, e);
    } else if s.b.state != SynSent {
      Hears(s, now, e);
      ArrivesSafely(s, now, e);
      ArrivalSafely(form, s.a.tx, s.b, e.h, e.data, now, s.a.log.accepted, s.a.iss + 1);
    }
  }

  lemma Synchronized(s: System)
    requires Good(s) && s.b.log.synSeen
    ensures s.b.irs + 1 == s.a.iss + 1 && ReceivesSafely(s.a.tx, s.b)
  {}

  lemma ArrivesSafely(s: System, now: int, e: Event)
    requires Good(s) && Plausible(s, ToB(now, e)) && e.Arrival?
    ensures e.data != [] ==> Safe(s.a.tx, e.h.seqno + |e.data|)
    ensures e.h.fin ==> e.data == [] && Safe(s.a.tx, e.h.seqno + 1)
  {
    CarriedEndsSafely(s.a, e);
  }

  /** The peer's SYN is noted as it was. */
  predicate SameSyn(b: Conn, b': Conn) {
    b'.irs == b.irs && b'.log.synSeen == b.log.synSeen
  }

  lemma {:induction false} AckedSameSyn(form: Form, b: Conn, h: Header, data: seq<byte>, now: int)
    ensures SameSyn(b, AckedInput(form, b, h, data, now))
  {
    var b1 := QueueEmptyInput(b, h).0;
    assert SameSyn(b, b1);
    var b3 := TextInput(b1, h, data);
    FinSameSyn(b3, data);
    var b4 := if h.fin && h.seqno == b1.rx.rcvNxt then FinInput(b3, data) else b3;
    SendMoreKeeps(form, b4, now);
  }

  lemma FinSameSyn(b: Conn, data: seq<byte>)
    ensures SameSyn(b, FinInput(b, data))
  {}

  lemma AckSameSyn(form: Form, b: Conn, h: Header, now: int)
    ensures SameSyn(b, AckInput(form, b, h, now).0)
  {}

  lemma {:induction false} StepSameSyn(form: Form, b: Conn, now: int, e: Event)
    requires b.state == SynSent ==> !e.Arrival?
    ensures SameSyn(b, Next(form, b, now, e))
  {
    if !e.Arrival? {
      CallSameSyn(form, b, now, e);
    } else if b.state !in {Close, Listen} {
      SyncedSameSyn(form, b, e.h, e.data, now);
    }
  }

  lemma {:induction false} SyncedSameSyn(form: Form, b: Conn, h: Header, data: seq<byte>, now: int)
    ensures SameSyn(b, SyncedInput(form, b, h, data, now))
  {
    AckSameSyn(form, b, h, now);
    AckedSameSyn(form, AckInput(form, b, h, now).0, h, data, now);
  }

  lemma CallSameSyn(form: Form, b: Conn, now: int, e: Event)
    requires !e.Arrival?
    ensures SameSyn(b, Next(form, b, now, e))
  {
    if e.Write? {
      QueueEachKeeps(b, Chunks(e.bytes, b.smss), now);
    }
  }

  /** b gets the SYN, or something else that it does not take. */
  lemma SynSentSyncs(form: Form, s: System, now: int, e: Event)
    requires Good(s) && Plausible(s, ToB(now, e)) && s.b.state == SynSent && e.Arrival?
    ensures var b' := SynSentInput(form, s.b, e.h); b'.log.synSeen ==> Synced(s.(b := b'))
  {
    if s.a.log.connects > 0 {
      BaseIsSafe(s.a);
    }
  }

  lemma {:induction false} SyncedReads(form: Form, s: System, now: int, e: Event)
    requires Good(s) && Plausible(s, ToB(now, e)) && s.b.log.synSeen
    ensures Synced(s.(b := Next(form, s.b, now, e)))
  {
    SyncedReceives(form, s, now, e);
    StepSameSyn(form, s.b, now, e);
    StepCuts(form, s.b, now, e);
    StepCountsFin(form, s.b, now, e);
    if e.Arrival? {
      CarriedEndsSafely(s.a, e);
    }
  }

  lemma Hears(s: System, now: int, e: Event)
    requires Good(s) && Plausible(s, ToB(now, e))
    ensures Heard(s.b, s.a.log.accepted, s.a.iss + 1) && GenuineEvent(e, s.a.log.accepted, s.a.iss + 1)
  {
    EndToEnd.CarriedIsGenuine(s.a, e);
  }

  lemma {:induction false} HearsOn(form: Form, s: System, now: int, e: Event)
    requires Good(s) && Plausible(s, ToB(now, e))
    ensures Heard(Next(form, s.b, now, e), s.a.log.accepted, s.a.iss + 1)
  {
    Hears(s, now, e);
    StepHears(form, s.b, now, e, s.a.log.accepted, s.a.iss + 1);
  }

  lemma {:induction false} SyncsOn(form: Form, s: System, now: int, e: Event)
    requires Good(s) && Plausible(s, ToB(now, e))
    ensures var b' := Next(form, s.b, now, e); b'.log.synSeen ==> Synced(s.(b := b'))
  {
    if s.b.log.synSeen {
      SyncedReads(form, s, now, e);
    } else if s.b.state == SynSent && e.Arrival? {
      SynSentSyncs(form, s, now, e);
    } else {
      StepSameSyn(form, s.b, now, e);
    }
  }

  /** A good system stays good when b changes, if b still hears a. */
  lemma GoodWith(s: System, b: Conn)
    requires Good(s) && Heard(b, s.a.log.accepted, s.a.iss + 1) && (b.log.synSeen ==> Synced(s.(b := b)))
    ensures Good(s.(b := b, acks := s.acks + Acks(b)))
  {
    forall v | v in s.acks + Acks(b)
      ensures Safe(s.a.tx, v)
    {
      assert v in s.acks || (b.log.synSeen && v == b.rx.rcvNxt);
    }
  }

  lemma {:induction false} MoveOfB(form: Form, s: System, now: int, e: Event)
    requires Good(s) && Plausible(s, ToB(now, e))
    ensures Good(Moved(form, s, ToB(now, e)))
  {
    HearsOn(form, s, now, e);
    SyncsOn(form, s, now, e);
    GoodWith(s, Next(form, s.b, now, e));
  }

  // --------------------------------------------------------------------------- whole runs

  ghost predicate AllPlausible(form: Form, s: System, ms: seq<Move>) {
    forall k :: 0 <= k < |ms| ==> Plausible(RunSystem(form, s, ms[..k]), ms[k])
  }

  lemma PlausiblePrefix(form: Form, s: System, ms: seq<Move>, k: nat)
    requires AllPlausible(form, s, ms) && k <= |ms|
    ensures AllPlausible(form, s, ms[..k])
  {
    forall j | 0 <= j < k
      ensures ms[..k][..j] == ms[..j] && ms[..k][j] == ms[j]
    {}
  }

  function NewSystem(smss: Mss, smss': Mss): System {
    System(New(smss), New(smss'), {})
  }

  lemma {:induction false} RunsWell(form: Form, smss: Mss, smss': Mss, ms: seq<Move>)
    requires AllPlausible(form, NewSystem(smss, smss'), ms)
    ensures Good(RunSystem(form, NewSystem(smss, smss'), ms))
  {
    if ms == [] {
    } else {
      var k, s := |ms| - 1, RunSystem(form, NewSystem(smss, smss'), ms[..|ms| - 1]);
      PlausiblePrefix(form, NewSystem(smss, smss'), ms, k);
      RunsWell(form, smss, smss', ms[..k]);
      match ms[k]
      case ToA(now, e) => MoveOfA(form, s, now, e);
      case ToB(now, e) => MoveOfB(form, s, now, e);
    }
  }

  /** Over every plausible run of the two sockets no acknowledgment ends inside a segment in
      flight; what b's application got and can get is a prefix of what a's wrote, and all
      of it once b has consumed a FIN. */
  lemma {:induction false} SystemDelivers(form: Form, smss: Mss, smss': Mss, ms: seq<Move>)
    requires AllPlausible(form, NewSystem(smss, smss'), ms)
    ensures var s := RunSystem(form, NewSystem(smss, smss'), ms);
            && Stream(s.b) <= s.a.log.accepted
            && (s.b.log.synSeen && s.b.log.fins > 0 ==> Stream(s.b) == s.a.log.accepted)
    ensures forall k :: 0 <= k < |ms| && ms[k].ToA? ==>
              !Splits(RunSystem(form, NewSystem(smss, smss'), ms[..k]).a, ms[k].e)
  {
    RunsWell(form, smss, smss', ms);
    forall k | 0 <= k < |ms| && ms[k].ToA?
      ensures !Splits(RunSystem(form, NewSystem(smss, smss'), ms[..k]).a, ms[k].e)
    {
      PlausiblePrefix(form, NewSystem(smss, smss'), ms, k);
      RunsWell(form, smss, smss', ms[..k]);
      NothingSplits(RunSystem(form, NewSystem(smss, smss'), ms[..k]), ms[k]);
    }
  }
}
