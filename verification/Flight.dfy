/** What is in flight: the numbers that transmitted segments have in the stream
    written, and the bytes they carry. */
module Flight {
  import opened Common
  import opened Reassembly
  import opened SendQueue
  import opened Rto
  import opened Connection
  import opened Progress
  import opened SendStream
  import opened QueueShape

  function Fins(q: seq<TxSeg>): nat {
    if q == [] then 0 else Fins(q[..|q| - 1]) + if q[|q| - 1].fin then 1 else 0
  }

  /** No bytes are queued behind a FIN. */
  predicate FinsLast(q: seq<TxSeg>) {
    q == [] ||
    (FinsLast(q[..|q| - 1]) && (Fins(q[..|q| - 1]) > 0 ==> q[|q| - 1].data == []))
  }

  /** A SYN is the first of the queue and carries no bytes; FINs come last, among
      the segments queued, and a FIN that was acknowledged, being no longer among
      them, has left no bytes behind. */
  ghost predicate Behind(q: seq<TxSeg>, fins: nat) {
    && (forall i :: 0 <= i < |q| && q[i].syn ==> i == 0 && q[i].data == [])
    && FinsLast(q)
    && Fins(q) <= fins
    && (Fins(q) < fins ==> Payload(q) == [])
  }

  ghost predicate FinsInOrder(c: Conn) {
    Behind(c.tx.q, c.log.finsQueued)
  }

  /** An application that does not write once it has closed. */
  predicate Polite(c: Conn, e: Event) {
    e.Write? ==> c.log.finsQueued == 0
  }

  lemma {:induction false} FinsAppend(p: seq<TxSeg>, q: seq<TxSeg>)
    ensures Fins(p + q) == Fins(p) + Fins(q)
    ensures FinsLast(p + q) <==> FinsLast(p) && FinsLast(q) && (Fins(p) > 0 ==> Payload(q) == [])
  {
    if q == [] {
      assert p + q == p;
    } else {
      FinsAppend(p, q[..|q| - 1]);
      assert (p + q)[..|p + q| - 1] == p + q[..|q| - 1];
    }
  }

  lemma FinsOne(s: TxSeg)
    ensures Fins([s]) == (if s.fin then 1 else 0) && FinsLast([s]) && Payload([s]) == s.data
  {
    assert [s][..0] == [];
    PayloadOne(s);
  }

  lemma {:induction false} StampAllFins(q: seq<TxSeg>, nxt: nat)
    ensures Fins(StampAll(q, nxt)) == Fins(q) && (FinsLast(StampAll(q, nxt)) <==> FinsLast(q))
  {
    if q == [] {
    } else {
      StampAllFins(q[..|q| - 1], nxt);
      assert StampAll(q, nxt)[..|q| - 1] == StampAll(q[..|q| - 1], nxt);
    }
  }

  // --------------------------------------------------------- what steps keep

  lemma SnocBehind(q: seq<TxSeg>, s: TxSeg, fins: nat)
    requires Behind(q, fins) && s.data == [] && (s.syn ==> q == [])
    ensures Behind(q + [s], if s.fin then fins + 1 else fins)
  {
    FinsAppend(q, [s]);
    FinsOne(s);
    PayloadAppend(q, [s]);
  }

  lemma SuffixBehind(q: seq<TxSeg>, k: nat, fins: nat)
    requires Behind(q, fins) && k <= |q|
    ensures Behind(q[k..], fins)
  {
    assert q == q[..k] + q[k..];
    FinsAppend(q[..k], q[k..]);
    PayloadAppend(q[..k], q[k..]);
  }

  lemma {:induction false} StampAllKeeps(q: seq<TxSeg>, nxt: nat)
    ensures forall i :: 0 <= i < |q| ==> StampAll(q, nxt)[i].syn == q[i].syn && StampAll(q, nxt)[i].data == q[i].data
  {
    if q == [] {
    } else {
      StampAllKeeps(q[..|q| - 1], nxt);
    }
  }

  lemma StampedFins(q: seq<TxSeg>, k: nat, nxt: nat)
    requires k <= |q|
    ensures Fins(StampAll(q[..k], nxt) + q[k..]) == Fins(q)
    ensures FinsLast(StampAll(q[..k], nxt) + q[k..]) <==> FinsLast(q)
  {
    assert q == q[..k] + q[k..];
    FinsAppend(q[..k], q[k..]);
    FinsAppend(StampAll(q[..k], nxt), q[k..]);
    StampAllFins(q[..k], nxt);
  }

  lemma SendNextBehind(st: TxState, amount: int, fins: nat)
    requires Behind(st.q, fins)
    ensures Behind(SendNext(Intended, st, amount).q, fins)
  {
    StampedFins(st.q, Sends(Intended, |st.q|, amount), st.nxt);
    SendNextPayload(Intended, st, amount);
    SendNextKeeps(st, amount);
  }

  lemma SendNextKeeps(st: TxState, amount: int)
    ensures var q := SendNext(Intended, st, amount).q;
            |q| == |st.q| && forall i :: 0 <= i < |q| ==> q[i].syn == st.q[i].syn && q[i].data == st.q[i].data
  {
    var k, q := Sends(Intended, |st.q|, amount), SendNext(Intended, st, amount).q;
    StampAllKeeps(st.q[..k], st.nxt);
    forall i | 0 <= i < |q|
      ensures q[i].syn == st.q[i].syn && q[i].data == st.q[i].data
    {
      assert if i < k then q[i] == StampAll(st.q[..k], st.nxt)[i] else q[i] == st.q[i];
    }
  }

  lemma QueueTransmitBehind(st: TxState, s: TxSeg, fins: nat)
    requires Behind(st.q, fins) && s.data == [] && (s.syn ==> st.q == [])
    ensures Behind(QueueTransmit(st, s).q, if s.fin then fins + 1 else fins)
  {
    SnocBehind(st.q, s, fins);
    SnocBehind(st.q, Stamp(s, st.nxt), fins);
  }

  lemma {:induction false} NoFinsLast(q: seq<TxSeg>)
    requires Fins(q) == 0
    ensures FinsLast(q)
  {
    if q == [] {
    } else {
      NoFinsLast(q[..|q| - 1]);
    }
  }

  lemma {:induction false} QueueAllBehind(st: TxState, segs: seq<TxSeg>)
    requires Behind(st.q, 0)
    requires forall i :: 0 <= i < |segs| ==> !segs[i].fin && !segs[i].syn
    ensures Behind(QueueAll(st, segs).q, 0)
    decreases |segs|
  {
    if segs == [] {
    } else {
      var st' := QueueTransmit(st, segs[0]);
      var last := st'.q[|st'.q| - 1];
      FinsAppend(st.q, [last]);
      FinsOne(last);
      NoFinsLast(st'.q);
      QueueAllBehind(st', segs[1..]);
    }
  }

  lemma WriteBehind(c: Conn, bytes: seq<byte>, now: int)
    requires FinsInOrder(c) && Polite(c, Write(bytes))
    ensures FinsInOrder(WriteCall(c, bytes, now))
  {
    var segs := Chunks(bytes, c.smss);
    ChunksCut(bytes, c.smss);
    QueueEachKeeps(c, segs, now);
    QueueAllBehind(c.tx, segs);
  }

  lemma CleanBehind(c: Conn, una: nat)
    requires FinsInOrder(c)
    ensures FinsInOrder(Clean(c, una))
  {
    SuffixBehind(c.tx.q, Cleaned(c.tx.q, una), c.log.finsQueued);
  }

  lemma SendMoreBehind(c: Conn, now: int)
    requires FinsInOrder(c)
    ensures FinsInOrder(SendMore(Intended, c, now))
  {
    SendNextBehind(c.tx, Min(|c.tx.q|, 3), c.log.finsQueued);
  }

  lemma AckBehind(c: Conn, h: Header, now: int)
    requires FinsInOrder(c)
    ensures FinsInOrder(AckInput(Intended, c, h, now).0)
  {
    var c1 := if c.state == SynReceived then c.(state := Established) else c;
    CleanBehind(c1.(tx := c1.tx.(una := h.ackSeq), rtt := OnAck(c1.rtt, c1.armed, now)), h.ackSeq);
  }

  lemma SynSentBehind(c: Conn, h: Header)
    requires FinsInOrder(c)
    ensures FinsInOrder(SynSentInput(Intended, c, h))
  {
    var c1 := c.(irs := h.seqno, rx := c.rx.(rcvNxt := h.seqno + 1), log := c.log.(synSeen := true));
    CleanBehind(c1.(tx := c1.tx.(una := h.ackSeq)), h.ackSeq);
  }

  lemma DeliverBehind(c: Conn, h: Header, data: seq<byte>, now: int)
    requires FinsInOrder(c)
    ensures FinsInOrder(Deliver(Intended, c, h, data, now))
  {
    var c3 := TextInput(c, h, data);
    assert FinsInOrder(c3);
    SendMoreBehind(c3, now);
    FinInputBehind(c3, data);
    SendMoreBehind(FinInput(c3, data), now);
  }

  lemma FinInputBehind(c: Conn, data: seq<byte>)
    requires FinsInOrder(c)
    ensures FinsInOrder(FinInput(c, data))
  {}

  lemma SyncedBehind(c: Conn, now: int, h: Header, data: seq<byte>)
    requires FinsInOrder(c)
    ensures FinsInOrder(SyncedInput(Intended, c, h, data, now))
  {
    AckBehind(c, h, now);
    var (c1, dropped) := AckInput(Intended, c, h, now);
    if Considered(c, h, data) && !dropped {
      AckedBehind(c1, h, data, now);
    }
  }

  lemma AckedBehind(c: Conn, h: Header, data: seq<byte>, now: int)
    requires FinsInOrder(c)
    ensures FinsInOrder(AckedInput(Intended, c, h, data, now))
  {
    DeliverBehind(QueueEmptyInput(c, h).0, h, data, now);
  }

  lemma {:induction false} ArrivalBehind(c: Conn, now: int, h: Header, data: seq<byte>)
    requires FinsInOrder(c)
    ensures FinsInOrder(Input(Intended, c, h, data, now))
  {
    if c.state == SynSent {
      SynSentBehind(c, h);
    } else if c.state !in {Close, Listen} {
      SyncedBehind(c, now, h, data);
    }
  }

  lemma ConnectBehind(c: Conn, iss: nat, now: int)
    requires Shaped(c) && FinsInOrder(c)
    ensures FinsInOrder(ConnectCall(c, iss, now))
  {
    if c.state == Close {
      QueueTransmitBehind(c.tx.(una := iss, nxt := iss), Fresh([], true, false, false), c.log.finsQueued);
    }
  }

  lemma DataTimerBehind(c: Conn, now: int)
    requires FinsInOrder(c)
    ensures FinsInOrder(DataExpiry(c, now))
  {}

  lemma CloseBehind(c: Conn, now: int)
    requires FinsInOrder(c)
    ensures FinsInOrder(CloseSocket(c, now))
  {
    if c.state in {Established, CloseWait} {
      QueueTransmitBehind(c.tx, Fresh([], false, true, false), c.log.finsQueued);
    }
  }

  lemma StepBehind(c: Conn, now: int, e: Event)
    requires Shaped(c) && FinsInOrder(c) && Polite(c, e)
    ensures FinsInOrder(Next(Intended, c, now, e))
  {
    match e
    case Connect(iss) => ConnectBehind(c, iss, now);
    case Arrival(h, data) => ArrivalBehind(c, now, h, data);
    case Write(bytes) => WriteBehind(c, bytes, now);
    case CloseCall => CloseBehind(c, now);
    case DataTimer => DataTimerBehind(c, now);
    case _ =>
  }

  /** Everything the steps keep. */
  ghost predicate Sound(c: Conn) {
    Shaped(c) && Accounted(c) && Conserved(c) && FinsInOrder(c)
  }

  /** A run of orderly events by a polite application. */
  ghost predicate Proper(smss: Mss, es: seq<(int, Event)>) {
    forall k :: 0 <= k < |es| ==>
      var c := RunAll(Intended, New(smss), es[..k]); Orderly(c, es[k].1) && Polite(c, es[k].1)
  }

  lemma {:induction false} RunSound(smss: Mss, es: seq<(int, Event)>)
    requires Proper(smss, es)
    ensures Sound(RunAll(Intended, New(smss), es))
  {
    if es == [] {
    } else {
      var k := |es| - 1;
      ProperPrefix(smss, es, k);
      RunSound(smss, es[..k]);
      var c := RunAll(Intended, New(smss), es[..k]);
      StepSound(c, es[k].0, es[k].1);
    }
  }

  lemma {:induction false} ProperPrefix(smss: Mss, es: seq<(int, Event)>, k: nat)
    requires Proper(smss, es) && k <= |es|
    ensures Proper(smss, es[..k])
  {
    forall j | 0 <= j < k
      ensures es[..k][..j] == es[..j] && es[..k][j] == es[j]
    {}
  }

  lemma {:induction false} StepSound(c: Conn, now: int, e: Event)
    requires Sound(c) && Orderly(c, e) && Polite(c, e)
    ensures Sound(Next(Intended, c, now, e))
  {
    StepShapes(c, now, e);
    StepBehind(c, now, e);
    StepConserves(Intended, c, now, e);
    if e.Connect? && c.state != Close {
      assert Accounted(Next(Intended, c, now, e));
    } else {
      StepAccounts(c, now, e);
    }
  }

  // ------------------------------------------------------- numbers and bytes

  /** Counting back from snd_nxt over a tiled piece without a SYN. */
  lemma {:induction false} TilesNumber(p: seq<TxSeg>, nxt: nat, i: nat)
    requires Tiles(p, nxt) && i < |p| && forall j :: i <= j < |p| ==> !p[j].syn
    ensures p[i].seqno + |Payload(p[i..])| + Fins(p[i..]) == nxt
  {
    var last, init := p[|p| - 1], p[..|p| - 1];
    assert p[i..] == init[i..] + [last];
    FinsAppend(init[i..], [last]);
    PayloadAppend(init[i..], [last]);
    FinsOne(last);
    if i < |init| {
      TilesNumber(init, last.seqno, i);
    } else {
      assert init[i..] == [];
    }
  }

  lemma {:induction false} WaitingIs(q: seq<TxSeg>)
    requires Transmitted(q) == 0
    ensures Waiting(q) == |Payload(q)| + Fins(q)
  {
    if q == [] {
    } else {
      WaitingIs(q[..|q| - 1]);
    }
  }

  /** The queue from segment i on: what is in flight, and what waits. */
  lemma Remaining(c: Conn, i: nat)
    requires Sound(c) && i < c.tx.inflight
    ensures c.tx.nxt + Waiting(c.tx.q) == c.tx.q[i].seqno + |Payload(c.tx.q[i..])| + Fins(c.tx.q[i..])
         || c.tx.q[i].syn
  {
    if !c.tx.q[i].syn {
      var sent, wait := c.tx.q[..c.tx.inflight], c.tx.q[c.tx.inflight..];
      assert forall j :: i <= j < |sent| ==> !sent[j].syn;
      TilesNumber(sent, c.tx.nxt, i);
      TilesTransmitted(sent, c.tx.nxt);
      NoneWaiting(sent);
      assert c.tx.q == sent + wait;
      WaitingAppend(sent, wait);
      UntransmittedCount(wait);
      WaitingIs(wait);
      assert c.tx.q[i..] == sent[i..] + wait;
      FinsAppend(sent[i..], wait);
      PayloadAppend(sent[i..], wait);
    }
  }

  /** The number of a segment in flight that carries bytes. */
  lemma InFlightNumber(c: Conn, i: nat)
    requires Sound(c) && i < c.tx.inflight && c.tx.q[i].data != []
    ensures c.tx.q[i].seqno == c.iss + 1 + |c.log.acked| + |Payload(c.tx.q[..i])|
    ensures c.state != Close
  {
    var q := c.tx.q;
    var p, r := q[..i], q[i..];
    assert q == p + r;
    Remaining(c, i);
    FinsAppend(p, r);
    PayloadAppend(p, r);
    FirstBytes(r);
  }

  lemma FirstBytes(r: seq<TxSeg>)
    requires r != []
    ensures Payload(r) == r[0].data + Payload(r[1..])
  {
    assert r == [r[0]] + r[1..];
    PayloadAppend([r[0]], r[1..]);
    PayloadOne(r[0]);
  }

  /** A segment in flight that carries bytes carries those the stream has at its
      numbers. */
  lemma InFlightAgrees(c: Conn, i: nat, psh: bool)
    requires Sound(c) && i < c.tx.inflight && c.tx.q[i].data != []
    ensures Agrees(Segment(c.tx.q[i].seqno, c.tx.q[i].data, psh), c.log.accepted, c.iss + 1)
    ensures c.state != Close
  {
    InFlightNumber(c, i);
    BytesAt(c.tx.q, i, c.log.acked, c.log.accepted);
  }

  lemma BytesAt(q: seq<TxSeg>, i: nat, acked: seq<byte>, w: seq<byte>)
    requires i < |q| && acked + Payload(q) == w
    ensures var at := |acked| + |Payload(q[..i])|;
            at + |q[i].data| <= |w| && w[at..at + |q[i].data|] == q[i].data
  {
    var p, r := q[..i], q[i..];
    assert q == p + r;
    PayloadAppend(p, r);
    FirstBytes(r);
    InTheMiddle(acked, Payload(p), r[0].data, Payload(r[1..]), w);
  }

  lemma InTheMiddle(a: seq<byte>, b: seq<byte>, d: seq<byte>, e: seq<byte>, w: seq<byte>)
    requires w == a + (b + (d + e))
    ensures |a| + |b| + |d| <= |w| && w[|a| + |b|..|a| + |b| + |d|] == d
  {
    assert w == (a + b) + d + e;
  }

  /** The segment is in flight: transmitted, with these bytes at this number. */
  ghost predicate InFlight(c: Conn, s: Segment) {
    exists i :: 0 <= i < c.tx.inflight <= |c.tx.q| && InPlace(c.tx.q[i], s)
  }

  predicate InPlace(t: TxSeg, s: Segment) {
    t.data != [] && s.seqno == t.seqno && s.data == t.data
  }

  /** At some moment of the run the segment was in flight. */
  ghost predicate Carried(smss: Mss, es: seq<(int, Event)>, s: Segment) {
    exists k :: 0 <= k <= |es| && InFlight(RunAll(Intended, New(smss), es[..k]), s)
  }

  /** c' comes after c: the stream written has only grown, and a socket that was
      connected keeps its initial number. */
  ghost predicate Later(c: Conn, c': Conn) {
    c.log.accepted <= c'.log.accepted && (c.state != Close ==> c'.iss == c.iss && c'.state != Close)
  }

  lemma {:induction false} StepLater(c: Conn, now: int, e: Event)
    ensures Later(c, Next(Intended, c, now, e))
  {
    StepForward(Intended, c, now, e);
    if e.Arrival? {
      ArrivalConnects(Intended, c, e.h, e.data, now);
    } else {
      CallLogs(Intended, c, now, e);
    }
  }

  lemma {:induction false} RunLater(smss: Mss, es: seq<(int, Event)>, k: nat)
    requires k <= |es|
    ensures Later(RunAll(Intended, New(smss), es[..k]), RunAll(Intended, New(smss), es))
    decreases |es|
  {
    if k == |es| {
      assert es[..k] == es;
    } else {
      var p := es[..|es| - 1];
      assert p[..k] == es[..k];
      RunLater(smss, p, k);
      StepLater(RunAll(Intended, New(smss), p), es[|es| - 1].0, es[|es| - 1].1);
    }
  }

  /** What is in flight fits the stream written then, and later. */
  lemma InFlightFits(c: Conn, c': Conn, s: Segment)
    requires Sound(c) && InFlight(c, s) && Later(c, c')
    ensures Agrees(s, c'.log.accepted, c'.iss + 1)
  {
    var i :| 0 <= i < c.tx.inflight <= |c.tx.q| && InPlace(c.tx.q[i], s);
    InFlightAgrees(c, i, s.psh);
  }

  lemma {:induction false} CarriedAgrees(smss: Mss, es: seq<(int, Event)>, c: Conn, s: Segment)
    requires Proper(smss, es) && Carried(smss, es, s) && c == RunAll(Intended, New(smss), es)
    ensures Agrees(s, c.log.accepted, c.iss + 1)
  {
    var k :| 0 <= k <= |es| && InFlight(RunAll(Intended, New(smss), es[..k]), s);
    ProperPrefix(smss, es, k);
    RunSound(smss, es[..k]);
    RunLater(smss, es, k);
    InFlightFits(RunAll(Intended, New(smss), es[..k]), c, s);
  }
}
