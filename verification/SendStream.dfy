/** The send side over whole runs: no byte is lost, repeated or reordered, the
    counter agrees with the queue, and sequence numbers add up. */
module SendStream {
  import opened Common
  import opened SendQueue
  import opened Rto
  import opened Connection

  // ------------------------------------------------------- bytes, in both forms

  /** What was acknowledged, then what is still queued, is what was accepted. */
  predicate Conserved(c: Conn) {
    c.log.acked + Payload(c.tx.q) == c.log.accepted
  }

  lemma QueueTransmitPayload(st: TxState, s: TxSeg)
    ensures Payload(QueueTransmit(st, s).q) == Payload(st.q) + s.data
  {
    var q := QueueTransmit(st, s).q;
    assert q[..|q| - 1] == st.q;
  }

  lemma {:induction false} QueueAllPayload(st: TxState, segs: seq<TxSeg>)
    ensures Payload(QueueAll(st, segs).q) == Payload(st.q) + Payload(segs)
    decreases |segs|
  {
    if segs == [] {
      assert Payload(st.q) + [] == Payload(st.q);
    } else {
      var first, rest := segs[0], segs[1..];
      QueueTransmitPayload(st, first);
      QueueAllPayload(QueueTransmit(st, first), rest);
      assert segs == [first] + rest;
      PayloadAppend([first], rest);
      PayloadOne(first);
      assert (Payload(st.q) + first.data) + Payload(rest) == Payload(st.q) + (first.data + Payload(rest));
    }
  }

  lemma PayloadOne(s: TxSeg)
    ensures Payload([s]) == s.data
  {
    assert Payload([s]) == Payload([s][..0]) + s.data;
  }

  lemma {:induction false} StampAllPayload(q: seq<TxSeg>, nxt: nat)
    ensures Payload(StampAll(q, nxt)) == Payload(q)
  {
    if q == [] {
    } else {
      StampAllPayload(q[..|q| - 1], nxt);
      assert StampAll(q, nxt)[..|q| - 1] == StampAll(q[..|q| - 1], nxt);
    }
  }

  lemma SendNextPayload(form: Form, st: TxState, amount: int)
    ensures Payload(SendNext(form, st, amount).q) == Payload(st.q)
  {
    var k := Sends(form, |st.q|, amount);
    assert st.q == st.q[..k] + st.q[k..];
    PayloadAppend(st.q[..k], st.q[k..]);
    PayloadAppend(StampAll(st.q[..k], st.nxt), st.q[k..]);
    StampAllPayload(st.q[..k], st.nxt);
  }

  lemma CleanPayload(st: TxState, una: nat)
    ensures Payload(st.q[..Cleaned(st.q, una)]) + Payload(CleanRtoQueue(st, una).q) == Payload(st.q)
  {
    var k := Cleaned(st.q, una);
    assert st.q == st.q[..k] + st.q[k..];
    PayloadAppend(st.q[..k], st.q[k..]);
  }

  lemma CleanConserves(c: Conn, una: nat)
    requires Conserved(c)
    ensures Conserved(Clean(c, una))
  {
    CleanPayload(c.tx, una);
    var gone, left := Payload(c.tx.q[..Cleaned(c.tx.q, una)]), Payload(CleanRtoQueue(c.tx, una).q);
    assert c.log.acked + (gone + left) == (c.log.acked + gone) + left;
  }

  lemma QueueConserves(c: Conn, s: TxSeg, now: int)
    requires Conserved(c) && s.data == []
    ensures Conserved(Queue(c, s, now))
  {
    QueueAllPayload(c.tx, [s]);
    PayloadOne(s);
  }

  lemma WriteConserves(c: Conn, bytes: seq<byte>, now: int)
    requires Conserved(c)
    ensures Conserved(WriteCall(c, bytes, now))
  {
    var segs := Chunks(bytes, c.smss);
    QueueEachKeeps(c, segs, now);
    QueueAllPayload(c.tx, segs);
    ChunksCut(bytes, c.smss);
    assert c.log.acked + (Payload(c.tx.q) + bytes) == (c.log.acked + Payload(c.tx.q)) + bytes;
  }

  lemma AckConserves(form: Form, c: Conn, h: Header, now: int)
    requires Conserved(c)
    ensures Conserved(AckInput(form, c, h, now).0)
  {
    var c1 := if c.state == SynReceived then c.(state := Established) else c;
    CleanConserves(c1.(tx := c1.tx.(una := h.ackSeq), rtt := OnAck(c1.rtt, c1.armed, now)), h.ackSeq);
  }

  lemma SynSentConserves(form: Form, c: Conn, h: Header)
    requires Conserved(c)
    ensures Conserved(SynSentInput(form, c, h))
  {
    var c1 := c.(irs := h.seqno, rx := c.rx.(rcvNxt := h.seqno + 1), log := c.log.(synSeen := true));
    CleanConserves(c1.(tx := c1.tx.(una := h.ackSeq)), h.ackSeq);
  }

  lemma SendMoreConserves(form: Form, c: Conn, now: int)
    requires Conserved(c)
    ensures Conserved(SendMore(form, c, now))
  {
    SendNextPayload(form, c.tx, Min(|c.tx.q|, 3));
  }

  lemma DeliverConserves(form: Form, c: Conn, h: Header, data: seq<byte>, now: int)
    requires Conserved(c)
    ensures Conserved(Deliver(form, c, h, data, now))
  {
    var c3 := TextInput(c, h, data);
    SendMoreConserves(form, c3, now);
    SendMoreConserves(form, FinInput(c3, data), now);
  }

  lemma SyncedConserves(form: Form, c: Conn, now: int, h: Header, data: seq<byte>)
    requires Conserved(c)
    ensures Conserved(SyncedInput(form, c, h, data, now))
  {
    AckConserves(form, c, h, now);
    var c1 := AckInput(form, c, h, now).0;
    DeliverConserves(form, QueueEmptyInput(c1, h).0, h, data, now);
  }

  lemma ArrivalConserves(form: Form, c: Conn, now: int, h: Header, data: seq<byte>)
    requires Conserved(c)
    ensures Conserved(Input(form, c, h, data, now))
  {
    if c.state == SynSent {
      SynSentConserves(form, c, h);
    } else if c.state !in {Close, Listen} {
      SyncedConserves(form, c, now, h, data);
    }
  }

  lemma ConnectConserves(c: Conn, iss: nat, now: int)
    requires Conserved(c)
    ensures Conserved(ConnectCall(c, iss, now))
  {
    QueueConserves(c.(iss := iss, state := SynSent, tx := c.tx.(una := iss, nxt := iss)),
                   Fresh([], true, false, false), now);
  }

  lemma DataTimerConserves(c: Conn, now: int)
    requires Conserved(c)
    ensures Conserved(DataExpiry(c, now))
  {}

  lemma CloseConserves(c: Conn, now: int)
    requires Conserved(c)
    ensures Conserved(CloseSocket(c, now))
  {
    if c.state == Established {
      QueueFinConserves(c.(state := FinWait1), now);
    } else if c.state == CloseWait {
      QueueFinConserves(c, now);
    }
  }

  lemma QueueFinConserves(c: Conn, now: int)
    requires Conserved(c)
    ensures Conserved(QueueFin(c, now))
  {
    QueueConserves(c, Fresh([], false, true, false), now);
  }

  lemma StepConserves(form: Form, c: Conn, now: int, e: Event)
    requires Conserved(c)
    ensures Conserved(Next(form, c, now, e))
  {
    match e
    case Connect(iss) => ConnectConserves(c, iss, now);
    case Arrival(h, data) => ArrivalConserves(form, c, now, h, data);
    case Write(bytes) => WriteConserves(c, bytes, now);
    case CloseCall => CloseConserves(c, now);
    case DataTimer => DataTimerConserves(c, now);
    case _ =>
  }

  /** Over every run, as written and as intended: the bytes accepted from the
      application are the payloads of the removed segments followed by those still
      queued, in order. */
  lemma {:induction false} RunConserves(form: Form, smss: Mss, es: seq<(int, Event)>)
    ensures Conserved(RunAll(form, New(smss), es))
  {
    if es == [] {
    } else {
      var k := |es| - 1;
      RunConserves(form, smss, es[..k]);
      StepConserves(form, RunAll(form, New(smss), es[..k]), es[k].0, es[k].1);
    }
  }

  // ----------------------------------------------- the counter and the numbers

  /** The sequence numbers that the untransmitted segments will take. */
  function Waiting(q: seq<TxSeg>): nat {
    if q == [] then 0
    else Waiting(q[..|q| - 1]) + if q[|q| - 1].seqno == 0 then Advance(q[|q| - 1]) else 0
  }

  /** The states in which segments are queued or sent. */
  predicate Sending(s: State) {
    s in {SynSent, SynReceived, Established, FinWait1, FinWait2, CloseWait, LastAck}
  }

  /** inflight counts the transmitted segments of the queue; and snd_nxt with what
      waits is iss, the SYN, every byte accepted and every FIN queued. */
  predicate Accounted(c: Conn) {
    && Counted(c.tx)
    && (Sending(c.state) ==> c.tx.nxt > 0)
    && (c.state == Close ==>
          c.tx == TxState(0, 0, [], 0) && c.iss == 0 && c.log.accepted == [] && c.log.finsQueued == 0)
    && (c.log.connects > 0 <==> c.state != Close && c.tx.nxt > 0)
    && c.tx.nxt + Waiting(c.tx.q)
       == c.iss + (if c.log.connects > 0 then 1 else 0) + |c.log.accepted| + c.log.finsQueued
  }

  lemma {:induction false} WaitingAppend(p: seq<TxSeg>, q: seq<TxSeg>)
    ensures Waiting(p + q) == Waiting(p) + Waiting(q)
  {
    if q == [] {
      assert p + q == p;
    } else {
      WaitingAppend(p, q[..|q| - 1]);
      assert (p + q)[..|p + q| - 1] == p + q[..|q| - 1];
    }
  }

  lemma WaitingOne(s: TxSeg)
    ensures Waiting([s]) == if s.seqno == 0 then Advance(s) else 0
  {
    assert [s][..0] == [];
  }

  lemma QueueTransmitNumbers(st: TxState, s: TxSeg)
    requires s.seqno == 0 && st.nxt > 0
    ensures var st' := QueueTransmit(st, s); st'.nxt + Waiting(st'.q) == st.nxt + Waiting(st.q) + Advance(s)
  {
    WaitingAppend(st.q, [s]);
    WaitingAppend(st.q, [Stamp(s, st.nxt)]);
    WaitingOne(s);
    WaitingOne(Stamp(s, st.nxt));
  }

  lemma {:induction false} NothingSent(q: seq<TxSeg>, nxt: nat)
    requires Transmitted(q) == 0 && nxt > 0
    ensures AdvanceAll(q, nxt) == nxt + Waiting(q) && Waiting(StampAll(q, nxt)) == 0
  {
    if q == [] {
    } else {
      NothingSent(q[..|q| - 1], nxt);
      assert StampAll(q, nxt)[..|q| - 1] == StampAll(q[..|q| - 1], nxt);
    }
  }

  lemma SendNextNumbers(st: TxState, k: nat)
    requires Counted(st) && st.inflight == 0 && st.nxt > 0 && k <= |st.q|
    ensures var st' := SendNext(Intended, st, k); st'.nxt + Waiting(st'.q) == st.nxt + Waiting(st.q)
  {
    var p, r := st.q[..k], st.q[k..];
    assert st.q == p + r;
    TransmittedAppend(p, r);
    WaitingAppend(p, r);
    WaitingAppend(StampAll(p, st.nxt), r);
    NothingSent(p, st.nxt);
  }

  lemma {:induction false} NoneWaiting(q: seq<TxSeg>)
    requires Transmitted(q) == |q|
    ensures Waiting(q) == 0
  {
    if q == [] {
    } else {
      NoneWaiting(q[..|q| - 1]);
    }
  }

  lemma CleanNumbers(st: TxState, una: nat)
    ensures Waiting(CleanRtoQueue(st, una).q) == Waiting(st.q)
  {
    var k := Cleaned(st.q, una);
    CleanedPrefix(st.q, una);
    assert st.q == st.q[..k] + st.q[k..];
    WaitingAppend(st.q[..k], st.q[k..]);
    NoneWaiting(st.q[..k]);
  }

  lemma {:induction false} QueueAllAccounts(st: TxState, segs: seq<TxSeg>)
    requires Counted(st) && st.nxt > 0
    requires forall i :: 0 <= i < |segs| ==> segs[i].seqno == 0 && !segs[i].fin
    ensures var st' := QueueAll(st, segs);
            Counted(st') && st'.nxt >= st.nxt && st'.nxt + Waiting(st'.q) == st.nxt + Waiting(st.q) + |Payload(segs)|
    decreases |segs|
  {
    if segs == [] {
    } else {
      QueueTransmitCounted(st, segs[0]);
      QueueTransmitNumbers(st, segs[0]);
      QueueAllAccounts(QueueTransmit(st, segs[0]), segs[1..]);
      assert segs == [segs[0]] + segs[1..];
      PayloadAppend([segs[0]], segs[1..]);
      PayloadOne(segs[0]);
    }
  }

  lemma CleanAccounts(c: Conn, una: nat)
    requires Accounted(c) && c.state != Close
    ensures Accounted(Clean(c, una))
  {
    CleanCounted(c.tx, una);
    CleanNumbers(c.tx, una);
  }

  lemma AckAccounts(c: Conn, h: Header, now: int)
    requires Accounted(c) && c.state != Close
    ensures Accounted(AckInput(Intended, c, h, now).0)
  {
    var c1 := if c.state == SynReceived then c.(state := Established) else c;
    CleanAccounts(c1.(tx := c1.tx.(una := h.ackSeq), rtt := OnAck(c1.rtt, c1.armed, now)), h.ackSeq);
  }

  lemma SynSentAccounts(c: Conn, h: Header)
    requires Accounted(c) && c.state == SynSent
    ensures Accounted(SynSentInput(Intended, c, h))
  {
    var c1 := c.(irs := h.seqno, rx := c.rx.(rcvNxt := h.seqno + 1), log := c.log.(synSeen := true));
    CleanAccounts(c1.(tx := c1.tx.(una := h.ackSeq)), h.ackSeq);
  }

  lemma SendMoreAccounts(c: Conn, now: int)
    requires Accounted(c)
    ensures Accounted(SendMore(Intended, c, now))
  {
    var pending := Min(|c.tx.q|, 3);
    if c.state in {Established, FinWait1, FinWait2} && c.tx.inflight == 0 && pending > 0 {
      SendNextCounted(c.tx, pending);
      SendNextNumbers(c.tx, pending);
    }
  }

  lemma FinAccounts(c: Conn, data: seq<byte>)
    requires Accounted(c)
    ensures Accounted(FinInput(c, data))
  {}

  lemma DeliverAccounts(c: Conn, h: Header, data: seq<byte>, now: int)
    requires Accounted(c)
    ensures Accounted(Deliver(Intended, c, h, data, now))
  {
    var c3 := TextInput(c, h, data);
    FinAccounts(c3, data);
    SendMoreAccounts(c3, now);
    SendMoreAccounts(FinInput(c3, data), now);
  }

  lemma EmptyAccounts(c: Conn, h: Header)
    requires Accounted(c) && c.state != Close
    ensures Accounted(QueueEmptyInput(c, h).0)
  {}

  lemma {:induction false} SyncedAccounts(c: Conn, now: int, h: Header, data: seq<byte>)
    requires Accounted(c) && c.state !in {Close, Listen, SynSent}
    ensures Accounted(SyncedInput(Intended, c, h, data, now))
  {
    AckAccounts(c, h, now);
    var c1 := AckInput(Intended, c, h, now).0;
    EmptyAccounts(c1, h);
    DeliverAccounts(QueueEmptyInput(c1, h).0, h, data, now);
  }

  lemma {:induction false} ArrivalAccounts(c: Conn, now: int, h: Header, data: seq<byte>)
    requires Accounted(c)
    ensures Accounted(Input(Intended, c, h, data, now))
  {
    if c.state == SynSent {
      SynSentAccounts(c, h);
    } else if c.state !in {Close, Listen} {
      SyncedAccounts(c, now, h, data);
    }
  }

  lemma ConnectAccounts(c: Conn, iss: nat, now: int)
    requires Accounted(c) && iss > 0
    ensures Accounted(ConnectCall(c, iss, now))
  {
    if c.state == Close {
      var st, syn := TxState(iss, iss, [], 0), Fresh([], true, false, false);
      QueueTransmitCounted(st, syn);
      QueueTransmitNumbers(st, syn);
    }
  }

  lemma WriteAccounts(c: Conn, bytes: seq<byte>, now: int)
    requires Accounted(c)
    ensures Accounted(WriteCall(c, bytes, now))
  {
    if c.err == NoErr && c.state in {Established, CloseWait} {
      var segs := Chunks(bytes, c.smss);
      ChunksCut(bytes, c.smss);
      QueueEachKeeps(c, segs, now);
      QueueAllAccounts(c.tx, segs);
    }
  }

  lemma FinQueueAccounts(c: Conn, now: int)
    requires Accounted(c) && c.state in {FinWait1, CloseWait}
    ensures Accounted(QueueFin(c, now))
  {
    QueueTransmitCounted(c.tx, Fresh([], false, true, false));
    QueueTransmitNumbers(c.tx, Fresh([], false, true, false));
  }

  lemma StepAccounts(c: Conn, now: int, e: Event)
    requires Accounted(c) && (e.Connect? ==> e.iss > 0)
    ensures Accounted(Next(Intended, c, now, e))
  {
    match e
    case Connect(iss) => ConnectAccounts(c, iss, now);
    case Arrival(h, data) => ArrivalAccounts(c, now, h, data);
    case Write(bytes) => WriteAccounts(c, bytes, now);
    case CloseCall => CloseAccounts(c, now);
    case DataTimer => DataTimerAccounts(c, now);
    case _ =>
  }

  lemma CloseAccounts(c: Conn, now: int)
    requires Accounted(c)
    ensures Accounted(CloseSocket(c, now))
  {
    if c.state == Established {
      FinQueueAccounts(c.(state := FinWait1), now);
    } else if c.state == CloseWait {
      FinQueueAccounts(c, now);
    }
  }

  lemma DataTimerAccounts(c: Conn, now: int)
    requires Accounted(c)
    ensures Accounted(DataExpiry(c, now))
  {
    DataTimerSends(c, now);
  }

  lemma DataTimerSends(c: Conn, now: int)
    ensures var c' := DataExpiry(c, now);
            && c'.tx == c.tx && c'.iss == c.iss && c'.log.accepted == c.log.accepted
            && c'.log.connects == c.log.connects && c'.log.finsQueued == c.log.finsQueued
            && (Sending(c'.state) ==> Sending(c.state)) && (c'.state == Close ==> c.state == Close)
            && (c.state == Close ==> c'.state == Close || c.tx.q != [])
  {}

  /** Over every run that connects with a positive initial number: the counter is
      right, never having wrapped, whatever overtook what; and the sequence
      numbers used and reserved are exactly iss, the SYN, the bytes accepted and
      the FINs queued. */
  lemma {:induction false} RunAccounts(smss: Mss, es: seq<(int, Event)>)
    requires forall i :: 0 <= i < |es| && es[i].1.Connect? ==> es[i].1.iss > 0
    ensures Accounted(RunAll(Intended, New(smss), es))
  {
    if es == [] {
    } else {
      var k := |es| - 1;
      RunAccounts(smss, es[..k]);
      StepAccounts(RunAll(Intended, New(smss), es[..k]), es[k].0, es[k].1);
    }
  }

  /** generate_iss returns at most 2^31 - 1, so as long as fewer than 2^31 bytes and
      FINs are given to the connection, snd_nxt never wraps around 32 bits. */
  lemma NoWrapAround(smss: Mss, es: seq<(int, Event)>)
    requires forall i :: 0 <= i < |es| && es[i].1.Connect? ==> es[i].1.iss > 0
    ensures var c := RunAll(Intended, New(smss), es);
            c.iss < 0x8000_0000 && |c.log.accepted| + c.log.finsQueued < 0x8000_0000 ==> c.tx.nxt < U32
  {
    RunAccounts(smss, es);
  }
}
