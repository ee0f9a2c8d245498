/** What every step of a connection keeps, and what whole runs therefore show. */
module Progress {
  import opened Common
  import opened Reassembly
  import opened SendQueue
  import opened Connection

  // ------------------------------------------- only forward, in state and numbers

  function Rank(s: State): nat {
    match s
    case Close => 0 case Listen => 0
    case SynSent => 1
    case SynReceived => 2
    case Established => 3
    case FinWait1 => 4 case CloseWait => 4
    case FinWait2 => 5 case LastAck => 5
    case Closing => 6 case TimeWait => 6
  }

  /** The send variables are in order; before the connect they are zero. */
  predicate Ordered(c: Conn) {
    && c.iss <= c.tx.una <= c.tx.nxt
    && (c.state == Close ==> c.tx.nxt == 0)
  }

  /** From c to c' nothing goes back. */
  predicate Forward(c: Conn, c': Conn) {
    && Rank(c.state) <= Rank(c'.state)
    && (c.state != Close ==> c'.state != Close)
    && (Ordered(c) ==> Ordered(c') && c.tx.una <= c'.tx.una && c.tx.nxt <= c'.tx.nxt)
  }

  lemma CallForward(form: Form, c: Conn, now: int, e: Event)
    requires !e.Arrival?
    ensures Forward(c, Next(form, c, now, e))
  {
    if e.Write? {
      QueueEachKeeps(c, Chunks(e.bytes, c.smss), now);
    }
  }

  lemma AckForward(form: Form, c: Conn, h: Header, now: int)
    ensures Forward(c, AckInput(form, c, h, now).0)
  {}

  lemma SynSentForward(form: Form, c: Conn, h: Header)
    requires c.state == SynSent
    ensures Forward(c, SynSentInput(form, c, h))
  {}

  lemma SendMoreForward(form: Form, c: Conn, now: int)
    ensures Forward(c, SendMore(form, c, now))
  {}

  lemma FinForward(c: Conn, data: seq<byte>)
    ensures Forward(c, FinInput(c, data))
  {}

  lemma EmptyForward(c: Conn, h: Header)
    ensures Forward(c, QueueEmptyInput(c, h).0)
  {}

  lemma {:induction false} DeliverForward(form: Form, c: Conn, h: Header, data: seq<byte>, now: int)
    ensures Forward(c, Deliver(form, c, h, data, now))
  {
    var c3 := TextInput(c, h, data);
    FinForward(c3, data);
    SendMoreForward(form, c3, now);
    SendMoreForward(form, FinInput(c3, data), now);
  }

  lemma {:induction false} SyncedForward(form: Form, c: Conn, h: Header, data: seq<byte>, now: int)
    requires c.state !in {Close, Listen, SynSent}
    ensures Forward(c, SyncedInput(form, c, h, data, now))
  {
    var (c1, dropped) := AckInput(form, c, h, now);
    if Considered(c, h, data) {
      AckForward(form, c, h, now);
      if !dropped {
        AckedForward(form, c, c1, h, data, now);
      }
    }
  }

  /** The segment is one that a synchronized connection looks at. */
  predicate Considered(c: Conn, h: Header, data: seq<byte>) {
    VerifySegment(c.rx, Segment(h.seqno, data, h.psh)) && !h.rst && !h.syn && h.ack
  }

  lemma {:induction false} AckedForward(form: Form, c: Conn, c1: Conn, h: Header, data: seq<byte>, now: int)
    requires Forward(c, c1)
    ensures Forward(c, AckedInput(form, c1, h, data, now))
  {
    EmptyForward(c1, h);
    DeliverForward(form, QueueEmptyInput(c1, h).0, h, data, now);
  }

  /** Every step, of the code as written and as intended, keeps or raises the rank
      of the state and never lowers snd_una or snd_nxt, nor lets them cross. */
  lemma {:induction false} StepForward(form: Form, c: Conn, now: int, e: Event)
    ensures Forward(c, Next(form, c, now, e))
  {
    if !e.Arrival? {
      CallForward(form, c, now, e);
    } else if c.state == SynSent {
      SynSentForward(form, c, e.h);
    } else if c.state !in {Close, Listen} {
      SyncedForward(form, c, e.h, e.data, now);
    }
  }

  lemma {:induction false} RunForward(form: Form, c: Conn, es: seq<(int, Event)>, k: nat)
    requires k <= |es|
    ensures Forward(RunAll(form, c, es[..k]), RunAll(form, c, es))
    decreases |es|
  {
    if k == |es| {
      assert es[..k] == es;
    } else {
      var p := es[..|es| - 1];
      assert p[..k] == es[..k];
      RunForward(form, c, p, k);
      StepForward(form, RunAll(form, c, p), es[|es| - 1].0, es[|es| - 1].1);
    }
  }

  /** Between any two moments of a run the rank has not fallen and the send
      variables have not gone back; iss <= snd_una <= snd_nxt throughout; once
      left, CLOSE is not entered again, so there is one connect at most. */
  lemma {:induction false} RunsGoForward(form: Form, smss: Mss, es: seq<(int, Event)>, k: nat)
    requires k <= |es|
    ensures var c, c' := RunAll(form, New(smss), es[..k]), RunAll(form, New(smss), es);
            && Rank(c.state) <= Rank(c'.state)
            && c.tx.una <= c'.tx.una && c.tx.nxt <= c'.tx.nxt
            && c'.iss <= c'.tx.una <= c'.tx.nxt
            && (c.state != Close ==> c'.state != Close)
            && c'.log.connects <= 1 && (c'.state == Close ==> c'.log.connects == 0)
    decreases |es|
  {
    RunForward(form, New(smss), es, k);
    RunForward(form, New(smss), es[..k], 0);
    assert es[..k][..0] == [];
    ConnectOnce(form, smss, es);
  }

  lemma {:induction false} ConnectOnce(form: Form, smss: Mss, es: seq<(int, Event)>)
    ensures var c := RunAll(form, New(smss), es);
            c.log.connects <= 1 && (c.state == Close ==> c.log.connects == 0)
  {
    if es == [] {
    } else {
      var k := |es| - 1;
      ConnectOnce(form, smss, es[..k]);
      var c := RunAll(form, New(smss), es[..k]);
      StepForward(form, c, es[k].0, es[k].1);
      StepConnects(form, c, es[k].0, es[k].1);
    }
  }

  lemma {:induction false} StepConnects(form: Form, c: Conn, now: int, e: Event)
    ensures Next(form, c, now, e).log.connects
         == if e.Connect? && c.state == Close then c.log.connects + 1 else c.log.connects
    ensures e.Connect? ==> Next(form, c, now, e).state != Close
  {
    if e.Arrival? {
      ArrivalConnects(form, c, e.h, e.data, now);
    } else {
      CallLogs(form, c, now, e);
    }
  }

  /** Only a reader takes bytes. */
  lemma {:induction false} StepTakes(form: Form, c: Conn, now: int, e: Event)
    requires !e.ReadBytes?
    ensures Next(form, c, now, e).log.taken == c.log.taken
  {
    if e.Arrival? {
      ArrivalConnects(form, c, e.h, e.data, now);
    } else {
      CallLogs(form, c, now, e);
    }
  }

  /** What calls and timers leave in the history. */
  predicate Logged(c: Conn, e: Event, c': Conn) {
    && (!e.ReadBytes? ==> c'.log.taken == c.log.taken)
    && c'.log.accepted == c.log.accepted + (if Accepts(c, e) then e.bytes else [])
    && c'.log.connects == c.log.connects + (if e.Connect? && c.state == Close then 1 else 0)
    && c'.log.finsQueued == c.log.finsQueued + (if e.CloseCall? && c.state in {Established, CloseWait} then 1 else 0)
    && c'.log.synSeen == c.log.synSeen && c'.log.fins == c.log.fins && c'.log.cut == c.log.cut
    && (e.Connect? ==> c'.state != Close) && (!e.Connect? || c.state != Close ==> c'.iss == c.iss)
  }

  /** Bytes are accepted by a write to a healthy open socket, and by nothing else. */
  predicate Accepts(c: Conn, e: Event) {
    e.Write? && c.err == NoErr && c.state in {Established, CloseWait}
  }

  lemma CallLogs(form: Form, c: Conn, now: int, e: Event)
    requires !e.Arrival?
    ensures Logged(c, e, Next(form, c, now, e))
  {
    match e
    case Write(bytes) => WriteLogs(c, bytes, now);
    case CloseCall => CloseLogs(c, now);
    case SynTimer => SynTimerLogs(c, now);
    case DataTimer => DataTimerLogs(c, now);
    case Connect(iss) => ConnectLogs(c, iss, now);
    case _ =>
  }

  lemma WriteLogs(c: Conn, bytes: seq<byte>, now: int)
    ensures Logged(c, Write(bytes), WriteCall(c, bytes, now))
  {
    QueueEachKeeps(c, Chunks(bytes, c.smss), now);
  }

  lemma CloseLogs(c: Conn, now: int)
    ensures Logged(c, CloseCall, CloseSocket(c, now))
  {
    if c.state in {Established, CloseWait} {
      QueueFinLogs(c, c.(state := if c.state == Established then FinWait1 else c.state), now);
    }
  }

  lemma QueueFinLogs(c: Conn, c1: Conn, now: int)
    requires c.state in {Established, CloseWait} && c1 == c.(state := c1.state)
    ensures Logged(c, CloseCall, QueueFin(c1, now))
  {}

  lemma SynTimerLogs(c: Conn, now: int)
    ensures Logged(c, SynTimer, SynExpiry(c, now))
  {}

  lemma DataTimerLogs(c: Conn, now: int)
    ensures Logged(c, DataTimer, DataExpiry(c, now))
  {}

  lemma ConnectLogs(c: Conn, iss: nat, now: int)
    ensures Logged(c, Connect(iss), ConnectCall(c, iss, now))
  {}

  /** Arrivals leave alone what only the application's calls change. */
  predicate SameCalls(c: Conn, c': Conn) {
    && c'.iss == c.iss && c'.log.taken == c.log.taken && c'.log.connects == c.log.connects
    && c'.log.accepted == c.log.accepted && c'.log.finsQueued == c.log.finsQueued
  }

  lemma {:induction false} ArrivalConnects(form: Form, c: Conn, h: Header, data: seq<byte>, now: int)
    ensures SameCalls(c, Input(form, c, h, data, now))
  {
    if c.state !in {Close, Listen, SynSent} {
      SyncedConnects(form, c, h, data, now);
    }
  }

  lemma {:induction false} SyncedConnects(form: Form, c: Conn, h: Header, data: seq<byte>, now: int)
    ensures SameCalls(c, SyncedInput(form, c, h, data, now))
  {
    var c1 := AckInput(form, c, h, now).0;
    assert SameCalls(c, c1);
    DeliverConnects(form, QueueEmptyInput(c1, h).0, h, data, now);
  }

  lemma DeliverConnects(form: Form, c: Conn, h: Header, data: seq<byte>, now: int)
    ensures SameCalls(c, Deliver(form, c, h, data, now))
  {
    var c3 := TextInput(c, h, data);
    FinConnects(c3, data);
    SendMoreKeeps(form, c3, now);
    SendMoreKeeps(form, FinInput(c3, data), now);
  }

  lemma FinConnects(c: Conn, data: seq<byte>)
    ensures SameCalls(c, FinInput(c, data))
  {}
}
