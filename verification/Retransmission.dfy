/** Runs of nothing but timer expiries, which go all the way to giving up (GivingUp says
    what holds with anything else in between); what a round-trip sample measures; and what
    the lines that refuse acknowledgments do to a connection. */
module Retransmission {
  import opened Common
  import opened SendQueue
  import opened Rto
  import opened Connection
  import opened Progress

  /** Expiries of one timer at the given times, nothing else happening. */
  function Expire(e: Event, c: Conn, times: seq<int>): Conn
    requires e == SynTimer || e == DataTimer
  {
    if times == [] then c
    else
      var c', now := Expire(e, c, times[..|times| - 1]), times[|times| - 1];
      if e == SynTimer then SynExpiry(c', now) else DataExpiry(c', now)
  }

  /** A SYN is retransmitted four times under its own number, armed 500, 1000, 2000,
      4000 and 8000 milliseconds apart; the fifth expiry gives up. */
  lemma {:induction false} SynGivesUp(c: Conn, times: seq<int>)
    requires c.state == SynSent && c.tx.q != [] && c.rtt.backoff == 0 && |times| <= 5
    ensures var c', n, f := Expire(SynTimer, c, times), |times|, FrameOf(c.tx.q[0], c.tx.una);
            if n == 5 then
              c'.state == Closing && c'.err == TimedOut && c'.armed == None && c'.log.sent == c.log.sent + Repeat(f, 4)
            else
              && c'.state == SynSent && c'.tx == c.tx && c'.rtt == c.rtt.(backoff := n) && c'.err == c.err
              && c'.log.sent == c.log.sent + Repeat(f, n)
              && c'.armed == if n == 0 then c.armed else Some(times[n - 1] + 500 * Pow2(n))
  {
    if times == [] {
      assert c.log.sent + [] == c.log.sent;
    } else {
      var p := times[..|times| - 1];
      var f := FrameOf(c.tx.q[0], c.tx.una);
      SynGivesUp(c, p);
      assert (c.log.sent + Repeat(f, |p|)) + [f] == c.log.sent + (Repeat(f, |p|) + [f]);
    }
  }

  lemma {:induction false} DoubledIsPower(rto: int, n: nat)
    ensures Doubled(rto, n) == rto * Pow2(n)
  {
    if n == 0 {
    } else {
      DoubledIsPower(rto, n - 1);
      assert rto * (2 * Pow2(n - 1)) == 2 * (rto * Pow2(n - 1));
    }
  }

  /** Every expiry of the data timer doubles the timeout and arms the timer with it,
      until the timeout has passed a minute; the next expiry gives up. */
  lemma {:induction false} DataDoubles(c: Conn, times: seq<int>)
    requires c.tx.q != [] && c.rtt.rto >= 1
    requires |times| < Expiries(c.rtt.rto)
    ensures var c', n := Expire(DataTimer, c, times), |times|;
            && c'.tx == c.tx && c'.rtt == c.rtt.(rto := Doubled(c.rtt.rto, n), backoff := c.rtt.backoff + n)
            && c'.log.sent == c.log.sent + Repeat(FrameOf(c.tx.q[0], c.tx.una), n)
            && c'.rtt.rto >= 1
            && Expiries(c.rtt.rto) == n + Expiries(c'.rtt.rto)
            && c'.err == c.err && (c.state != Closing ==> c'.state != Closing)
            && (n > 0 ==> c'.armed == Some(times[n - 1] + c'.rtt.rto))
  {
    if times == [] {
      assert c.log.sent + [] == c.log.sent;
    } else {
      var p := times[..|times| - 1];
      var f := FrameOf(c.tx.q[0], c.tx.una);
      DataDoubles(c, p);
      assert (c.log.sent + Repeat(f, |p|)) + [f] == c.log.sent + (Repeat(f, |p|) + [f]);
      DataDoublesOnce(Expire(DataTimer, c, p), times[|p|]);
    }
  }

  lemma DataDoublesOnce(c: Conn, now: int)
    requires c.tx.q != [] && 1 <= c.rtt.rto <= RTO_LIMIT
    ensures var c' := DataExpiry(c, now);
            && c'.tx == c.tx && c'.rtt == c.rtt.(rto := 2 * c.rtt.rto, backoff := c.rtt.backoff + 1)
            && c'.log.sent == c.log.sent + [FrameOf(c.tx.q[0], c.tx.una)]
            && c'.err == c.err && (c.state != Closing ==> c'.state != Closing)
            && c'.armed == Some(now + c'.rtt.rto)
  {}

  /** Without an answer the connection ends at the expiry that Rto.Expiries says,
      the seventeenth at the latest, and a timeout of at most two minutes at the
      start never passes two minutes. */
  lemma {:induction false} DataGivesUp(c: Conn, times: seq<int>)
    requires c.tx.q != [] && c.rtt.rto >= 1 && c.state != Closing && c.err != TimedOut
    requires |times| <= Expiries(c.rtt.rto)
    ensures var c' := Expire(DataTimer, c, times);
            && (c'.state == Closing <==> |times| == Expiries(c.rtt.rto))
            && (c'.err == TimedOut <==> |times| == Expiries(c.rtt.rto))
            && |times| <= 17
            && (c.rtt.rto <= 2 * RTO_LIMIT ==> c'.rtt.rto <= 2 * RTO_LIMIT)
  {
    GivesUpInTime(c.rtt.rto);
    if |times| < Expiries(c.rtt.rto) {
      DataDoubles(c, times);
      DoubledStaysBelow(c, times);
    } else {
      DataDoubles(c, times[..|times| - 1]);
      DoubledStaysBelow(c, times[..|times| - 1]);
    }
  }

  /** The timer expires at each of the times, and each time is the one it was armed for. */
  predicate OnTime(c: Conn, times: seq<int>) {
    forall n :: 0 <= n < |times| ==> Expire(DataTimer, c, times[..n]).armed == Some(times[n])
  }

  lemma {:induction false} ExpiryTimes(c: Conn, times: seq<int>, n: nat)
    requires c.tx.q != [] && c.rtt.rto >= 1 && n < |times| <= Expiries(c.rtt.rto) && OnTime(c, times)
    ensures times[n] == times[0] - c.rtt.rto + SumDoubled(c.rtt.rto, n + 1)
  {
    if n == 0 {
      assert SumDoubled(c.rtt.rto, 1) == SumDoubled(c.rtt.rto, 0) + Doubled(c.rtt.rto, 0);
    } else {
      ExpiryTimes(c, times, n - 1);
      DataDoubles(c, times[..n]);
      assert Expire(DataTimer, c, times[..n]).armed == Some(times[n]);
    }
  }

  /** Without an answer the connection is given up at a time that the timeout at the
      beginning fixes: with one of at most two minutes, within four minutes of arming. */
  lemma GivenUpAt(c: Conn, times: seq<int>)
    requires c.tx.q != [] && c.rtt.rto >= 1 && c.state != Closing && c.err != TimedOut
    requires |times| == Expiries(c.rtt.rto) && OnTime(c, times)
    ensures var last, start := times[|times| - 1], times[0] - c.rtt.rto;
            && Expire(DataTimer, c, times).state == Closing && Expire(DataTimer, c, times).err == TimedOut
            && last - start == TimeToGiveUp(c.rtt.rto)
            && (c.rtt.rto <= 2 * RTO_LIMIT ==> last - start <= 4 * RTO_LIMIT - c.rtt.rto)
  {
    DataGivesUp(c, times);
    ExpiryTimes(c, times, |times| - 1);
    TimeIsSum(c.rtt.rto);
    GivesUpInTime(c.rtt.rto);
  }

  /** A timeout of 0, which a socket has until a SYN is answered or a round trip
      measured, never grows: such a connection is retransmitted for ever. */
  lemma {:induction false} ZeroNeverGivesUp(c: Conn, times: seq<int>)
    requires c.tx.q != [] && c.rtt.rto == 0 && c.state != Closing && c.err != TimedOut
    ensures var c' := Expire(DataTimer, c, times);
            c'.tx == c.tx && c'.rtt.rto == 0 && c'.state != Closing && c'.err != TimedOut
  {
    if times == [] {
    } else {
      ZeroNeverGivesUp(c, times[..|times| - 1]);
    }
  }

  // ------------------------------------------------------------- what a sample measures

  /** An armed timer expires `delay` after it was armed. */
  predicate ArmedFor(c: Conn) {
    c.armed.Some? ==> c.armed.value == c.log.armedAt + c.log.delay
  }

  lemma {:induction false} StepArms(form: Form, c: Conn, now: int, e: Event)
    requires ArmedFor(c)
    ensures ArmedFor(Next(form, c, now, e))
  {
    if e.Arrival? {
      ArrivalArms(form, c, e.h, e.data, now);
    } else if e.Write? {
      QueueEachArms(c, Chunks(e.bytes, c.smss), now);
    } else {
      CallArms(form, c, now, e);
    }
  }

  lemma CallArms(form: Form, c: Conn, now: int, e: Event)
    requires ArmedFor(c) && !e.Arrival? && !e.Write?
    ensures ArmedFor(Next(form, c, now, e))
  {
    match e
    case CloseCall => CloseArms(c, now);
    case Connect(iss) => ConnectArms(c, iss, now);
    case _ =>
  }

  lemma CloseArms(c: Conn, now: int)
    requires ArmedFor(c)
    ensures ArmedFor(CloseSocket(c, now))
  {
    QueueEachArms(c.(state := FinWait1), [Fresh([], false, true, false)], now);
    QueueEachArms(c, [Fresh([], false, true, false)], now);
  }

  lemma ConnectArms(c: Conn, iss: nat, now: int)
    requires ArmedFor(c)
    ensures ArmedFor(ConnectCall(c, iss, now))
  {}

  lemma {:induction false} ArrivalArms(form: Form, c: Conn, h: Header, data: seq<byte>, now: int)
    requires ArmedFor(c)
    ensures ArmedFor(Input(form, c, h, data, now))
  {
    if c.state !in {Close, Listen, SynSent} {
      AckArms(form, c, h, now);
      AckedArms(form, AckInput(form, c, h, now).0, h, data, now);
    }
  }

  lemma AckArms(form: Form, c: Conn, h: Header, now: int)
    requires ArmedFor(c)
    ensures ArmedFor(AckInput(form, c, h, now).0)
  {}

  lemma {:induction false} AckedArms(form: Form, c: Conn, h: Header, data: seq<byte>, now: int)
    requires ArmedFor(c)
    ensures ArmedFor(AckedInput(form, c, h, data, now))
  {
    var c1 := QueueEmptyInput(c, h).0;
    assert ArmedFor(c1);
    var c3 := TextInput(c1, h, data);
    FinArms(c3, data);
    SendMoreArms(form, c3, now);
    SendMoreArms(form, FinInput(c3, data), now);
  }

  lemma FinArms(c: Conn, data: seq<byte>)
    requires ArmedFor(c)
    ensures ArmedFor(FinInput(c, data))
  {}

  lemma SendMoreArms(form: Form, c: Conn, now: int)
    requires ArmedFor(c)
    ensures ArmedFor(SendMore(form, c, now))
  {}

  lemma {:induction false} QueueEachArms(c: Conn, segs: seq<TxSeg>, now: int)
    requires ArmedFor(c)
    ensures ArmedFor(QueueEach(c, segs, now))
    decreases |segs|
  {
    if segs == [] {
    } else {
      QueueEachArms(Queue(c, segs[0], now), segs[1..], now);
    }
  }

  lemma {:induction false} RunArms(form: Form, smss: Mss, es: seq<(int, Event)>)
    ensures ArmedFor(RunAll(form, New(smss), es))
  {
    if es == [] {
    } else {
      var k := |es| - 1;
      RunArms(form, smss, es[..k]);
      StepArms(form, RunAll(form, New(smss), es[..k]), es[k].0, es[k].1);
    }
  }

  /** In every reachable state an acknowledgment that is measured gives the estimator the
      time since the timer was armed, and what rto has changed by since then on top: so it
      is the round trip exactly if rto is still what the timer was armed with. */
  lemma {:induction false} SampleIsElapsed(form: Form, smss: Mss, es: seq<(int, Event)>, c: Conn, h: Header, now: int)
    requires c == RunAll(form, New(smss), es) && c.rtt.backoff == 0 && c.armed.Some?
    requires AckInput(form, c, h, now).0.tx.una > c.tx.una
    ensures var elapsed, r := now - c.log.armedAt, now - c.log.armedAt + (c.rtt.rto - c.log.delay);
            && AckInput(form, c, h, now).0.rtt == Sample(c.rtt, r).(backoff := 0)
            && (r == elapsed <==> c.rtt.rto == c.log.delay)
  {
    RunArms(form, smss, es);
    AckMeasures(form, c, h, now);
  }

  /** While backed off no round trip is measured, and a timeout that has once been
      set stays set. */
  predicate KeepsTime(c: Conn, c': Conn) {
    && (c.rtt.backoff > 0 ==> c'.rtt.srtt == c.rtt.srtt && c'.rtt.rttvar == c.rtt.rttvar)
    && (TimeSet(c.rtt) ==> TimeSet(c'.rtt))
  }

  predicate TimeSet(t: Rtt) {
    t.srtt >= 0 && t.rttvar >= 0 && t.rto >= 1
  }

  lemma AckKeepsTime(form: Form, c: Conn, h: Header, now: int)
    ensures KeepsTime(c, AckInput(form, c, h, now).0)
  {}

  /** A round trip is measured exactly when an acknowledgment moves snd_una while
      the timer runs and has not backed off. */
  lemma AckMeasures(form: Form, c: Conn, h: Header, now: int)
    ensures var c' := AckInput(form, c, h, now).0;
            var t := if c'.tx.una > c.tx.una && c.rtt.backoff == 0 && c.armed.Some?
                     then Sample(c.rtt, now - (c.armed.value - c.rtt.rto)) else c.rtt;
            c'.rtt == t.(backoff := c'.rtt.backoff) && (c'.rtt.backoff == c.rtt.backoff || c'.armed == None)
  {}

  lemma DeliverKeepsTime(form: Form, c: Conn, h: Header, data: seq<byte>, now: int)
    ensures var t := Deliver(form, c, h, data, now).rtt; t == c.rtt.(backoff := t.backoff)
  {
    var c3 := TextInput(c, h, data);
    FinKeepsTime(c3, data);
    SendMoreKeeps(form, c3, now);
    SendMoreKeeps(form, FinInput(c3, data), now);
  }

  lemma FinKeepsTime(c: Conn, data: seq<byte>)
    ensures var t := FinInput(c, data).rtt; t == c.rtt.(backoff := t.backoff)
  {}

  lemma {:induction false} AckedKeepsTime(form: Form, c: Conn, h: Header, data: seq<byte>, now: int)
    ensures var t := AckedInput(form, c, h, data, now).rtt; t == c.rtt.(backoff := t.backoff)
  {
    var c' := QueueEmptyInput(c, h).0;
    assert c'.rtt == c.rtt.(backoff := c'.rtt.backoff);
    DeliverKeepsTime(form, c', h, data, now);
  }

  lemma {:induction false} SyncedKeepsTime(form: Form, c: Conn, h: Header, data: seq<byte>, now: int)
    ensures KeepsTime(c, SyncedInput(form, c, h, data, now))
  {
    AckKeepsTime(form, c, h, now);
    AckedKeepsTime(form, AckInput(form, c, h, now).0, h, data, now);
  }

  lemma {:induction false} ArrivalKeepsTime(form: Form, c: Conn, h: Header, data: seq<byte>, now: int)
    ensures KeepsTime(c, Input(form, c, h, data, now))
  {
    if c.state !in {Close, Listen, SynSent} {
      SyncedKeepsTime(form, c, h, data, now);
    }
  }

  lemma {:induction false} StepKeepsTime(form: Form, c: Conn, now: int, e: Event)
    ensures KeepsTime(c, Next(form, c, now, e))
  {
    if e.Arrival? {
      ArrivalKeepsTime(form, c, e.h, e.data, now);
    } else if e.Write? {
      QueueEachKeeps(c, Chunks(e.bytes, c.smss), now);
    }
  }

  lemma {:induction false} DoubledStaysBelow(c: Conn, times: seq<int>)
    requires c.tx.q != [] && 1 <= c.rtt.rto
    requires |times| < Expiries(c.rtt.rto)
    ensures c.rtt.rto <= 2 * RTO_LIMIT ==> Expire(DataTimer, c, times).rtt.rto <= 2 * RTO_LIMIT
  {
    if times != [] {
      DataDoubles(c, times[..|times| - 1]);
    }
  }

  /** As written, acknowledgment processing meets its intent exactly when the
      segment does not acknowledge everything sent and still outstanding. */
  lemma WrittenAckMeetsIntent(c: Conn, h: Header, now: int)
    requires Ordered(c) && c.state in {SynReceived, Established, FinWait1, CloseWait, Closing, LastAck}
    ensures AckInput(Written, c, h, now) == AckInput(Intended, c, h, now) <==>
            !(h.ackSeq == c.tx.nxt && (c.state == SynReceived || c.tx.una < c.tx.nxt))
  {
    if h.ackSeq == c.tx.nxt && c.state != SynReceived && c.tx.una < c.tx.nxt {
      assert AckInput(Written, c, h, now).0.tx.una == c.tx.una;
      assert AckInput(Intended, c, h, now).0.tx.una == c.tx.nxt;
    }
  }

  /** As written, the answer to a SYN meets the intent exactly when it carries no
      ACK, an ACK of something else, or nothing to act on. */
  lemma WrittenSynSentMeetsIntent(c: Conn, h: Header)
    requires c.state == SynSent
    ensures SynSentInput(Written, c, h) == SynSentInput(Intended, c, h) <==>
            !h.ack || Unacceptable(c, h) || (!h.rst && !h.syn)
  {
    if h.ack && !Unacceptable(c, h) {
      assert SynSentInput(Written, c, h) == c;
      assert h.rst || h.syn ==> SynSentInput(Intended, c, h).state != SynSent;
    }
  }

  /** The handshake of an active open: the peer's SYN and ACK establish the
      connection as intended, and change nothing as written. */
  lemma Handshake(smss: Mss, iss: nat, peer: nat, t0: int, t1: int)
    ensures var begun := ConnectCall(New(smss), iss, t0);
            var synAck := Header(peer, iss + 1, true, true, false, false, false);
            && Next(Written, begun, t1, Arrival(synAck, [])) == begun
            && (var c := Next(Intended, begun, t1, Arrival(synAck, []));
                && c.state == Established && c.err == NoErr
                && c.tx.una == c.tx.nxt == iss + 1 && c.rx.rcvNxt == peer + 1
                && (iss > 0 ==> c.tx.q == [] && c.tx.inflight == 0))
  {
    var begun := ConnectCall(New(smss), iss, t0);
    assert begun.tx == Connected(iss);
    var syn := Stamp(Fresh([], true, false, false), iss);
    assert begun.tx.q == [] + [syn] == [syn];
    assert iss > 0 ==> Cleaned([syn], iss + 1) == 1 + Cleaned([syn][1..], iss + 1) == 1;
    assert DecrementBy(1, 1) == Decrement(DecrementBy(1, 0)) == 0;
  }

  /** The third segment of a simultaneous open acknowledges our SYN: as written it
      is refused, and only an ACK of nothing new would be taken. */
  lemma SimultaneousOpen(c: Conn, h: Header, now: int)
    requires c.state == SynReceived && c.tx.una == c.iss && c.tx.nxt == c.iss + 1
    ensures AckInput(Written, c, h, now).0.state == Established <==> h.ackSeq == c.iss
    ensures AckInput(Intended, c, h, now).0.state == Established <==> c.iss <= h.ackSeq <= c.iss + 1
  {}
}
