/** The connection as the repository codes it: one socket object, updated in place
    by src/tcp_input.cpp, src/tcp_output.cpp and src/tcp.cpp. Every method is
    proved against the function of Connection that says what it means. */
module TcpSocks {
  import opened Common
  import opened Reassembly
  import opened Receivers
  import opened SendQueue
  import opened Rto
  import opened Connection
  import opened Delivery
  import opened Progress
  import opened Readable
  import opened Reader

  const EAGAIN: int := 11

  class TcpSock {
    const form: Form
    const smss: Mss
    const rx: Receiver
    var state: State
    var err: Err
    var iss: nat
    var irs: nat
    var sndUna: nat
    var sndNxt: nat
    var writeQueue: seq<TxSeg>
    var inflight: nat
    var srtt: int
    var rttvar: int
    var rto: int
    var backoff: nat
    /** When the retransmission timer expires, if it is armed. */
    var retransmit: Option<int>
    ghost var log: Log

    ghost function Model(): Conn
      reads this, rx
    {
      Conn(state, err, iss, irs, smss,
           TxState(sndUna, sndNxt, writeQueue, inflight), rx.State(),
           Rtt(srtt, rttvar, rto, backoff), retransmit, log.(taken := rx.taken))
    }

    constructor (form: Form, smss: Mss)
      ensures this.form == form && Model() == New(smss) && fresh(rx)
    {
      this.form, this.smss := form, smss;
      rx := new Receiver(0, 44477);
      state, err, iss, irs := Close, NoErr, 0, 0;
      sndUna, sndNxt, writeQueue, inflight := 0, 0, [], 0;
      srtt, rttvar, rto, backoff, retransmit := 0, 0, 0, 0, None;
      log := NO_LOG;
    }

    // ------------------------------------------------------------------- timers

    method RearmRtoTimer(now: int)
      modifies this`retransmit, this`log
      ensures Model() == Rearm(old(Model()), now)
    {
      var delay := if state == SynSent then SYN_BACKOFF * Pow2(backoff) else rto;
      ArmRtoTimer(now, delay);
    }

    method ArmRtoTimer(now: int, delay: int)
      modifies this`retransmit, this`log
      ensures Model() == Arm(old(Model()), now, delay)
    {
      retransmit := Some(now + delay);
      log := log.(armedAt := now, delay := delay);
    }

    /** tcp_transmit_skb, as far as the socket is concerned: the frame is gone. */
    ghost method Sent(frames: seq<Frame>)
      modifies this`log
      ensures log == old(log).(sent := old(log).sent + frames)
    {
      log := log.(sent := log.sent + frames);
    }

    method StopRtoTimer()
      modifies this`retransmit, this`backoff
      ensures Model() == StopRto(old(Model()))
    {
      retransmit := None;
      backoff := 0;
    }

    method TcpDone()
      modifies this, rx
      ensures Model() == Done(old(Model()))
    {
      state := Closing;
      StopRtoTimer();
      rx.ofoQueue := [];
      log := log.(ended := true);
    }

    method EnterTimeWait()
      modifies this
      ensures Model() == Connection.EnterTimeWait(old(Model()))
    {
      state := TimeWait;
      StopRtoTimer();
    }

    method TcpRtt(now: int)
      modifies this`srtt, this`rttvar, this`rto
      ensures Model() == old(Model()).(rtt := OnAck(old(Model()).rtt, old(retransmit), now))
    {
      if backoff > 0 || retransmit.None? {
        return;
      }
      var r := now - (retransmit.value - rto);
      if r < 0 {
        return;
      }
      if srtt == 0 {
        srtt := r;
        rttvar := r / 2;
      } else {
        rttvar := (3 * rttvar + Abs(srtt - r)) / 4;
        srtt := (7 * srtt + r) / 8;
      }
      var k := 4 * rttvar;
      k := Max(k, 200);
      rto := srtt + k;
    }

    // --------------------------------------------------------------- write queue

    method QueueTransmitSkb(skb: TxSeg, now: int)
      modifies this
      ensures Model() == Queue(old(Model()), skb, now)
    {
      if writeQueue == [] {
        RearmRtoTimer(now);
      }
      var s := skb;
      if inflight == 0 {
        Sent([FrameOf(s, sndNxt)]);
        inflight := inflight + 1;
        s := s.(seqno := sndNxt);
        sndNxt := sndNxt + |s.data|;
        s := s.(endSeq := sndNxt);
        if s.fin {
          sndNxt := sndNxt + 1;
        }
      }
      writeQueue := writeQueue + [s];
    }

    /** pos segments of q are stamped, beginning at nxt, and sent. */
    ghost predicate Stamped(q: seq<TxSeg>, nxt: nat, was: Log, pos: nat)
      reads this
    {
      && pos <= |q|
      && writeQueue == StampAll(q[..pos], nxt) + q[pos..] && sndNxt == AdvanceAll(q[..pos], nxt)
      && log == was.(sent := was.sent + FramesOf(StampAll(q[..pos], nxt)))
    }

    method StampNext(pos: nat, ghost q: seq<TxSeg>, ghost nxt: nat, ghost was: Log)
      requires Stamped(q, nxt, was, pos) && pos < |q|
      modifies this`writeQueue, this`sndNxt, this`log
      ensures Stamped(q, nxt, was, pos + 1)
    {
      StampedNext(q, nxt, pos);
      var next := writeQueue[pos];
      ghost var before, frame := FramesOf(StampAll(q[..pos], nxt)), FrameOf(next, sndNxt);
      assert next == q[pos] && log.sent + [frame] == was.sent + (before + [frame]);
      Sent([FrameOf(next, sndNxt)]);
      next := next.(seqno := sndNxt);
      sndNxt := sndNxt + |next.data|;
      next := next.(endSeq := sndNxt);
      if next.fin {
        sndNxt := sndNxt + 1;
      }
      writeQueue := writeQueue[pos := next];
    }

    static lemma StampedNext(q: seq<TxSeg>, nxt: nat, pos: nat)
      requires pos < |q|
      ensures var was := StampAll(q[..pos], nxt) + q[pos..]; var s := q[pos];
              && was[pos] == s
              && StampAll(q[..pos + 1], nxt) + q[pos + 1..] == was[pos := Stamp(s, AdvanceAll(q[..pos], nxt))]
              && AdvanceAll(q[..pos + 1], nxt) == AdvanceAll(q[..pos], nxt) + Advance(s)
              && FramesOf(StampAll(q[..pos + 1], nxt))
                 == FramesOf(StampAll(q[..pos], nxt)) + [FrameOf(s, AdvanceAll(q[..pos], nxt))]
    {
      assert q[..pos + 1][..pos] == q[..pos];
      var stamped := StampAll(q[..pos + 1], nxt);
      assert stamped[..pos] == StampAll(q[..pos], nxt) && stamped[pos] == Stamp(q[pos], AdvanceAll(q[..pos], nxt));
    }

    /** The walk of tcp_send_next. */
    method StampFirst(amount: int, ghost q: seq<TxSeg>, ghost nxt: nat, ghost was: Log)
      requires Stamped(q, nxt, was, 0)
      modifies this`writeQueue, this`sndNxt, this`log
      ensures Stamped(q, nxt, was, Sends(form, |q|, amount))
    {
      var i: nat, stop := 0, false;
      while i < |writeQueue| && !stop
        invariant Stamped(q, nxt, was, i) && i <= Sends(form, |q|, amount)
        invariant stop ==> i == Sends(form, |q|, amount)
        decreases |q| - i, !stop
      {
        if (form.Written? && i + 1 < amount) || (form.Intended? && i + 1 > amount) {
          stop := true;
        } else {
          StampNext(i, q, nxt, was);
          i := i + 1;
        }
      }
    }

    method TcpSendNext(amount: int)
      modifies this`writeQueue, this`sndNxt, this`log
      ensures var c := old(Model()); var tx := SendNext(form, c.tx, amount);
              Model() == Transmit(c, FramesOf(tx.q[..Sends(form, |tx.q|, amount)])).(tx := tx)
    {
      ghost var q, nxt, was := writeQueue, sndNxt, log;
      assert q[..0] == [] && q[0..] == q;
      StampFirst(amount, q, nxt, was);
      StampedIsSent(form, old(Model()).tx, amount);
    }

    static lemma StampedIsSent(form: Form, st: TxState, amount: int)
      ensures var k, q := Sends(form, |st.q|, amount), SendNext(form, st, amount).q;
              |q| == |st.q| && q[..k] == StampAll(st.q[..k], st.nxt)
    {}

    method CleanRtoQueue(una: nat)
      modifies this
      ensures Model() == Clean(old(Model()), una)
    {
      ghost var q, n, k := writeQueue, inflight, 0;
      while writeQueue != [] && writeQueue[0].seqno > 0 && writeQueue[0].endSeq <= una
        invariant k <= |q| && writeQueue == q[k..] && inflight == DecrementBy(n, k)
        invariant k + Cleaned(writeQueue, una) == Cleaned(q, una)
        decreases |writeQueue|
        modifies this`writeQueue, this`inflight
      {
        writeQueue := writeQueue[1..];
        inflight := Decrement(inflight);
        k := k + 1;
      }
      log := log.(acked := log.acked + Payload(q[..k]));
      if writeQueue == [] || inflight == 0 {
        StopRtoTimer();
      }
    }

    /** src/tcp_output.cpp:441 as intended: the last piece takes what is left. */
    method TcpSend(buff: seq<byte>, now: int)
      modifies this
      ensures Model() == QueueEach(old(Model()), Chunks(buff, smss), now)
    {
      var slen, pos := |buff|, 0;
      assert buff[0..] == buff;
      while slen > 0
        invariant 0 <= slen && pos + slen == |buff|
        invariant QueueEach(Model(), Chunks(buff[pos..], smss), now) == QueueEach(old(Model()), Chunks(buff, smss), now)
        decreases slen
      {
        var dlen := if slen > smss then smss else slen;
        slen := slen - dlen;
        ghost var rest := buff[pos..];
        assert rest[..dlen] == buff[pos..pos + dlen] && rest[dlen..] == buff[pos + dlen..];
        FirstChunk(rest, smss);
        QueueTransmitSkb(Fresh(buff[pos..pos + dlen], false, false, slen == 0), now);
        pos := pos + dlen;
      }
      assert buff[pos..] == [] && Chunks(buff[pos..], smss) == [];
    }

    static lemma FirstChunk(data: seq<byte>, mss: nat)
      requires 0 < mss && data != []
      ensures var dlen, c := Min(mss, |data|), Chunks(data, mss);
              && c != [] && c[0] == Fresh(data[..dlen], false, false, dlen == |data|)
              && c[1..] == Chunks(data[dlen..], mss)
    {}

    // ------------------------------------------------------------ segment arrival

    method TcpSynSent(h: Header)
      modifies this, rx
      ensures Model() == SynSentInput(form, old(Model()), h)
    {
      if h.ack && (form.Written? || h.ackSeq <= iss || h.ackSeq > sndNxt || h.ackSeq < sndUna) {
        return;
      }
      if h.rst {
        err := ConnRefused;
        TcpDone();
        return;
      }
      if !h.syn {
        return;
      }
      Synchronized(h);
    }

    method Synchronized(h: Header)
      modifies this, rx
      ensures Model() == Synchronize(old(Model()), h)
    {
      NotePeer(h.seqno);
      if h.ack {
        sndUna := h.ackSeq;
        CleanRtoQueue(sndUna);
      }
      Settled();
    }

    method NotePeer(seqno: nat)
      modifies this`irs, this`log, rx`rcvNxt
      ensures var c := old(Model());
              Model() == c.(irs := seqno, rx := c.rx.(rcvNxt := seqno + 1), log := c.log.(synSeen := true))
    {
      rx.rcvNxt := seqno + 1;
      irs := seqno;
      log := log.(synSeen := true);
    }

    /** Established if our SYN is acknowledged. */
    method Settled()
      modifies this
      ensures Model() == Settle(old(Model()))
    {
      if sndUna > iss {
        state := Established;
        sndUna := sndNxt;
        backoff := 0;
        rto := 1000;
        err := NoErr;
      } else {
        state := SynReceived;
        sndUna := iss;
      }
    }

    method TakeAck(ackSeq: nat, now: int)
      modifies this
      ensures var c := old(Model());
              Model() == Clean(c.(tx := c.tx.(una := ackSeq), rtt := OnAck(c.rtt, c.armed, now)), ackSeq)
    {
      sndUna := ackSeq;
      TcpRtt(now);
      CleanRtoQueue(sndUna);
    }

    method Acknowledge(h: Header, now: int) returns (dropped: bool)
      modifies this
      ensures (Model(), dropped) == AckInput(form, old(Model()), h, now)
    {
      if state == SynReceived {
        if sndUna <= h.ackSeq && (if form.Written? then h.ackSeq < sndNxt else h.ackSeq <= sndNxt) {
          state := Established;
        } else {
          return true;
        }
      }
      if state in {Established, FinWait1, CloseWait, Closing, LastAck} {
        if sndUna < h.ackSeq && (if form.Written? then h.ackSeq < sndNxt else h.ackSeq <= sndNxt) {
          TakeAck(h.ackSeq, now);
        }
        return h.ackSeq < sndUna || h.ackSeq > sndNxt;
      }
      return false;
    }

    method QueueEmpty(h: Header) returns (done: bool)
      modifies this, rx
      ensures (Model(), done) == QueueEmptyInput(old(Model()), h)
    {
      done := false;
      if writeQueue == [] {
        match state {
          case FinWait1 => state := FinWait2;
          case Closing => state := TimeWait;
          case LastAck =>
            TcpDone();
            done := true;
          case TimeWait =>
            if rx.rcvNxt == h.seqno {
              rx.finSeen := true;
            }
          case _ =>
        }
      }
    }

    method ConsumeFin(ghost data: seq<byte>)
      modifies this, rx
      ensures Model() == FinInput(old(Model()), data)
    {
      if state in {Close, Listen, SynSent} {
        return;
      }
      rx.rcvNxt := rx.rcvNxt + 1;
      rx.finSeen := true;
      rx.pollIn := true;
      log := log.(fins := log.fins + 1,
                  cut := log.cut || (data != [] && state !in TEXT_STATES && log.fins == 0));
      assert Model() == FinTaken(old(Model()), data);
      FinMoves();
    }

    method FinMoves()
      modifies this
      ensures Model() == Connection.FinMoves(old(Model()))
    {
      match state {
        case Established => state := CloseWait;
        case SynReceived => state := CloseWait;
        case FinWait1 =>
          if writeQueue == [] {
            EnterTimeWait();
          } else {
            state := Closing;
          }
        case FinWait2 => EnterTimeWait();
        case _ =>
      }
    }

    method SendPending(now: int)
      modifies this
      ensures Model() == SendMore(form, old(Model()), now)
    {
      if state in {Established, FinWait1, FinWait2} {
        var pending := Min(|writeQueue|, 3);
        if inflight == 0 && pending > 0 {
          TcpSendNext(pending);
          inflight := inflight + pending;
          RearmRtoTimer(now);
        }
      }
    }

    method TakeText(h: Header, data: seq<byte>, now: int)
      modifies this, rx
      ensures Model() == Deliver(form, old(Model()), h, data, now)
    {
      var expected := h.seqno == rx.rcvNxt;
      if state in {Established, FinWait1, FinWait2} && (h.psh || |data| > 0) {
        var _, _ := rx.DataQueue(Segment(h.seqno, data, h.psh));
      }
      if h.fin && expected {
        ConsumeFin(data);
      }
      if expected {
        SendPending(now);
      }
    }

    method TcpInputState(h: Header, data: seq<byte>, now: int)
      modifies this, rx
      ensures Model() == Input(form, old(Model()), h, data, now)
    {
      match state {
        case Close =>
          if !h.rst {
            sndUna := sndNxt;
          }
          return;
        case Listen => return;
        case SynSent =>
          TcpSynSent(h);
          return;
        case _ =>
      }
      SyncedSegment(h, data, now);
    }

    /** The states with a connection. */
    method SyncedSegment(h: Header, data: seq<byte>, now: int)
      modifies this, rx
      ensures Model() == SyncedInput(form, old(Model()), h, data, now)
    {
      if (|data| > 0 && rx.rcvWnd == 0) || h.seqno < rx.rcvNxt || h.seqno > rx.rcvNxt + rx.rcvWnd {
        return;
      }
      if h.rst {
        EnterTimeWait();
        return;
      }
      if h.syn || !h.ack {
        return;
      }
      var dropped := Acknowledge(h, now);
      if dropped {
        return;
      }
      var done := QueueEmpty(h);
      if !done {
        TakeText(h, data, now);
      }
    }

    // ------------------------------------------------------ calls and timer expiry

    method Initiate(isn: nat)
      modifies this`iss, this`sndUna, this`sndNxt, this`state
      ensures Model() == Connection.Initiate(old(Model()), isn)
    {
      iss, sndUna, sndNxt := isn, isn, isn;
      state := SynSent;
    }

    method TcpConnect(isn: nat, now: int)
      modifies this
      ensures Model() == ConnectCall(old(Model()), isn, now)
    {
      if state != Close {
        err := IsConn;
        return;
      }
      Initiate(isn);
      QueueTransmitSkb(Fresh([], true, false, false), now);
      ghost var queued := Model();
      sndNxt := sndNxt + 1;
      err := InProgress;
      log := log.(connects := log.connects + 1);
      assert Model() == queued.(tx := queued.tx.(nxt := queued.tx.nxt + 1), err := InProgress,
                                log := queued.log.(connects := queued.log.connects + 1));
    }

    method TcpWrite(buff: seq<byte>, now: int)
      modifies this
      ensures Model() == WriteCall(old(Model()), buff, now)
    {
      if err != NoErr || state !in {Established, CloseWait} {
        return;
      }
      QueueEachKeeps(Model(), Chunks(buff, smss), now);
      TcpSend(buff, now);
      ghost var queued := Model();
      log := log.(accepted := log.accepted + buff);
      assert Model() == queued.(log := queued.log.(accepted := queued.log.accepted + buff));
    }

    method QueueFinSkb(now: int)
      modifies this
      ensures Model() == QueueFin(old(Model()), now)
    {
      QueueTransmitSkb(Fresh([], false, true, false), now);
      ghost var queued := Model();
      log := log.(finsQueued := log.finsQueued + 1);
      assert Model() == queued.(log := queued.log.(finsQueued := queued.log.finsQueued + 1));
    }

    method TcpClose(now: int)
      modifies this, rx
      ensures Model() == CloseSocket(old(Model()), now)
    {
      match state {
        case Listen => TcpDone();
        case SynSent => TcpDone();
        case SynReceived => TcpDone();
        case Established =>
          state := FinWait1;
          QueueFinSkb(now);
        case CloseWait => QueueFinSkb(now);
        case _ => err := BadF;
      }
    }

    method TcpAbort()
      modifies this, rx
      ensures Model() == AbortSocket(old(Model()))
    {
      sndUna := sndNxt;
      TcpDone();
    }

    method TcpConnectRto(now: int)
      modifies this, rx
      ensures Model() == SynExpiry(old(Model()), now)
    {
      retransmit := None;
      if state == SynSent {
        if backoff > CONN_RETRIES {
          err := TimedOut;
          TcpDone();
        } else if writeQueue != [] {
          SendSynAgain(now);
        }
      }
    }

    method SendSynAgain(now: int)
      requires writeQueue != []
      modifies this`log, this`backoff, this`retransmit
      ensures var c := old(Model());
              var c1 := Transmit(c, [FrameOf(c.tx.q[0], c.tx.una)]);
              Model() == Rearm(c1.(rtt := c.rtt.(backoff := c.rtt.backoff + 1)), now)
    {
      Sent([FrameOf(writeQueue[0], sndUna)]);
      backoff := backoff + 1;
      RearmRtoTimer(now);
    }

    method BackOff(now: int)
      modifies this`rto, this`backoff, this`retransmit, this`log
      ensures Model() == Connection.BackOff(old(Model()), now)
    {
      rto := 2 * rto;
      backoff := backoff + 1;
      ArmRtoTimer(now, rto);
    }

    method TcpRetransmissionTimeout(now: int)
      modifies this, rx
      ensures Model() == DataExpiry(old(Model()), now)
    {
      retransmit := None;
      if writeQueue == [] {
        backoff := 0;
        return;
      }
      Sent([FrameOf(writeQueue[0], sndUna)]);
      GiveUpOrBackOff(now);
    }

    /** Behind the retransmission. */
    method GiveUpOrBackOff(now: int)
      requires writeQueue != []
      modifies this, rx
      ensures var c := old(Model());
              Model() == if c.rtt.rto > RTO_LIMIT then Done(c).(err := TimedOut)
                         else if c.tx.q[0].fin then FinSent(Connection.BackOff(c, now)) else Connection.BackOff(c, now)
    {
      if rto > RTO_LIMIT {
        TcpDone();
        err := TimedOut;
        return;
      }
      BackOff(now);
      if writeQueue[0].fin {
        match state {
          case CloseWait => state := LastAck;
          case Established => state := FinWait1;
          case _ =>
        }
      }
    }

    method TcpRead(buff: array<byte>, room: int, now: int) returns (rlen: nat)
      requires Max(room, 0) <= buff.Length
      modifies this, rx, buff
      ensures Model() == Next(form, old(Model()), now, ReadBytes(room))
      ensures rlen <= Max(room, 0) && rx.taken == old(rx.taken) + buff[..rlen]
    {
      rlen := rx.DataDequeue(buff, 0, room);
      assert buff[0..rlen] == buff[..rlen];
    }

    /** Whatever happens to a socket, its model takes the step of Connection. */
    method Handle(e: Event, now: int)
      modifies this, rx
      ensures Model() == Next(form, old(Model()), now, e)
    {
      match e {
        case Connect(isn) => TcpConnect(isn, now);
        case Arrival(h, data) => TcpInputState(h, data, now);
        case Write(bytes) => TcpWrite(bytes, now);
        case ReadBytes(room) =>
          var buff := new byte[Max(room, 0)](_ => 0);
          var _ := TcpRead(buff, room, now);
        case CloseCall => TcpClose(now);
        case Abort => TcpAbort();
        case SynTimer => TcpConnectRto(now);
        case DataTimer => TcpRetransmissionTimeout(now);
        case LingerTimer => TcpDone();
        case UserTimer => TcpAbort();
      }
    }

    // ------------------------------------------------------------------- the reader

    /** A reader that began when `before` had been handed out has put the next rlen bytes
        into buff; the rest of the room is still zero. */
    ghost predicate Reading(buff: array<byte>, rlen: nat, len: int, before: seq<byte>)
      reads rx, buff
    {
      && rlen <= Max(len, 0) <= buff.Length
      && rx.taken == before + buff[..rlen]
      && forall k :: rlen <= k < Max(len, 0) ==> buff[k] == 0
    }

    /** The dequeue of one turn of tcp_receive. */
    method ReadMore(buff: array<byte>, had: nat, len: int, ghost before: seq<byte>) returns (rlen: nat)
      requires Reading(buff, had, len, before) && had < len
      modifies rx, buff
      ensures Model() == Next(form, old(Model()), 0, ReadBytes(len - had))
      ensures rlen == had + Min(len - had, |Bytes(old(rx.receiveQueue))|) && Reading(buff, rlen, len, before)
    {
      DequeueShows(rx.State(), len - had);
      var currlen := rx.DataDequeue(buff, had, len - had);
      rlen := had + currlen;
      ghost var got := buff[had..rlen];
      assert buff[..rlen] == buff[..had] + got;
      Associative(before, buff[..had], got);
      assert forall k :: rlen <= k < len ==> buff[k] == buff[rlen..][k - rlen];
    }

    /** What happens while a reader sleeps: segments, FINs, calls of others, timers. */
    method Sleep(events: seq<(int, Event)>)
      requires forall i :: 0 <= i < |events| ==> !events[i].1.ReadBytes?
      modifies this, rx
      ensures rx.taken == old(rx.taken) && Model() == RunAll(form, old(Model()), events)
    {
      for i := 0 to |events|
        invariant rx.taken == old(rx.taken) && Model() == RunAll(form, old(Model()), events[..i])
      {
        assert events[..i + 1][..i] == events[..i];
        StepTakes(form, Model(), events[i].0, events[i].1);
        Handle(events[i].1, events[i].0);
      }
      assert events[..|events|] == events;
    }

    method Clear(buff: array<byte>, len: int)
      requires Max(len, 0) <= buff.Length
      modifies buff
      ensures Reading(buff, 0, len, rx.taken)
    {
      forall k | 0 <= k < Max(len, 0) {
        buff[k] := 0;
      }
    }

    /** tcp_receive. Each time the reader sleeps, the next batch of `wakeups` happens, which
        may be anything but another reader; with none left it is still asleep. Returns says
        what it comes back with and when: a PSH passed, the room filled, a FIN shown, or
        nothing to wait for. If a FIN was consumed, it does not wait. And let w be the peer's
        stream from number base on, and all that comes genuine. Then buff holds the next
        bytes of w, whatever happens in between, and the rest of it is zero; a receive that
        ends by a FIN has taken all there was: with that FIN consumed, all of w, exactly if
        the FIN was not consumed without the bytes it came with. */
    method TcpReceive(buff: array<byte>, len: int, nonblock: bool, wakeups: seq<seq<(int, Event)>>,
                      ghost w: seq<byte>, ghost base: nat)
        returns (rlen: int, end: ReceiveEnd, ghost turn: nat)
      requires Max(len, 0) <= buff.Length
      requires forall i, j :: 0 <= i < |wakeups| && 0 <= j < |wakeups[i]| ==> !wakeups[i][j].1.ReadBytes?
      modifies this, rx, buff
      ensures Reading(buff, Max(rlen, 0), len, old(rx.taken))
      ensures len <= 0 ==> rlen == 0 && end.Filled? && Model() == old(Model())
      ensures len > 0 ==> turn <= |wakeups|
                          && Returns(form, old(Model()), len, nonblock, wakeups, turn, end, Max(rlen, 0), Model())
      ensures rlen == if end.Nothing? && rx.taken == old(rx.taken) then -EAGAIN else |rx.taken| - |old(rx.taken)|
      ensures len > 0 && nonblock && old(rx.receiveQueue == [] && !rx.pshSeen && !rx.finSeen) ==> rlen == -EAGAIN
      ensures old(Shown(Model())) && log.fins > 0 ==> !end.Nothing? && !end.Asleep?
      ensures old(Heard(Model(), w, base)) && GenuineUpTo(wakeups, |wakeups|, w, base) ==> Heard(Model(), w, base)
      ensures Heard(Model(), w, base) && log.synSeen && irs + 1 == base ==>
                rx.taken <= w && (end.Finished? && Model().log.fins > 0 ==> (rx.taken == w <==> !Model().log.cut))
      ensures match end
              case Filled => rlen == Max(len, 0)
              case Pushed => 0 <= rlen <= len
              case Finished => rx.finSeen && 0 <= rlen < len && rx.receiveQueue == []
              case Nothing => nonblock && rlen != 0 && rlen < len && rx.receiveQueue == []
              case Asleep => !nonblock && 0 <= rlen < len && rx.receiveQueue == []
    {
      var got;
      ghost var c := Model();
      got, end, turn := ReceiveLoop(buff, len, nonblock, wakeups);
      rlen := if end.Nothing? && got == 0 then -EAGAIN else got;
      if len > 0 {
        Consequences(form, c, len, nonblock, wakeups, turn, end, got, Model(), w, base);
      }
      if Heard(Model(), w, base) && Model().log.synSeen && Model().irs + 1 == base {
        AllTaken(Model(), w, base);
      }
    }

    /** The loop of tcp_receive. */
    method ReceiveLoop(buff: array<byte>, len: int, nonblock: bool, wakeups: seq<seq<(int, Event)>>)
        returns (got: nat, end: ReceiveEnd, ghost turn: nat)
      requires Max(len, 0) <= buff.Length
      requires forall i, j :: 0 <= i < |wakeups| && 0 <= j < |wakeups[i]| ==> !wakeups[i][j].1.ReadBytes?
      modifies this, rx, buff
      ensures Reading(buff, got, len, old(rx.taken)) && turn <= |wakeups|
      ensures if len > 0 then Returns(form, old(Model()), len, nonblock, wakeups, turn, end, got, Model())
              else Model() == old(Model()) && end.Filled? && got == 0
    {
      Clear(buff, len);
      ghost var c := Model();
      var slept, done := 0, len <= 0;
      got, end := 0, Filled;
      while !done
        invariant slept <= |wakeups| && Reading(buff, got, len, old(rx.taken))
        invariant Receiving(c, len, nonblock, wakeups, slept, end, got, done)
        decreases |wakeups| - slept, !done
      {
        got, end, done := TakeTurn(buff, got, len, nonblock, slept == |wakeups|, old(rx.taken), c, wakeups, slept);
        if !done {
          GoesOn(form, c, len, nonblock, wakeups, slept, got, Model());
          Sleep(wakeups[slept]);
          slept := slept + 1;
        }
      }
      turn := slept;
    }

    /** The loop stands before a turn, or has returned in it. */
    ghost predicate Receiving(c: Conn, len: int, nonblock: bool, wakeups: seq<seq<(int, Event)>>, turn: nat,
                              end: ReceiveEnd, got: nat, done: bool)
      requires turn <= |wakeups|
      reads this, rx
    {
      if len <= 0 then done && end.Filled? && got == 0 && Model() == c
      else if done then Returns(form, c, len, nonblock, wakeups, turn, end, got, Model())
      else Stands(form, c, len, nonblock, wakeups, turn, got, Model())
    }

    /** One turn of the loop. */
    method TakeTurn(buff: array<byte>, had: nat, len: int, nonblock: bool, forEver: bool, ghost before: seq<byte>,
                    ghost c: Conn, ghost wakeups: seq<seq<(int, Event)>>, ghost turn: nat)
        returns (got: nat, end: ReceiveEnd, done: bool)
      requires Reading(buff, had, len, before) && turn <= |wakeups| && (forEver <==> turn == |wakeups|)
      requires len > 0 && Stands(form, c, len, nonblock, wakeups, turn, had, Model())
      modifies rx, buff
      ensures Reading(buff, got, len, before)
      ensures if done then Returns(form, c, len, nonblock, wakeups, turn, end, got, Model())
              else turn < |wakeups| && Sleeps(form, c, len, nonblock, wakeups, turn, got, Model())
    {
      ghost var b := Model();
      got, end, done := DequeueAndJudge(buff, had, len, nonblock, forEver, before);
      TurnLeads(form, c, len, nonblock, wakeups, turn, had, b, end, got, Model());
    }

    method DequeueAndJudge(buff: array<byte>, had: nat, len: int, nonblock: bool, forEver: bool,
                           ghost before: seq<byte>)
        returns (got: nat, end: ReceiveEnd, done: bool)
      requires Reading(buff, had, len, before) && had < len
      modifies rx, buff
      ensures Reading(buff, got, len, before) && done == (forEver || !end.Asleep?)
      ensures TurnTaken(form, old(Model()), len - had, nonblock, end, got - had, Model())
    {
      ghost var b := Model();
      DequeueShows(b.rx, len - had);
      got := ReadMore(buff, had, len, before);
      end, done := Judge(got, len, nonblock, forEver);
    }

    /** Whether tcp_receive comes back after a dequeue that left it with `got` bytes. */
    method Judge(got: nat, len: int, nonblock: bool, forEver: bool) returns (end: ReceiveEnd, done: bool)
      modifies rx`pshSeen
      ensures end == (if old(rx.pshSeen) then Pushed
                      else if got == len then Filled
                      else if rx.finSeen then Finished
                      else if nonblock then Nothing else Asleep)
      ensures done == (forEver || !end.Asleep?) && rx.pshSeen == false
    {
      if rx.pshSeen {
        rx.pshSeen := false;
        return Pushed, true;
      } else if rx.finSeen || got == len {
        return if got == len then Filled else Finished, true;
      } else if nonblock {
        return Nothing, true;
      }
      return Asleep, forEver;
    }
  }

  /** A socket driven through any events ends in the state the run of Connection
      ends in, so what is proved of runs holds of the object. */
  method Drive(form: Form, smss: Mss, es: seq<(int, Event)>) returns (tsk: TcpSock)
    ensures tsk.form == form && tsk.Model() == RunAll(form, New(smss), es)
  {
    tsk := new TcpSock(form, smss);
    for i := 0 to |es|
      invariant tsk.form == form && tsk.Model() == RunAll(form, New(smss), es[..i])
      invariant fresh(tsk) && fresh(tsk.rx)
    {
      assert es[..i + 1][..i] == es[..i];
      tsk.Handle(es[i].1, es[i].0);
    }
    assert es[..|es|] == es;
  }
}
