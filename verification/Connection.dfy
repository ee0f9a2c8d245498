/** One connection: src/tcp_input.cpp tcp_input_state and what it calls, the close,
    abort and timer paths of src/tcp.cpp and src/tcp_output.cpp, as one step
    function over events. Each event runs under the socket lock. */
module Connection {
  import opened Common
  import opened Reassembly
  import opened SendQueue
  import opened Rto

  datatype State =
    | Listen | SynSent | SynReceived | Established | FinWait1 | FinWait2
    | Close | CloseWait | Closing | LastAck | TimeWait

  datatype Err = NoErr | InProgress | ConnRefused | TimedOut | BadF | IsConn

  /** The header of an arriving segment. */
  datatype Header = Header(seqno: nat, ackSeq: nat, syn: bool, ack: bool, fin: bool, rst: bool, psh: bool)

  /** The history of a socket: what the application got and gave, what was
      acknowledged, the FINs consumed and queued, the connects made, the frames
      sent for queued buffers, when and for how long the retransmission timer was
      last armed, whether the socket is done for, and whether the first FIN was
      consumed without the bytes that came with it. */
  datatype Log = Log(
    taken: seq<byte>, accepted: seq<byte>, acked: seq<byte>,
    synSeen: bool, fins: nat, finsQueued: nat, connects: nat,
    sent: seq<Frame>, armedAt: int, delay: int, ended: bool, cut: bool)

  const NO_LOG := Log([], [], [], false, 0, 0, 0, [], 0, 0, false, false)

  datatype Conn = Conn(
    state: State, err: Err, iss: nat, irs: nat, smss: Mss,
    tx: TxState, rx: RxState, rtt: Rtt, armed: Option<int>, log: Log)

  datatype Event =
    | Connect(iss: nat)
    | Arrival(h: Header, data: seq<byte>)
    | Write(bytes: seq<byte>)
    | ReadBytes(room: int)
    | CloseCall
    | Abort
    | SynTimer
    | DataTimer
    | LingerTimer
    | UserTimer

  /** A new socket; every field starts at zero. */
  function New(smss: Mss): Conn {
    Conn(Close, NoErr, 0, 0, smss,
         TxState(0, 0, [], 0), RxState(0, 44477, [], [], false, false, false),
         Rtt(0, 0, 0, 0), None, NO_LOG)
  }

  const SYN_BACKOFF: int := 500
  const CONN_RETRIES: nat := 3

  // ------------------------------------------------------------- building blocks

  /** The timer is armed to expire after `delay`. */
  function Arm(c: Conn, now: int, delay: int): Conn {
    c.(armed := Some(now + delay), log := c.log.(armedAt := now, delay := delay))
  }

  /** tcp_rearm_rto_timer. */
  function Rearm(c: Conn, now: int): Conn {
    Arm(c, now, if c.state == SynSent then SYN_BACKOFF * Pow2(c.rtt.backoff) else c.rtt.rto)
  }

  /** tcp_transmit_skb for queued buffers. */
  function Transmit(c: Conn, frames: seq<Frame>): Conn {
    c.(log := c.log.(sent := c.log.sent + frames))
  }

  /** tcp_stop_rto_timer. */
  function StopRto(c: Conn): Conn {
    c.(armed := None, rtt := c.rtt.(backoff := 0))
  }

  /** tcp_done: CLOSING is also where a dead socket waits to be collected. */
  function Done(c: Conn): Conn {
    StopRto(c.(state := Closing, rx := c.rx.(ofo := []), log := c.log.(ended := true)))
  }

  /** tcp_enter_time_wait. */
  function EnterTimeWait(c: Conn): Conn {
    StopRto(c.(state := TimeWait))
  }

  /** tcp_queue_transmit_skb with its timer. */
  function Queue(c: Conn, s: TxSeg, now: int): Conn {
    var c1 := if c.tx.q == [] then Rearm(c, now) else c;
    var c2 := if c.tx.inflight == 0 then Transmit(c1, [FrameOf(s, c.tx.nxt)]) else c1;
    c2.(tx := QueueTransmit(c.tx, s))
  }

  function QueueEach(c: Conn, segs: seq<TxSeg>, now: int): Conn
    decreases |segs|
  {
    if segs == [] then c else QueueEach(Queue(c, segs[0], now), segs[1..], now)
  }

  lemma {:induction false} QueueEachKeeps(c: Conn, segs: seq<TxSeg>, now: int)
    ensures var c' := QueueEach(c, segs, now);
            && c' == c.(tx := c'.tx, armed := c'.armed,
                        log := c.log.(sent := c'.log.sent, armedAt := c'.log.armedAt, delay := c'.log.delay))
            && c'.tx == QueueAll(c.tx, segs)
            && c'.tx.una == c.tx.una && c.tx.nxt <= c'.tx.nxt
    decreases |segs|
  {
    if segs == [] {
    } else {
      QueueEachKeeps(Queue(c, segs[0], now), segs[1..], now);
    }
  }

  /** tcp_clean_rto_queue with its timer. */
  function Clean(c: Conn, una: nat): Conn {
    var k := Cleaned(c.tx.q, una);
    var c' := c.(tx := CleanRtoQueue(c.tx, una), log := c.log.(acked := c.log.acked + Payload(c.tx.q[..k])));
    if c'.tx.q == [] || c'.tx.inflight == 0 then StopRto(c') else c'
  }

  // ------------------------------------------------------------ segment arrival

  predicate Unacceptable(c: Conn, h: Header) {
    h.ackSeq <= c.iss || h.ackSeq > c.tx.nxt || h.ackSeq < c.tx.una
  }

  /** Established if our SYN is acknowledged. */
  function Settle(c: Conn): Conn {
    if c.tx.una > c.iss then
      c.(state := Established, err := NoErr, tx := c.tx.(una := c.tx.nxt), rtt := c.rtt.(backoff := 0, rto := 1000))
    else
      c.(state := SynReceived, tx := c.tx.(una := c.iss))
  }

  /** The peer's SYN, with an acceptable ACK or none. */
  function Synchronize(c: Conn, h: Header): Conn {
    var c1 := c.(irs := h.seqno, rx := c.rx.(rcvNxt := h.seqno + 1), log := c.log.(synSeen := true));
    Settle(if h.ack then Clean(c1.(tx := c1.tx.(una := h.ackSeq)), h.ackSeq) else c1)
  }

  /** tcp_synsent. Written: every segment with an ACK is dropped
      (src/tcp_input.cpp:161). Intended: the unacceptable ones are. */
  function SynSentInput(form: Form, c: Conn, h: Header): Conn {
    if h.ack && (form.Written? || Unacceptable(c, h)) then c
    else if h.rst then Done(c.(err := ConnRefused))
    else if !h.syn then c
    else Synchronize(c, h)
  }

  /** Written: an ACK of everything sent is refused (src/tcp_input.cpp:282 and :295).
      Intended: it is taken (section 3.9 of RFC 793). */
  predicate AckFits(form: Form, c: Conn, ackSeq: nat) {
    if form.Written? then ackSeq < c.tx.nxt else ackSeq <= c.tx.nxt
  }

  /** Acknowledgment processing; the second result says that the segment is dropped. */
  function AckInput(form: Form, c: Conn, h: Header, now: int): (Conn, bool) {
    if c.state == SynReceived && !(c.tx.una <= h.ackSeq && AckFits(form, c, h.ackSeq)) then (c, true)
    else if c.state !in {SynReceived, Established, FinWait1, CloseWait, Closing, LastAck} then (c, false)
    else
      var c1 := if c.state == SynReceived then c.(state := Established) else c;
      var c2 := if c1.tx.una < h.ackSeq && AckFits(form, c1, h.ackSeq)
                then Clean(c1.(tx := c1.tx.(una := h.ackSeq), rtt := OnAck(c1.rtt, c1.armed, now)), h.ackSeq)
                else c1;
      (c2, h.ackSeq < c2.tx.una || h.ackSeq > c2.tx.nxt)
  }

  /** What follows when the write queue is empty; the second result says that the
      socket is done. */
  function QueueEmptyInput(c: Conn, h: Header): (Conn, bool) {
    if c.tx.q != [] then (c, false)
    else match c.state
      case FinWait1 => (c.(state := FinWait2), false)
      case Closing => (c.(state := TimeWait), false)
      case LastAck => (Done(c), true)
      case TimeWait => (if c.rx.rcvNxt == h.seqno then c.(rx := c.rx.(finSeen := true)) else c, false)
      case _ => (c, false)
  }

  /** The states in which text is taken. */
  const TEXT_STATES := {Established, FinWait1, FinWait2}

  ghost function TextInput(c: Conn, h: Header, data: seq<byte>): Conn {
    if c.state in TEXT_STATES && (h.psh || data != [])
    then c.(rx := DataQueue(Intended, c.rx, Segment(h.seqno, data, h.psh)))
    else c
  }

  function FinTaken(c: Conn, data: seq<byte>): Conn {
    c.(rx := c.rx.(rcvNxt := c.rx.rcvNxt + 1, finSeen := true, pollIn := true),
       log := c.log.(fins := c.log.fins + 1,
                     cut := c.log.cut || (data != [] && c.state !in TEXT_STATES && c.log.fins == 0)))
  }

  function FinMoves(c: Conn): Conn {
    match c.state
    case Established => c.(state := CloseWait)
    case SynReceived => c.(state := CloseWait)
    case FinWait1 => if c.tx.q == [] then EnterTimeWait(c) else c.(state := Closing)
    case FinWait2 => EnterTimeWait(c)
    case _ => c
  }

  /** The in-sequence FIN of a segment with these bytes. */
  function FinInput(c: Conn, data: seq<byte>): Conn {
    if c.state in {Close, Listen, SynSent} then c else FinMoves(FinTaken(c, data))
  }

  /** Up to three more segments go out once nothing is in flight. */
  function SendMore(form: Form, c: Conn, now: int): Conn {
    var pending := Min(|c.tx.q|, 3);
    if c.state in {Established, FinWait1, FinWait2} && c.tx.inflight == 0 && pending > 0 then
      var tx := SendNext(form, c.tx, pending);
      var c' := Transmit(c, FramesOf(tx.q[..Sends(form, |tx.q|, pending)]));
      Rearm(c'.(tx := tx.(inflight := tx.inflight + pending)), now)
    else c
  }

  /** Sending in turn changes the queue, the timer and what is noted of them. */
  lemma SendMoreKeeps(form: Form, c: Conn, now: int)
    ensures var c' := SendMore(form, c, now);
            && c' == c.(tx := c'.tx, armed := c'.armed,
                        log := c.log.(sent := c'.log.sent, armedAt := c'.log.armedAt, delay := c'.log.delay))
            && c'.tx.una == c.tx.una && c.tx.nxt <= c'.tx.nxt
  {}

  /** Text, FIN and what is sent in turn. */
  ghost function Deliver(form: Form, c: Conn, h: Header, data: seq<byte>, now: int): Conn {
    var expected := h.seqno == c.rx.rcvNxt;
    var c3 := TextInput(c, h, data);
    var c4 := if h.fin && expected then FinInput(c3, data) else c3;
    if expected then SendMore(form, c4, now) else c4
  }

  /** tcp_input_state behind the states without a connection. */
  ghost function SyncedInput(form: Form, c: Conn, h: Header, data: seq<byte>, now: int): Conn {
    if !VerifySegment(c.rx, Segment(h.seqno, data, h.psh)) then c
    else if h.rst then EnterTimeWait(c)
    else if h.syn || !h.ack then c
    else
      var (c1, dropped) := AckInput(form, c, h, now);
      if dropped then c1 else AckedInput(form, c1, h, data, now)
  }

  /** What follows the acknowledgment. */
  ghost function AckedInput(form: Form, c: Conn, h: Header, data: seq<byte>, now: int): Conn {
    var (c', done) := QueueEmptyInput(c, h);
    if done then c' else Deliver(form, c', h, data, now)
  }

  /** tcp_input_state. */
  ghost function Input(form: Form, c: Conn, h: Header, data: seq<byte>, now: int): Conn {
    match c.state
    case Close => if h.rst then c else c.(tx := c.tx.(una := c.tx.nxt))
    case Listen => c
    case SynSent => SynSentInput(form, c, h)
    case _ => SyncedInput(form, c, h, data, now)
  }

  // ------------------------------------------------------ calls and timer expiry

  /** tcp_connect up to tcp_send_syn. */
  function Initiate(c: Conn, iss: nat): Conn {
    c.(iss := iss, state := SynSent, tx := c.tx.(una := iss, nxt := iss))
  }

  /** inet_stream_connect and tcp_connect. */
  function ConnectCall(c: Conn, iss: nat, now: int): Conn {
    if c.state != Close then c.(err := IsConn)
    else
      var c2 := Queue(Initiate(c, iss), Fresh([], true, false, false), now);
      c2.(tx := c2.tx.(nxt := c2.tx.nxt + 1), err := InProgress, log := c2.log.(connects := c2.log.connects + 1))
  }

  /** tcp_write. */
  function WriteCall(c: Conn, bytes: seq<byte>, now: int): Conn {
    if c.err != NoErr || c.state !in {Established, CloseWait} then c
    else
      var c' := QueueEach(c, Chunks(bytes, c.smss), now);
      c'.(log := c'.log.(accepted := c'.log.accepted + bytes))
  }

  /** tcp_queue_fin. */
  function QueueFin(c: Conn, now: int): Conn {
    var c' := Queue(c, Fresh([], false, true, false), now);
    c'.(log := c'.log.(finsQueued := c'.log.finsQueued + 1))
  }

  /** tcp_close. */
  function CloseSocket(c: Conn, now: int): Conn {
    match c.state
    case Listen => Done(c)
    case SynSent => Done(c)
    case SynReceived => Done(c)
    case Established => QueueFin(c.(state := FinWait1), now)
    case CloseWait => QueueFin(c, now)
    case _ => c.(err := BadF)
  }

  /** tcp_abort: the reset counts everything as acknowledged. */
  function AbortSocket(c: Conn): Conn {
    Done(c.(tx := c.tx.(una := c.tx.nxt)))
  }

  /** tcp_connect_rto. */
  function SynExpiry(c: Conn, now: int): Conn {
    var c' := c.(armed := None);
    if c.state != SynSent then c'
    else if c.rtt.backoff > CONN_RETRIES then Done(c'.(err := TimedOut))
    else if c.tx.q == [] then c'
    else Rearm(Transmit(c', [FrameOf(c.tx.q[0], c.tx.una)]).(rtt := c.rtt.(backoff := c.rtt.backoff + 1)), now)
  }

  /** tcp_handle_fin_state. */
  function FinSent(c: Conn): Conn {
    match c.state
    case CloseWait => c.(state := LastAck)
    case Established => c.(state := FinWait1)
    case _ => c
  }

  /** The timeout doubles (section 5.5 of RFC 6298). */
  function BackOff(c: Conn, now: int): Conn {
    Arm(c.(rtt := c.rtt.(rto := 2 * c.rtt.rto, backoff := c.rtt.backoff + 1)), now, 2 * c.rtt.rto)
  }

  /** tcp_retransmission_timeout. */
  function DataExpiry(c: Conn, now: int): Conn {
    if c.tx.q == [] then c.(armed := None, rtt := c.rtt.(backoff := 0))
    else
      var c1 := Transmit(c.(armed := None), [FrameOf(c.tx.q[0], c.tx.una)]);
      if c.rtt.rto > RTO_LIMIT then Done(c1).(err := TimedOut)
      else
        if c.tx.q[0].fin then FinSent(BackOff(c1, now)) else BackOff(c1, now)
  }

  ghost function Next(form: Form, c: Conn, now: int, e: Event): Conn {
    match e
    case Connect(iss) => ConnectCall(c, iss, now)
    case Arrival(h, data) => Input(form, c, h, data, now)
    case Write(bytes) => WriteCall(c, bytes, now)
    case ReadBytes(room) =>
      var (out, rx) := DataDequeue(c.rx, room);
      c.(rx := rx, log := c.log.(taken := c.log.taken + out))
    case CloseCall => CloseSocket(c, now)
    case Abort => AbortSocket(c)
    case SynTimer => SynExpiry(c, now)
    case DataTimer => DataExpiry(c, now)
    case LingerTimer => Done(c)
    case UserTimer => AbortSocket(c)
  }

  /** A run: any events at any times. */
  ghost function RunAll(form: Form, c: Conn, es: seq<(int, Event)>): Conn {
    if es == [] then c
    else
      var k := |es| - 1;
      Next(form, RunAll(form, c, es[..k]), es[k].0, es[k].1)
  }
}
