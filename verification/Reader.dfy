/** What tcp_receive comes back with, turn by turn: each turn takes what is queued and
    then looks at PSH, FIN and room, in this order, before it goes to sleep. */
module Reader {
  import opened Common
  import opened Reassembly
  import opened Connection
  import opened Delivery
  import opened Readable
  import opened ReceiveStream

  /** Why a receive came back: the room is full, a PSH was passed, a FIN was seen, there was
      nothing and no leave to wait; or that it is still asleep. */
  datatype ReceiveEnd = Filled | Pushed | Finished | Nothing | Asleep

  /** A reader with this room gets to the i-th segment and takes all of it. */
  predicate Finishes(q: seq<Segment>, i: nat, room: nat) {
    i < |q| && |Bytes(q[..i])| < room && |Bytes(q[..i + 1])| <= room
  }

  /** The reader takes all of some segment with PSH. */
  ghost predicate PassesPush(q: seq<Segment>, room: nat) {
    exists i :: 0 <= i < |q| && q[i].psh && Finishes(q, i, room)
  }

  lemma FinishesLater(q: seq<Segment>, i: nat, room: nat)
    requires q != [] && |q[0].data| <= room && 0 < i < |q|
    ensures Finishes(q, i, room) <==> room > 0 && Finishes(q[1..], i - 1, room - |q[0].data|)
  {
    assert q[..i][1..] == q[1..][..i - 1] && q[..i + 1][1..] == q[1..][..i];
  }

  /** A dequeue notes a PSH exactly if it takes all of a segment that has one. */
  lemma {:induction false} TakePush(q: seq<Segment>, room: nat)
    ensures Take(q, room).psh <==> PassesPush(q, room)
  {
    if q == [] || room == 0 {
    } else {
      assert q[..1][1..] == [] && |Bytes(q[..1])| == |q[0].data|;
      if |q[0].data| <= room {
        TakePush(q[1..], room - |q[0].data|);
        PushLater(q, room);
      } else {
        NothingFinished(q, room);
      }
    }
  }

  lemma PushLater(q: seq<Segment>, room: nat)
    requires q != [] && |q[0].data| <= room && room > 0
    ensures PassesPush(q, room) <==> q[0].psh || PassesPush(q[1..], room - |q[0].data|)
  {
    assert q[..1][1..] == [] && |Bytes(q[..1])| == |q[0].data|;
    var rest, left := q[1..], room - |q[0].data|;
    if PassesPush(q, room) {
      var i :| 0 <= i < |q| && q[i].psh && Finishes(q, i, room);
      if i > 0 {
        FinishesLater(q, i, room);
        assert rest[i - 1].psh && Finishes(rest, i - 1, left);
      }
    }
    if q[0].psh {
      assert Finishes(q, 0, room);
    } else if PassesPush(rest, left) {
      var i :| 0 <= i < |rest| && rest[i].psh && Finishes(rest, i, left);
      FinishesLater(q, i + 1, room);
      assert q[i + 1].psh;
    }
  }

  lemma NothingFinished(q: seq<Segment>, room: nat)
    requires q != [] && |q[0].data| > room
    ensures !PassesPush(q, room)
  {
    forall i | 0 <= i < |q|
      ensures !Finishes(q, i, room)
    {
      assert q[..i + 1][0] == q[0];
    }
  }

  // ------------------------------------------------------------------ one turn

  /** How a turn ends that finds the receiver like this and has this room. Asleep is the
      only end after which tcp_receive goes on. */
  ghost predicate TurnEnds(st: RxState, room: nat, nonblock: bool, end: ReceiveEnd) {
    var pushed, queued := st.pshSeen || PassesPush(st.recv, room), |Bytes(st.recv)|;
    match end
    case Pushed => pushed
    case Filled => !pushed && queued >= room
    case Finished => !pushed && queued < room && st.finSeen
    case Nothing => !pushed && queued < room && !st.finSeen && nonblock
    case Asleep => !pushed && queued < room && !st.finSeen && !nonblock
  }

  /** The socket after the turn: the bytes are taken, and a PSH that ended it is forgotten. */
  ghost function AfterTurn(form: Form, b: Conn, room: nat, end: ReceiveEnd): Conn {
    var c := Next(form, b, 0, ReadBytes(room));
    if end.Pushed? then c.(rx := c.rx.(pshSeen := false)) else c
  }

  /** What a turn finds in the fields once it has taken the bytes. */
  lemma DequeueShows(st: RxState, room: nat)
    ensures var (out, st') := DataDequeue(st, room);
            && |out| == Min(room, |Bytes(st.recv)|) && (|out| < room ==> st'.recv == [])
            && st'.finSeen == st.finSeen && (st'.pshSeen <==> st.pshSeen || PassesPush(st.recv, room))
  {
    TakeSplits(st.recv, room);
    TakePush(st.recv, room);
    TakeAll(st.recv, room);
  }

  lemma {:induction false} TakeAll(q: seq<Segment>, room: nat)
    ensures var t := Take(q, room); t.rest == [] || |t.out| == room
  {
    if q == [] || room == 0 {
    } else if |q[0].data| <= room {
      TakeAll(q[1..], room - |q[0].data|);
    }
  }

  // ------------------------------------------------------------- turn after turn

  /** The socket, and the bytes read, before the k-th turn: after each turn before it
      tcp_receive has slept through the next batch of events. */
  ghost function BeforeTurn(form: Form, c: Conn, len: nat, wakeups: seq<seq<(int, Event)>>, k: nat): (Conn, nat)
    requires k <= |wakeups|
  {
    if k == 0 then (c, 0)
    else
      var (b, had) := BeforeTurn(form, c, len, wakeups, k - 1);
      var room := if had < len then len - had else 0;
      (RunAll(form, Next(form, b, 0, ReadBytes(room)), wakeups[k - 1]), had + Min(room, |Bytes(b.rx.recv)|))
  }

  /** The k-th turn goes to sleep. */
  ghost predicate SleepsAt(form: Form, c: Conn, len: nat, wakeups: seq<seq<(int, Event)>>, k: nat)
    requires k <= |wakeups|
  {
    var (b, had) := BeforeTurn(form, c, len, wakeups, k);
    had < len && TurnEnds(b.rx, len - had, false, Asleep)
  }

  /** A receive that has come back in turn k: every turn before it went to sleep, it ended
      like this, with so many bytes read, and has left the socket like this. */
  ghost predicate Returns(form: Form, c: Conn, len: nat, nonblock: bool, wakeups: seq<seq<(int, Event)>>,
                          k: nat, end: ReceiveEnd, got: nat, c': Conn)
    requires k <= |wakeups|
  {
    var (b, had) := BeforeTurn(form, c, len, wakeups, k);
    && had < len && TurnEnds(b.rx, len - had, nonblock, end)
    && got == had + Min(len - had, |Bytes(b.rx.recv)|) && c' == AfterTurn(form, b, len - had, end)
    && (k > 0 ==> !nonblock) && (forall j :: 0 <= j < k ==> SleepsAt(form, c, len, wakeups, j))
    && (end.Asleep? ==> k == |wakeups|)
  }

  /** Before turn k of a receive that has slept after every turn so far. */
  ghost predicate Stands(form: Form, c: Conn, len: nat, nonblock: bool, wakeups: seq<seq<(int, Event)>>,
                         k: nat, had: nat, b: Conn)
    requires k <= |wakeups|
  {
    && (b, had) == BeforeTurn(form, c, len, wakeups, k) && had < len
    && (k > 0 ==> !nonblock) && forall j :: 0 <= j < k ==> SleepsAt(form, c, len, wakeups, j)
  }

  /** Turn k has gone to sleep. */
  ghost predicate Sleeps(form: Form, c: Conn, len: nat, nonblock: bool, wakeups: seq<seq<(int, Event)>>,
                         k: nat, got: nat, after: Conn)
    requires k <= |wakeups|
  {
    var (b, had) := BeforeTurn(form, c, len, wakeups, k);
    && Stands(form, c, len, nonblock, wakeups, k, had, b) && SleepsAt(form, c, len, wakeups, k) && !nonblock
    && got == had + Min(len - had, |Bytes(b.rx.recv)|) && after == Next(form, b, 0, ReadBytes(len - had))
  }

  /** One turn from b to c' with this room. */
  ghost predicate TurnTaken(form: Form, b: Conn, room: nat, nonblock: bool, end: ReceiveEnd, got: int, c': Conn) {
    TurnEnds(b.rx, room, nonblock, end) && got == Min(room, |Bytes(b.rx.recv)|) && c' == AfterTurn(form, b, room, end)
  }

  lemma TurnLeads(form: Form, c: Conn, len: nat, nonblock: bool, wakeups: seq<seq<(int, Event)>>,
                  k: nat, had: nat, b: Conn, end: ReceiveEnd, got: nat, c': Conn)
    requires k <= |wakeups| && Stands(form, c, len, nonblock, wakeups, k, had, b)
    requires TurnTaken(form, b, len - had, nonblock, end, got - had, c')
    ensures if end.Asleep? && k < |wakeups| then Sleeps(form, c, len, nonblock, wakeups, k, got, c')
            else Returns(form, c, len, nonblock, wakeups, k, end, got, c')
  {}

  lemma GoesOn(form: Form, c: Conn, len: nat, nonblock: bool, wakeups: seq<seq<(int, Event)>>,
               k: nat, got: nat, after: Conn)
    requires k < |wakeups| && Sleeps(form, c, len, nonblock, wakeups, k, got, after)
    ensures Stands(form, c, len, nonblock, wakeups, k + 1, got, RunAll(form, after, wakeups[k]))
  {}

  /** Whatever happens in between, a receive that comes back with nothing to wait for or
      is left asleep has not met a consumed FIN; so an ended stream wakes its reader. */
  lemma {:induction false} EndIsSeen(form: Form, c: Conn, len: nat, nonblock: bool, wakeups: seq<seq<(int, Event)>>,
                                     k: nat, end: ReceiveEnd, got: nat, c': Conn)
    requires Shown(c) && k <= |wakeups| && Returns(form, c, len, nonblock, wakeups, k, end, got, c')
    ensures c'.log.fins > 0 ==> !end.Nothing? && !end.Asleep?
  {
    TurnShows(form, c, len, wakeups, k);
  }

  lemma {:induction false} TurnShows(form: Form, c: Conn, len: nat, wakeups: seq<seq<(int, Event)>>, k: nat)
    requires Shown(c) && k <= |wakeups|
    ensures Shown(BeforeTurn(form, c, len, wakeups, k).0)
  {
    if k == 0 {
    } else {
      var (b, had) := BeforeTurn(form, c, len, wakeups, k - 1);
      var room := if had < len then len - had else 0;
      TurnShows(form, c, len, wakeups, k - 1);
      StepShows(form, b, 0, ReadBytes(room));
      ShowsFrom(form, Next(form, b, 0, ReadBytes(room)), wakeups[k - 1]);
    }
  }

  lemma {:induction false} ShowsFrom(form: Form, c: Conn, es: seq<(int, Event)>)
    requires Shown(c)
    ensures Shown(RunAll(form, c, es))
  {
    if es == [] {
    } else {
      var k := |es| - 1;
      ShowsFrom(form, c, es[..k]);
      StepShows(form, RunAll(form, c, es[..k]), es[k].0, es[k].1);
    }
  }

  /** What the first k sleeps bring is the peer's. */
  ghost predicate GenuineUpTo(wakeups: seq<seq<(int, Event)>>, k: nat, w: seq<byte>, base: nat)
    requires k <= |wakeups|
  {
    forall i :: 0 <= i < k ==> AllGenuine(wakeups[i], w, base)
  }

  lemma {:induction false} TurnHears(form: Form, c: Conn, len: nat, wakeups: seq<seq<(int, Event)>>, k: nat,
                                     w: seq<byte>, base: nat)
    requires k <= |wakeups| && Heard(c, w, base) && GenuineUpTo(wakeups, k, w, base)
    ensures Heard(BeforeTurn(form, c, len, wakeups, k).0, w, base)
  {
    if k == 0 {
    } else {
      assert AllGenuine(wakeups[k - 1], w, base);
      TurnHears(form, c, len, wakeups, k - 1, w, base);
      NextTurnHears(form, c, len, wakeups, k, w, base);
    }
  }

  lemma {:induction false} NextTurnHears(form: Form, c: Conn, len: nat, wakeups: seq<seq<(int, Event)>>, k: nat,
                                         w: seq<byte>, base: nat)
    requires 0 < k <= |wakeups| && AllGenuine(wakeups[k - 1], w, base)
    requires Heard(BeforeTurn(form, c, len, wakeups, k - 1).0, w, base)
    ensures Heard(BeforeTurn(form, c, len, wakeups, k).0, w, base)
  {
    var (b, had) := BeforeTurn(form, c, len, wakeups, k - 1);
    SleepHears(form, b, if had < len then len - had else 0, wakeups[k - 1], w, base);
  }

  lemma {:induction false} SleepHears(form: Form, b: Conn, room: nat, es: seq<(int, Event)>, w: seq<byte>, base: nat)
    requires Heard(b, w, base) && AllGenuine(es, w, base)
    ensures Heard(RunAll(form, Next(form, b, 0, ReadBytes(room)), es), w, base)
  {
    StepHears(form, b, 0, ReadBytes(room), w, base);
    HearsFrom(form, Next(form, b, 0, ReadBytes(room)), es, w, base);
  }

  lemma {:induction false} HearsFrom(form: Form, c: Conn, es: seq<(int, Event)>, w: seq<byte>, base: nat)
    requires Heard(c, w, base) && AllGenuine(es, w, base)
    ensures Heard(RunAll(form, c, es), w, base)
  {
    if es == [] {
    } else {
      var k := |es| - 1;
      HearsFrom(form, c, es[..k], w, base);
      StepHears(form, RunAll(form, c, es[..k]), es[k].0, es[k].1, w, base);
    }
  }

  /** What a receive leaves behind is still the beginning of the peer's stream. */
  lemma {:induction false} ReturnsHear(form: Form, c: Conn, len: nat, nonblock: bool, wakeups: seq<seq<(int, Event)>>,
                                       k: nat, end: ReceiveEnd, got: nat, c': Conn, w: seq<byte>, base: nat)
    requires k <= |wakeups| && Returns(form, c, len, nonblock, wakeups, k, end, got, c')
    requires Heard(c, w, base) && GenuineUpTo(wakeups, k, w, base)
    ensures Heard(c', w, base)
  {
    var (b, had) := BeforeTurn(form, c, len, wakeups, k);
    TurnHears(form, c, len, wakeups, k, w, base);
    StepHears(form, b, 0, ReadBytes(len - had), w, base);
  }

  /** A reader has the beginning of w; with nothing left to take after a FIN, all of it,
      unless the FIN was consumed without its bytes. */
  lemma AllTaken(c: Conn, w: seq<byte>, base: nat)
    requires Heard(c, w, base) && c.log.synSeen && c.irs + 1 == base
    ensures c.log.taken <= w && (c.rx.recv == [] && c.log.fins > 0 ==> (c.log.taken == w <==> !c.log.cut))
  {
    assert c.log.taken <= Stream(c);
    assert c.rx.recv == [] ==> Stream(c) == c.log.taken;
  }

  /** A receive that ends by a FIN has left nothing queued. */
  lemma FinishedEmpty(form: Form, c: Conn, len: nat, nonblock: bool, wakeups: seq<seq<(int, Event)>>,
                      k: nat, end: ReceiveEnd, got: nat, c': Conn)
    requires k <= |wakeups| && Returns(form, c, len, nonblock, wakeups, k, end, got, c')
    ensures !end.Pushed? && !end.Filled? ==> c'.rx.recv == [] && got < len
    ensures end.Finished? ==> c'.rx.finSeen
  {
    var (b, had) := BeforeTurn(form, c, len, wakeups, k);
    DequeueShows(b.rx, len - had);
  }

  /** All this together. */
  lemma {:induction false} Consequences(form: Form, c: Conn, len: nat, nonblock: bool, wakeups: seq<seq<(int, Event)>>,
                                        k: nat, end: ReceiveEnd, got: nat, c': Conn, w: seq<byte>, base: nat)
    requires k <= |wakeups| && Returns(form, c, len, nonblock, wakeups, k, end, got, c')
    ensures Shown(c) && c'.log.fins > 0 ==> !end.Nothing? && !end.Asleep?
    ensures Heard(c, w, base) && GenuineUpTo(wakeups, |wakeups|, w, base) ==> Heard(c', w, base)
    ensures !end.Pushed? && !end.Filled? ==> c'.rx.recv == [] && got < len
    ensures end.Finished? ==> c'.rx.finSeen
    ensures end.Filled? ==> got == len
    ensures end.Nothing? ==> nonblock
    ensures end.Asleep? ==> !nonblock
  {
    FinishedEmpty(form, c, len, nonblock, wakeups, k, end, got, c');
    if Shown(c) {
      EndIsSeen(form, c, len, nonblock, wakeups, k, end, got, c');
    }
    if Heard(c, w, base) && GenuineUpTo(wakeups, |wakeups|, w, base) {
      ReturnsHear(form, c, len, nonblock, wakeups, k, end, got, c', w, base);
    }
  }
}
