/** src/tcp_data.cpp and the reader in src/tcp_input.cpp: what the receive path
    makes of the segments it is given, as functions on values. */
module Reassembly {
  import opened Common

  /** A received buffer: its sequence number, the payload bytes not yet read, and
      the PSH flag of its header. */
  datatype Segment = Segment(seqno: nat, data: seq<byte>, psh: bool) {
    function End(): nat {
      seqno + |data|
    }
  }

  // --------------------------------------------------- the out-of-order queue

  /** Where the scan of tcp_data_insert_ordered ends. */
  datatype Slot = Before(at: nat) | Duplicate(at: nat) | Tail

  /** The scan from position i on. A segment that reaches into a later one cannot
      be joined with it; the scan reports that and goes on. */
  function Scan(q: seq<Segment>, s: Segment, i: nat): (slot: Slot)
    requires i <= |q|
    ensures !slot.Tail? ==> i <= slot.at < |q|
    decreases |q| - i
  {
    if i == |q| then Tail
    else if s.seqno < q[i].seqno && s.End() <= q[i].seqno then Before(i)
    else if s.seqno == q[i].seqno then Duplicate(i)
    else Scan(q, s, i + 1)
  }

  /** What a walk along the queue finds after x was sorted in. Written: returning
      from the callback only ends the scan (src/tcp_data.cpp:18 and :21), so x is
      always appended as well, and appending a node that was just linked cuts off
      what stood behind it (see OrderedInsert). Intended: the scan result decides. */
  function Place<T>(form: Form, q: seq<T>, slot: Slot, x: T): seq<T>
    requires !slot.Tail? ==> slot.at < |q|
  {
    match slot
    case Tail => q + [x]
    case Before(i) => if form.Written? then q[..i] + [x] else q[..i] + [x] + q[i..]
    case Duplicate(_) => if form.Written? then q + [x] else q
  }

  /** tcp_data_insert_ordered. */
  function InsertOrdered(form: Form, q: seq<Segment>, s: Segment): seq<Segment> {
    Place(form, q, Scan(q, s, 0), s)
  }

  /** Increasing, without overlaps, and every segment has a byte. */
  ghost predicate SortedDisjoint(q: seq<Segment>) {
    && (forall i :: 0 <= i < |q| ==> |q[i].data| > 0)
    && (forall i, j :: 0 <= i < j < |q| ==> q[i].End() <= q[j].seqno)
  }

  ghost predicate SameSpan(a: Segment, b: Segment) {
    a.seqno == b.seqno && |a.data| == |b.data|
  }

  ghost predicate Disjoint(a: Segment, b: Segment) {
    a.End() <= b.seqno || b.End() <= a.seqno
  }

  ghost predicate HasSpan(q: seq<Segment>, s: Segment) {
    exists i :: 0 <= i < |q| && SameSpan(q[i], s)
  }

  /** The scan of a sorted queue finds the first segment that is not below s. */
  lemma {:induction false} ScanSorted(q: seq<Segment>, s: Segment, i: nat)
    requires SortedDisjoint(q) && |s.data| > 0 && i <= |q|
    requires forall k :: 0 <= k < i ==> q[k].seqno < s.seqno || s.End() > q[k].seqno > s.seqno
    ensures var slot := Scan(q, s, i);
            && (slot.Duplicate? ==> q[slot.at].seqno == s.seqno)
            && (slot.Before? ==> s.End() <= q[slot.at].seqno)
            && (forall k :: 0 <= k < (if slot.Tail? then |q| else slot.at) ==>
                  q[k].seqno < s.seqno || s.End() > q[k].seqno > s.seqno)
    decreases |q| - i
  {
    if i < |q| && Scan(q, s, i) == Scan(q, s, i + 1) && Scan(q, s, i) != Before(i) && Scan(q, s, i) != Duplicate(i) {
      ScanSorted(q, s, i + 1);
    }
  }

  function InsertAt(q: seq<Segment>, i: nat, s: Segment): seq<Segment>
    requires i <= |q|
  {
    q[..i] + [s] + q[i..]
  }

  lemma InsertAtSorted(q: seq<Segment>, i: nat, s: Segment)
    requires SortedDisjoint(q) && |s.data| > 0 && i <= |q|
    ensures SortedDisjoint(InsertAt(q, i, s)) <==>
            (i > 0 ==> q[i - 1].End() <= s.seqno) && (i < |q| ==> s.End() <= q[i].seqno)
  {
    var r := InsertAt(q, i, s);
    assert r[i] == s && (i > 0 ==> r[i - 1] == q[i - 1]) && (i < |q| ==> r[i + 1] == q[i]);
    if (i > 0 ==> q[i - 1].End() <= s.seqno) && (i < |q| ==> s.End() <= q[i].seqno) {
      forall j, k | 0 <= j < k < |r|
        ensures r[j].End() <= r[k].seqno
      {
        assert j != i ==> r[j] == q[if j < i then j else j - 1];
        assert k != i ==> r[k] == q[if k < i then k else k - 1];
      }
    }
  }

  /** Inserting into a sorted queue keeps it sorted exactly when the segment is
      already queued under its sequence number or overlaps nothing: joining
      overlapping segments is not implemented. */
  lemma InsertKeepsOrder(q: seq<Segment>, s: Segment)
    requires SortedDisjoint(q) && |s.data| > 0
    ensures SortedDisjoint(InsertOrdered(Intended, q, s)) <==>
            || (exists i :: 0 <= i < |q| && q[i].seqno == s.seqno)
            || (forall i :: 0 <= i < |q| ==> Disjoint(q[i], s))
  {
    ScanSorted(q, s, 0);
    match Scan(q, s, 0)
    case Duplicate(_) =>
    case Before(i) =>
      InsertAtSorted(q, i, s);
      assert InsertOrdered(Intended, q, s) == InsertAt(q, i, s);
    case Tail =>
      InsertAtSorted(q, |q|, s);
      assert InsertOrdered(Intended, q, s) == InsertAt(q, |q|, s);
  }

  /** Whatever the queue holds, an insertion adds nothing but s. */
  lemma InsertAdds(q: seq<Segment>, s: Segment, i: nat)
    requires i < |InsertOrdered(Intended, q, s)|
    ensures InsertOrdered(Intended, q, s)[i] == s || InsertOrdered(Intended, q, s)[i] in q
  {}

  lemma InsertAtMultiset(q: seq<Segment>, i: nat, s: Segment)
    requires i <= |q|
    ensures multiset(InsertAt(q, i, s)) == multiset(q) + multiset{s}
  {
    assert q == q[..i] + q[i..];
  }

  /** With pieces that are equal or disjoint, an insertion keeps the order; a
      piece that is there already changes nothing, any other is added once. */
  lemma InsertContents(q: seq<Segment>, s: Segment)
    requires SortedDisjoint(q) && |s.data| > 0
    requires forall i :: 0 <= i < |q| ==> SameSpan(q[i], s) || Disjoint(q[i], s)
    ensures var r := InsertOrdered(Intended, q, s);
            && SortedDisjoint(r)
            && (if HasSpan(q, s) then r == q else multiset(r) == multiset(q) + multiset{s})
  {
    InsertKeepsOrder(q, s);
    DuplicateIsQueued(q, s);
    match Scan(q, s, 0)
    case Duplicate(i) =>
    case Before(i) =>
      InsertAtMultiset(q, i, s);
      assert InsertOrdered(Intended, q, s) == InsertAt(q, i, s);
    case Tail =>
  }

  lemma DuplicateIsQueued(q: seq<Segment>, s: Segment)
    requires SortedDisjoint(q) && |s.data| > 0
    requires forall i :: 0 <= i < |q| ==> SameSpan(q[i], s) || Disjoint(q[i], s)
    ensures Scan(q, s, 0).Duplicate? <==> HasSpan(q, s)
  {
    ScanSorted(q, s, 0);
    if Scan(q, s, 0).Duplicate? {
      assert SameSpan(q[Scan(q, s, 0).at], s);
    }
  }

  lemma {:induction false} ScanToTail(q: seq<Segment>, s: Segment, i: nat)
    requires i <= |q|
    ensures Scan(q, s, i).Tail? <==>
            forall k :: i <= k < |q| ==> q[k].seqno != s.seqno && !(s.seqno < q[k].seqno && s.End() <= q[k].seqno)
    decreases |q| - i
  {
    if i == |q| {
    } else {
      ScanToTail(q, s, i + 1);
    }
  }

  /** As written, the call meets its intent exactly when no queued segment has the
      number of s or lies wholly above it: otherwise it loses the queue behind the
      segment or queues it twice. */
  lemma WrittenInsertMeetsIntent(q: seq<Segment>, s: Segment)
    ensures InsertOrdered(Written, q, s) == InsertOrdered(Intended, q, s) <==>
            forall i :: 0 <= i < |q| ==> q[i].seqno != s.seqno && !(s.seqno < q[i].seqno && s.End() <= q[i].seqno)
  {
    ScanToTail(q, s, 0);
    var w, r := InsertOrdered(Written, q, s), InsertOrdered(Intended, q, s);
    match Scan(q, s, 0)
    case Before(i) => assert |w| == i + 1 < |r|;
    case Duplicate(_) => assert |w| == |q| + 1 > |r|;
    case Tail =>
  }

  /** Three segments arriving as 30, 10, 20: the last insertion drops 30. */
  lemma WrittenInsertLoses()
    ensures var a, b, c := Segment(30, [1], false), Segment(10, [2], false), Segment(20, [3], false);
            && InsertOrdered(Intended, InsertOrdered(Intended, [a], b), c) == [b, c, a]
            && InsertOrdered(Written, [b, a], c) == [b, c]
  {
    var a, b, c := Segment(30, [1], false), Segment(10, [2], false), Segment(20, [3], false);
    assert Scan([a], b, 0) == Before(0);
    assert InsertOrdered(Intended, [a], b) == [b, a];
    assert Scan([b, a], c, 0) == Scan([b, a], c, 1) == Before(1);
    assert [b, a][..1] == [b];
  }

  // ------------------------------------------------------------ receive state

  /** The receive half of a socket. */
  datatype RxState = RxState(
    rcvNxt: nat,
    rcvWnd: nat,
    ofo: seq<Segment>,
    recv: seq<Segment>,
    pshSeen: bool,
    finSeen: bool,
    pollIn: bool)

  function Bytes(q: seq<Segment>): seq<byte> {
    if q == [] then [] else q[0].data + Bytes(q[1..])
  }

  /** One turn of tcp_consume_ofo_queue. Written: the buffer goes back to the end
      of the queue it came from (src/tcp_data.cpp:40). Intended: to the reader. */
  function ConsumeOnce(form: Form, st: RxState): RxState
    requires st.ofo != []
  {
    var skb := st.ofo[0];
    var st' := st.(rcvNxt := st.rcvNxt + |skb.data|, ofo := st.ofo[1..]);
    if form.Written? then st'.(ofo := st'.ofo + [skb]) else st'.(recv := st'.recv + [skb])
  }

  predicate Consumable(st: RxState) {
    st.ofo != [] && st.ofo[0].seqno == st.rcvNxt
  }

  /** At most n turns of the loop. */
  function Turns(form: Form, st: RxState, n: nat): RxState
    decreases n
  {
    if n == 0 || !Consumable(st) then st else Turns(form, ConsumeOnce(form, st), n - 1)
  }

  /** Every queued segment is empty and where rcvNxt stands, and there is one. */
  predicate Spins(q: seq<Segment>, rcvNxt: nat) {
    q != [] && q[0].data == [] && forall i :: 0 <= i < |q| ==> q[i].seqno == rcvNxt && q[i].data == []
  }

  /** tcp_consume_ofo_queue. The loop ends within as many turns as segments are
      queued, or not at all: see WrittenConsumeSpins. */
  function Consume(form: Form, st: RxState): RxState
    requires form.Intended? || !Spins(st.ofo, st.rcvNxt)
    decreases |st.ofo|
  {
    if form.Written? then Turns(form, st, |st.ofo|)
    else if !Consumable(st) then st
    else Consume(form, ConsumeOnce(form, st))
  }

  /** Moved to the end one after the other, the first n segments raise rcvNxt by
      their bytes. */
  lemma {:induction false} TurnsRotate(st: RxState, n: nat)
    requires n <= |st.ofo| && forall k :: 0 <= k < n ==> Consumable(Turns(Written, st, k))
    ensures Turns(Written, st, n) == st.(rcvNxt := st.rcvNxt + |Bytes(st.ofo[..n])|, ofo := st.ofo[n..] + st.ofo[..n])
  {
    if n == 0 {
      assert st.ofo[0..] + st.ofo[..0] == st.ofo;
    } else {
      TurnsRotate(st, n - 1);
      TurnsOneMore(Written, st, n - 1);
      assert Consumable(Turns(Written, st, n - 1));
      Rotated(st.ofo, n);
    }
  }

  lemma Rotated(q: seq<Segment>, n: nat)
    requires 0 < n <= |q|
    ensures (q[n - 1..] + q[..n - 1])[1..] + [q[n - 1]] == q[n..] + q[..n] && (q[n - 1..] + q[..n - 1])[0] == q[n - 1]
    ensures Bytes(q[..n]) == Bytes(q[..n - 1]) + q[n - 1].data
  {
    assert q[..n] == q[..n - 1] + [q[n - 1]];
    BytesSnoc(q[..n - 1], q[n - 1]);
  }

  lemma {:induction false} TurnsOneMore(form: Form, st: RxState, n: nat)
    ensures var st' := Turns(form, st, n);
            Turns(form, st, n + 1) == if Consumable(st') then ConsumeOnce(form, st') else st'
    decreases n
  {
    if n == 0 || !Consumable(st) {
    } else {
      TurnsOneMore(form, ConsumeOnce(form, st), n - 1);
    }
  }

  lemma {:induction false} SpinningGoesOn(st: RxState, n: nat)
    requires Spins(st.ofo, st.rcvNxt)
    ensures Spins(Turns(Written, st, n).ofo, Turns(Written, st, n).rcvNxt)
    decreases n
  {
    if n == 0 {
    } else {
      var st' := ConsumeOnce(Written, st);
      assert forall i :: 0 <= i < |st'.ofo| ==> st'.ofo[i] in st.ofo;
      SpinningGoesOn(st', n - 1);
    }
  }

  /** As written, the loop turns for ever exactly when every queued segment is empty
      and at rcvNxt; otherwise it ends within as many turns as segments are queued. */
  lemma WrittenConsumeSpins(st: RxState)
    ensures (forall n: nat :: Consumable(Turns(Written, st, n))) <==> Spins(st.ofo, st.rcvNxt)
    ensures !Spins(st.ofo, st.rcvNxt) ==> !Consumable(Turns(Written, st, |st.ofo|))
  {
    if Spins(st.ofo, st.rcvNxt) {
      forall n: nat
        ensures Consumable(Turns(Written, st, n))
      {
        SpinningGoesOn(st, n);
      }
    } else {
      RoundEnds(st);
    }
  }

  lemma RoundEnds(st: RxState)
    requires !Spins(st.ofo, st.rcvNxt)
    ensures !Consumable(Turns(Written, st, |st.ofo|))
  {
    var n := |st.ofo|;
    if Consumable(Turns(Written, st, n)) {
      forall k | 0 <= k <= n
        ensures Consumable(Turns(Written, st, k))
      {
        StillConsumable(st, k, n);
      }
      RoundSpins(st);
    }
  }

  lemma {:induction false} StillConsumable(st: RxState, k: nat, n: nat)
    requires k <= n && Consumable(Turns(Written, st, n))
    ensures Consumable(Turns(Written, st, k))
    decreases n
  {
    if k == n {
    } else {
      TurnsOneMore(Written, st, n - 1);
      StillConsumable(st, k, n - 1);
    }
  }

  /** A whole round and one more turn need every segment at rcvNxt, which no byte moved. */
  lemma RoundSpins(st: RxState)
    requires st.ofo != [] && forall k :: 0 <= k <= |st.ofo| ==> Consumable(Turns(Written, st, k))
    ensures Spins(st.ofo, st.rcvNxt)
  {
    var q := st.ofo;
    TurnsRotate(st, |q|);
    assert q[|q|..] + q[..|q|] == q && Consumable(Turns(Written, st, |q|));
    forall i | 0 <= i < |q|
      ensures q[i].seqno == st.rcvNxt && q[i].data == []
    {
      TurnsRotate(st, i);
      assert Consumable(Turns(Written, st, i));
      BytesAround(q, i);
      assert Consumable(Turns(Written, st, 0));
    }
  }

  lemma BytesAround(q: seq<Segment>, i: nat)
    requires i < |q|
    ensures |Bytes(q)| >= |Bytes(q[..i])| + |q[i].data|
    ensures q[..|q|] == q
  {
    assert q == q[..i] + q[i..];
    BytesAppend(q[..i], q[i..]);
  }

  predicate VerifySegment(st: RxState, s: Segment) {
    && !(|s.data| > 0 && st.rcvWnd == 0)
    && st.rcvNxt <= s.seqno <= st.rcvNxt + st.rcvWnd
  }

  /** tcp_data_queue; a closed window refuses the buffer. */
  function DataQueue(form: Form, st: RxState, s: Segment): RxState
    requires form.Written? && st.rcvWnd > 0 && s.seqno == st.rcvNxt ==> !Spins(st.ofo, s.End())
  {
    if st.rcvWnd == 0 then st
    else if s.seqno == st.rcvNxt then
      Consume(form, st.(rcvNxt := st.rcvNxt + |s.data|, recv := st.recv + [s])).(pollIn := true)
    else
      st.(ofo := InsertOrdered(form, st.ofo, s))
  }

  /** What tcp_data_dequeue takes from the queue for a reader with `room` bytes. */
  datatype Taken = Taken(out: seq<byte>, rest: seq<Segment>, psh: bool)

  function Take(q: seq<Segment>, room: nat): Taken {
    if q == [] || room == 0 then Taken([], q, false)
    else if |q[0].data| <= room then
      var t := Take(q[1..], room - |q[0].data|);
      Taken(q[0].data + t.out, t.rest, q[0].psh || t.psh)
    else
      Taken(q[0].data[..room], [q[0].(data := q[0].data[room..])] + q[1..], false)
  }

  function DataDequeue(st: RxState, room: int): (seq<byte>, RxState) {
    var t := Take(st.recv, if room < 0 then 0 else room);
    (t.out,
     st.(recv := t.rest,
         pshSeen := st.pshSeen || t.psh,
         pollIn := st.pollIn && !(t.rest == [] && !st.finSeen)))
  }

  // ---------------------------------------------------------- reading in order

  lemma Associative(a: seq<byte>, b: seq<byte>, c: seq<byte>)
    ensures a + (b + c) == (a + b) + c
  {}

  lemma {:induction false} BytesAppend(a: seq<Segment>, b: seq<Segment>)
    ensures Bytes(a + b) == Bytes(a) + Bytes(b)
  {
    if a == [] {
      assert a + b == b;
    } else {
      BytesAppend(a[1..], b);
      assert (a + b)[1..] == a[1..] + b;
      Associative(a[0].data, Bytes(a[1..]), Bytes(b));
    }
  }

  lemma BytesSnoc(q: seq<Segment>, s: Segment)
    ensures Bytes(q + [s]) == Bytes(q) + s.data
  {
    BytesAppend(q, [s]);
    assert Bytes([s]) == s.data + Bytes([]);
  }

  /** A read of any length takes the front of what is queued, as much as fits,
      and leaves the rest in order. */
  lemma {:induction false} TakeSplits(q: seq<Segment>, room: nat)
    ensures var t := Take(q, room);
            && t.out + Bytes(t.rest) == Bytes(q)
            && |t.out| == Min(room, |Bytes(q)|)
  {
    if q == [] || room == 0 {
    } else if |q[0].data| <= room {
      TakeSplits(q[1..], room - |q[0].data|);
    } else {
      var rest := [q[0].(data := q[0].data[room..])] + q[1..];
      assert rest[1..] == q[1..];
      assert q[0].data == q[0].data[..room] + q[0].data[room..];
    }
  }

  // ------------------------------------------------------------- whole runs

  datatype RxEvent = Arrive(s: Segment) | Read(room: nat)

  /** The sequence numbers from a up to b. */
  function Range(a: nat, b: nat): (r: set<nat>)
    ensures forall n :: n in r <==> a <= n < b
  {
    set n: nat | a <= n < b && Within(n, a, b)
  }

  predicate Within(n: nat, a: nat, b: nat) {
    a <= n < b
  }

  /** A receive state with its history: every byte handed to the application, and
      the sequence numbers of every segment that was let in. */
  datatype History = History(st: RxState, taken: seq<byte>, got: set<nat>)

  /** Segment arrival behind tcp_verify_segment, or one call of the reader. */
  ghost function Step(h: History, e: RxEvent): History {
    match e
    case Arrive(s) =>
      if VerifySegment(h.st, s)
      then History(DataQueue(Intended, h.st, s), h.taken, h.got + Range(s.seqno, s.End())) else h
    case Read(room) =>
      var (out, st) := DataDequeue(h.st, room);
      History(st, h.taken + out, h.got)
  }

  ghost function Run(h: History, es: seq<RxEvent>): History {
    if es == [] then h else Step(Run(h, es[..|es| - 1]), es[|es| - 1])
  }

  /** The state after the peer's SYN with sequence number base - 1. */
  function Start(base: nat, wnd: nat): History {
    History(RxState(base, wnd, [], [], false, false, false), [], {})
  }

  // -------------------------------------------------------- safety of a stream

  /** The bytes the segment carries, if any, are those the peer's stream has at its numbers. */
  ghost predicate Agrees(s: Segment, stream: seq<byte>, base: nat) {
    s.data != [] ==>
      base <= s.seqno && s.End() <= base + |stream| && s.data == stream[s.seqno - base..s.End() - base]
  }

  /** What was handed out, then what waits for the reader, is the stream up to rcvNxt. */
  ghost predicate InStream(st: RxState, taken: seq<byte>, stream: seq<byte>, base: nat) {
    && base <= st.rcvNxt <= base + |stream|
    && taken + Bytes(st.recv) == stream[..st.rcvNxt - base]
    && (forall i :: 0 <= i < |st.ofo| ==> Agrees(st.ofo[i], stream, base))
  }

  lemma AppendInStream(st: RxState, s: Segment, taken: seq<byte>, stream: seq<byte>, base: nat)
    requires InStream(st, taken, stream, base) && Agrees(s, stream, base) && s.seqno == st.rcvNxt
    ensures InStream(st.(rcvNxt := s.End(), recv := st.recv + [s]), taken, stream, base)
  {
    BytesSnoc(st.recv, s);
    assert taken + (Bytes(st.recv) + s.data) == (taken + Bytes(st.recv)) + s.data;
    assert stream[..s.End() - base] == stream[..st.rcvNxt - base] + s.data;
  }

  lemma {:induction false} ConsumeInStream(st: RxState, taken: seq<byte>, stream: seq<byte>, base: nat)
    requires InStream(st, taken, stream, base)
    ensures InStream(Consume(Intended, st), taken, stream, base)
    decreases |st.ofo|
  {
    if !Consumable(st) {
    } else {
      AppendInStream(st, st.ofo[0], taken, stream, base);
      ConsumeInStream(ConsumeOnce(Intended, st), taken, stream, base);
    }
  }

  lemma DataQueueInStream(st: RxState, s: Segment, taken: seq<byte>, stream: seq<byte>, base: nat)
    requires InStream(st, taken, stream, base) && Agrees(s, stream, base)
    ensures InStream(DataQueue(Intended, st, s), taken, stream, base)
  {
    if st.rcvWnd == 0 {
    } else if s.seqno == st.rcvNxt {
      AppendInStream(st, s, taken, stream, base);
      ConsumeInStream(st.(rcvNxt := s.End(), recv := st.recv + [s]), taken, stream, base);
    } else {
      var ofo := InsertOrdered(Intended, st.ofo, s);
      forall i | 0 <= i < |ofo|
        ensures Agrees(ofo[i], stream, base)
      {
        InsertAdds(st.ofo, s, i);
      }
    }
  }

  lemma DequeueInStream(st: RxState, room: int, taken: seq<byte>, stream: seq<byte>, base: nat)
    requires InStream(st, taken, stream, base)
    ensures var (out, st') := DataDequeue(st, room); InStream(st', taken + out, stream, base)
  {
    var t := Take(st.recv, if room < 0 then 0 else room);
    TakeSplits(st.recv, if room < 0 then 0 else room);
    assert (taken + t.out) + Bytes(t.rest) == taken + (t.out + Bytes(t.rest));
  }

  /** Over every interleaving of arrivals, in any order and overlapping in any
      way, and of reads of any size, the bytes handed out followed by the bytes
      waiting are the peer's stream up to rcvNxt. */
  lemma {:induction false} RunInStream(base: nat, wnd: nat, es: seq<RxEvent>, stream: seq<byte>)
    requires forall i :: 0 <= i < |es| && es[i].Arrive? && base <= es[i].s.seqno ==> Agrees(es[i].s, stream, base)
    ensures var h := Run(Start(base, wnd), es); InStream(h.st, h.taken, stream, base)
  {
    if es == [] {
    } else {
      var k := |es| - 1;
      RunInStream(base, wnd, es[..k], stream);
      var h := Run(Start(base, wnd), es[..k]);
      match es[k] {
        case Arrive(s) =>
          if VerifySegment(h.st, s) {
            DataQueueInStream(h.st, s, h.taken, stream, base);
          }
        case Read(room) =>
          DequeueInStream(h.st, room, h.taken, stream, base);
      }
    }
  }

  // ------------------------------------------------------ the code as written

  /** The first segment with bytes at the front of the queue is at rcvNxt, behind
      empty ones only. */
  predicate Passes(q: seq<Segment>, rcvNxt: nat) {
    q != [] && q[0].seqno == rcvNxt && (q[0].data != [] || Passes(q[1..], rcvNxt))
  }

  /** While only empty segments turn, rcvNxt stays; a segment with bytes raises it. */
  lemma {:induction false} TurnsRaise(st: RxState, n: nat)
    requires n <= |st.ofo|
    ensures var st' := Turns(Written, st, n);
            && st'.recv == st.recv && st'.rcvNxt >= st.rcvNxt
            && (st'.rcvNxt > st.rcvNxt <==> Passes(st.ofo[..n], st.rcvNxt))
            && (forall i :: 0 <= i < |st'.ofo| ==> st'.ofo[i] in st.ofo)
    decreases n
  {
    if n == 0 || !Consumable(st) {
    } else {
      var st' := ConsumeOnce(Written, st);
      TurnsRaise(st', n - 1);
      assert st.ofo[..n][1..] == st'.ofo[..n - 1];
      assert forall i :: 0 <= i < |st'.ofo| ==> st'.ofo[i] in st.ofo;
    }
  }

  lemma WrittenInOrder(st: RxState, taken: seq<byte>, stream: seq<byte>, base: nat)
    requires InStream(st, taken, stream, base) && !Spins(st.ofo, st.rcvNxt)
    ensures InStream(Consume(Written, st), taken, stream, base) <==> !Passes(st.ofo, st.rcvNxt)
  {
    TurnsRaise(st, |st.ofo|);
    assert st.ofo[..|st.ofo|] == st.ofo;
    var n, n' := st.rcvNxt - base, Consume(Written, st).rcvNxt - base;
    assert |taken + Bytes(st.recv)| == n;
    assert n' <= |stream| ==> |stream[..n']| == n';
  }

  /** As written, a call that ends keeps the stream exactly when it moves no byte
      over from the out-of-order queue: what it moves never reaches the reader,
      although rcvNxt passes it and the peer will not send it again. */
  lemma WrittenKeepsStream(st: RxState, s: Segment, taken: seq<byte>, stream: seq<byte>, base: nat)
    requires InStream(st, taken, stream, base) && Agrees(s, stream, base)
    requires st.rcvWnd > 0 && s.seqno == st.rcvNxt ==> !Spins(st.ofo, s.End())
    ensures InStream(DataQueue(Written, st, s), taken, stream, base) <==>
            !(st.rcvWnd > 0 && s.seqno == st.rcvNxt && Passes(st.ofo, s.End()))
  {
    if st.rcvWnd == 0 {
    } else if s.seqno == st.rcvNxt {
      AppendInStream(st, s, taken, stream, base);
      WrittenInOrder(st.(rcvNxt := s.End(), recv := st.recv + [s]), taken, stream, base);
    } else {
      WrittenAside(st, s, taken, stream, base);
    }
  }

  lemma WrittenAside(st: RxState, s: Segment, taken: seq<byte>, stream: seq<byte>, base: nat)
    requires InStream(st, taken, stream, base) && Agrees(s, stream, base)
    ensures InStream(st.(ofo := InsertOrdered(Written, st.ofo, s)), taken, stream, base)
  {
    var ofo := InsertOrdered(Written, st.ofo, s);
    assert forall i :: 0 <= i < |ofo| ==> ofo[i] == s || ofo[i] in st.ofo;
  }

  /** The two bytes of a stream arriving last one first: as written, the reader
      gets one of them although both are acknowledged. */
  lemma WrittenLosesBytes()
    ensures var first, second := Segment(1, [7], false), Segment(2, [8], false);
            var st := DataQueue(Written, DataQueue(Written, Start(1, 10).st, second), first);
            st.rcvNxt == 3 && Bytes(st.recv) == [7]
    ensures var first, second := Segment(1, [7], false), Segment(2, [8], false);
            var st := DataQueue(Intended, DataQueue(Intended, Start(1, 10).st, second), first);
            st.rcvNxt == 3 && Bytes(st.recv) == [7, 8]
  {
    var first, second := Segment(1, [7], false), Segment(2, [8], false);
    var st := Start(1, 10).st.(ofo := [second]);
    assert InsertOrdered(Written, [], second) == [second] == InsertOrdered(Intended, [], second);
    assert DataQueue(Written, Start(1, 10).st, second) == st == DataQueue(Intended, Start(1, 10).st, second);
    var st' := st.(rcvNxt := 2, recv := [first]);
    assert st.recv + [first] == [first];
    assert DataQueue(Written, st, first) == Consume(Written, st').(pollIn := true);
    assert DataQueue(Intended, st, first) == Consume(Intended, st').(pollIn := true);
    assert [second][1..] == [] && [] + [second] == [second];
    assert ConsumeOnce(Written, st') == st'.(rcvNxt := 3);
    assert Consume(Written, st') == Turns(Written, st'.(rcvNxt := 3), 0) == st'.(rcvNxt := 3);
    assert [first] + [second] == [first, second];
    assert ConsumeOnce(Intended, st') == st'.(rcvNxt := 3, ofo := [], recv := [first, second]);
    assert Consume(Intended, st') == Consume(Intended, ConsumeOnce(Intended, st')) == ConsumeOnce(Intended, st');
    BytesSnoc([], first);
    BytesSnoc([first], second);
    assert [] + [first] == [first];
    assert Bytes([first]) == Bytes([]) + [7] == [7];
    assert [7] + [8] == [7, 8];
  }
}
