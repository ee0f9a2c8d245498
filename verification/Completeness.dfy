/** The queues of the receive path against the plain set of sequence numbers that
    were let in: rcvNxt is the end of the gapless prefix of that set, and the
    out-of-order queue holds the rest of it, sorted. */
module Completeness {
  import opened Common
  import opened Reassembly

  /** The sequence numbers in a queue. */
  function Numbers(q: seq<Segment>): set<nat> {
    if q == [] then {} else Range(q[0].seqno, q[0].End()) + Numbers(q[1..])
  }

  /** Pieces of one segmentation: non-empty, and any two the same or disjoint. */
  ghost predicate Pieces(segs: set<Segment>) {
    && (forall a :: a in segs ==> |a.data| > 0)
    && (forall a, b :: a in segs && b in segs ==> SameSpan(a, b) || Disjoint(a, b))
  }

  /** A sorted queue of pieces that all start at `low` or above. */
  ghost predicate Queued(q: seq<Segment>, segs: set<Segment>, low: nat) {
    && SortedDisjoint(q)
    && (forall i :: 0 <= i < |q| ==> q[i] in segs && low <= q[i].seqno)
  }

  /** What was let in is everything from base to rcvNxt and the numbers queued. */
  ghost predicate Sound(h: History, base: nat, segs: set<Segment>, low: nat) {
    && base <= h.st.rcvNxt
    && (base < h.st.rcvNxt ==> exists t :: t in segs && t.End() == h.st.rcvNxt)
    && Queued(h.st.ofo, segs, low)
    && h.got == Range(base, h.st.rcvNxt) + Numbers(h.st.ofo)
  }

  ghost predicate Complete(h: History, base: nat, segs: set<Segment>) {
    Sound(h, base, segs, h.st.rcvNxt + 1)
  }

  lemma {:induction false} NumbersAppend(p: seq<Segment>, q: seq<Segment>)
    ensures Numbers(p + q) == Numbers(p) + Numbers(q)
  {
    if p == [] {
      assert p + q == q;
    } else {
      NumbersAppend(p[1..], q);
      assert (p + q)[1..] == p[1..] + q;
    }
  }

  lemma {:induction false} NumbersOf(q: seq<Segment>, i: nat)
    requires i < |q|
    ensures Range(q[i].seqno, q[i].End()) <= Numbers(q)
  {
    if i == 0 {
    } else {
      NumbersOf(q[1..], i - 1);
    }
  }

  lemma {:induction false} NumbersAbove(q: seq<Segment>, low: nat, n: nat)
    requires forall i :: 0 <= i < |q| ==> low <= q[i].seqno
    requires n in Numbers(q)
    ensures low <= n
  {
    if n in Range(q[0].seqno, q[0].End()) {
    } else {
      NumbersAbove(q[1..], low, n);
    }
  }

  lemma NumbersInsertAt(q: seq<Segment>, i: nat, s: Segment)
    requires i <= |q|
    ensures Numbers(InsertAt(q, i, s)) == Numbers(q) + Range(s.seqno, s.End())
  {
    var a, b := q[..i], q[i..];
    assert q == a + b;
    NumbersAppend(a, b);
    NumbersAppend(a + [s], b);
    NumbersAppend(a, [s]);
    assert Numbers([s]) == Range(s.seqno, s.End()) + Numbers([s][1..]);
  }

  lemma {:induction false} InsertNumbers(q: seq<Segment>, s: Segment)
    requires SortedDisjoint(q) && |s.data| > 0
    requires forall i :: 0 <= i < |q| ==> SameSpan(q[i], s) || Disjoint(q[i], s)
    ensures Numbers(InsertOrdered(Intended, q, s)) == Numbers(q) + Range(s.seqno, s.End())
  {
    match Scan(q, s, 0)
    case Duplicate(i) =>
      ScanSorted(q, s, 0);
      assert SameSpan(q[i], s);
      NumbersOf(q, i);
    case Before(i) =>
      NumbersInsertAt(q, i, s);
    case Tail =>
      NumbersInsertAt(q, |q|, s);
      assert InsertAt(q, |q|, s) == q + [s];
  }

  lemma {:induction false} ConsumeCompletes(h: History, base: nat, segs: set<Segment>)
    requires Sound(h, base, segs, h.st.rcvNxt)
    ensures Complete(h.(st := Consume(Intended, h.st)), base, segs)
    decreases |h.st.ofo|
  {
    var q := h.st.ofo;
    if Consumable(h.st) {
      var h' := h.(st := ConsumeOnce(Intended, h.st));
      assert forall i :: 0 <= i < |q| - 1 ==> q[1..][i] == q[i + 1];
      assert Range(base, h'.st.rcvNxt) == Range(base, h.st.rcvNxt) + Range(q[0].seqno, q[0].End());
      ConsumeCompletes(h', base, segs);
    } else if q != [] {
      assert q[0].seqno > h.st.rcvNxt;
    }
  }

  lemma InOrderSound(h: History, s: Segment, base: nat, segs: set<Segment>)
    requires Complete(h, base, segs) && Pieces(segs) && s in segs && s.seqno == h.st.rcvNxt
    ensures Sound(History(h.st.(rcvNxt := s.End(), recv := h.st.recv + [s]), h.taken,
                          h.got + Range(s.seqno, s.End())), base, segs, s.End())
  {
    assert Range(base, s.End()) == Range(base, h.st.rcvNxt) + Range(s.seqno, s.End());
  }

  lemma OutOfOrderComplete(h: History, s: Segment, base: nat, segs: set<Segment>)
    requires Complete(h, base, segs) && Pieces(segs) && s in segs && s.seqno > h.st.rcvNxt
    ensures Complete(History(h.st.(ofo := InsertOrdered(Intended, h.st.ofo, s)), h.taken,
                             h.got + Range(s.seqno, s.End())), base, segs)
  {
    var q, r := h.st.ofo, InsertOrdered(Intended, h.st.ofo, s);
    InsertContents(q, s);
    InsertNumbers(q, s);
    forall i | 0 <= i < |r|
      ensures r[i] in segs && h.st.rcvNxt < r[i].seqno
    {
      InsertAdds(q, s, i);
    }
  }

  lemma {:induction false} ArrivalComplete(h: History, s: Segment, base: nat, segs: set<Segment>)
    requires Complete(h, base, segs) && Pieces(segs) && s in segs
    ensures Complete(Step(h, Arrive(s)), base, segs)
  {
    if VerifySegment(h.st, s) {
      if s.seqno == h.st.rcvNxt {
        InOrderComplete(h, s, base, segs);
      } else {
        OutOfOrderComplete(h, s, base, segs);
        assert Step(h, Arrive(s)).st == h.st.(ofo := InsertOrdered(Intended, h.st.ofo, s));
      }
    }
  }

  lemma {:induction false} InOrderComplete(h: History, s: Segment, base: nat, segs: set<Segment>)
    requires Complete(h, base, segs) && Pieces(segs) && s in segs && s.seqno == h.st.rcvNxt && h.st.rcvWnd > 0
    ensures Complete(History(DataQueue(Intended, h.st, s), h.taken, h.got + Range(s.seqno, s.End())), base, segs)
  {
    var h' := History(h.st.(rcvNxt := s.End(), recv := h.st.recv + [s]), h.taken, h.got + Range(s.seqno, s.End()));
    InOrderSound(h, s, base, segs);
    ConsumeCompletes(h', base, segs);
    assert DataQueue(Intended, h.st, s) == Consume(Intended, h'.st).(pollIn := true);
  }

  lemma {:induction false} RunSound(base: nat, wnd: nat, es: seq<RxEvent>, segs: set<Segment>)
    requires Pieces(segs) && forall i :: 0 <= i < |es| && es[i].Arrive? ==> es[i].s in segs
    ensures Complete(Run(Start(base, wnd), es), base, segs)
  {
    if es != [] {
      var k := |es| - 1;
      RunSound(base, wnd, es[..k], segs);
      if es[k].Arrive? {
        ArrivalComplete(Run(Start(base, wnd), es[..k]), es[k].s, base, segs);
      }
    } else {
      assert Range(base, base) + Numbers([]) == {};
    }
  }

  /** For any order of arrival and any duplication of the pieces, mixed with any
      reads: after every call rcvNxt is the end of the longest gapless prefix of
      what was let in, and the out-of-order queue is sorted, without duplicates
      or overlaps, and is exactly what was let in above rcvNxt. */
  lemma {:induction false} RunComplete(base: nat, wnd: nat, es: seq<RxEvent>, segs: set<Segment>)
    requires Pieces(segs) && forall i :: 0 <= i < |es| && es[i].Arrive? ==> es[i].s in segs
    ensures var h := Run(Start(base, wnd), es);
            && Range(base, h.st.rcvNxt) <= h.got
            && h.st.rcvNxt !in h.got
            && SortedDisjoint(h.st.ofo)
            && Numbers(h.st.ofo) == set n | n in h.got && n > h.st.rcvNxt
  {
    RunSound(base, wnd, es, segs);
    var h := Run(Start(base, wnd), es);
    forall n | n in Numbers(h.st.ofo)
      ensures n > h.st.rcvNxt
    {
      NumbersAbove(h.st.ofo, h.st.rcvNxt + 1, n);
    }
  }

  /** An arrival below rcvNxt is refused, and it would have brought nothing new. */
  lemma RefusedIsKnown(h: History, s: Segment, base: nat, segs: set<Segment>)
    requires Complete(h, base, segs) && Pieces(segs) && s in segs
    requires base <= s.seqno < h.st.rcvNxt
    ensures Step(h, Arrive(s)) == h && Range(s.seqno, s.End()) <= h.got
  {
    var t :| t in segs && t.End() == h.st.rcvNxt;
    assert SameSpan(s, t) || Disjoint(s, t);
    assert s.End() <= h.st.rcvNxt;
  }

  /** Two runs that let in the same numbers of a stream, in whatever orders and
      however it was cut, agree on rcvNxt, on what is queued above it, and on the
      bytes the reader has got or can get. */
  lemma {:induction false} OrderIrrelevant(base: nat, wnd: nat, es: seq<RxEvent>, segs: set<Segment>,
                        wnd': nat, es': seq<RxEvent>, segs': set<Segment>, stream: seq<byte>)
    requires Pieces(segs) && forall i :: 0 <= i < |es| && es[i].Arrive? ==> es[i].s in segs
    requires Pieces(segs') && forall i :: 0 <= i < |es'| && es'[i].Arrive? ==> es'[i].s in segs'
    requires forall s :: (s in segs || s in segs') && base <= s.seqno ==> Agrees(s, stream, base)
    requires Run(Start(base, wnd), es).got == Run(Start(base, wnd'), es').got
    ensures var h, h' := Run(Start(base, wnd), es), Run(Start(base, wnd'), es');
            && h.st.rcvNxt == h'.st.rcvNxt
            && Numbers(h.st.ofo) == Numbers(h'.st.ofo)
            && h.taken + Bytes(h.st.recv) == h'.taken + Bytes(h'.st.recv)
  {
    RunComplete(base, wnd, es, segs);
    RunComplete(base, wnd', es', segs');
    RunInStream(base, wnd, es, stream);
    RunInStream(base, wnd', es', stream);
    var n, n' := Run(Start(base, wnd), es).st.rcvNxt, Run(Start(base, wnd'), es').st.rcvNxt;
    assert n < n' ==> n in Range(base, n');
    assert n' < n ==> n' in Range(base, n);
  }
}
