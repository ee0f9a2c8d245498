/** What a segment that overlaps others does to the receive half: the out-of-order queue
    can be left behind rcvNxt, and nothing of it is delivered any more. */
module Overlaps {
  import opened Common
  import opened Reassembly

  /** The head of the out-of-order queue is below rcvNxt, where nothing looks for it. */
  predicate Stuck(st: RxState) {
    st.ofo != [] && st.ofo[0].seqno < st.rcvNxt
  }

  /** Counted from n on, the queued segments follow one another up to one that begins
      below the end of those before it. */
  predicate Overruns(q: seq<Segment>, n: nat) {
    exists k :: 0 <= k < |q| && Chained(q[..k], n) && q[k].seqno < n + |Bytes(q[..k])|
  }

  /** Each begins where the one before it ends, the first at n. */
  predicate Chained(q: seq<Segment>, n: nat) {
    q == [] || (q[0].seqno == n && Chained(q[1..], n + |q[0].data|))
  }

  lemma OverrunsFirst(q: seq<Segment>, n: nat)
    ensures Overruns(q, n) <==>
            q != [] && (q[0].seqno < n || (q[0].seqno == n && Overruns(q[1..], n + |q[0].data|)))
  {
    if Overruns(q, n) {
      var k :| 0 <= k < |q| && Chained(q[..k], n) && q[k].seqno < n + |Bytes(q[..k])|;
      if k > 0 {
        assert q[..k][1..] == q[1..][..k - 1];
        assert Chained(q[1..][..k - 1], n + |q[0].data|);
      }
    }
    if q != [] && q[0].seqno < n {
      assert Chained(q[..0], n) && q[0].seqno < n + |Bytes(q[..0])|;
    }
    if q != [] && q[0].seqno == n && Overruns(q[1..], n + |q[0].data|) {
      var k :| 0 <= k < |q[1..]| && Chained(q[1..][..k], n + |q[0].data|)
            && q[1..][k].seqno < n + |q[0].data| + |Bytes(q[1..][..k])|;
      assert q[..k + 1][1..] == q[1..][..k];
      assert Chained(q[..k + 1], n);
    }
  }

  lemma {:induction false} ConsumeSticks(st: RxState)
    ensures Stuck(Consume(Intended, st)) <==> Overruns(st.ofo, st.rcvNxt)
    decreases |st.ofo|
  {
    OverrunsFirst(st.ofo, st.rcvNxt);
    if !Consumable(st) {
    } else {
      ConsumeSticks(ConsumeOnce(Intended, st));
    }
  }

  /** Exactly the arrival that ends inside what is queued behind it, or inside what that
      is followed by, leaves the queue stuck. */
  lemma StuckExactly(st: RxState, s: Segment)
    requires !Stuck(st) && VerifySegment(st, s)
    ensures Stuck(DataQueue(Intended, st, s)) <==>
            st.rcvWnd > 0 && s.seqno == st.rcvNxt && Overruns(st.ofo, s.End())
  {
    if st.rcvWnd > 0 && s.seqno == st.rcvNxt {
      ConsumeSticks(st.(rcvNxt := s.End(), recv := st.recv + [s]));
    } else {
      var r := InsertOrdered(Intended, st.ofo, s);
      assert r != [] ==> r[0] == s || (st.ofo != [] && r[0] == st.ofo[0]);
    }
  }

  /** h' comes after h: stuck still, with the same head, and everything queued is queued still. */
  predicate StaysQueued(h: History, h': History) {
    && h.st.ofo != [] && Stuck(h'.st) && h'.st.ofo[0] == h.st.ofo[0]
    && multiset(h.st.ofo) <= multiset(h'.st.ofo)
  }

  lemma InsertKeepsHead(q: seq<Segment>, s: Segment)
    requires q != [] && q[0].seqno < s.seqno
    ensures var r := InsertOrdered(Intended, q, s); r != [] && r[0] == q[0] && multiset(q) <= multiset(r)
  {
    match Scan(q, s, 0)
    case Before(i) =>
      InsertAtMultiset(q, i, s);
      assert InsertOrdered(Intended, q, s) == InsertAt(q, i, s);
    case Duplicate(_) =>
    case Tail =>
      InsertAtMultiset(q, |q|, s);
      assert InsertOrdered(Intended, q, s) == InsertAt(q, |q|, s);
  }

  lemma StepStuck(h: History, e: RxEvent)
    requires Stuck(h.st)
    ensures StaysQueued(h, Step(h, e))
  {
    if e.Arrive? && VerifySegment(h.st, e.s) && h.st.rcvWnd > 0 && e.s.seqno != h.st.rcvNxt {
      InsertKeepsHead(h.st.ofo, e.s);
    }
  }

  /** Once stuck, the queue stays so over every run of arrivals and reads, and nothing of
      what is in it is ever delivered from it. */
  lemma {:induction false} RunStuck(h: History, es: seq<RxEvent>)
    requires Stuck(h.st)
    ensures StaysQueued(h, Run(h, es))
  {
    if es == [] {
    } else {
      RunStuck(h, es[..|es| - 1]);
      StepStuck(Run(h, es[..|es| - 1]), es[|es| - 1]);
    }
  }

  /** The second half of a stream of four bytes arrives, then the first three: the fourth is
      next, was let in and is queued, and is never delivered from the queue. */
  lemma StuckRun(wnd: nat)
    requires wnd >= 2
    ensures var late, first := Segment(3, [30, 40], false), Segment(1, [10, 20, 30], false);
            var h := Run(Start(1, wnd), [Arrive(late), Arrive(first)]);
            && Agrees(late, [10, 20, 30, 40], 1) && Agrees(first, [10, 20, 30, 40], 1)
            && Stuck(h.st) && h.st.rcvNxt == 4 && 4 in h.got && h.st.ofo == [late] && h.st.recv == [first]
  {
    var late, first := Segment(3, [30, 40], false), Segment(1, [10, 20, 30], false);
    var es := [Arrive(late), Arrive(first)];
    assert es[..1] == [Arrive(late)] && es[..1][..0] == [];
    var h0 := Start(1, wnd);
    assert InsertOrdered(Intended, [], late) == [late];
    var h1 := Step(h0, Arrive(late));
    assert h1.st == h0.st.(ofo := [late]);
    assert Run(h0, es[..1]) == Step(Run(h0, es[..1][..0]), Arrive(late)) == h1;
    assert Run(h0, es) == Step(Run(h0, es[..1]), Arrive(first)) == Step(h1, Arrive(first));
    var st := h1.st.(rcvNxt := 4, recv := [first]);
    assert h1.st.recv + [first] == [first] && Consume(Intended, st) == st;
  }
}
