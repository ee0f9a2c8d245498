/** src/tcp_data.cpp, step by step. Its caller tcp_receive is in TcpSocks. */
module Receivers {
  import opened Common
  import opened Reassembly

  /** The receive half of Tcp_Sock. */
  class Receiver {
    var rcvNxt: nat
    var rcvWnd: nat
    var ofoQueue: seq<Segment>
    var receiveQueue: seq<Segment>
    var pshSeen: bool
    var finSeen: bool
    var pollIn: bool

    /** Every byte copied to the application so far. */
    ghost var taken: seq<byte>

    ghost function State(): RxState
      reads this
    {
      RxState(rcvNxt, rcvWnd, ofoQueue, receiveQueue, pshSeen, finSeen, pollIn)
    }

    constructor (base: nat, wnd: nat)
      ensures State() == Start(base, wnd).st && taken == []
    {
      rcvNxt, rcvWnd := base, wnd;
      ofoQueue, receiveQueue := [], [];
      pshSeen, finSeen, pollIn := false, false, false;
      taken := [];
    }

    /** src/tcp_data.cpp:40 as intended: the buffer moves to the reader's queue. */
    method ConsumeOfoQueue()
      modifies this
      ensures State() == Consume(Intended, old(State())) && taken == old(taken)
    {
      while ofoQueue != [] && ofoQueue[0].seqno == rcvNxt
        invariant Consume(Intended, State()) == Consume(Intended, old(State()))
        invariant taken == old(taken)
        decreases |ofoQueue|
      {
        var skb := ofoQueue[0];
        ghost var was := State();
        rcvNxt := rcvNxt + |skb.data|;
        ofoQueue := ofoQueue[1..];
        receiveQueue := receiveQueue + [skb];
        assert State() == ConsumeOnce(Intended, was);
      }
    }

    /** tcp_data_insert_ordered on the queue as a list of buffers; LinkedReceiver has the
        walk along the links. */
    method InsertOrdered(skb: Segment)
      modifies this`ofoQueue
      ensures ofoQueue == Reassembly.InsertOrdered(Intended, old(ofoQueue), skb)
    {
      var i := 0;
      while i < |ofoQueue|
        invariant i <= |ofoQueue| && Scan(ofoQueue, skb, 0) == Scan(ofoQueue, skb, i)
      {
        var next := ofoQueue[i];
        if skb.seqno < next.seqno && skb.End() <= next.seqno {
          ofoQueue := ofoQueue[..i] + [skb] + ofoQueue[i..];
          return;
        } else if skb.seqno == next.seqno {
          return;
        }
        i := i + 1;
      }
      ofoQueue := ofoQueue + [skb];
    }

    /** Returns -1 for a closed window, and whether an acknowledgment must go out
        at once because the segment left a gap. */
    method DataQueue(skb: Segment) returns (rc: int, dupAck: bool)
      modifies this
      ensures State() == Reassembly.DataQueue(Intended, old(State()), skb) && taken == old(taken)
      ensures rc == if old(rcvWnd) == 0 then -1 else 0
      ensures dupAck <==> old(rcvWnd) > 0 && skb.seqno != old(rcvNxt)
    {
      if rcvWnd == 0 {
        return -1, false;
      }
      if skb.seqno == rcvNxt {
        rcvNxt := rcvNxt + |skb.data|;
        receiveQueue := receiveQueue + [skb];
        ConsumeOfoQueue();
        pollIn := true;
        dupAck := false;
      } else {
        InsertOrdered(skb);
        dupAck := true;
      }
      rc := 0;
    }

    /** One turn of tcp_data_dequeue: copy what fits from the front buffer, then
        shrink the buffer, or release it when nothing is left in it. */
    method CopyFront(buff: array<byte>, pos: nat, room: nat) returns (dlen: nat)
      requires receiveQueue != [] && 0 < room && pos + room <= buff.Length
      modifies this`receiveQueue, this`pshSeen, buff
      ensures var front := old(receiveQueue[0]);
              && dlen == Min(room, |front.data|)
              && buff[..pos + dlen] == old(buff[..pos]) + front.data[..dlen]
              && (forall k :: pos + dlen <= k < buff.Length ==> buff[k] == old(buff[k]))
              && (if dlen == |front.data| then receiveQueue == old(receiveQueue)[1..]
                  else receiveQueue == [front.(data := front.data[dlen..])] + old(receiveQueue)[1..])
              && (pshSeen <==> old(pshSeen) || (dlen == |front.data| && front.psh))
    {
      var skb := receiveQueue[0];
      dlen := if |skb.data| > room then room else |skb.data|;
      forall k | 0 <= k < dlen {
        buff[pos + k] := skb.data[k];
      }
      skb := skb.(data := skb.data[dlen..]);
      receiveQueue := [skb] + receiveQueue[1..];
      if skb.data == [] {
        if skb.psh {
          pshSeen := true;
        }
        receiveQueue := receiveQueue[1..];
      }
    }

    /** The loop of tcp_data_dequeue has put `out` behind `start`, and what is left
        of the queue will give the rest of what `whole` describes. */
    ghost predicate Copying(buff: array<byte>, pos: nat, start: seq<byte>, out: seq<byte>, whole: Taken, room: nat,
                            psh: bool)
      reads this, buff
    {
      && pos + room <= buff.Length && buff[..pos] == start + out
      && (var t := Take(receiveQueue, room); whole == Taken(out + t.out, t.rest, psh || t.psh))
    }

    lemma Copied(start: seq<byte>, out: seq<byte>, more: seq<byte>, t: Taken)
      ensures out + (more + t.out) == (out + more) + t.out
      ensures (start + out) + more == start + (out + more)
    {}

    method CopyTurn(buff: array<byte>, pos: nat, room: nat, ghost start: seq<byte>, ghost out: seq<byte>,
                    ghost whole: Taken, ghost psh: bool)
        returns (dlen: nat, ghost out': seq<byte>, ghost passed: bool)
      requires receiveQueue != [] && room > 0 && Copying(buff, pos, start, out, whole, room, psh)
      modifies this`receiveQueue, this`pshSeen, buff
      ensures dlen <= room
      ensures |receiveQueue| < old(|receiveQueue|) || (|receiveQueue| == old(|receiveQueue|) && dlen == room)
      ensures |out'| == |out| + dlen && Copying(buff, pos + dlen, start, out', whole, room - dlen, psh || passed)
      ensures forall k :: pos + dlen <= k < buff.Length ==> buff[k] == old(buff[k])
      ensures pshSeen == (old(pshSeen) || passed)
    {
      ghost var front := receiveQueue[0];
      dlen := CopyFront(buff, pos, room);
      out' := out + front.data[..dlen];
      passed := dlen == |front.data| && front.psh;
      Copied(start, out, front.data[..dlen], Take(receiveQueue, room - dlen));
    }

    /** The loop of tcp_data_dequeue. */
    method CopyTurns(buff: array<byte>, at: nat, userlen: int, ghost start: seq<byte>, ghost whole: Taken)
        returns (rlen: nat, ghost out: seq<byte>, ghost psh: bool)
      requires Copying(buff, at, start, [], whole, Max(userlen, 0), false)
      modifies this`receiveQueue, this`pshSeen, buff
      ensures |out| == rlen <= Max(userlen, 0) && (receiveQueue == [] || rlen == Max(userlen, 0))
      ensures Copying(buff, at + rlen, start, out, whole, Max(userlen, 0) - rlen, psh)
      ensures pshSeen == (old(pshSeen) || psh)
      ensures forall k :: at + rlen <= k < buff.Length ==> buff[k] == old(buff[k])
    {
      rlen, out, psh := 0, [], false;
      while receiveQueue != [] && rlen < userlen
        invariant |out| == rlen <= Max(userlen, 0)
        invariant Copying(buff, at + rlen, start, out, whole, Max(userlen, 0) - rlen, psh)
        invariant pshSeen == (old(pshSeen) || psh)
        invariant forall k :: at + rlen <= k < buff.Length ==> buff[k] == old(buff[k])
        decreases |receiveQueue|, userlen - rlen
      {
        var dlen;
        ghost var passed;
        dlen, out, passed := CopyTurn(buff, at + rlen, userlen - rlen, start, out, whole, psh);
        psh := psh || passed;
        rlen := rlen + dlen;
      }
    }

    method CopyQueued(buff: array<byte>, at: nat, userlen: int) returns (rlen: nat, ghost out: seq<byte>)
      requires at + Max(userlen, 0) <= buff.Length
      modifies this`receiveQueue, this`pshSeen, buff
      ensures |out| == rlen <= Max(userlen, 0)
      ensures buff[..at + rlen] == old(buff[..at]) + out && buff[at + rlen..] == old(buff[at + rlen..])
      ensures var t := Take(old(receiveQueue), Max(userlen, 0));
              out == t.out && receiveQueue == t.rest && pshSeen == (old(pshSeen) || t.psh)
    {
      ghost var start, whole := buff[..at], Take(receiveQueue, Max(userlen, 0));
      assert start + [] == start && [] + whole.out == whole.out;
      ghost var psh;
      rlen, out, psh := CopyTurns(buff, at, userlen, start, whole);
      assert out + [] == out;
    }

    /** Copies queued bytes to buff[at..] until the queue is empty or `userlen`
        bytes are copied. */
    method DataDequeue(buff: array<byte>, at: nat, userlen: int) returns (rlen: nat)
      requires at + Max(userlen, 0) <= buff.Length
      modifies this`receiveQueue, this`pshSeen, this`pollIn, this`taken, buff
      ensures rlen <= Max(userlen, 0)
      ensures var (out, st) := Reassembly.DataDequeue(old(State()), userlen);
              |out| == rlen && buff[at..at + rlen] == out && State() == st
      ensures buff[..at] == old(buff[..at]) && buff[at + rlen..] == old(buff[at + rlen..])
      ensures taken == old(taken) + buff[at..at + rlen]
    {
      ghost var out;
      rlen, out := CopyQueued(buff, at, userlen);
      assert buff[at..at + rlen] == buff[..at + rlen][at..] == out;
      assert buff[..at] == buff[..at + rlen][..at];
      taken := taken + out;
      if receiveQueue == [] && !finSeen {
        pollIn := false;
      }
    }
  }
}
