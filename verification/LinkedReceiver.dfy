/** src/tcp_data.cpp tcp_data_queue, tcp_consume_ofo_queue and tcp_data_dequeue on the two
    rings: buffers are nodes that move from one to the other by their links and leave by
    the reader. */
module LinkedReceivers {
  import opened Common
  import opened IntrusiveQueues
  import opened OrderedInsert
  import opened Reassembly

  class LinkedReceiver {
    const ofoQueue: IntrusiveQueue
    const receiveQueue: IntrusiveQueue
    /** The buffer around each node: list_entry. */
    var entry: map<ListHead, Segment>
    var rcvNxt: nat
    var rcvWnd: nat
    var pshSeen: bool
    var finSeen: bool
    var pollIn: bool

    /** Two rings that share no node, all of buffers. */
    ghost predicate Valid()
      reads this`entry, ofoQueue, ofoQueue.Repr, receiveQueue, receiveQueue.Repr
    {
      && ofoQueue.Valid() && receiveQueue.Valid()
      && ofoQueue != receiveQueue && ofoQueue.Repr !! receiveQueue.Repr
      && Buffers(ofoQueue.nodes) && Buffers(receiveQueue.nodes)
    }

    ghost predicate Buffers(nodes: seq<ListHead>)
      reads this`entry
    {
      forall i :: 0 <= i < |nodes| ==> nodes[i] in entry
    }

    ghost function State(): RxState
      requires Buffers(ofoQueue.nodes) && Buffers(receiveQueue.nodes)
      reads this, ofoQueue, receiveQueue
    {
      RxState(rcvNxt, rcvWnd, Entries(ofoQueue.nodes, entry), Entries(receiveQueue.nodes, entry),
              pshSeen, finSeen, pollIn)
    }

    constructor (base: nat, wnd: nat)
      ensures Valid() && State() == Start(base, wnd).st
      ensures fresh(ofoQueue) && fresh(ofoQueue.Repr) && fresh(receiveQueue) && fresh(receiveQueue.Repr)
    {
      ofoQueue := new IntrusiveQueue();
      receiveQueue := new IntrusiveQueue();
      entry, rcvNxt, rcvWnd := map[], base, wnd;
      pshSeen, finSeen, pollIn := false, false, false;
    }

    /** The first node of the out-of-order queue goes to the end of the reader's queue. */
    method MoveFirst(skb: ListHead)
      requires Valid() && ofoQueue.nodes != [] && ofoQueue.nodes[0] == skb
      modifies ofoQueue, ofoQueue.Repr, receiveQueue, receiveQueue.Repr
      ensures Valid() && Nodes() == old(Nodes())
      ensures ofoQueue.nodes == old(ofoQueue.nodes)[1..]
      ensures receiveQueue.nodes == old(receiveQueue.nodes) + [skb]
    {
      var _ := ofoQueue.Dequeue();
      receiveQueue.QueueAddTail(skb);
    }

    ghost function Nodes(): set<ListHead>
      reads ofoQueue, receiveQueue
    {
      ofoQueue.Repr + receiveQueue.Repr
    }

    /** One turn of the loop. */
    method ConsumeFirst(skb: ListHead)
      requires Valid() && ofoQueue.nodes != [] && ofoQueue.nodes[0] == skb
      modifies this`rcvNxt, ofoQueue, ofoQueue.Repr, receiveQueue, receiveQueue.Repr
      ensures Valid() && Nodes() == old(Nodes()) && |ofoQueue.nodes| < old(|ofoQueue.nodes|)
      ensures State() == ConsumeOnce(Intended, old(State()))
    {
      rcvNxt := rcvNxt + |entry[skb].data|;
      MoveFirst(skb);
    }

    method ConsumeOfoQueue()
      requires Valid()
      modifies this`rcvNxt, ofoQueue, ofoQueue.Repr, receiveQueue, receiveQueue.Repr
      ensures Valid() && Nodes() == old(Nodes())
      ensures State() == Consume(Intended, old(State()))
    {
      var skb := ofoQueue.QueueFirstEntry();
      while skb != null && entry[skb].seqno == rcvNxt
        invariant Valid() && Nodes() == old(Nodes())
        invariant skb == if ofoQueue.nodes == [] then null else ofoQueue.nodes[0]
        invariant Consume(Intended, State()) == Consume(Intended, old(State()))
        decreases |ofoQueue.nodes|
      {
        ConsumeFirst(skb);
        skb := ofoQueue.QueueFirstEntry();
      }
    }

    /** A buffer that is in no list gets its place behind the node. */
    method Attach(skb: ListHead, s: Segment)
      requires Valid() && skb !in Nodes()
      modifies this`entry
      ensures Valid() && State() == old(State()) && skb in entry && entry[skb] == s
    {
      entry := entry[skb := s];
      assert Entries(ofoQueue.nodes, entry) == Entries(ofoQueue.nodes, old(entry));
      assert Entries(receiveQueue.nodes, entry) == Entries(receiveQueue.nodes, old(entry));
    }

    /** In its turn, to the reader, with what is queued behind it. */
    method TakeInOrder(skb: ListHead)
      requires Valid() && skb !in Nodes() && skb in entry && rcvWnd > 0 && entry[skb].seqno == rcvNxt
      modifies this`rcvNxt, this`pollIn, skb, ofoQueue, ofoQueue.Repr, receiveQueue, receiveQueue.Repr
      ensures Valid() && Nodes() <= old(Nodes()) + {skb}
      ensures State() == Reassembly.DataQueue(Intended, old(State()), entry[skb])
    {
      Append(skb);
      ConsumeOfoQueue();
      pollIn := true;
    }

    method Append(skb: ListHead)
      requires Valid() && skb !in Nodes() && skb in entry
      modifies this`rcvNxt, skb, receiveQueue, receiveQueue.Repr
      ensures Valid() && Nodes() == old(Nodes()) + {skb}
      ensures var st, s := old(State()), entry[skb];
              State() == st.(rcvNxt := st.rcvNxt + |s.data|, recv := st.recv + [s])
    {
      ghost var nodes := receiveQueue.nodes;
      rcvNxt := rcvNxt + |entry[skb].data|;
      receiveQueue.QueueAddTail(skb);
      assert Entries(nodes + [skb], entry) == Entries(nodes, entry) + [entry[skb]];
    }

    /** Out of its turn, into the other queue. */
    method Insert(skb: ListHead)
      requires Valid() && skb !in Nodes() && skb in entry
      modifies skb, ofoQueue, ofoQueue.Repr
      ensures Valid() && Nodes() <= old(Nodes()) + {skb}
      ensures State() == old(State()).(ofo := InsertOrdered(Intended, old(State()).ofo, entry[skb]))
    {
      ghost var nodes, q := ofoQueue.nodes, Entries(ofoQueue.nodes, entry);
      EntriesPlace(Intended, nodes, Scan(q, entry[skb], 0), skb, entry);
      ghost var _ := InsertIntoQueue(Intended, ofoQueue, skb, entry);
    }

    /** tcp_data_queue for a buffer that is in no list. */
    method DataQueue(skb: ListHead, s: Segment) returns (rc: int)
      requires Valid() && skb !in Nodes()
      modifies this`entry, this`rcvNxt, this`pollIn, skb
      modifies ofoQueue, ofoQueue.Repr, receiveQueue, receiveQueue.Repr
      ensures Valid() && Nodes() <= old(Nodes()) + {skb}
      ensures State() == Reassembly.DataQueue(Intended, old(State()), s)
      ensures rc == if old(rcvWnd) == 0 then -1 else 0
    {
      if rcvWnd == 0 {
        return -1;
      }
      Attach(skb, s);
      if s.seqno == rcvNxt {
        TakeInOrder(skb);
      } else {
        Insert(skb);
      }
      rc := 0;
    }

    // ------------------------------------------------------------------- the reader

    /** The buffer at the front is shrunk by what was copied; nothing else changes. */
    method Shrink(skb: ListHead, dlen: nat)
      requires Valid() && receiveQueue.nodes != [] && receiveQueue.nodes[0] == skb && dlen <= |entry[skb].data|
      modifies this`entry
      ensures Valid() && State().ofo == old(State()).ofo
      ensures var front := old(State()).recv[0];
              State() == old(State()).(recv := [front.(data := front.data[dlen..])] + old(State()).recv[1..])
    {
      receiveQueue.Distinct(receiveQueue.nodes);
      ghost var nodes, was := receiveQueue.nodes, entry;
      entry := entry[skb := entry[skb].(data := entry[skb].data[dlen..])];
      assert forall i :: 0 < i < |nodes| ==> nodes[i] != nodes[0];
      assert Entries(nodes, entry) == [entry[skb]] + Entries(nodes, was)[1..];
      assert forall i :: 0 <= i < |ofoQueue.nodes| ==> ofoQueue.nodes[i] in ofoQueue.Repr;
      assert Entries(ofoQueue.nodes, entry) == Entries(ofoQueue.nodes, was);
    }

    /** The buffer at the front is released. */
    method Release()
      requires Valid() && receiveQueue.nodes != []
      modifies receiveQueue, receiveQueue.Repr
      ensures Valid() && State() == old(State()).(recv := old(State()).recv[1..])
      ensures receiveQueue.Repr <= old(receiveQueue.Repr)
    {
      var _ := receiveQueue.Dequeue();
    }

    /** dlen bytes of the front buffer were copied: it is shrunk, and released when nothing
        is left in it. */
    method TakeFront(skb: ListHead, dlen: nat)
      requires Valid() && receiveQueue.nodes != [] && receiveQueue.nodes[0] == skb && dlen <= |entry[skb].data|
      modifies this`entry, this`pshSeen, receiveQueue, receiveQueue.Repr
      ensures Valid() && receiveQueue.Repr <= old(receiveQueue.Repr)
      ensures var front, rest := old(State()).recv[0], old(State()).recv[1..];
              State() == if dlen == |front.data| then old(State()).(recv := rest, pshSeen := old(pshSeen) || front.psh)
                         else old(State()).(recv := [front.(data := front.data[dlen..])] + rest)
    {
      var all := dlen == |entry[skb].data|;
      Shrink(skb, dlen);
      if all {
        if entry[skb].psh {
          pshSeen := true;
        }
        Release();
      }
    }

    static method CopyBytes(buff: array<byte>, pos: nat, data: seq<byte>)
      requires pos + |data| <= buff.Length
      modifies buff
      ensures buff[..pos + |data|] == old(buff[..pos]) + data
      ensures forall k :: pos + |data| <= k < buff.Length ==> buff[k] == old(buff[k])
    {
      forall k | 0 <= k < |data| {
        buff[pos + k] := data[k];
      }
    }

    /** The fields a reader leaves alone. */
    ghost predicate OnlyRead(was: RxState, psh: bool)
      requires Buffers(ofoQueue.nodes) && Buffers(receiveQueue.nodes)
      reads this, ofoQueue, receiveQueue
    {
      State() == was.(recv := State().recv, pshSeen := was.pshSeen || psh)
    }

    /** What is left of the queue gives `room` more bytes the rest of what `whole` says. */
    ghost predicate Left(room: nat, out: seq<byte>, whole: Taken, psh: bool, was: RxState)
      reads this, ofoQueue, ofoQueue.Repr, receiveQueue, receiveQueue.Repr
    {
      && Valid() && OnlyRead(was, psh)
      && (var t := Take(State().recv, room); whole == Taken(out + t.out, t.rest, psh || t.psh))
    }

    /** The front buffer after dlen bytes of it were copied. */
    method TakeCopied(first: ListHead, dlen: nat, ghost room: nat, ghost out: seq<byte>, ghost whole: Taken,
                      ghost psh: bool, ghost was: RxState)
        returns (ghost psh': bool)
      requires Left(room, out, whole, psh, was) && room > 0
      requires receiveQueue.nodes != [] && receiveQueue.nodes[0] == first && dlen == Min(room, |entry[first].data|)
      modifies this`entry, this`pshSeen, receiveQueue, receiveQueue.Repr
      ensures Left(room - dlen, out + old(entry[first].data)[..dlen], whole, psh', was)
      ensures |State().recv| < old(|State().recv|) || (|State().recv| == old(|State().recv|) && dlen == room)
      ensures receiveQueue.Repr <= old(receiveQueue.Repr)
    {
      ghost var front := State().recv[0];
      psh' := psh || (dlen == |front.data| && front.psh);
      TakeFront(first, dlen);
      Copied(out, front.data[..dlen], Take(State().recv, room - dlen));
    }

    static lemma Copied(out: seq<byte>, more: seq<byte>, t: Taken)
      ensures out + (more + t.out) == (out + more) + t.out
    {}

    /** One turn of tcp_data_dequeue: copy what fits from the front buffer. */
    method CopyTurn(buff: array<byte>, at: nat, rlen: nat, room: nat, ghost start: seq<byte>, ghost out: seq<byte>,
                    ghost whole: Taken, ghost psh: bool, ghost was: RxState)
        returns (rlen': nat, ghost out': seq<byte>, ghost psh': bool)
      requires receiveQueue.nodes != [] && rlen < room && at + room <= buff.Length
      requires Left(room - rlen, out, whole, psh, was) && |out| == rlen && buff[..at + rlen] == start + out
      modifies this`entry, this`pshSeen, receiveQueue, receiveQueue.Repr, buff
      ensures rlen <= rlen' <= room && |out'| == rlen' && buff[..at + rlen'] == start + out'
      ensures Left(room - rlen', out', whole, psh', was)
      ensures |State().recv| < old(|State().recv|) || (|State().recv| == old(|State().recv|) && rlen < rlen')
      ensures receiveQueue.Repr <= old(receiveQueue.Repr)
      ensures forall k :: at + rlen' <= k < buff.Length ==> buff[k] == old(buff[k])
    {
      var first, dlen := CopyFront(buff, at + rlen, room - rlen, start, out, whole, psh, was);
      rlen', out' := rlen + dlen, out + entry[first].data[..dlen];
      psh' := TakeCopied(first, dlen, room - rlen, out, whole, psh, was);
    }

    method CopyFront(buff: array<byte>, pos: nat, room: nat, ghost start: seq<byte>, ghost out: seq<byte>,
                     ghost whole: Taken, ghost psh: bool, ghost was: RxState)
        returns (first: ListHead, dlen: nat)
      requires receiveQueue.nodes != [] && pos + room <= buff.Length && Left(room, out, whole, psh, was)
      requires buff[..pos] == start + out
      modifies buff
      ensures Left(room, out, whole, psh, was) && first == receiveQueue.nodes[0]
      ensures dlen == Min(room, |entry[first].data|)
      ensures buff[..pos + dlen] == start + (out + entry[first].data[..dlen])
      ensures forall k :: pos + dlen <= k < buff.Length ==> buff[k] == old(buff[k])
    {
      first := receiveQueue.QueueFirstEntry();
      var data := entry[first].data;
      dlen := if |data| > room then room else |data|;
      CopyBytes(buff, pos, data[..dlen]);
      assert (start + out) + data[..dlen] == start + (out + data[..dlen]);
    }

    /** The loop of tcp_data_dequeue after rlen bytes. */
    ghost predicate Turning(buff: array<byte>, at: nat, rlen: nat, room: nat, start: seq<byte>, out: seq<byte>,
                            whole: Taken, psh: bool, was: RxState)
      reads this, ofoQueue, ofoQueue.Repr, receiveQueue, receiveQueue.Repr, buff
    {
      && rlen <= room && at + room <= buff.Length && Left(room - rlen, out, whole, psh, was)
      && |out| == rlen && buff[..at + rlen] == start + out
    }

    method GoOn(buff: array<byte>, at: nat, rlen: nat, room: nat, ghost start: seq<byte>, ghost out: seq<byte>,
                ghost whole: Taken, ghost psh: bool, ghost was: RxState)
        returns (rlen': nat, empty: bool, ghost out': seq<byte>, ghost psh': bool)
      requires Turning(buff, at, rlen, room, start, out, whole, psh, was)
      requires receiveQueue.nodes != [] && rlen < room
      modifies this`entry, this`pshSeen, receiveQueue, receiveQueue.Repr, buff
      ensures Turning(buff, at, rlen', room, start, out', whole, psh', was)
      ensures rlen <= rlen' && empty == (receiveQueue.nodes == [])
      ensures |State().recv| < old(|State().recv|) || (|State().recv| == old(|State().recv|) && rlen < rlen')
      ensures receiveQueue.Repr <= old(receiveQueue.Repr)
      ensures forall k :: at + rlen' <= k < buff.Length ==> buff[k] == old(buff[k])
    {
      rlen', out', psh' := CopyTurn(buff, at, rlen, room, start, out, whole, psh, was);
      empty := receiveQueue.IsEmpty();
    }

    method CopyTurns(buff: array<byte>, at: nat, room: nat, ghost start: seq<byte>, ghost whole: Taken,
                     ghost was: RxState)
        returns (rlen: nat, ghost out: seq<byte>, ghost psh: bool)
      requires Turning(buff, at, 0, room, start, [], whole, false, was)
      modifies this`entry, this`pshSeen, receiveQueue, receiveQueue.Repr, buff
      ensures Turning(buff, at, rlen, room, start, out, whole, psh, was)
      ensures receiveQueue.nodes == [] || rlen == room
      ensures forall k :: at + rlen <= k < buff.Length ==> buff[k] == old(buff[k])
    {
      rlen, out, psh := 0, [], false;
      var empty := receiveQueue.IsEmpty();
      while !empty && rlen < room
        invariant Turning(buff, at, rlen, room, start, out, whole, psh, was)
        invariant empty == (receiveQueue.nodes == []) && receiveQueue.Repr <= old(receiveQueue.Repr)
        invariant forall k :: at + rlen <= k < buff.Length ==> buff[k] == old(buff[k])
        decreases |State().recv|, room - rlen
      {
        rlen, empty, out, psh := GoOn(buff, at, rlen, room, start, out, whole, psh, was);
      }
    }

    method CopyQueued(buff: array<byte>, at: nat, userlen: int) returns (rlen: nat, ghost out: seq<byte>)
      requires Valid() && at + Max(userlen, 0) <= buff.Length
      modifies this`entry, this`pshSeen, receiveQueue, receiveQueue.Repr, buff
      ensures Valid() && |out| == rlen <= Max(userlen, 0)
      ensures var st, t := old(State()), Take(old(State()).recv, Max(userlen, 0));
              out == t.out && State() == st.(recv := t.rest, pshSeen := st.pshSeen || t.psh)
      ensures buff[..at + rlen] == old(buff[..at]) + out
      ensures forall k :: at + rlen <= k < buff.Length ==> buff[k] == old(buff[k])
    {
      ghost var start, was, whole := buff[..at], State(), Take(State().recv, Max(userlen, 0));
      assert [] + whole.out == whole.out && start + [] == start;
      ghost var psh;
      rlen, out, psh := CopyTurns(buff, at, Max(userlen, 0), start, whole, was);
      assert out + [] == out;
    }

    /** tcp_data_dequeue on the ring of the reader's buffers. */
    method DataDequeue(buff: array<byte>, at: nat, userlen: int) returns (rlen: nat)
      requires Valid() && at + Max(userlen, 0) <= buff.Length
      modifies this`entry, this`pshSeen, this`pollIn, receiveQueue, receiveQueue.Repr, buff
      ensures Valid() && rlen <= Max(userlen, 0)
      ensures var (out, st) := Reassembly.DataDequeue(old(State()), userlen);
              |out| == rlen && buff[..at + rlen] == old(buff[..at]) + out && State() == st
      ensures forall k :: at + rlen <= k < buff.Length ==> buff[k] == old(buff[k])
    {
      ghost var out;
      rlen, out := CopyQueued(buff, at, userlen);
      var empty := receiveQueue.IsEmpty();
      if empty && !finSeen {
        pollIn := false;
      }
    }
  }
}
