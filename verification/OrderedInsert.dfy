/** src/tcp_data.cpp tcp_data_insert_ordered on the links themselves. */
module OrderedInsert {
  import opened Common
  import opened IntrusiveQueues
  import opened Reassembly

  /** The buffers behind a list of nodes: what list_entry finds around each. */
  ghost function Entries(nodes: seq<ListHead>, entry: map<ListHead, Segment>): (q: seq<Segment>)
    requires forall i :: 0 <= i < |nodes| ==> nodes[i] in entry
    ensures |q| == |nodes| && forall i :: 0 <= i < |q| ==> q[i] == entry[nodes[i]]
  {
    if nodes == [] then [] else [entry[nodes[0]]] + Entries(nodes[1..], entry)
  }

  /** Placing a node among nodes places its buffer among their buffers. */
  lemma EntriesPlace(form: Form, nodes: seq<ListHead>, slot: Slot, skb: ListHead,
                                        entry: map<ListHead, Segment>)
    requires !slot.Tail? ==> slot.at < |nodes|
    requires skb in entry && forall i :: 0 <= i < |nodes| ==> nodes[i] in entry
    ensures var walk := Place(form, nodes, slot, skb);
            && (forall i :: 0 <= i < |walk| ==> walk[i] in entry)
            && Entries(walk, entry) == Place(form, Entries(nodes, entry), slot, entry[skb])
  {
    var walk, placed := Place(form, nodes, slot, skb), Place(form, Entries(nodes, entry), slot, entry[skb]);
    assert |walk| == |placed|;
    assert forall i :: 0 <= i < |walk| ==> walk[i] in entry && entry[walk[i]] == placed[i];
  }

  /** Appends a node that QueueAddBefore has just linked at position i, before
      the end. The walk now returns to the head from the node, and the ring is
      gone: no list of nodes has these links and this length. */
  method AppendLinked(queue: IntrusiveQueue, skb: ListHead, ghost i: nat)
    requires queue.Valid() && i < |queue.nodes| - 1 && queue.nodes[i] == skb
    modifies queue, queue.Repr
    ensures queue.nodes == old(queue.nodes)
    ensures queue.Forward(queue.nodes[..i + 1])
    ensures forall s: seq<ListHead> :: !queue.Linked(s)
  {
    queue.Distinct(queue.nodes);
    ghost var nodes := queue.nodes;
    ghost var last := nodes[|nodes| - 1];
    assert queue.At(nodes, |nodes| + 1).prev == queue.At(nodes, |nodes|);
    queue.Link(skb, queue.head.prev, queue.head);
    ghost var walk := nodes[..i + 1];
    forall k | 0 <= k <= |walk|
      ensures queue.At(walk, k).next == queue.At(walk, k + 1)
    {
      assert old(queue.At(nodes, k).next) == queue.At(nodes, k + 1);
      if k <= i {
        assert queue.At(walk, k) == queue.At(nodes, k);
      }
    }
    forall s: seq<ListHead>
      ensures !queue.Linked(s)
    {
      if queue.Linked(s) {
        queue.ForwardUnique(s, walk, Min(|s|, |walk|));
        queue.ForwardUnique(walk, s, Min(|s|, |walk|));
      }
    }
  }

  /** What the callback does in front of a node: link the buffer there and return
      true. Written, that only ends the walk (src/tcp_data.cpp:18), and lines 27
      and 28 append the buffer again. */
  method LinkBefore(form: Form, queue: IntrusiveQueue, skb: ListHead, target: ListHead, ghost i: nat)
    requires queue.Valid() && skb !in queue.Repr && i < |queue.nodes| && queue.nodes[i] == target
    modifies queue, queue.Repr, skb
    ensures var all := old(queue.nodes)[..i] + [skb] + old(queue.nodes)[i..];
            if form.Intended? then queue.Valid() && queue.nodes == all && queue.Repr == old(queue.Repr) + {skb}
            else queue.Forward(old(queue.nodes)[..i] + [skb]) && forall s: seq<ListHead> :: !queue.Linked(s)
  {
    queue.QueueAddBefore(skb, target, i);
    if form.Written? {
      assert queue.nodes[..i + 1] == old(queue.nodes)[..i] + [skb];
      AppendLinked(queue, skb, i);
    }
  }

  /** The walk up to the node at which the callback returns true. */
  method FindSlot(queue: IntrusiveQueue, s: Segment, entry: map<ListHead, Segment>) returns (pos: ListHead, slot: Slot)
    requires queue.Valid()
    requires forall i :: 0 <= i < |queue.nodes| ==> queue.nodes[i] in entry
    ensures queue.Valid()
    ensures slot == Scan(Entries(queue.nodes, entry), s, 0)
    ensures pos == if slot.Tail? then queue.head else queue.nodes[slot.at]
  {
    ghost var q := Entries(queue.nodes, entry);
    var i := 0;
    pos := queue.NextOf(queue.head, 0);
    while pos != queue.head
      invariant queue.Valid() && i <= |queue.nodes|
      invariant pos == queue.At(queue.nodes, i + 1)
      invariant Scan(q, s, 0) == Scan(q, s, i)
      decreases |queue.nodes| - i
    {
      var next := entry[pos];
      if s.seqno < next.seqno && s.End() <= next.seqno {
        return pos, Before(i);
      } else if s.seqno == next.seqno {
        return pos, Duplicate(i);
      }
      // Overlapping segments are not joined; the walk goes on.
      pos := queue.NextOf(pos, i + 1);
      i := i + 1;
    }
    slot := Tail;
  }

  /** Sorts a buffer into the queue. The links afterwards, walked from the head,
      show what Reassembly.InsertOrdered says; they still form a ring exactly when
      the buffer was not linked in front of another one and then appended. */
  method InsertIntoQueue(form: Form, queue: IntrusiveQueue, skb: ListHead, entry: map<ListHead, Segment>)
      returns (ghost walk: seq<ListHead>)
    requires queue.Valid() && skb !in queue.Repr
    requires skb in entry && forall i :: 0 <= i < |queue.nodes| ==> queue.nodes[i] in entry
    modifies queue, queue.Repr, skb
    ensures walk == Place(form, old(queue.nodes), Scan(Entries(old(queue.nodes), entry), entry[skb], 0), skb)
    ensures queue.Forward(walk)
    ensures if form.Written? && Scan(Entries(old(queue.nodes), entry), entry[skb], 0).Before?
            then forall s: seq<ListHead> :: !queue.Linked(s)
            else queue.Valid() && queue.nodes == walk && queue.Repr <= old(queue.Repr) + {skb}
  {
    ghost var nodes := queue.nodes;
    var pos, slot := FindSlot(queue, entry[skb], entry);
    walk := Place(form, nodes, slot, skb);
    if slot.Before? {
      LinkBefore(form, queue, skb, pos, slot.at);
    } else if slot.Tail? || form.Written? {
      // src/tcp_data.cpp:21 only ends the walk; lines 27 and 28 follow.
      queue.QueueAddTail(skb);
    }
  }
}
