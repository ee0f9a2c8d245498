/** include/intrusive_queue.hpp: a circular doubly linked list through link
    fields that live inside the linked objects. */
module IntrusiveQueues {

  class ListHead {
    var prev: ListHead?
    var next: ListHead?

    constructor ()
      ensures prev == this && next == this
    {
      prev := this;
      next := this;
    }
  }

  ghost predicate NoDup<T>(s: seq<T>) {
    forall i, j :: 0 <= i < j < |s| ==> s[i] != s[j]
  }

  /** The nodes, in order, that a callback did not delete. */
  ghost function Undeleted(s: seq<ListHead>, del: set<ListHead>): seq<ListHead> {
    if s == [] then []
    else
      var r := Undeleted(s[..|s| - 1], del);
      if s[|s| - 1] in del then r else r + [s[|s| - 1]]
  }

  /** How many nodes a walk standing at position i visits in all: up to and
      including the first at which the callback ends it. */
  ghost function Stop(all: seq<ListHead>, i: nat, halt: set<ListHead>): (n: nat)
    requires i <= |all|
    ensures i <= n <= |all|
    decreases |all| - i
  {
    if i == |all| then i
    else if all[i] in halt then i + 1
    else Stop(all, i + 1, halt)
  }

  /** The list after n turns of a walk over `all`. */
  ghost function AfterTurns(all: seq<ListHead>, n: nat, del: set<ListHead>): seq<ListHead>
    requires n <= |all|
  {
    Undeleted(all[..n], del) + all[n..]
  }

  lemma Turn(all: seq<ListHead>, n: nat, del: set<ListHead>, now: seq<ListHead>, k: nat)
    requires n < |all| && now == AfterTurns(all, n, del) && |now| - k == |all| - n
    ensures now[k] == all[n] && all[..n + 1] == all[..n] + [all[n]]
    ensures AfterTurns(all, n + 1, del) == if all[n] in del then now[..k] + now[k + 1..] else now
  {
    var u := Undeleted(all[..n], del);
    assert all[..n + 1][..n] == all[..n];
    assert all[n..] == [all[n]] + all[n + 1..];
    assert (u + [all[n]]) + all[n + 1..] == u + all[n..];
  }

  class IntrusiveQueue {
    const head: ListHead
    var len: nat
    ghost var nodes: seq<ListHead>
    ghost var Repr: set<ListHead>

    /** The ring as the links show it: `s` in order, forwards and backwards,
        between the two ends of the list head. */
    ghost predicate Linked(s: seq<ListHead>)
      reads this, head, s
    {
      && Forward(s)
      && (forall i {:trigger At(s, i).prev} :: 0 < i <= |s| + 1 ==> At(s, i).prev == At(s, i - 1))
      && len == |s|
    }

    /** What a walk along the next links passes from the head back to the head. */
    ghost predicate Forward(s: seq<ListHead>)
      reads this, head, s
    {
      && head !in s
      && (forall i {:trigger At(s, i).next} :: 0 <= i <= |s| ==> At(s, i).next == At(s, i + 1))
    }

    /** Position i of the ring: the head at 0 and |s| + 1, the nodes between. */
    ghost function At(s: seq<ListHead>, i: int): ListHead
    {
      if 1 <= i <= |s| then s[i - 1] else head
    }

    ghost predicate Valid()
      reads this, Repr
      ensures Valid() ==> head in Repr
    {
      && head in Repr && (forall i :: 0 <= i < |nodes| ==> nodes[i] in Repr)
      && Linked(nodes)
    }

    /** The links alone keep the nodes apart: equal nodes have equal predecessors,
        all the way back to the head. */
    lemma {:induction false} Distinct(s: seq<ListHead>)
      requires Linked(s)
      ensures NoDup(s)
    {
      forall i, j | 0 <= i < j < |s|
        ensures s[i] != s[j]
      {
        DistinctFrom(s, i, j);
      }
    }

    lemma {:induction false} DistinctFrom(s: seq<ListHead>, i: nat, j: nat)
      requires Linked(s) && i < j < |s|
      ensures s[i] != s[j]
    {
      assert At(s, i + 1).prev == At(s, i) && At(s, j + 1).prev == At(s, j);
      if i == 0 {
      } else {
        DistinctFrom(s, i - 1, j - 1);
      }
    }

    constructor ()
      ensures Valid() && nodes == [] && fresh(Repr) && Repr == {head}
    {
      head := new ListHead();
      len := 0;
      nodes := [];
      Repr := {head};
    }

    /** The four link assignments of __list_add and its count, for any nodes. */
    method Link(node: ListHead, prev: ListHead, next: ListHead)
      modifies this`len, node, prev`next, next`prev
      ensures node != prev && node != next ==>
                next.prev == node && node.next == next && node.prev == prev
      ensures prev.next == node
      ensures len == old(len) + 1
    {
      next.prev := node;
      node.next := next;
      node.prev := prev;
      prev.next := node;
      len := len + 1;
    }

    /** Links a new node between two neighbours, the first of them at position k of the ring. */
    method ListAdd(node: ListHead, prev: ListHead, next: ListHead, ghost k: nat)
      requires Valid() && node !in Repr
      requires k <= |nodes| && prev == At(nodes, k) && next == At(nodes, k + 1)
      modifies this, node, prev`next, next`prev
      ensures Valid() && Repr == old(Repr) + {node}
      ensures nodes == old(nodes)[..k] + [node] + old(nodes)[k..]
    {
      Distinct(nodes);
      Link(node, prev, next);
      nodes, Repr := nodes[..k] + [node] + nodes[k..], Repr + {node};
      ghost var was := old(nodes);
      forall i | 0 <= i <= |nodes|
        ensures At(nodes, i).next == At(nodes, i + 1) && At(nodes, i + 1).prev == At(nodes, i)
      {
        if i < k {
          assert old(At(was, i).next) == At(was, i + 1) && old(At(was, i + 1).prev) == At(was, i);
        } else if i > k + 1 {
          assert old(At(was, i - 1).next) == At(was, i) && old(At(was, i).prev) == At(was, i - 1);
        }
      }
    }

    /** A walk along the next links is determined by the links. */
    lemma {:induction false} ForwardUnique(s: seq<ListHead>, w: seq<ListHead>, k: nat)
      requires Forward(s) && Forward(w) && k <= |s| && k <= |w|
      ensures s[..k] == w[..k]
      ensures k == |s| ==> |w| == k
    {
      if k > 0 {
        ForwardUnique(s, w, k - 1);
        assert At(s, k - 1).next == At(s, k) && At(w, k - 1).next == At(w, k);
        assert At(s, k - 1) == if k == 1 then head else s[..k - 1][k - 2];
        assert At(w, k - 1) == if k == 1 then head else w[..k - 1][k - 2];
      }
      assert At(s, k).next == At(s, k + 1) && At(w, k).next == At(w, k + 1);
    }

    method IsEmpty() returns (empty: bool)
      requires Valid()
      ensures empty <==> nodes == []
    {
      assert At(nodes, 0).next == At(nodes, 1);
      empty := head == head.next;
    }

    method QueueFirstEntry() returns (first: ListHead?)
      requires Valid()
      ensures first == if nodes == [] then null else nodes[0]
    {
      var empty := IsEmpty();
      assert At(nodes, 0).next == At(nodes, 1);
      first := if empty then null else head.next;
    }

    method QueueAdd(node: ListHead)
      requires Valid() && node !in Repr
      modifies this, node, Repr
      ensures Valid() && Repr == old(Repr) + {node} && nodes == [node] + old(nodes)
    {
      assert At(nodes, 0).next == At(nodes, 1);
      ListAdd(node, head, head.next, 0);
    }

    method QueueAddTail(node: ListHead)
      requires Valid() && node !in Repr
      modifies this, node, Repr
      ensures Valid() && Repr == old(Repr) + {node} && nodes == old(nodes) + [node]
    {
      assert At(nodes, |nodes| + 1).prev == At(nodes, |nodes|);
      ListAdd(node, head.prev, head, |nodes|);
    }

    method QueueAddBefore(node: ListHead, target: ListHead, ghost k: nat)
      requires Valid() && node !in Repr
      requires k < |nodes| && nodes[k] == target
      modifies this, node, Repr
      ensures Valid() && Repr == old(Repr) + {node} && nodes == old(nodes)[..k] + [node] + old(nodes)[k..]
    {
      assert At(nodes, k + 1).prev == At(nodes, k);
      ListAdd(node, target.prev, target, k);
    }

    method QueueDel(node: ListHead, ghost k: nat)
      requires Valid() && k < |nodes| && nodes[k] == node
      modifies this, Repr
      ensures Valid() && Repr == old(Repr) - {node} && nodes == old(nodes)[..k] + old(nodes)[k + 1..]
      ensures node.prev == null && node.next == null
    {
      Distinct(nodes);
      assert At(nodes, k).next == node && At(nodes, k + 1).next == At(nodes, k + 2);
      assert At(nodes, k + 1).prev == At(nodes, k) && At(nodes, k + 2).prev == node;
      var prev, nxt := node.prev, node.next;
      prev.next := nxt;
      nxt.prev := prev;
      node.prev, node.next := null, null;
      len := len - 1;
      nodes, Repr := nodes[..k] + nodes[k + 1..], Repr - {node};
      ghost var was := old(nodes);
      forall i | 0 <= i <= |nodes|
        ensures At(nodes, i).next == At(nodes, i + 1) && At(nodes, i + 1).prev == At(nodes, i)
      {
        if i < k {
          assert old(At(was, i).next) == At(was, i + 1) && old(At(was, i + 1).prev) == At(was, i);
        } else if i > k {
          assert old(At(was, i + 1).next) == At(was, i + 2) && old(At(was, i + 2).prev) == At(was, i + 1);
        }
      }
    }

    method Dequeue() returns (first: ListHead?)
      requires Valid()
      modifies this, Repr
      ensures Valid() && Repr == if first == null then old(Repr) else old(Repr) - {first}
      ensures old(nodes) == [] ==> first == null && nodes == []
      ensures old(nodes) != [] ==> first == old(nodes)[0] && nodes == old(nodes)[1..]
    {
      first := QueueFirstEntry();
      if first != null {
        assert At(nodes, 0).next == At(nodes, 1);
        QueueDel(head.next, 0);
      }
    }

    /** Every entry goes to the cleaner once, in order, and the queue ends empty. */
    method ClearQueue() returns (cleaned: seq<ListHead>)
      requires Valid()
      modifies this, Repr
      ensures Valid() && nodes == [] && len == 0
      ensures cleaned == old(nodes)
    {
      cleaned := [];
      var entry := Dequeue();
      while entry != null
        invariant Valid() && Repr <= old(Repr) && |cleaned| <= |old(nodes)| && cleaned == old(nodes)[..|cleaned|]
        invariant entry == null ==> nodes == [] && |cleaned| == |old(nodes)|
        invariant entry != null ==> |cleaned| < |old(nodes)| && entry == old(nodes)[|cleaned|]
        invariant entry != null ==> nodes == old(nodes)[|cleaned| + 1..]
        decreases |old(nodes)| - |cleaned|
      {
        cleaned := cleaned + [entry];
        entry := Dequeue();
      }
    }

    /** The successor is fetched before the callback runs, so the callback may
        delete the current node: every node up to the first that stops the walk
        is visited once, in order. The callback unlinks the nodes in `del` and
        ends the walk at those in `halt`. */
    method ListForEachSafe(del: set<ListHead>, halt: set<ListHead>) returns (visited: seq<ListHead>)
      requires Valid()
      modifies this, Repr
      ensures Valid()
      ensures visited == old(nodes)[..Stop(old(nodes), 0, halt)]
      ensures nodes == Undeleted(visited, del) + old(nodes)[Stop(old(nodes), 0, halt)..]
    {
      visited := [];
      ghost var all, n, k := nodes, 0, 0;
      var pos := NextOf(head, 0);
      var p := NextOf(pos, 1);
      var stop := false;
      while pos != head && !stop
        invariant Valid() && n <= |all| && OnWalk(all, n, k, del, pos, p)
        invariant visited == all[..n]
        invariant Stop(all, 0, halt) == if stop then n else Stop(all, n, halt)
        invariant Repr <= old(Repr)
        decreases |all| - n
      {
        visited := visited + [pos];
        stop := pos in halt;
        pos, p, k := Pass(pos, p, del, all, n, k);
        n := n + 1;
      }
    }

    /** After n turns over `all` the walk stands at position k + 1 of the ring and
        has fetched the node behind it. */
    ghost predicate OnWalk(all: seq<ListHead>, n: nat, k: nat, del: set<ListHead>, pos: ListHead, p: ListHead)
      requires n <= |all|
      reads this
    {
      && nodes == AfterTurns(all, n, del)
      && |nodes| - k == |all| - n
      && pos == At(nodes, k + 1)
      && (k < |nodes| ==> p == At(nodes, k + 2))
    }

    /** One turn of the walk: the callback unlinks the current node or leaves it,
        then the walk moves on to the successor fetched before. */
    method Pass(pos: ListHead, p: ListHead, del: set<ListHead>, ghost all: seq<ListHead>, ghost n: nat, ghost k: nat)
        returns (pos': ListHead, p': ListHead, ghost k': nat)
      requires Valid() && pos != head
      requires n <= |all| && OnWalk(all, n, k, del, pos, p)
      modifies this, Repr
      ensures Valid()
      ensures n < |all| && all[n] == pos && all[..n + 1] == all[..n] + [pos]
      ensures OnWalk(all, n + 1, k', del, pos', p')
      ensures Repr <= old(Repr)
    {
      assert At(nodes, |nodes| + 1) == head;
      Turn(all, n, del, nodes, k);
      k' := k + 1;
      if pos in del {
        QueueDel(pos, k);
        k' := k;
      }
      pos' := p;
      p' := NextOf(pos', k' + 1);
    }

    /** The link a walk follows from position k of the ring. */
    method NextOf(pos: ListHead, ghost k: nat) returns (next: ListHead)
      requires Valid() && k <= |nodes| + 1 && pos == At(nodes, k)
      ensures Valid() && (k <= |nodes| ==> next == At(nodes, k + 1))
    {
      assert At(nodes, 0).next == At(nodes, 1) && (k <= |nodes| ==> At(nodes, k).next == At(nodes, k + 1));
      next := pos.next;
    }
  }
}
