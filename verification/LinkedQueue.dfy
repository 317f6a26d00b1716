/** The per-destination packet queue: malloc'd nodes linked by ptr, with front, rear and count.

    enq is cut where another thread can look: the consumer tests front without the mutex, so
    the store to front is an action of its own. free is modelled as a flag on the node, which
    makes a double free or a use after free an assertion failure. */
module LinkedQueue {
  import opened Frames

  /** What one queue looks like from outside: the packets linked from front to rear, whether
      front is non-NULL, and count. */
  datatype QueueView = QueueView(items: seq<Packet>, hasFront: bool, count: int)

  const EMPTY_QUEUE := QueueView([], false, 0)

  // The three visible actions of enq, and deq.

  function Linked(v: QueueView, p: Packet): QueueView
  {
    v.(items := v.items + [p], count := if v.items == [] then 0 else v.count)
  }

  function Published(v: QueueView): QueueView { v.(hasFront := true) }

  function Counted(v: QueueView): QueueView { v.(count := v.count + 1) }

  function Dequeued(v: QueueView): QueueView
  {
    if !v.hasFront || v.items == [] then v
    else QueueView(v.items[1..], |v.items| > 1, if v.count > 0 then v.count - 1 else v.count)
  }

  /** Between calls: front is NULL exactly when nothing is linked and count is exact. */
  predicate Settled(v: QueueView)
  {
    v.hasFront == (v.items != []) && v.count == |v.items|
  }

  /** A whole enq keeps the queue settled and appends exactly the packet. */
  lemma EnqIsAppend(v: QueueView, p: Packet)
    requires Settled(v)
    ensures Counted(Published(Linked(v, p))) == QueueView(v.items + [p], true, |v.items| + 1)
    ensures Settled(Counted(Published(Linked(v, p))))
  {
  }

  /** deq undoes enq on an empty queue, and otherwise commutes with it: first in, first out. */
  lemma DeqAfterEnq(v: QueueView, p: Packet)
    requires Settled(v)
    ensures var w := Counted(Published(Linked(v, p)));
            Settled(Dequeued(w)) && w.items == [w.items[0]] + Dequeued(w).items
            && (v.items == [] ==> Dequeued(w) == v && w.items[0] == p)
            && (v.items != [] ==> Dequeued(w) == Counted(Published(Linked(Dequeued(v), p))) && w.items[0] == v.items[0])
  {
    if v.items != [] {
      assert (v.items + [p])[1..] == v.items[1..] + [p];
    }
  }

  class Node {
    var data: Packet
    var ptr: Node?
    var freed: bool
    ghost const home: nat  // the queue it was allocated for

    constructor (data: Packet, ghost home: nat)
      ensures this.data == data && ptr == null && !freed && this.home == home
    {
      this.data := data;
      this.home := home;
      ptr := null;
      freed := false;
    }
  }

  class Queue {
    const id: nat
    var front: Node?
    var rear: Node?
    var count: int
    ghost var nodes: seq<Node>  // the chain from first to last

    /** The chain: distinct live nodes, each pointing to the next, the last to NULL, and rear
        the last of them. front is the first, or still NULL before enq publishes it. */
    ghost predicate Valid()
      reads this, nodes
    {
      && (forall i, j :: 0 <= i < j < |nodes| ==> nodes[i] != nodes[j])
      && (forall i :: 0 <= i < |nodes| ==> !nodes[i].freed && nodes[i].home == id)
      && (forall i :: 0 <= i < |nodes| - 1 ==> nodes[i].ptr == nodes[i + 1])
      && (if nodes == [] then rear == null && front == null
          else rear == nodes[|nodes| - 1] && rear.ptr == null && (front == nodes[0] || (front == null && |nodes| == 1)))
    }

    ghost function Items(): (s: seq<Packet>)
      reads this, nodes
      ensures |s| == |nodes| && forall i :: 0 <= i < |s| ==> s[i] == nodes[i].data
    {
      seq(|nodes|, i requires 0 <= i < |nodes| reads this, nodes => nodes[i].data)
    }

    ghost function View(): QueueView
      reads this, nodes
    {
      QueueView(Items(), front != null, count)
    }

    /** k steps along ptr from n. */
    ghost function Follow(n: Node?, k: nat): Node?
      reads this, nodes
    {
      if n == null || n !in nodes || k == 0 then n else Follow(n.ptr, k - 1)
    }

    /** From front, k pointers lead to the k-th linked node and then to NULL: the chain ends,
        so it has no cycle, and rear is the last node before NULL. */
    lemma {:induction false} FollowChain(i: nat, k: nat)
      requires Valid() && front != null && i + k <= |nodes| && i < |nodes|
      ensures Follow(nodes[i], k) == if i + k < |nodes| then nodes[i + k] else null
      decreases k
    {
      if k == 0 || i + 1 == |nodes| {
      } else {
        FollowChain(i + 1, k - 1);
      }
    }

    /** Two different queues share no node. */
    lemma ChainsDisjoint(other: Queue, n: Node)
      requires Valid() && other.Valid() && id != other.id && n in nodes
      ensures n !in other.nodes
    {
    }

    lemma RearIsLastReachable()
      requires Valid() && front != null
      ensures Follow(front, |nodes| - 1) == rear && Follow(front, |nodes|) == null
    {
      FollowChain(0, |nodes| - 1);
      FollowChain(0, |nodes|);
    }

    constructor (id: nat)
      ensures this.id == id && Valid() && nodes == [] && View() == EMPTY_QUEUE
    {
      this.id := id;
      front := null;
      rear := null;
      count := 0;
      nodes := [];
    }

    /** enq up to and including the store to rear, without the store to front. */
    method Link(p: Packet)
      requires Valid() && (nodes != [] ==> front != null)
      modifies this, nodes
      ensures Valid() && View() == Linked(old(View()), p)
      ensures |nodes| == |old(nodes)| + 1 && nodes[..|old(nodes)|] == old(nodes) && fresh(nodes[|old(nodes)|])
      ensures front == old(front)
    {
      ghost var was, items := nodes, Items();
      var n := new Node(p, id);
      if rear == null {
        count := 0;
        rear := n;
      } else {
        rear.ptr := n;
        rear := n;
      }
      nodes := was + [n];
      assert forall k :: 0 <= k < |was| ==> was[k].data == items[k];
      assert Items() == items + [p];
    }

    /** The store q[id].front = q[id].rear of the empty case; nothing to do otherwise. */
    method Publish()
      requires Valid() && nodes != []
      modifies this`front
      ensures Valid() && View() == Published(old(View()))
      ensures old(front) != null ==> front == old(front)
    {
      if front == null {
        front := rear;
      }
    }

    method Count()
      requires Valid()
      modifies this`count
      ensures Valid() && View() == Counted(old(View()))
    {
      count := count + 1;
    }

    method Deq()
      requires Valid()
      modifies this, nodes
      ensures Valid() && View() == Dequeued(old(View()))
      ensures nodes == if old(front) == null then old(nodes) else old(nodes)[1..]
      ensures old(front) != null ==> old(front).freed
    {
      var front1 := front;
      if front1 == null {
        return;
      }
      assert front1 == nodes[0] && (|nodes| > 1 ==> front1.ptr == nodes[1]);
      if front1.ptr != null {
        front1 := front1.ptr;
        Unlink(front1);
      } else {
        Free(front);
        front := null;
        rear := null;
        nodes := [];
      }
      if count > 0 {
        count := count - 1;
      }
    }

    method Free(n: Node)
      requires !n.freed
      modifies n`freed
      ensures n.freed
    {
      n.freed := true;
    }

    /** Frees the front node and makes its successor the front. */
    method Unlink(front1: Node)
      requires Valid() && front != null && |nodes| > 1 && front1 == nodes[1]
      modifies this`front, this`nodes, front`freed
      ensures Valid() && front == front1 && nodes == old(nodes)[1..] && Items() == old(Items())[1..]
      ensures old(front).freed
    {
      ghost var was, items := nodes, Items();
      assert front == was[0];
      Free(front);
      front := front1;
      nodes := was[1..];
      assert forall k :: 0 <= k < |nodes| ==> nodes[k] == was[k + 1];
      assert Items() == items[1..];
    }

    /** A whole enq, as the producer runs it under the mutex. */
    method Enq(p: Packet)
      requires Valid() && Settled(View())
      modifies this, nodes
      ensures Valid() && Settled(View()) && View().items == old(View().items) + [p]
      ensures fresh(set n | n in nodes && n !in old(nodes))
    {
      ghost var v := View();
      Link(p);
      Publish();
      Count();
      EnqIsAppend(v, p);
    }
  }
}
