/** The global array q[10]: ten queues on the heap, which share no node. */
module QueueBank {
  import opened Frames
  import opened LinkedQueue

  const QUEUES: nat := 9       // queues 1..9; element 0 of q is never used

  function SumCounts(q: seq<QueueView>, k: nat): int
    requires k < |q|
  {
    if k == 0 then 0 else SumCounts(q, k - 1) + q[k].count
  }

  /** is_empty() returns not a truth value but the sum of the nine counts. */
  function Total(q: seq<QueueView>): int
    requires |q| == QUEUES + 1
  {
    SumCounts(q, QUEUES)
  }

  function EmptyQueues(): (v: seq<QueueView>)
    ensures |v| == QUEUES + 1 && forall i :: 0 <= i < |v| ==> v[i] == EMPTY_QUEUE
  {
    seq(QUEUES + 1, _ => EMPTY_QUEUE)
  }

  class Bank {
    const q: seq<Queue>
    ghost var Repr: set<object>

    /** Ten different queues, each a well-formed chain. */
    ghost predicate Valid()
      reads this, Repr
    {
      && this in Repr
      && |q| == QUEUES + 1
      && (forall i :: 0 <= i < |q| ==> q[i] in Repr && q[i].id == i)
      && (forall i, n :: 0 <= i < |q| && n in q[i].nodes ==> n in Repr)
      && (forall i :: 0 <= i < |q| ==> q[i].Valid())
    }

    ghost function Views(): (v: seq<QueueView>)
      requires Valid()
      reads this, Repr
      ensures |v| == |q| && forall i :: 0 <= i < |q| ==> v[i] == q[i].View()
    {
      seq(|q|, i requires Valid() && 0 <= i < |q| reads this, Repr => q[i].View())
    }

    /** The ten chains share no node: whatever node one queue's pointers can reach, no other
        queue's can. */
    lemma ChainsDisjoint(i: nat, j: nat, k: nat, l: nat)
      requires Valid() && i < |q| && j < |q| && i != j && k < |q[i].nodes| && l < |q[j].nodes|
      ensures var a, b := q[i].Follow(q[i].front, k), q[j].Follow(q[j].front, l); a != null && b != null ==> a != b
    {
      q[i].ChainsDisjoint(q[j], q[i].nodes[k]);
      if q[i].front != null && q[j].front != null {
        q[i].FollowChain(0, k);
        q[j].FollowChain(0, l);
      }
    }

    /** create_queue for every queue. */
    static method CreateQueues() returns (qs: seq<Queue>)
      ensures |qs| == QUEUES + 1
      ensures forall k :: 0 <= k < |qs| ==> fresh(qs[k]) && qs[k].id == k
      ensures forall k :: 0 <= k < |qs| ==> qs[k].Valid() && qs[k].nodes == [] && qs[k].View() == EMPTY_QUEUE
    {
      qs := [];
      for i := 0 to QUEUES + 1
        invariant |qs| == i
        invariant forall k :: 0 <= k < i ==> fresh(qs[k]) && qs[k].id == k
        invariant forall k :: 0 <= k < i ==> qs[k].Valid() && qs[k].nodes == [] && qs[k].View() == EMPTY_QUEUE
      {
        var one := new Queue(i);
        qs := qs + [one];
      }
    }

    constructor ()
      ensures Valid() && fresh(Repr) && Views() == EmptyQueues()
    {
      var qs := CreateQueues();
      q := qs;
      ghost var owned := set i | 0 <= i < |qs| :: qs[i] as object;
      Repr := {this} + owned;
      new;
      assert forall i :: 0 <= i < |q| ==> q[i] as object in owned;
    }

    /** is_empty(): the loop over the nine counts. */
    method IsEmpty() returns (total: int)
      requires Valid()
      ensures total == Total(Views())
    {
      total := 0;
      for i := 1 to QUEUES + 1
        invariant total == SumCounts(Views(), i - 1)
      {
        total := total + q[i].count;
      }
    }

    // ----- the queue operations, and that they leave the other queues alone -----

    /** Only queue d and its nodes have changed, so every other queue is as it was. */
    twostate lemma OthersKept(d: nat)
      requires old(Valid()) && d < |q|
      requires forall i :: 0 <= i < |q| && i != d ==> unchanged(q[i])
      requires forall i, k :: 0 <= i < |q| && i != d && 0 <= k < |q[i].nodes| ==> unchanged(q[i].nodes[k])
      ensures forall i :: 0 <= i < |q| && i != d ==> q[i].View() == old(q[i].View()) && q[i].Valid()
      ensures forall i :: 0 <= i < |q| && i != d ==> q[i].front == old(q[i].front)
    {
      forall i | 0 <= i < |q| && i != d
        ensures q[i].View() == old(q[i].View()) && q[i].Valid()
      {
        assert unchanged(q[i]);
        assert q[i].Items() == old(q[i].Items());
      }
    }

    method LinkAt(d: nat, p: Packet)
      requires Valid() && d < |q| && (q[d].nodes != [] ==> q[d].front != null)
      modifies q[d], q[d].nodes, this`Repr
      ensures Valid() && fresh(Repr - old(Repr))
      ensures Views() == old(Views())[d := Linked(old(Views())[d], p)]
      ensures forall i :: 0 <= i < |q| ==> q[i].front == old(q[i].front)
    {
      hide Linked;
      q[d].Link(p);
      Repr := Repr + {q[d].nodes[|q[d].nodes| - 1]};
      assert q[d].nodes == old(q[d].nodes) + [q[d].nodes[|q[d].nodes| - 1]];
      OthersKept(d);
    }

    method PublishAt(d: nat)
      requires Valid() && d < |q| && q[d].nodes != []
      modifies q[d]
      ensures Valid()
      ensures Views() == old(Views())[d := Published(old(Views())[d])]
      ensures forall i :: 0 <= i < |q| && old(q[i].front) != null ==> q[i].front == old(q[i].front)
    {
      q[d].Publish();
      OthersKept(d);
    }

    method CountAt(d: nat)
      requires Valid() && d < |q|
      modifies q[d]
      ensures Valid()
      ensures Views() == old(Views())[d := Counted(old(Views())[d])]
      ensures forall i :: 0 <= i < |q| ==> q[i].front == old(q[i].front)
    {
      q[d].Count();
      OthersKept(d);
    }

    method DeqAt(d: nat)
      requires Valid() && d < |q|
      modifies q[d], q[d].nodes
      ensures Valid()
      ensures Views() == old(Views())[d := Dequeued(old(Views())[d])]
      ensures forall i :: 0 <= i < |q| && i != d ==> q[i].front == old(q[i].front)
    {
      q[d].Deq();
      OthersKept(d);
    }

    /** deq(q[i].id): create_queue made the id the index. */
    method DeqById(i: nat)
      requires Valid() && i < |q|
      modifies Repr
      ensures Valid() && Repr == old(Repr)
      ensures Views() == old(Views())[i := Dequeued(old(Views())[i])]
      ensures forall k :: 0 <= k < |q| && k != i ==> q[k].front == old(q[k].front)
    {
      DeqAt(q[i].id);
    }
  }
}
