/** That a slave gets somewhere: how many of its own actions the consumer needs for a packet, and
    that from every reachable state everything that has arrived can still be written. */
module SlaveProgress {
  import opened Frames
  import opened LinkedQueue
  import opened QueueBank
  import opened SlaveModel
  import opened SlaveInvariants
  import opened SlaveTheorems

  // ----- the consumer's pace -----

  function ConsSteps(events: seq<Event>): nat
  {
    if events == [] then 0
    else ConsSteps(events[..|events| - 1]) + (if events[|events| - 1].ConsStep? then 1 else 0)
  }

  /** Actions of a consumer about to look at queue i until it has written from queue d: at most
      eight for each queue on the way, one to start over, five at queue d. */
  function SweepLeft(i: nat, d: nat): int
  {
    if i <= d then 8 * (d - i) + 5 else 8 * (10 - i) + 1 + 8 * (d - 1) + 5
  }

  function ActionsLeft(c: Consumer, d: nat): int
  {
    match c
    case CSweep(i) => SweepLeft(i, d)
    case CSeen(i) => if i == d then 4 else SweepLeft(i + 1, d) + 7
    case CLock(i) => if i == d then 3 else SweepLeft(i + 1, d) + 6
    case CCheck(i) => if i == d then 2 else SweepLeft(i + 1, d) + 5
    case CWrite(i) => if i == d then 1 else SweepLeft(i + 1, d) + 4
    case CDeq(i) => SweepLeft(i + 1, d) + 3
    case CSignal(i) => SweepLeft(i + 1, d) + 2
    case CUnlock(i) => SweepLeft(i + 1, d) + 1
    case CStray(i) => 1
  }

  lemma ActionsLeftRange(s: Slave, d: nat)
    requires WellFormed(s) && 1 <= d <= 9
    ensures 1 <= ActionsLeft(s.cons, d) <= 73
  {
  }

  lemma PaceStep(s: Slave, d: nat)
    requires Inv(s) && ConsEnabled(s) && 1 <= d <= 9 && s.slot > 0 && s.q[d].hasFront
    ensures if s.cons == CWrite(d) then ActionsLeft(ConsNext(s).cons, d) == 73 && ActionsLeft(s.cons, d) == 1
            else ActionsLeft(ConsNext(s).cons, d) < ActionsLeft(s.cons, d)
  {
    hide FlowInv, RoomInv, WakeInv, CountdownInv, Total;
    if s.cons.CCheck? {
      SeenMeansPositive(s);
    }
  }

  /** Actions taken and still to be taken, less 73 for each packet from queue d. */
  function Delay(s: Slave, d: nat): int
  {
    ActionsLeft(s.cons, d) - 73 * |Delivered(s.out, d)|
  }

  lemma DelayStep(s: Slave, e: Event, d: nat)
    requires WellFormed(s) && Inv(s) && Enabled(s, e) && 1 <= d <= 9 && s.slot > 0 && s.q[d].hasFront
    ensures Delay(Next(s, e), d) + (if e.ConsStep? then 1 else 0) <= Delay(s, d)
  {
    hide Inv, Delivered, ActionsLeft;
    match e {
      case ProdStep => DeliveredProd(s, d);
      case ConsStep =>
        DeliveredCons(s, d);
        PaceStep(s, d);
      case _ => QueuesQuiet(s, e);
    }
  }

  lemma ConsStepsAppend(es: seq<Event>, e: Event)
    ensures ConsSteps(es + [e]) == ConsSteps(es) + (if e.ConsStep? then 1 else 0)
  {
    assert (es + [e])[..|es|] == es;
  }

  ghost predicate Supplied(r: Run, d: nat, lo: nat, hi: nat)
  {
    forall t :: lo <= t < hi && t < |r.states| ==>
      d < |r.states[t].q| && r.states[t].q[d].hasFront && r.states[t].slot > 0
  }

  lemma StateInv(r: Run, t: nat)
    requires IsRun(r) && t < |r.states|
    ensures WellFormed(r.states[t]) && Inv(r.states[t])
  {
    RunInv(r, t);
  }

  lemma {:induction false} DelayOver(r: Run, d: nat, lo: nat, hi: nat)
    requires IsRun(r) && lo <= hi < |r.states| && 1 <= d <= 9 && Supplied(r, d, lo, hi)
    ensures Delay(r.states[hi], d) + ConsSteps(r.events[lo..hi]) <= Delay(r.states[lo], d)
    decreases hi
  {
    hide Next, Delay, Inv;
    if lo == hi {
      assert r.events[lo..hi] == [];
    } else {
      DelayOver(r, d, lo, hi - 1);
      StateInv(r, hi - 1);
      assert StepAt(r, hi - 1);
      DelayStep(r.states[hi - 1], r.events[hi - 1], d);
      assert r.events[lo..hi] == r.events[lo..hi - 1] + [r.events[hi - 1]];
      ConsStepsAppend(r.events[lo..hi - 1], r.events[hi - 1]);
    }
  }

  /** While queue d has something in front and the slot lasts, every 73 actions of the consumer
      write a packet from d, wherever it stood and whatever the other queues hold. */
  lemma ConsumerPace(r: Run, d: nat, lo: nat, hi: nat)
    requires IsRun(r) && lo <= hi < |r.states| && 1 <= d <= 9
    requires forall t :: lo <= t < hi ==>
               d < |r.states[t].q| && r.states[t].q[d].hasFront && r.states[t].slot > 0
    ensures var own := |Delivered(r.states[hi].out, d)| - |Delivered(r.states[lo].out, d)|;
            ConsSteps(r.events[lo..hi]) <= 73 * own + 72
  {
    RunInv(r, lo);
    RunInv(r, hi);
    DelayOver(r, d, lo, hi);
    ActionsLeftRange(r.states[lo], d);
    ActionsLeftRange(r.states[hi], d);
  }

  // ----- a slot can always be had -----

  /** The slot is positive and the countdown thread is not inside the mutex. */
  predicate SlotReady(s: Slave) { s.slot > 0 && s.cd.DTest? }

  /** Actions of the countdown thread, and exchanges on its socket, until then. */
  function SlotLeft(s: Slave): nat
  {
    match s.cd
    case DTest => if s.slot > 0 then 0 else 5
    case DSet(v) => if v > 0 then 1 else 6
    case DRecv => 2
    case DHello2 => 3
    case DReply => 4
    case DHello => 5
    case DAck => 3
    case DZero => 4
    case DUnlock => 6
    case DStore(_) => 7
    case DRead => 8
    case DLock => 9
  }

  function TowardsSlot(s: Slave): Event
  {
    match s.cd
    case DHello => SendHello
    case DReply => GetReply
    case DHello2 => SendHello2
    case DRecv => GetGrant(100)
    case DAck => SendAck
    case DLock => if s.mutex == ByProducer then ProdStep else if s.mutex == ByConsumer then ConsStep else CdStep
    case _ => CdStep
  }

  lemma TowardsSlotStep(s: Slave)
    requires WellFormed(s) && Inv(s) && !SlotReady(s)
    ensures Enabled(s, TowardsSlot(s))
    ensures var t := Next(s, TowardsSlot(s));
            && t.ingress == s.ingress
            && (SlotLeft(t) < SlotLeft(s) || (SlotLeft(t) == SlotLeft(s) && HolderLeft(t) < HolderLeft(s)))
  {
    if s.cd.DLock? && s.mutex != Free {
      HolderMoves(s);
      hide Inv, HolderLeft;
      QuietIngress(s, TowardsSlot(s));
    } else {
      hide Inv, HolderLeft;
      SlotStep(s);
    }
  }

  lemma QuietIngress(s: Slave, e: Event)
    requires WellFormed(s) && Enabled(s, e) && !e.Tap?
    ensures Next(s, e).ingress == s.ingress
  {
  }

  lemma SlotStep(s: Slave)
    requires WellFormed(s) && !SlotReady(s) && !(s.cd.DLock? && s.mutex != Free)
    ensures Enabled(s, TowardsSlot(s))
    ensures Next(s, TowardsSlot(s)).ingress == s.ingress && SlotLeft(Next(s, TowardsSlot(s))) < SlotLeft(s)
  {
  }

  /** q continues r, and no frame arrives on the way. */
  ghost predicate Continues(r: Run, q: Run)
  {
    IsRun(r) && IsRun(q) && r.states <= q.states && Last(q).ingress == Last(r).ingress
  }

  lemma {:induction false} ReachSlot(r: Run) returns (q: Run)
    requires IsRun(r)
    ensures Continues(r, q) && SlotReady(Last(q))
    decreases if IsRun(r) then SlotLeft(Last(r)) else 0, if IsRun(r) then HolderLeft(Last(r)) else 0
  {
    hide Inv, SlotLeft, HolderLeft, Next, SlotReady;
    var s := Last(r);
    StateInv(r, |r.states| - 1);
    if SlotReady(s) {
      q := r;
    } else {
      TowardsSlotStep(s);
      q := Extend(r, TowardsSlot(s));
      q := ReachSlot(q);
    }
  }

  // ----- what is still to be written -----

  /** Frames for queues 1..k that have arrived and not been written. */
  function Owed(ingress: seq<Frame>, out: seq<Output>, k: nat): int
  {
    if k == 0 then 0
    else Owed(ingress, out, k - 1) + |Addressed(ingress, k)| - |Delivered(out, k)|
  }

  function OwedInAll(s: Slave): int
  {
    Owed(s.ingress, s.out, 9) + |Unqueued(s.ingress)| - |Forwarded(s.out)|
  }

  lemma {:induction false} OwedWrite(ingress: seq<Frame>, out: seq<Output>, o: Output, k: nat)
    ensures Owed(ingress, out + [o], k)
         == Owed(ingress, out, k) - (if o.Queued? && 1 <= o.d <= k then 1 else 0)
  {
    if k == 0 {
    } else {
      OwedWrite(ingress, out, o, k - 1);
      AppendOut(out, o, k);
    }
  }

  lemma {:induction false} OwedIsNat(s: Slave, k: nat)
    requires Inv(s) && k <= 9
    ensures Owed(s.ingress, s.out, k) >= 0
  {
    if k == 0 {
    } else {
      OwedIsNat(s, k - 1);
      assert QueueFlow(s, k);
    }
  }

  lemma OwedInAllIsNat(s: Slave)
    requires Inv(s)
    ensures OwedInAll(s) >= 0
  {
    OwedIsNat(s, 9);
    assert DirectFlow(s);
  }

  /** The producer is idle and nothing linked is unwritten. */
  predicate Done(s: Slave)
    requires |s.q| == QUEUES + 1
  {
    s.prod.PIdle? && forall d :: 1 <= d <= QUEUES ==> Unwritten(s, d) == []
  }

  // ----- producer and consumer together -----

  /** The producer goes first, unless it has nothing to do or waits for the consumer. */
  predicate ProducersTurn(s: Slave)
  {
    !s.prod.PIdle? && !s.prod.PWait? && s.mutex != ByConsumer
  }

  function Work(s: Slave): Event { if ProducersTurn(s) then ProdStep else ConsStep }

  /** Actions the producer has left for the frame it holds; a test on a full buffer leads to the
      wait, and only a buffer below 450 out of it. */
  function ProdLeft(s: Slave): nat
    requires |s.q| == QUEUES + 1
  {
    match s.prod
    case PIdle => 0
    case PUnlock => 1
    case PCount(_) => 2
    case PPublish(_) => 3
    case PSort(_) => 4
    case PTest(_) => if Total(s.q) > FULL then 8 else 5
    case PLock(_) => if Total(s.q) > FULL then 9 else 6
    case PWoken(_) => if Total(s.q) > FULL then 9 else 6
    case PWait(_) => 7
  }

  lemma ProdWork(s: Slave)
    requires Inv(s) && SlotReady(s) && ProducersTurn(s)
    ensures ProdEnabled(s) && SlotReady(ProdNext(s)) && ProdNext(s).ingress == s.ingress && ProdNext(s).cons == s.cons
    ensures if ProdNext(s).out != s.out then OwedInAll(ProdNext(s)) < OwedInAll(s)
            else OwedInAll(ProdNext(s)) == OwedInAll(s) && ProdLeft(ProdNext(s)) < ProdLeft(s)
  {
    hide FlowInv, RoomInv, WakeInv, QueuesInv, ConsumerInv, CountdownInv, Total, Owed, Forwarded;
    assert s.mutex != ByCountdown;
    if s.prod.PSort? && !Shuffle(s.prod.f) {
      OwedWrite(s.ingress, s.out, Direct(Payload(s.prod.f)), 9);
      AppendOut(s.out, Direct(Payload(s.prod.f)), 1);
    } else {
      HandKept(s);
    }
  }

  lemma ConsWork(s: Slave)
    requires Inv(s) && SlotReady(s) && !ProducersTurn(s)
    ensures ConsEnabled(s) && SlotReady(ConsNext(s)) && ConsNext(s).ingress == s.ingress
    ensures ProdLeft(ConsNext(s)) <= ProdLeft(s)
    ensures if s.cons.CWrite? then OwedInAll(ConsNext(s)) < OwedInAll(s) else OwedInAll(ConsNext(s)) == OwedInAll(s)
  {
    ConsCanGoOn(s);
    TotalStep(s, ConsStep);
    hide Inv, Total, Owed, Forwarded;
    ConsHandDirect(s);
    if s.cons.CWrite? {
      OwedWrite(s.ingress, s.out, Queued(s.cons.i, s.q[s.cons.i].items[0]), 9);
      AppendOut(s.out, Queued(s.cons.i, s.q[s.cons.i].items[0]), 1);
    }
  }

  lemma ConsCanGoOn(s: Slave)
    requires Inv(s) && SlotReady(s) && !ProducersTurn(s)
    ensures WellFormed(s) && ConsEnabled(s)
  {
    hide FlowInv, RoomInv, WakeInv, CountdownInv, Total;
    if s.cons.CSeen? || s.cons.CWrite? {
      assert QueueInv(s.q[s.cons.i], s.prod, s.cons.i);
    }
  }

  /** Queue d has something to write and the consumer can see it. */
  predicate Awaiting(s: Slave, d: nat)
    requires |s.q| == QUEUES + 1
  {
    1 <= d <= QUEUES && Unwritten(s, d) != [] && s.q[d].hasFront
  }

  lemma StillAwaiting(s: Slave, d: nat)
    requires Inv(s) && SlotReady(s) && Enabled(s, Work(s)) && Awaiting(s, d) && !s.cons.CWrite?
    ensures WellFormed(Next(s, Work(s))) && Awaiting(Next(s, Work(s)), d)
  {
    hide FlowInv, RoomInv, WakeInv, CountdownInv, Total, ConsumerInv;
    assert QueueInv(s.q[d], s.prod, d);
  }

  lemma {:induction false} NothingLeft(s: Slave, k: nat)
    requires WellFormed(s) && QueuesInv(s) && k <= QUEUES && s.prod.PWait?
    requires forall d :: 1 <= d <= QUEUES ==> Unwritten(s, d) == []
    ensures SumCounts(s.q, k) <= (if s.cons.CDeq? && s.cons.i <= k then 1 else 0)
  {
    if k == 0 {
    } else {
      NothingLeft(s, k - 1);
      assert QueueInv(s.q[k], s.prod, k) && Unwritten(s, k) == [];
    }
  }

  /** When the producer must let the consumer go first, there is a queue to write from, or the
      producer only waits for the consumer to unlock. */
  lemma WhomToServe(s: Slave) returns (d: nat)
    requires Inv(s) && !Done(s) && !ProducersTurn(s)
    ensures d == 0 || Awaiting(s, d)
    ensures d == 0 ==> s.mutex == ByConsumer
  {
    hide FlowInv, RoomInv, CountdownInv;
    if d' :| 1 <= d' <= QUEUES && Unwritten(s, d') != [] {
      d := d';
      assert QueueInv(s.q[d], s.prod, d);
    } else {
      d := 0;
      if s.prod.PWait? {
        NothingLeft(s, QUEUES);
      }
    }
  }

  /** Both at work, until one packet more is written or nothing is left to do; d is the queue that
      is served, or 0 while the consumer only has to unlock. */
  lemma {:induction false} WriteOne(r: Run, d: nat) returns (q: Run)
    requires IsRun(r) && WellFormed(Last(r)) && SlotReady(Last(r)) && (d == 0 || Awaiting(Last(r), d))
    ensures Continues(r, q) && WellFormed(Last(q)) && SlotReady(Last(q))
    ensures OwedInAll(Last(q)) < OwedInAll(Last(r)) || (Done(Last(q)) && OwedInAll(Last(q)) == OwedInAll(Last(r)))
    decreases if |r.states| > 0 && WellFormed(Last(r)) then ProdLeft(Last(r)) else 0,
              if d == 0 then 100 else if |r.states| > 0 then ActionsLeft(Last(r).cons, d) else 0,
              if |r.states| > 0 then HolderLeft(Last(r)) else 0
  {
    hide Inv, Next, SlotReady, Done, Awaiting, ProdLeft, ActionsLeft, HolderLeft, OwedInAll, ProducersTurn;
    StateInv(r, |r.states| - 1);
    var s := Last(r);
    if Done(s) {
      q := r;
    } else if ProducersTurn(s) {
      ProdTurn(s, d);
      q := Extend(r, ProdStep);
      if OwedInAll(Last(q)) == OwedInAll(s) {
        q := WriteOne(q, d);
      }
    } else {
      var d' := d;
      if d == 0 {
        d' := WhomToServe(s);
      }
      if d' != 0 {
        AwaitingIs(s, d');
        ActionsLeftRange(s, d');
      }
      if d' != d {
        q := WriteOne(r, d');
      } else {
        ConsTurn(s, d);
        q := Extend(r, ConsStep);
        if OwedInAll(Last(q)) == OwedInAll(s) {
          q := WriteOne(q, d);
        }
      }
    }
  }

  lemma AwaitingIs(s: Slave, d: nat)
    requires WellFormed(s) && Awaiting(s, d)
    ensures 1 <= d <= 9
  {
  }

  lemma ProdTurn(s: Slave, d: nat)
    requires WellFormed(s) && Inv(s) && SlotReady(s) && ProducersTurn(s) && (d == 0 || Awaiting(s, d))
    ensures Enabled(s, ProdStep)
    ensures var t := Next(s, ProdStep);
            && WellFormed(t) && SlotReady(t) && t.ingress == s.ingress && t.cons == s.cons
            && (OwedInAll(t) < OwedInAll(s) || (OwedInAll(t) == OwedInAll(s) && ProdLeft(t) < ProdLeft(s)))
            && (OwedInAll(t) == OwedInAll(s) && d != 0 ==> Awaiting(t, d))
  {
    ProdWork(s);
    hide Inv, OwedInAll, ProdLeft;
    if d != 0 {
      AwaitingProd(s, d);
    }
  }

  lemma AwaitingProd(s: Slave, d: nat)
    requires WellFormed(s) && ProdEnabled(s) && Awaiting(s, d)
    ensures Awaiting(ProdNext(s), d)
  {
    hide Total;
  }

  lemma ConsTurn(s: Slave, d: nat)
    requires WellFormed(s) && Inv(s) && SlotReady(s) && !ProducersTurn(s)
    requires if d == 0 then s.mutex == ByConsumer else Awaiting(s, d)
    ensures Enabled(s, ConsStep)
    ensures var t := Next(s, ConsStep);
            && WellFormed(t) && SlotReady(t) && t.ingress == s.ingress
            && (OwedInAll(t) < OwedInAll(s)
                || (OwedInAll(t) == OwedInAll(s) && ProdLeft(t) <= ProdLeft(s)
                    && (d == 0 ==> HolderLeft(t) < HolderLeft(s))
                    && (d != 0 ==> Awaiting(t, d) && ActionsLeft(t.cons, d) < ActionsLeft(s.cons, d))))
  {
    ConsWork(s);
    if !s.cons.CWrite? {
      if d == 0 {
        HolderGoesOn(s);
      } else {
        StillAwaiting(s, d);
        PaceStep(s, d);
      }
    }
  }

  lemma HolderGoesOn(s: Slave)
    requires WellFormed(s) && MutexInv(s) && ConsEnabled(s) && s.mutex == ByConsumer
    ensures HolderLeft(ConsNext(s)) < HolderLeft(s)
  {
    hide Total;
  }

  lemma {:induction false} WriteAll(r: Run) returns (q: Run)
    requires IsRun(r) && WellFormed(Last(r)) && SlotReady(Last(r))
    ensures Continues(r, q) && WellFormed(Last(q)) && Done(Last(q))
    decreases if |r.states| > 0 then OwedInAll(Last(r)) else 0
  {
    hide Inv, Next, SlotReady, Done, OwedInAll;
    StateInv(r, |r.states| - 1);
    OwedInAllIsNat(Last(r));
    if Done(Last(r)) {
      q := r;
    } else {
      q := WriteOne(r, 0);
      StateInv(q, |q.states| - 1);
      OwedInAllIsNat(Last(q));
      if !Done(Last(q)) {
        q := WriteAll(q);
      }
    }
  }

  /** Nothing that has arrived is out of reach: from every reachable state, with the producer
      blocked, the slot gone or the countdown half done, some continuation in which no further
      frame arrives writes everything: from each queue exactly the packets that came for it, and
      directly all the others for the cluster. */
  lemma EverythingCanBeWritten(r: Run) returns (q: Run)
    requires IsRun(r)
    ensures Continues(r, q)
    ensures forall d :: 1 <= d <= 9 ==> Delivered(Last(q).out, d) == Addressed(Last(r).ingress, d)
    ensures Forwarded(Last(q).out) == Unqueued(Last(r).ingress)
    ensures forall d :: 1 <= d <= 9 ==> CarryAll(Delivered(Last(q).out, d), FramesFor(Last(r).ingress, d))
  {
    hide Inv, Next, SlotReady;
    q := ReachSlot(r);
    StateInv(q, |q.states| - 1);
    q := WriteAll(q);
    var t := |q.states| - 1;
    forall d | 1 <= d <= 9
      ensures Delivered(Last(q).out, d) == Addressed(Last(r).ingress, d)
      ensures CarryAll(Delivered(Last(q).out, d), FramesFor(Last(r).ingress, d))
    {
      FifoConservation(q, t, d);
      ArrivalsCarried(Last(r).ingress, d);
      assert Remaining(Last(q), d) == [];
    }
    FifoConservation(q, t, 1);
  }
}
