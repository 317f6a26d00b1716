/** What every action of a slave keeps, whatever the interleaving. */
module SlaveInvariants {
  import opened Frames
  import opened LinkedQueue
  import opened QueueBank
  import opened SlaveModel

  // ----- the mutex -----

  predicate ProdHolds(p: Producer) { p.PTest? || p.PSort? || p.PPublish? || p.PCount? || p.PUnlock? }

  predicate ConsHolds(c: Consumer) { c.CCheck? || c.CWrite? || c.CDeq? || c.CSignal? || c.CUnlock? }

  predicate CdHolds(d: Countdown) { d.DRead? || d.DStore? || d.DUnlock? }

  /** The owner of qu_mutex is the one thread whose program counter is inside a critical section. */
  predicate MutexInv(s: Slave)
  {
    && (s.mutex == ByProducer <==> ProdHolds(s.prod))
    && (s.mutex == ByConsumer <==> ConsHolds(s.cons))
    && (s.mutex == ByCountdown <==> CdHolds(s.cd))
  }

  // ----- the queues -----

  /** Queue d is settled, except that the producer may be halfway through enq on it. */
  predicate QueueInv(v: QueueView, p: Producer, d: nat)
  {
    if p.PPublish? && Dest(p.f) == d then
      v.items != [] && v.hasFront == (|v.items| > 1) && v.count == |v.items| - 1
    else if p.PCount? && Dest(p.f) == d then
      v.items != [] && v.hasFront && v.count == |v.items| - 1
    else Settled(v)
  }

  predicate QueuesInv(s: Slave)
    requires WellFormed(s)
  {
    forall d :: 1 <= d <= QUEUES ==> QueueInv(s.q[d], s.prod, d)
  }

  /** Past the unlocked test of front, the consumer's queue stays non-empty, and the consumer
      never takes the is_empty() <= 0 branch. */
  predicate ConsumerInv(s: Slave)
    requires WellFormed(s)
  {
    !s.cons.CStray? &&
    (s.cons.CSeen? || s.cons.CLock? || s.cons.CCheck? || s.cons.CWrite? || s.cons.CDeq?
     ==> s.q[s.cons.i].hasFront)
  }

  // ----- the bounded buffer -----

  /** At most 500 packets are queued, and the producer past its test has room for one. */
  predicate RoomInv(s: Slave)
    requires WellFormed(s)
  {
    && Total(s.q) <= FULL + 1
    && (s.prod.PSort? || s.prod.PPublish? || s.prod.PCount? ==> Total(s.q) <= FULL)
  }

  /** While the producer is blocked at least 450 packets are queued, or the consumer is about
      to make the test that wakes it. */
  predicate WakeInv(s: Slave)
    requires WellFormed(s)
  {
    s.prod.PWait? ==> Total(s.q) >= (if s.cons.CSignal? then WAKE_BELOW - 1 else WAKE_BELOW)
  }

  // ----- conservation and order -----

  /** Packets written from queue d, in order. */
  function Delivered(out: seq<Output>, d: nat): seq<Packet>
  {
    if out == [] then []
    else
      var last := out[|out| - 1];
      Delivered(out[..|out| - 1], d) + (if last.Queued? && last.d == d then [last.packet] else [])
  }

  /** Packets the producer wrote itself, in order. */
  function Forwarded(out: seq<Output>): seq<Packet>
  {
    if out == [] then []
    else
      var last := out[|out| - 1];
      Forwarded(out[..|out| - 1]) + (if last.Direct? then [last.packet] else [])
  }

  /** The packets among the frames that belong in queue d. */
  function Addressed(ingress: seq<Frame>, d: nat): seq<Packet>
  {
    if ingress == [] then []
    else
      var last := ingress[|ingress| - 1];
      Addressed(ingress[..|ingress| - 1], d) + (if Dest(last) == d && Shuffle(last) then [Payload(last)] else [])
  }

  /** The packets among the frames that are for the cluster but belong in no queue. */
  function Unqueued(ingress: seq<Frame>): seq<Packet>
  {
    if ingress == [] then []
    else
      var last := ingress[|ingress| - 1];
      Unqueued(ingress[..|ingress| - 1]) + (if ForCluster(last) && !Shuffle(last) then [Payload(last)] else [])
  }

  /** Linked in queue d and not yet written. */
  function Unwritten(s: Slave, d: nat): seq<Packet>
    requires d < |s.q|
  {
    if s.cons == CDeq(d) && s.q[d].items != [] then s.q[d].items[1..] else s.q[d].items
  }

  predicate Undecided(p: Producer) { p.PLock? || p.PTest? || p.PWait? || p.PWoken? || p.PSort? }

  /** The frame in the producer's hands, if it belongs in queue d. */
  function InHand(p: Producer, d: nat): seq<Packet>
  {
    if Undecided(p) && Dest(p.f) == d && Shuffle(p.f) then [Payload(p.f)] else []
  }

  function InHandDirect(p: Producer): seq<Packet>
  {
    if Undecided(p) && !Shuffle(p.f) then [Payload(p.f)] else []
  }

  /** Linked in queue d and not yet written, then what the producer is about to link there. */
  function Remaining(s: Slave, d: nat): seq<Packet>
    requires d < |s.q|
  {
    Unwritten(s, d) + InHand(s.prod, d)
  }

  /** Per destination nothing is lost, duplicated, reordered or altered. */
  predicate QueueFlow(s: Slave, d: nat)
    requires d < |s.q|
  {
    Delivered(s.out, d) + Remaining(s, d) == Addressed(s.ingress, d)
  }

  predicate DirectFlow(s: Slave)
  {
    Forwarded(s.out) + InHandDirect(s.prod) == Unqueued(s.ingress)
  }

  predicate FlowInv(s: Slave)
    requires WellFormed(s)
  {
    && DirectFlow(s)
    && forall d :: 1 <= d <= QUEUES ==> QueueFlow(s, d)
  }

  // ----- the countdown -----

  predicate Working(d: Countdown)
  {
    d.DTest? || d.DLock? || d.DRead? || d.DStore? || d.DUnlock?
  }

  /** Number of decrements a grant of g asks for. */
  function Drains(g: int): nat
  {
    if g <= 0 then 0 else (g + 99) / 100
  }

  predicate CountdownInv(s: Slave)
  {
    && (s.slot > 0 ==> Working(s.cd))
    && (s.slot >= -100 || s.slot >= s.granted)
    && (s.drains > 0 ==> s.granted - 100 * (s.drains - 1) > 0)
    && (Working(s.cd) || s.cd.DZero? ==>
          && s.slot <= (if s.granted - 100 * s.drains > 0 then s.granted - 100 * s.drains else 0)
          && (!s.cancelled ==> s.slot == s.granted - 100 * s.drains))
    && (s.cd.DLock? || s.cd.DRead? || s.cd.DStore? ==> s.slot >= 0 && s.granted - 100 * s.drains > 0)
    && (s.cd.DStore? ==> s.cd.seen <= s.granted - 100 * s.drains && s.cd.seen >= 0
                         && (!s.cancelled ==> s.cd.seen == s.slot))
    && (s.cd.DAck? ==> s.slot == 0 && s.drains <= Drains(s.granted) && (!s.cancelled ==> s.drains == Drains(s.granted)))
  }

  predicate Inv(s: Slave)
  {
    && WellFormed(s)
    && MutexInv(s)
    && QueuesInv(s)
    && ConsumerInv(s)
    && RoomInv(s)
    && WakeInv(s)
    && FlowInv(s)
    && CountdownInv(s)
  }

  // ----- preservation -----

  lemma {:induction false} SumUpdate(q: seq<QueueView>, k: nat, d: nat, v: QueueView)
    requires k < |q| && 1 <= d < |q|
    ensures SumCounts(q[d := v], k) == SumCounts(q, k) + (if d <= k then v.count - q[d].count else 0)
  {
    if k == 0 {
    } else {
      SumUpdate(q, k - 1, d, v);
    }
  }

  lemma TotalUpdate(q: seq<QueueView>, d: nat, v: QueueView)
    requires |q| == QUEUES + 1 && 1 <= d <= QUEUES
    ensures Total(q[d := v]) == Total(q) - q[d].count + v.count
  {
    SumUpdate(q, QUEUES, d, v);
  }

  lemma {:induction false} CountsSum(q: seq<QueueView>, k: nat, d: nat)
    requires k < |q| && forall i :: 1 <= i <= k ==> q[i].count >= 0
    ensures SumCounts(q, k) >= 0
    ensures 1 <= d <= k ==> SumCounts(q, k) >= q[d].count
  {
    if k == 0 {
    } else {
      CountsSum(q, k - 1, d);
    }
  }

  /** Under the consumer's mutex the queue it saw non-empty makes the total positive. */
  lemma SeenMeansPositive(s: Slave)
    requires WellFormed(s) && MutexInv(s) && QueuesInv(s) && ConsumerInv(s) && s.cons.CCheck?
    ensures Total(s.q) >= 1
  {
    CountsSum(s.q, QUEUES, s.cons.i);
  }

  lemma InitialInv()
    ensures Inv(Initial())
  {
    var s := Initial();
    forall k: nat | k <= QUEUES ensures SumCounts(s.q, k) == 0 {
      ZeroSum(s.q, k);
    }
  }

  lemma {:induction false} ZeroSum(q: seq<QueueView>, k: nat)
    requires k < |q| && forall i :: 0 <= i < |q| ==> q[i].count == 0
    ensures SumCounts(q, k) == 0
  {
    if k == 0 {
    } else {
      ZeroSum(q, k - 1);
    }
  }

  lemma MutexProd(s: Slave)
    requires WellFormed(s) && MutexInv(s) && ProdEnabled(s)
    ensures MutexInv(ProdNext(s))
  {
  }

  lemma MutexCons(s: Slave)
    requires WellFormed(s) && MutexInv(s) && ConsEnabled(s)
    ensures MutexInv(ConsNext(s))
  {
  }

  lemma MutexKept(s: Slave, e: Event)
    requires WellFormed(s) && MutexInv(s) && Enabled(s, e)
    ensures MutexInv(Next(s, e))
  {
    match e {
      case ProdStep => MutexProd(s);
      case ConsStep => MutexCons(s);
      case _ =>
    }
  }

  lemma QueueProd(s: Slave, d: nat)
    requires WellFormed(s) && MutexInv(s) && ProdEnabled(s) && 1 <= d <= QUEUES && QueueInv(s.q[d], s.prod, d)
    ensures QueueInv(ProdNext(s).q[d], ProdNext(s).prod, d)
  {
  }

  lemma QueueCons(s: Slave, d: nat)
    requires WellFormed(s) && MutexInv(s) && ConsEnabled(s) && 1 <= d <= QUEUES && QueueInv(s.q[d], s.prod, d)
    ensures QueueInv(ConsNext(s).q[d], ConsNext(s).prod, d)
  {
  }

  lemma QueuesKept(s: Slave, e: Event)
    requires WellFormed(s) && MutexInv(s) && QueuesInv(s) && Enabled(s, e)
    ensures QueuesInv(Next(s, e))
  {
    forall d | 1 <= d <= QUEUES ensures QueueInv(Next(s, e).q[d], Next(s, e).prod, d) {
      assert QueueInv(s.q[d], s.prod, d);
      match e {
        case ProdStep => QueueProd(s, d);
        case ConsStep => QueueCons(s, d);
        case _ => QueuesQuiet(s, e);
      }
    }
  }

  /** The other events touch neither queues nor output, and the producer at most waits or wakes. */
  lemma QueuesQuiet(s: Slave, e: Event)
    requires WellFormed(s) && Enabled(s, e) && !e.ProdStep? && !e.ConsStep?
    ensures Next(s, e).q == s.q && Next(s, e).out == s.out && Next(s, e).cons == s.cons
    ensures !s.prod.PPublish? && !s.prod.PCount? ==> !Next(s, e).prod.PPublish? && !Next(s, e).prod.PCount?
    ensures s.prod.PPublish? || s.prod.PCount? ==> Next(s, e).prod == s.prod
  {
  }

  lemma ConsumerKept(s: Slave, e: Event)
    requires WellFormed(s) && MutexInv(s) && QueuesInv(s) && ConsumerInv(s) && Enabled(s, e)
    ensures ConsumerInv(Next(s, e))
  {
    if s.cons.CCheck? {
      SeenMeansPositive(s);
    }
  }

  lemma TotalStep(s: Slave, e: Event)
    requires WellFormed(s) && MutexInv(s) && QueuesInv(s) && ConsumerInv(s) && Enabled(s, e)
    ensures Total(Next(s, e).q) == Total(s.q)
              + (if e.ProdStep? && s.prod.PCount? then 1 else 0)
              - (if e.ConsStep? && s.cons.CDeq? then 1 else 0)
  {
    match e {
      case ProdStep =>
        if s.prod.PSort? || s.prod.PPublish? || s.prod.PCount? {
          var d := Dest(s.prod.f);
          assert QueueInv(s.q[d], s.prod, d);
          TotalUpdate(s.q, d, Next(s, e).q[d]);
        }
      case ConsStep =>
        if s.cons.CDeq? {
          assert QueueInv(s.q[s.cons.i], s.prod, s.cons.i);
          TotalUpdate(s.q, s.cons.i, Next(s, e).q[s.cons.i]);
        }
      case _ =>
    }
  }

  lemma BufferKept(s: Slave, e: Event)
    requires WellFormed(s) && MutexInv(s) && QueuesInv(s) && ConsumerInv(s) && Enabled(s, e)
    requires RoomInv(s) && WakeInv(s)
    ensures RoomInv(Next(s, e)) && WakeInv(Next(s, e))
  {
    TotalStep(s, e);
  }

  lemma AppendOut(out: seq<Output>, o: Output, d: nat)
    ensures Delivered(out + [o], d) == Delivered(out, d) + (if o.Queued? && o.d == d then [o.packet] else [])
    ensures Forwarded(out + [o]) == Forwarded(out) + (if o.Direct? then [o.packet] else [])
  {
    assert (out + [o])[..|out|] == out;
  }

  lemma AppendIngress(ingress: seq<Frame>, f: Frame, d: nat)
    ensures Addressed(ingress + [f], d)
         == Addressed(ingress, d) + (if Dest(f) == d && Shuffle(f) then [Payload(f)] else [])
    ensures Unqueued(ingress + [f]) == Unqueued(ingress) + (if ForCluster(f) && !Shuffle(f) then [Payload(f)] else [])
  {
    assert (ingress + [f])[..|ingress|] == ingress;
  }

  /** What remains for queue d changes only when a frame for it arrives or its front is written. */
  lemma RemainingProd(s: Slave, d: nat)
    requires WellFormed(s) && MutexInv(s) && ProdEnabled(s) && 1 <= d <= QUEUES
    ensures Remaining(ProdNext(s), d) == Remaining(s, d)
  {
    if !s.prod.PSort? {
      ItemsKeptProd(s, d);
    }
  }

  lemma ItemsKeptProd(s: Slave, d: nat)
    requires WellFormed(s) && ProdEnabled(s) && 1 <= d <= QUEUES && !s.prod.PSort?
    ensures ProdNext(s).q[d].items == s.q[d].items && ProdNext(s).cons == s.cons
    ensures InHand(ProdNext(s).prod, d) == InHand(s.prod, d)
  {
  }

  lemma RemainingCons(s: Slave, d: nat)
    requires WellFormed(s) && MutexInv(s) && ConsEnabled(s) && 1 <= d <= QUEUES
    requires QueueInv(s.q[d], s.prod, d)
    ensures if s.cons == CWrite(d) then Remaining(s, d) == [s.q[d].items[0]] + Remaining(ConsNext(s), d)
            else Remaining(ConsNext(s), d) == Remaining(s, d)
  {
    ConsHand(s, d);
    if s.cons == CWrite(d) {
      assert s.q[d].items == [s.q[d].items[0]] + s.q[d].items[1..];
    } else {
      UnwrittenCons(s, d);
    }
  }

  /** The consumer can only wake the producer, which leaves the frame in its hands. */
  lemma ConsHand(s: Slave, d: nat)
    requires WellFormed(s) && ConsEnabled(s)
    ensures InHand(ConsNext(s).prod, d) == InHand(s.prod, d)
  {
    assert ConsNext(s).prod == s.prod || ConsNext(s).prod == Signalled(s.prod);
  }

  lemma UnwrittenCons(s: Slave, d: nat)
    requires WellFormed(s) && MutexInv(s) && ConsEnabled(s) && 1 <= d <= QUEUES && s.cons != CWrite(d)
    requires QueueInv(s.q[d], s.prod, d)
    ensures Unwritten(ConsNext(s), d) == Unwritten(s, d)
  {
  }

  lemma DeliveredProd(s: Slave, d: nat)
    requires WellFormed(s) && ProdEnabled(s)
    ensures ProdNext(s).ingress == s.ingress
    ensures Delivered(ProdNext(s).out, d) == Delivered(s.out, d)
  {
    if s.prod.PSort? && !Shuffle(s.prod.f) {
      AppendOut(s.out, Direct(Payload(s.prod.f)), d);
    } else {
      assert ProdNext(s).out == s.out;
    }
  }

  lemma DeliveredCons(s: Slave, d: nat)
    requires WellFormed(s) && ConsEnabled(s)
    ensures ConsNext(s).ingress == s.ingress
    ensures Delivered(ConsNext(s).out, d)
         == Delivered(s.out, d) + (if s.cons == CWrite(d) then [s.q[d].items[0]] else [])
  {
    if s.cons.CWrite? {
      AppendOut(s.out, Queued(s.cons.i, s.q[s.cons.i].items[0]), d);
    } else {
      assert ConsNext(s).out == s.out;
    }
  }

  lemma QueueFlowProd(s: Slave, d: nat)
    requires WellFormed(s) && MutexInv(s) && ProdEnabled(s) && 1 <= d <= QUEUES && QueueFlow(s, d)
    ensures QueueFlow(ProdNext(s), d)
  {
    RemainingProd(s, d);
    DeliveredProd(s, d);
    QueueFlowSame(s, ProdNext(s), d);
  }

  lemma QueueFlowSame(s: Slave, t: Slave, d: nat)
    requires d < |s.q| && d < |t.q| && QueueFlow(s, d)
    requires t.ingress == s.ingress && Delivered(t.out, d) == Delivered(s.out, d) && Remaining(t, d) == Remaining(s, d)
    ensures QueueFlow(t, d)
  {
  }

  lemma QueueFlowWritten(s: Slave, t: Slave, d: nat, p: Packet)
    requires d < |s.q| && d < |t.q| && QueueFlow(s, d) && t.ingress == s.ingress
    requires Delivered(t.out, d) == Delivered(s.out, d) + [p] && Remaining(s, d) == [p] + Remaining(t, d)
    ensures QueueFlow(t, d)
  {
    assert Delivered(s.out, d) + ([p] + Remaining(t, d)) == Delivered(s.out, d) + [p] + Remaining(t, d);
  }

  lemma QueueFlowCons(s: Slave, d: nat)
    requires WellFormed(s) && MutexInv(s) && ConsEnabled(s) && 1 <= d <= QUEUES
    requires QueueInv(s.q[d], s.prod, d) && QueueFlow(s, d)
    ensures QueueFlow(ConsNext(s), d)
  {
    RemainingCons(s, d);
    DeliveredCons(s, d);
    if s.cons == CWrite(d) {
      QueueFlowWritten(s, ConsNext(s), d, s.q[d].items[0]);
    } else {
      QueueFlowSame(s, ConsNext(s), d);
    }
  }

  lemma QueueFlowTap(s: Slave, f: Frame, d: nat)
    requires WellFormed(s) && s.prod.PIdle? && 1 <= d <= QUEUES && QueueFlow(s, d)
    ensures QueueFlow(Next(s, Tap(f)), d)
  {
    hide Delivered, Addressed;
    AppendIngress(s.ingress, f, d);
    assert Remaining(Next(s, Tap(f)), d) == Remaining(s, d) + InHand(Next(s, Tap(f)).prod, d);
  }

  lemma DirectFlowProd(s: Slave)
    requires WellFormed(s) && ProdEnabled(s) && DirectFlow(s)
    ensures DirectFlow(ProdNext(s))
  {
    hide Forwarded, Unqueued;
    if s.prod.PSort? && !Shuffle(s.prod.f) {
      AppendOut(s.out, Direct(Payload(s.prod.f)), 1);
    } else {
      HandKept(s);
    }
  }

  lemma HandKept(s: Slave)
    requires WellFormed(s) && ProdEnabled(s) && !(s.prod.PSort? && !Shuffle(s.prod.f))
    ensures ProdNext(s).out == s.out && ProdNext(s).ingress == s.ingress
    ensures InHandDirect(ProdNext(s).prod) == InHandDirect(s.prod)
  {
  }

  lemma DirectFlowCons(s: Slave)
    requires WellFormed(s) && ConsEnabled(s) && DirectFlow(s)
    ensures DirectFlow(ConsNext(s))
  {
    hide Forwarded, Unqueued;
    ConsHandDirect(s);
    if s.cons.CWrite? {
      AppendOut(s.out, Queued(s.cons.i, s.q[s.cons.i].items[0]), 1);
    }
  }

  lemma ConsHandDirect(s: Slave)
    requires WellFormed(s) && ConsEnabled(s)
    ensures InHandDirect(ConsNext(s).prod) == InHandDirect(s.prod)
    ensures ConsNext(s).ingress == s.ingress
    ensures ConsNext(s).out == if s.cons.CWrite? then s.out + [Queued(s.cons.i, s.q[s.cons.i].items[0])] else s.out
  {
    assert ConsNext(s).prod == s.prod || ConsNext(s).prod == Signalled(s.prod);
  }

  lemma QueueFlowKept(s: Slave, e: Event, d: nat)
    requires WellFormed(s) && MutexInv(s) && Enabled(s, e) && 1 <= d <= QUEUES
    requires QueueInv(s.q[d], s.prod, d) && QueueFlow(s, d)
    ensures QueueFlow(Next(s, e), d)
  {
    hide Delivered, Addressed;
    match e {
      case Tap(f) => QueueFlowTap(s, f, d);
      case ProdStep => QueueFlowProd(s, d);
      case ConsStep => QueueFlowCons(s, d);
      case _ => RemainingQuiet(s, e, d);
    }
  }

  lemma RemainingQuiet(s: Slave, e: Event, d: nat)
    requires WellFormed(s) && Enabled(s, e) && !e.Tap? && !e.ProdStep? && !e.ConsStep? && d < |s.q|
    ensures Next(s, e).out == s.out && Next(s, e).ingress == s.ingress
    ensures d < |Next(s, e).q| && Remaining(Next(s, e), d) == Remaining(s, d)
  {
    QueuesQuiet(s, e);
    assert Next(s, e).prod == if e.SpuriousWake? then Signalled(s.prod) else s.prod;
  }

  lemma DirectFlowKept(s: Slave, e: Event)
    requires WellFormed(s) && Enabled(s, e) && DirectFlow(s)
    ensures DirectFlow(Next(s, e))
  {
    hide Forwarded, Unqueued;
    match e {
      case Tap(f) => AppendIngress(s.ingress, f, 1);
      case ProdStep => DirectFlowProd(s);
      case ConsStep => DirectFlowCons(s);
      case _ =>
    }
  }

  lemma FlowKept(s: Slave, e: Event)
    requires WellFormed(s) && MutexInv(s) && QueuesInv(s) && ConsumerInv(s) && FlowInv(s) && Enabled(s, e)
    ensures FlowInv(Next(s, e))
  {
    forall d | 1 <= d <= QUEUES ensures QueueFlow(Next(s, e), d) {
      QueueFlowKept(s, e, d);
    }
    DirectFlowKept(s, e);
  }

  lemma CountdownAdvances(s: Slave)
    requires WellFormed(s) && CountdownInv(s) && CdEnabled(s)
    ensures CountdownInv(CdNext(s))
  {
    var left := s.granted - 100 * s.drains;
    if s.cd.DStore? {
      assert CdNext(s).granted - 100 * CdNext(s).drains == left - 100;
    }
  }

  /** Producer and consumer leave everything of the countdown alone. */
  lemma CountdownAlone(s: Slave, e: Event)
    requires WellFormed(s) && Enabled(s, e) && (e.ProdStep? || e.ConsStep?)
    ensures var t := Next(s, e);
            && t.slot == s.slot && t.cd == s.cd && t.granted == s.granted && t.drains == s.drains
            && t.cancelled == s.cancelled
  {
  }

  lemma CountdownKept(s: Slave, e: Event)
    requires WellFormed(s) && CountdownInv(s) && Enabled(s, e)
    ensures CountdownInv(Next(s, e))
  {
    match e {
      case CdStep => CountdownAdvances(s);
      case ProdStep => CountdownAlone(s, e);
      case ConsStep => CountdownAlone(s, e);
      case _ =>
    }
  }

  /** Every action, of every thread, in every order, keeps the whole invariant. */
  lemma InvKept(s: Slave, e: Event)
    requires Inv(s) && Enabled(s, e)
    ensures Inv(Next(s, e))
  {
    MutexKept(s, e);
    QueuesKept(s, e);
    ConsumerKept(s, e);
    BufferKept(s, e);
    FlowKept(s, e);
    CountdownKept(s, e);
  }

  lemma {:induction false} RunInv(r: Run, t: nat)
    requires IsRun(r) && t < |r.states|
    ensures Inv(r.states[t])
  {
    if t == 0 {
      InitialInv();
    } else {
      RunInv(r, t - 1);
      assert StepAt(r, t - 1);
      InvKept(r.states[t - 1], r.events[t - 1]);
    }
  }
}
