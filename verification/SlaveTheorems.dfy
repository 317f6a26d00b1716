/** What the invariants mean over whole runs of one slave. */
module SlaveTheorems {
  import opened Frames
  import opened LinkedQueue
  import opened QueueBank
  import opened SlaveModel
  import opened SlaveInvariants

  // ----- order and conservation -----

  /** After any run, for every destination: what was written from its queue, followed by what
      is still linked, followed by the frame the producer is holding for it (if any), is exactly
      the shuffle packets that arrived for it, in order of arrival. When the producer is idle
      and the consumer is not between write and deq, that is written plus linked. Everything
      else for the cluster has been forwarded directly, once, in order. */
  lemma FifoConservation(r: Run, t: nat, d: nat)
    requires IsRun(r) && t < |r.states| && 1 <= d <= QUEUES
    ensures WellFormed(r.states[t])
    ensures var s := r.states[t];
            && Delivered(s.out, d) + Remaining(s, d) == Addressed(s.ingress, d)
            && (s.prod.PIdle? && s.cons != CDeq(d) ==> Delivered(s.out, d) + s.q[d].items == Addressed(s.ingress, d))
            && (s.prod.PIdle? ==> Forwarded(s.out) == Unqueued(s.ingress))
            && Forwarded(s.out) <= Unqueued(s.ingress)
  {
    RunInv(r, t);
    var s := r.states[t];
    assert QueueFlow(s, d);
    if s.prod.PIdle? {
      assert Remaining(s, d) == Unwritten(s, d);
      assert Forwarded(s.out) + [] == Forwarded(s.out);
    }
  }

  // ----- the bytes themselves -----

  /** What the tests of the main loop say of a frame, byte by byte: it is queued for node d ... */
  predicate QueuedFor(f: Frame, d: nat)
  {
    f.buffer[19] == d && f.buffer[20] == 52 && f.buffer[21] == 250 && f.size > 700
  }

  /** ... or written at once. */
  predicate WrittenAtOnce(f: Frame)
  {
    1 <= f.buffer[19] <= 9 && !(f.buffer[20] == 52 && f.buffer[21] == 250 && f.size > 700)
  }

  function FramesFor(ingress: seq<Frame>, d: nat): (fs: seq<Frame>)
    ensures forall f :: f in fs ==> QueuedFor(f, d)
  {
    if ingress == [] then []
    else
      var last := ingress[|ingress| - 1];
      FramesFor(ingress[..|ingress| - 1], d) + (if QueuedFor(last, d) then [last] else [])
  }

  function FramesAtOnce(ingress: seq<Frame>): (fs: seq<Frame>)
    ensures forall f :: f in fs ==> WrittenAtOnce(f)
  {
    if ingress == [] then []
    else
      var last := ingress[|ingress| - 1];
      FramesAtOnce(ingress[..|ingress| - 1]) + (if WrittenAtOnce(last) then [last] else [])
  }

  /** p is exactly what the read filled of f's buffer. */
  predicate Carries(p: Packet, f: Frame)
  {
    |p| == f.size && forall k :: 0 <= k < |p| ==> p[k] == f.buffer[k]
  }

  predicate CarryAll(ps: seq<Packet>, fs: seq<Frame>)
  {
    |ps| == |fs| && forall i :: 0 <= i < |ps| ==> Carries(ps[i], fs[i])
  }

  lemma {:induction false} ArrivalsCarried(ingress: seq<Frame>, d: nat)
    requires 1 <= d <= 9
    ensures CarryAll(Addressed(ingress, d), FramesFor(ingress, d))
    ensures CarryAll(Unqueued(ingress), FramesAtOnce(ingress))
  {
    if ingress == [] {
    } else {
      ArrivalsCarried(ingress[..|ingress| - 1], d);
      ShufflePortBytes(ingress[|ingress| - 1]);
    }
  }

  function Bytes(ps: seq<Packet>): nat
  {
    if ps == [] then 0 else Bytes(ps[..|ps| - 1]) + |ps[|ps| - 1]|
  }

  function Sizes(fs: seq<Frame>): nat
  {
    if fs == [] then 0 else Sizes(fs[..|fs| - 1]) + fs[|fs| - 1].size
  }

  lemma {:induction false} BytesAreSizes(ps: seq<Packet>, fs: seq<Frame>)
    requires CarryAll(ps, fs)
    ensures Bytes(ps) == Sizes(fs)
  {
    if ps == [] {
    } else {
      BytesAreSizes(ps[..|ps| - 1], fs[..|fs| - 1]);
    }
  }

  /** Byte for byte: the packets written from queue d, linked there or in hand for it are, in order,
      the frames read for d with port 13562 and more than 700 bytes, each with exactly the bytes
      that were read; the packets the producer wrote or holds are the other frames for 1..9; and
      so the numbers of bytes agree too. */
  lemma BytesConserved(r: Run, t: nat, d: nat)
    requires IsRun(r) && t < |r.states| && 1 <= d <= 9
    ensures WellFormed(r.states[t])
    ensures var s := r.states[t];
            && CarryAll(Delivered(s.out, d) + Remaining(s, d), FramesFor(s.ingress, d))
            && CarryAll(Forwarded(s.out) + InHandDirect(s.prod), FramesAtOnce(s.ingress))
            && Bytes(Delivered(s.out, d) + Remaining(s, d)) == Sizes(FramesFor(s.ingress, d))
            && Bytes(Forwarded(s.out) + InHandDirect(s.prod)) == Sizes(FramesAtOnce(s.ingress))
  {
    RunInv(r, t);
    var s := r.states[t];
    assert QueueFlow(s, d) && DirectFlow(s);
    ArrivalsCarried(s.ingress, d);
    BytesAreSizes(Addressed(s.ingress, d), FramesFor(s.ingress, d));
    BytesAreSizes(Unqueued(s.ingress), FramesAtOnce(s.ingress));
  }

  // ----- mutual exclusion, no crash, no lost mutex -----

  /** A reachable consumer is stuck only when it waits for a mutex another thread holds: it
      never follows a NULL front, and never takes the branch that would unlock twice. Whoever
      holds the mutex can take its next action, so the mutex is always released again; and
      while nobody holds it every queue is settled. */
  lemma NoCrashNoDeadlock(r: Run, t: nat)
    requires IsRun(r) && t < |r.states|
    ensures var s := r.states[t];
            && WellFormed(s)
            && (ConsEnabled(s) <==> !(s.cons.CLock? && s.mutex != Free))
            && !s.cons.CStray?
            && (s.mutex == ByProducer ==> ProdEnabled(s))
            && (s.mutex == ByConsumer ==> ConsEnabled(s))
            && (s.mutex == ByCountdown ==> CdEnabled(s))
            && (s.mutex == Free ==> forall d :: 1 <= d <= QUEUES ==> Settled(s.q[d]))
  {
    RunInv(r, t);
    var s := r.states[t];
    assert s.cons.CSeen? || s.cons.CWrite? ==> QueueInv(s.q[s.cons.i], s.prod, s.cons.i);
    forall d | s.mutex == Free && 1 <= d <= QUEUES ensures Settled(s.q[d]) {
      assert QueueInv(s.q[d], s.prod, d);
    }
  }

  // ----- the front the consumer saw -----

  predicate Committed(c: Consumer, i: nat)
  {
    c == CSeen(i) || c == CLock(i) || c == CCheck(i) || c == CWrite(i) || c == CDeq(i)
  }

  lemma FrontKept(s: Slave, e: Event, i: nat)
    requires WellFormed(s) && MutexInv(s) && QueuesInv(s) && ConsumerInv(s) && Enabled(s, e)
    requires Committed(s.cons, i) && Committed(Next(s, e).cons, i)
    ensures s.q[i].items != [] && s.q[i].items <= Next(s, e).q[i].items && Next(s, e).q[i].hasFront
  {
    hide Total;
    assert QueueInv(s.q[i], s.prod, i);
    match e {
      case ProdStep =>
      case ConsStep => assert ConsNext(s).q == s.q;
      case _ => assert Next(s, e).q == s.q;
    }
  }

  lemma FrontKeptAt(r: Run, i: nat, t: nat)
    requires IsRun(r) && t < |r.events| && Committed(r.states[t].cons, i) && Committed(r.states[t + 1].cons, i)
    ensures i < |r.states[t].q| && i < |r.states[t + 1].q|
    ensures r.states[t].q[i].items <= r.states[t + 1].q[i].items
  {
    hide FlowInv, CountdownInv, RoomInv, WakeInv;
    RunInv(r, t);
    assert StepAt(r, t);
    FrontKept(r.states[t], r.events[t], i);
  }

  lemma FrontFound(r: Run, i: nat, t: nat)
    requires IsRun(r) && t < |r.states| && Committed(r.states[t].cons, i)
    ensures i < |r.states[t].q| && r.states[t].q[i].items != [] && r.states[t].q[i].hasFront
  {
    hide FlowInv, CountdownInv, RoomInv, WakeInv;
    RunInv(r, t);
    assert QueueInv(r.states[t].q[i], r.states[t].prod, i);
  }

  lemma {:induction false} FrontGrows(r: Run, i: nat, lo: nat, hi: nat)
    requires IsRun(r) && lo <= hi < |r.states|
    requires forall t :: lo <= t <= hi ==> Committed(r.states[t].cons, i)
    ensures i < |r.states[lo].q| && i < |r.states[hi].q|
    ensures r.states[lo].q[i].items <= r.states[hi].q[i].items
    decreases hi
  {
    FrontFound(r, i, lo);
    if lo == hi {
    } else {
      FrontGrows(r, i, lo, hi - 1);
      FrontKeptAt(r, i, hi - 1);
    }
  }

  /** From its unlocked look at front until its own deq, the consumer always finds the same
      packet at the front of that queue, however much the producer adds behind it. */
  lemma FrontStable(r: Run, i: nat, lo: nat, hi: nat)
    requires IsRun(r) && lo <= hi < |r.states|
    requires forall t :: lo <= t <= hi ==> Committed(r.states[t].cons, i)
    ensures i < |r.states[lo].q| && i < |r.states[hi].q|
    ensures var v, w := r.states[lo].q[i], r.states[hi].q[i];
            v.items != [] && v.hasFront && w.hasFront && v.items <= w.items && w.items[0] == v.items[0]
  {
    FrontFound(r, i, lo);
    FrontFound(r, i, hi);
    FrontGrows(r, i, lo, hi);
  }

  // ----- overshoot -----

  function Writes(out: seq<Output>): nat
  {
    if out == [] then 0
    else Writes(out[..|out| - 1]) + (if out[|out| - 1].Queued? then 1 else 0)
  }

  lemma WritesAppend(out: seq<Output>, o: Output)
    ensures Writes(out + [o]) == Writes(out) + (if o.Queued? then 1 else 0)
  {
    assert (out + [o])[..|out|] == out;
  }

  predicate PastTest(c: Consumer) { c.CLock? || c.CCheck? || c.CWrite? }

  /** Packets written from queues, plus the one the consumer can no longer be kept from. */
  function Pressure(s: Slave): nat
  {
    Writes(s.out) + (if PastTest(s.cons) then 1 else 0)
  }

  lemma OvershootStep(s: Slave, e: Event)
    requires WellFormed(s) && Enabled(s, e) && s.slot <= 0
    ensures Pressure(Next(s, e)) <= Pressure(s)
  {
    match e {
      case ProdStep =>
        if s.prod.PSort? && !Shuffle(s.prod.f) { WritesAppend(s.out, Direct(Payload(s.prod.f))); }
      case ConsStep =>
        if s.cons.CWrite? { WritesAppend(s.out, Queued(s.cons.i, s.q[s.cons.i].items[0])); }
      case _ =>
    }
  }

  lemma OvershootAt(r: Run, t: nat)
    requires IsRun(r) && t < |r.events| && r.states[t].slot <= 0
    ensures Pressure(r.states[t + 1]) <= Pressure(r.states[t])
  {
    assert StepAt(r, t);
    OvershootStep(r.states[t], r.events[t]);
  }

  /** While slot stays at or below zero at most one queued packet is written, and none at all
      unless the consumer had already passed its slot test when the stretch began. */
  lemma {:induction false} BoundedOvershoot(r: Run, lo: nat, hi: nat)
    requires IsRun(r) && lo <= hi < |r.states|
    requires forall t :: lo <= t < hi ==> r.states[t].slot <= 0
    ensures Pressure(r.states[hi]) <= Pressure(r.states[lo])
    ensures Writes(r.states[hi].out) <= Writes(r.states[lo].out) + (if PastTest(r.states[lo].cons) then 1 else 0)
    decreases hi
  {
    if lo == hi {
    } else {
      BoundedOvershoot(r, lo, hi - 1);
      OvershootAt(r, hi - 1);
    }
  }

  function Last(q: Run): Slave
    requires |q.states| > 0
  {
    q.states[|q.states| - 1]
  }

  lemma RunExtends(q: Run, e: Event)
    requires IsRun(q) && WellFormed(q.states[|q.events|]) && Enabled(q.states[|q.events|], e)
    ensures IsRun(Run(q.states + [Next(q.states[|q.events|], e)], q.events + [e]))
  {
    var q' := Run(q.states + [Next(q.states[|q.events|], e)], q.events + [e]);
    forall t: nat | t < |q'.events| ensures StepAt(q', t) {
      if t < |q.events| {
        assert StepAt(q, t);
      }
    }
  }

  lemma Extend(q: Run, e: Event) returns (q': Run)
    requires IsRun(q) && WellFormed(Last(q)) && Enabled(Last(q), e)
    ensures IsRun(q') && Last(q') == Next(Last(q), e) && q.states <= q'.states && |q'.states| == |q.states| + 1
  {
    RunExtends(q, e);
    q' := Run(q.states + [Next(Last(q), e)], q.events + [e]);
  }

  // When exactly a packet can still be written.

  /** From the end of r some continuation writes a queued packet, with slot at or below zero from
      first to last. */
  ghost predicate CanOvershoot(r: Run)
    requires |r.states| > 0
  {
    exists q: Run :: OvershootsBy(r, q)
  }

  ghost predicate OvershootsBy(r: Run, q: Run)
    requires |r.states| > 0
  {
    && IsRun(q) && r.states <= q.states
    && (forall t :: |r.states| - 1 <= t < |q.states| ==> q.states[t].slot <= 0)
    && Writes(Last(q).out) > Writes(Last(r).out)
  }

  /** The consumer is about to lock, but the countdown thread holds the mutex with a positive
      remainder in hand, left over from before a cancellation, which it will store first. */
  predicate Doomed(s: Slave)
  {
    s.cons.CLock? && s.cd.DStore? && s.cd.seen > 100
  }

  /** Actions until the write, when every thread but the one that must move stands still. */
  function ToWrite(s: Slave): int
  {
    match s.cons
    case CWrite(_) => 1
    case CCheck(_) => 2
    case _ =>
      match s.mutex
      case ByProducer =>
        if s.prod.PTest? then 8 else if s.prod.PSort? then 7 else if s.prod.PPublish? then 6
        else if s.prod.PCount? then 5 else 4
      case ByCountdown => if s.cd.DRead? then 6 else if s.cd.DStore? then 5 else 4
      case _ => 3
  }

  /** The next action on the way to the write. */
  function TowardsWrite(s: Slave): Event
  {
    if s.cons.CLock? && s.mutex == ByProducer then ProdStep
    else if s.cons.CLock? && s.mutex == ByCountdown then CdStep
    else ConsStep
  }

  lemma TowardsWriteStep(s: Slave)
    requires Inv(s) && s.slot <= 0 && PastTest(s.cons) && !Doomed(s)
    ensures Enabled(s, TowardsWrite(s)) && Next(s, TowardsWrite(s)).slot <= 0
    ensures var t := Next(s, TowardsWrite(s));
            if s.cons.CWrite? then Writes(t.out) == Writes(s.out) + 1
            else PastTest(t.cons) && !Doomed(t) && Writes(t.out) == Writes(s.out) && 0 <= ToWrite(t) < ToWrite(s)
  {
    hide FlowInv, RoomInv, WakeInv;
    if s.cons.CWrite? {
      assert QueueInv(s.q[s.cons.i], s.prod, s.cons.i);
      WritesAppend(s.out, Queued(s.cons.i, s.q[s.cons.i].items[0]));
    } else if s.cons.CCheck? {
      SeenMeansPositive(s);
    } else if s.prod.PSort? && s.mutex == ByProducer && !Shuffle(s.prod.f) {
      WritesAppend(s.out, Direct(Payload(s.prod.f)));
    }
  }

  lemma {:induction false} OvershootFrom(r: Run) returns (q: Run)
    requires IsRun(r) && Last(r).slot <= 0 && PastTest(Last(r).cons) && !Doomed(Last(r))
    ensures OvershootsBy(r, q)
    decreases ToWrite(Last(r))
  {
    hide Inv, Next, Writes, PastTest, Doomed, ToWrite;
    var s := Last(r);
    RunInv(r, |r.states| - 1);
    TowardsWriteStep(s);
    q := Extend(r, TowardsWrite(s));
    if !s.cons.CWrite? {
      q := OvershootFrom(q);
    }
  }

  /** A doomed consumer stays so, and writes nothing, until slot is positive. */
  lemma DoomedStep(s: Slave, e: Event)
    requires Inv(s) && Enabled(s, e) && Doomed(s) && Next(s, e).slot <= 0
    ensures Doomed(Next(s, e)) && Writes(Next(s, e).out) == Writes(s.out)
  {
    hide FlowInv, RoomInv, WakeInv, QueuesInv, Total;
  }

  lemma {:induction false} DoomedStays(q: Run, lo: nat, hi: nat)
    requires IsRun(q) && lo <= hi < |q.states| && Doomed(q.states[lo])
    requires forall t :: lo <= t <= hi ==> q.states[t].slot <= 0
    ensures Doomed(q.states[hi]) && Writes(q.states[hi].out) == Writes(q.states[lo].out)
    decreases hi
  {
    hide Inv, Next, Writes, Doomed;
    if lo == hi {
    } else {
      DoomedStays(q, lo, hi - 1);
      RunInv(q, hi - 1);
      assert StepAt(q, hi - 1);
      DoomedStep(q.states[hi - 1], q.events[hi - 1]);
    }
  }

  /** The guarantee of the code, exactly: once slot is at or below zero, a queued packet can still
      be written before slot is positive again if and only if the consumer is already past its
      test and not doomed to wait for the store of a positive remainder. */
  lemma OvershootIff(r: Run)
    requires IsRun(r) && Last(r).slot <= 0
    ensures CanOvershoot(r) <==> PastTest(Last(r).cons) && !Doomed(Last(r))
  {
    hide Writes, Doomed;
    if PastTest(Last(r).cons) && !Doomed(Last(r)) {
      var q := OvershootFrom(r);
    }
    if q: Run :| OvershootsBy(r, q) {
      var lo, hi := |r.states| - 1, |q.states| - 1;
      assert q.states[lo] == Last(r);
      BoundedOvershoot(q, lo, hi);
      if Doomed(Last(r)) {
        DoomedStays(q, lo, hi);
      }
    }
  }

  /** Past the test and with the mutex free, the consumer's next three actions write a packet,
      whatever slot is. */
  lemma OvershootHappens(s: Slave)
    requires Inv(s) && s.cons.CLock? && s.mutex == Free
    ensures var s1 := Next(s, ConsStep);
            Enabled(s1, ConsStep) &&
            var s2 := Next(s1, ConsStep);
            Enabled(s2, ConsStep) &&
            var s3 := Next(s2, ConsStep);
            s1.slot == s2.slot == s3.slot == s.slot && s3.out == s.out + [Queued(s.cons.i, s.q[s.cons.i].items[0])]
  {
    hide FlowInv, CountdownInv;
    InvKept(s, ConsStep);
    var s1 := Next(s, ConsStep);
    SeenMeansPositive(s1);
    InvKept(s1, ConsStep);
    var s2 := Next(s1, ConsStep);
    assert QueueInv(s2.q[s2.cons.i], s2.prod, s2.cons.i);
  }

  /** A shuffle packet of 701 bytes for node 1. */
  function ShuffleFrame(): (f: Frame)
    ensures Dest(f) == 1 && Shuffle(f)
  {
    RawFrame(seq(BUFSIZE, i => if i == 19 then 1 else if i == 20 then 52 else if i == 21 then 250 else 0), 701)
  }

  /** A run in which the producer has queued one packet for node 1 and the consumer has seen it. */
  lemma RunToSeen() returns (q: Run)
    ensures IsRun(q) && Last(q).cons == CSeen(1) && Last(q).mutex == Free && Last(q).cd.DHello?
  {
    var f := ShuffleFrame();
    q := Run([Initial()], []);
    RunInv(q, 0);
    ZeroSum(Initial().q, QUEUES);
    q := Extend(q, Tap(f));
    q := Extend(q, ProdStep);
    q := Extend(q, ProdStep);
    assert Last(q).prod == PSort(f);
    q := Extend(q, ProdStep);
    q := Extend(q, ProdStep);
    q := Extend(q, ProdStep);
    q := Extend(q, ProdStep);
    assert Last(q).prod == PIdle && Last(q).q[1].hasFront;
    q := Extend(q, ConsStep);
  }

  /** ... a slot of v has been granted and the consumer has passed its test. */
  lemma RunToPastTest(v: nat) returns (q: Run)
    requires v > 0
    ensures IsRun(q) && WellFormed(Last(q))
    ensures Last(q).cons == CLock(1) && Last(q).mutex == Free && Last(q).slot == v && Last(q).cd == DTest
  {
    hide FlowInv, CountdownInv, Total;
    q := RunToSeen();
    RunInv(q, |q.states| - 1);
    q := Extend(q, SendHello);
    q := Extend(q, GetReply);
    q := Extend(q, SendHello2);
    q := Extend(q, GetGrant(v));
    q := Extend(q, CdStep);
    assert Last(q).slot == v && Last(q).cons == CSeen(1);
    q := Extend(q, ConsStep);
  }

  /** ... and then the reporter has cancelled the slot. */
  lemma RunToCancelled() returns (q: Run)
    ensures IsRun(q) && Last(q).cons == CLock(1) && Last(q).mutex == Free && Last(q).slot == 0
  {
    q := RunToPastTest(100);
    q := Extend(q, Cancel);
  }

  /** The excluded case happens too: cancelled between the read and the store of slot - 100, the
      consumer past its test but kept from writing until slot is 100 again. */
  lemma DoomReachable() returns (q: Run)
    ensures IsRun(q) && Last(q).slot == 0 && PastTest(Last(q).cons) && Doomed(Last(q)) && !CanOvershoot(q)
  {
    hide Total;
    q := RunToPastTest(200);
    q := Extend(q, CdStep);
    q := Extend(q, CdStep);
    q := Extend(q, CdStep);
    q := Extend(q, Cancel);
    OvershootIff(q);
  }

  /** Zero is too much to ask: there is a run with a stretch during which slot is 0 throughout
      and yet a queued packet is written, because the reporter cancelled the slot between the
      consumer's test and its lock. */
  lemma OvershootReachable() returns (q: Run, lo: nat)
    ensures IsRun(q) && lo + 4 == |q.states|
    ensures q.states[lo].slot == q.states[lo + 1].slot == q.states[lo + 2].slot == q.states[lo + 3].slot == 0
    ensures Writes(Last(q).out) == Writes(q.states[lo].out) + 1
  {
    q := RunToCancelled();
    lo := |q.states| - 1;
    var s := Last(q);
    RunInv(q, lo);
    OvershootHappens(s);
    q := Extend(q, ConsStep);
    q := Extend(q, ConsStep);
    q := Extend(q, ConsStep);
    WritesAppend(s.out, Queued(s.cons.i, s.q[s.cons.i].items[0]));
  }

  // ----- the sweep is fair -----

  /** How many packets the sweep can write from other queues before it next comes to queue d. */
  function BeforeQueue(c: Consumer, d: nat): int
  {
    var i := if c.CDeq? || c.CSignal? || c.CUnlock? then c.i + 1 else c.i;
    if i <= d then d - i else QUEUES - i + d
  }

  /** Packets written and still to be written elsewhere, less nine for each one from queue d. */
  function Unfairness(s: Slave, d: nat): int
  {
    Writes(s.out) + BeforeQueue(s.cons, d) - QUEUES * |Delivered(s.out, d)|
  }

  lemma UnfairnessStep(s: Slave, e: Event, d: nat)
    requires WellFormed(s) && Enabled(s, e) && 1 <= d <= QUEUES && s.q[d].hasFront
    ensures Unfairness(Next(s, e), d) <= Unfairness(s, d)
  {
    hide Total, Writes, Delivered;
    match e {
      case ProdStep =>
        DeliveredProd(s, d);
        if s.prod.PSort? && !Shuffle(s.prod.f) { WritesAppend(s.out, Direct(Payload(s.prod.f))); }
      case ConsStep =>
        DeliveredCons(s, d);
        if s.cons.CWrite? { WritesAppend(s.out, Queued(s.cons.i, s.q[s.cons.i].items[0])); }
      case _ => QueuesQuiet(s, e);
    }
  }

  lemma {:induction false} UnfairnessOver(r: Run, d: nat, lo: nat, hi: nat)
    requires IsRun(r) && lo <= hi < |r.states| && 1 <= d <= QUEUES
    requires forall t :: lo <= t < hi ==> d < |r.states[t].q| && r.states[t].q[d].hasFront
    ensures Unfairness(r.states[hi], d) <= Unfairness(r.states[lo], d)
    decreases hi
  {
    hide Next, Unfairness;
    if lo == hi {
    } else {
      UnfairnessOver(r, d, lo, hi - 1);
      assert StepAt(r, hi - 1);
      UnfairnessStep(r.states[hi - 1], r.events[hi - 1], d);
    }
  }

  /** While queue d has something in front, of any nine packets written from the queues one comes
      from d: n of its own writes leave room for at most 9n + 8 in all. */
  lemma SweepIsFair(r: Run, d: nat, lo: nat, hi: nat)
    requires IsRun(r) && lo <= hi < |r.states| && 1 <= d <= QUEUES
    requires forall t :: lo <= t < hi ==> d < |r.states[t].q| && r.states[t].q[d].hasFront
    ensures var own := |Delivered(r.states[hi].out, d)| - |Delivered(r.states[lo].out, d)|;
            Writes(r.states[hi].out) - Writes(r.states[lo].out) <= 9 * own + 8
  {
    RunInv(r, lo);
    RunInv(r, hi);
    UnfairnessOver(r, d, lo, hi);
  }

  // ----- blocking and waking -----

  lemma BlockedStep(s: Slave, e: Event)
    requires Inv(s) && Enabled(s, e) && s.prod.PWait?
    ensures Total(Next(s, e).q) + Next(s, e).deqs == Total(s.q) + s.deqs
  {
    hide FlowInv, CountdownInv;
    TotalStep(s, e);
  }

  lemma BlockingNeedsFull(s: Slave, e: Event)
    requires Inv(s) && Enabled(s, e) && !s.prod.PWait? && Next(s, e).prod.PWait?
    ensures Total(Next(s, e).q) == 500 && Next(s, e).deqs == s.deqs
  {
    hide FlowInv, CountdownInv;
    TotalStep(s, e);
  }

  lemma WakeDecision(s: Slave)
    requires Inv(s) && s.prod.PWait?
    ensures 449 <= Total(s.q) <= 500
    ensures Total(s.q) == 449 ==> s.cons.CSignal? && ConsEnabled(s)
    ensures ConsEnabled(s) ==> (Next(s, ConsStep).prod.PWoken? <==> Total(s.q) == 449)
  {
    hide FlowInv, CountdownInv, QueuesInv;
  }

  /** The producer blocks only on a completely full buffer. While it stays blocked the buffer
      falls by exactly the packets dequeued; at most 51 are; the consumer's next action wakes
      it exactly when the 51st has been dequeued, and then that next action is the signal. */
  lemma {:induction false} BlockedUntil51(r: Run, lo: nat, hi: nat)
    requires IsRun(r) && 1 <= lo <= hi < |r.states|
    requires !r.states[lo - 1].prod.PWait?
    requires forall t :: lo <= t <= hi ==> r.states[t].prod.PWait?
    ensures WellFormed(r.states[lo]) && WellFormed(r.states[hi])
    ensures Total(r.states[lo].q) == 500
    ensures Total(r.states[hi].q) + (r.states[hi].deqs - r.states[lo].deqs) == 500
    ensures 0 <= r.states[hi].deqs - r.states[lo].deqs <= 51
    ensures ConsEnabled(r.states[hi]) ==>
              (Next(r.states[hi], ConsStep).prod.PWoken? <==> r.states[hi].deqs - r.states[lo].deqs == 51)
    ensures r.states[hi].deqs - r.states[lo].deqs == 51 ==> r.states[hi].cons.CSignal? && ConsEnabled(r.states[hi])
    decreases hi
  {
    hide Inv, Next, Total;
    RunInv(r, hi);
    RunInv(r, hi - 1);
    StepOfRun(r, hi - 1);
    if lo == hi {
      BlockingNeedsFull(r.states[hi - 1], r.events[hi - 1]);
    } else {
      BlockedUntil51(r, lo, hi - 1);
      BlockedStep(r.states[hi - 1], r.events[hi - 1]);
    }
    WakeDecision(r.states[hi]);
  }

  lemma StepOfRun(r: Run, t: nat)
    requires IsRun(r) && t < |r.events|
    ensures WellFormed(r.states[t]) && Enabled(r.states[t], r.events[t])
    ensures r.states[t + 1] == Next(r.states[t], r.events[t])
    ensures WellFormed(r.states[t + 1])
  {
    assert StepAt(r, t);
  }

  // ----- the countdown -----

  /** How many more of its own actions the countdown thread can take before it acknowledges. */
  function Measure(s: Slave): int
  {
    var left := Drains(s.granted - 100 * s.drains);
    match s.cd
    case DSet(v) => 5 * Drains(v) + 3
    case DTest => 5 * left + 2
    case DLock => 5 * left + 1
    case DRead => 5 * left
    case DStore(_) => 5 * left - 1
    case DUnlock => 5 * left + 3
    case DZero => 1
    case _ => 0
  }

  lemma DrainsStep(g: int)
    requires g > 0
    ensures Drains(g) == 1 + Drains(g - 100)
  {
  }

  lemma MeasureFalls(s: Slave)
    requires WellFormed(s) && CountdownInv(s) && CdEnabled(s)
    ensures 0 <= Measure(CdNext(s)) < Measure(s)
  {
    var left := s.granted - 100 * s.drains;
    if left > 0 {
      DrainsStep(left);
    }
    if s.cd.DStore? {
      assert CdNext(s).granted - 100 * CdNext(s).drains == left - 100;
    }
  }

  /** Actions until the producer or the consumer, whichever holds the mutex, has released it. */
  function HolderLeft(s: Slave): nat
  {
    match s.mutex
    case ByProducer =>
      if s.prod.PTest? then 5 else if s.prod.PSort? then 4 else if s.prod.PPublish? then 3
      else if s.prod.PCount? then 2 else 1
    case ByConsumer =>
      if s.cons.CCheck? then 5 else if s.cons.CWrite? then 4 else if s.cons.CDeq? then 3
      else if s.cons.CSignal? then 2 else 1
    case _ => 0
  }

  /** While the countdown waits for the mutex, its holder can go on towards releasing it, and
      leaves the countdown where it is. */
  lemma HolderMoves(s: Slave)
    requires Inv(s) && s.cd.DLock? && s.mutex != Free
    ensures s.mutex == ByProducer || s.mutex == ByConsumer
    ensures var e := if s.mutex == ByProducer then ProdStep else ConsStep;
            && Enabled(s, e) && HolderLeft(Next(s, e)) < HolderLeft(s)
            && Next(s, e).cd == s.cd && Measure(Next(s, e)) == Measure(s) >= 1
  {
    hide FlowInv, RoomInv, WakeInv, Total;
    MeasurePositive(s);
    hide CountdownInv, Drains;
    if s.mutex == ByConsumer {
      assert s.cons.CWrite? ==> QueueInv(s.q[s.cons.i], s.prod, s.cons.i);
    }
  }

  function CdSteps(events: seq<Event>): nat
  {
    if events == [] then 0
    else CdSteps(events[..|events| - 1]) + (if events[|events| - 1].CdStep? then 1 else 0)
  }

  predicate Serving(d: Countdown) { d.DSet? || Working(d) || d.DZero? || d.DAck? }

  /** In service of a grant of v, n of the thread's own actions after receiving it. */
  predicate InService(s: Slave, v: int, n: nat)
  {
    && Serving(s.cd)
    && (if s.cd.DSet? then s.cd.v == v else s.granted == v)
    && (s.cd.DAck? || Measure(s) >= 1)
    && Measure(s) + n <= 5 * Drains(v) + 3
  }

  lemma ServiceQuiet(s: Slave, e: Event)
    requires WellFormed(s) && Enabled(s, e) && Serving(s.cd) && !e.CdStep? && !e.SendAck?
    ensures Next(s, e).cd == s.cd && Next(s, e).granted == s.granted && Next(s, e).drains == s.drains
  {
  }

  lemma ServiceAdvance(s: Slave, v: int)
    requires WellFormed(s) && CdEnabled(s) && Serving(s.cd)
    requires if s.cd.DSet? then s.cd.v == v else s.granted == v
    ensures Serving(CdNext(s).cd) && !CdNext(s).cd.DSet? && CdNext(s).granted == v
  {
  }

  lemma ServiceStep(s: Slave, e: Event, v: int, n: nat)
    requires WellFormed(s) && CountdownInv(s) && Enabled(s, e) && InService(s, v, n) && !e.SendAck?
    ensures InService(Next(s, e), v, if e.CdStep? then n + 1 else n)
  {
    hide Total;
    if e.CdStep? {
      ServiceAdvance(s, v);
      MeasureFalls(s);
      CountdownKept(s, e);
      if !Next(s, e).cd.DAck? {
        MeasurePositive(Next(s, e));
      }
    } else {
      ServiceQuiet(s, e);
    }
  }

  lemma ServiceBegins(s: Slave, v: int)
    requires WellFormed(s) && s.cd.DRecv?
    ensures InService(Next(s, GetGrant(v)), v, 0)
  {
  }

  lemma ServiceBound(s: Slave, v: int, n: nat)
    requires InService(s, v, n)
    ensures n <= 5 * Drains(v) + 3 && (n == 5 * Drains(v) + 3 ==> s.cd.DAck?)
  {
  }

  lemma MeasurePositive(s: Slave)
    requires CountdownInv(s) && Serving(s.cd) && !s.cd.DAck?
    ensures Measure(s) >= 1
  {
  }

  lemma CdStepsAppend(es: seq<Event>, e: Event)
    ensures CdSteps(es + [e]) == (if e.CdStep? then CdSteps(es) + 1 else CdSteps(es))
  {
    assert (es + [e])[..|es|] == es;
  }

  /** A grant of v is served within 5*ceil(v/100)+3 actions of the countdown thread, whatever
      the other threads do in between: until the ack is sent it takes no more than that, and
      once it has taken that many the ack is what comes next. */
  lemma GrantServed(r: Run, v: int, lo: nat, hi: nat)
    requires IsRun(r) && lo < hi < |r.states|
    requires r.events[lo] == GetGrant(v)
    requires forall t :: lo < t < hi ==> !r.events[t].SendAck?
    ensures Serving(r.states[hi].cd)
    ensures CdSteps(r.events[lo + 1..hi]) <= 5 * Drains(v) + 3
    ensures CdSteps(r.events[lo + 1..hi]) == 5 * Drains(v) + 3 ==> r.states[hi].cd.DAck?
  {
    StillInService(r, v, lo, hi);
    ServiceBound(r.states[hi], v, CdSteps(r.events[lo + 1..hi]));
  }

  lemma {:induction false} StillInService(r: Run, v: int, lo: nat, hi: nat)
    requires IsRun(r) && lo < hi < |r.states|
    requires r.events[lo] == GetGrant(v)
    requires forall t :: lo < t < hi ==> !r.events[t].SendAck?
    ensures InService(r.states[hi], v, CdSteps(r.events[lo + 1..hi]))
    decreases hi
  {
    if lo + 1 == hi {
      assert r.events[lo + 1..hi] == [];
      ServiceBeginsAt(r, v, lo);
    } else {
      StillInService(r, v, lo, hi - 1);
      assert r.events[lo + 1..hi] == r.events[lo + 1..hi - 1] + [r.events[hi - 1]];
      CdStepsAppend(r.events[lo + 1..hi - 1], r.events[hi - 1]);
      ServiceStepAt(r, v, hi - 1, CdSteps(r.events[lo + 1..hi - 1]));
    }
  }

  lemma ServiceBeginsAt(r: Run, v: int, lo: nat)
    requires IsRun(r) && lo < |r.events| && r.events[lo] == GetGrant(v)
    ensures InService(r.states[lo + 1], v, 0)
  {
    assert StepAt(r, lo);
    ServiceBegins(r.states[lo], v);
  }

  lemma ServiceStepAt(r: Run, v: int, t: nat, n: nat)
    requires IsRun(r) && t < |r.events| && !r.events[t].SendAck? && InService(r.states[t], v, n)
    ensures InService(r.states[t + 1], v, if r.events[t].CdStep? then n + 1 else n)
  {
    RunCountdown(r, t);
    assert StepAt(r, t);
    ServiceStep(r.states[t], r.events[t], v, n);
  }

  lemma RunCountdown(r: Run, t: nat)
    requires IsRun(r) && t < |r.states|
    ensures WellFormed(r.states[t]) && CountdownInv(r.states[t])
  {
    RunInv(r, t);
  }

  /** slot is positive only between a grant and its ack; it never falls below -100 for a grant
      of at least -100; and when the ack is due, slot is 0 and the number of decrements is
      ceil(granted/100), or at most that if the reporter cancelled. */
  lemma CountdownBound(r: Run, t: nat)
    requires IsRun(r) && t < |r.states|
    ensures var s := r.states[t];
            && (s.slot > 0 ==> Working(s.cd))
            && (s.granted >= -100 ==> s.slot >= -100)
            && (s.cd.DAck? ==>
                  s.slot == 0 && s.drains <= Drains(s.granted) && (!s.cancelled ==> s.drains == Drains(s.granted)))
  {
    RunInv(r, t);
  }
}
