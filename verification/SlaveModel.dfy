/** One slave as a machine of atomic actions.

    Three threads run over shared state: the producer (the main loop), the consumer (write_tun)
    and the countdown (recv_config, preceded by the handshake main does on the same socket).
    The reporter appears as the one write it makes to the shared state, slot = 0, which may
    come at any moment because it holds a different mutex. Every access to shared data that
    another thread can observe or disturb is an action of its own; interleaving is
    sequentially consistent. */
module SlaveModel {
  import opened Frames
  import opened LinkedQueue
  import opened QueueBank

  const FULL := 499            // the producer waits while the total exceeds this
  const WAKE_BELOW := 450      // the consumer signals when the total is under this

  datatype Owner = Free | ByProducer | ByConsumer | ByCountdown

  /** Where the producer is; f is the frame in its buffer. */
  datatype Producer =
    | PIdle                   // in select/read
    | PLock(f: Frame)         // about to lock qu_mutex
    | PTest(f: Frame)         // holds it, evaluates is_empty() > 499
    | PWait(f: Frame)         // blocked in pthread_cond_wait, mutex released
    | PWoken(f: Frame)        // signalled, must get the mutex back
    | PSort(f: Frame)         // past the test: link a node, or write directly
    | PPublish(f: Frame)      // node linked, front not yet stored
    | PCount(f: Frame)        // front stored, count not yet incremented
    | PUnlock

  /** Where the consumer is; i is the queue its sweep has reached. */
  datatype Consumer =
    | CSweep(i: nat)          // reads q[i].front without the mutex
    | CSeen(i: nat)           // saw it non-NULL, reads its header, spins while slot <= 0
    | CLock(i: nat)           // saw slot > 0, about to lock
    | CCheck(i: nat)          // holds the mutex, evaluates is_empty() <= 0
    | CWrite(i: nat)          // about to write the front packet
    | CDeq(i: nat)            // written, about to deq
    | CSignal(i: nat)         // evaluates is_empty() < 450
    | CUnlock(i: nat)
    | CStray(i: nat)          // the is_empty() <= 0 branch: mutex released, to be released again

  /** Where the thread on the scheduler socket is. */
  datatype Countdown =
    | DHello | DReply | DHello2   // handshake: send, receive, send
    | DRecv                       // blocked receiving a grant
    | DSet(v: int)                // received, about to store slot
    | DTest                       // while (slot > 0)
    | DLock
    | DRead                       // holds the mutex, about to read slot
    | DStore(seen: int)           // about to store seen - 100
    | DUnlock
    | DZero                       // about to store slot = 0
    | DAck                        // about to send the ack

  datatype Output = Queued(d: nat, packet: Packet) | Direct(packet: Packet)

  /** The shared state, the three program counters, and what an observer has recorded: frames
      read, packets written, packets dequeued, and since the last grant its size, the number of
      decrements and whether the reporter has cancelled it. */
  datatype Slave = Slave(
    slot: int, mutex: Owner, q: seq<QueueView>,
    prod: Producer, cons: Consumer, cd: Countdown,
    ingress: seq<Frame>, out: seq<Output>, deqs: nat,
    granted: int, drains: nat, cancelled: bool)

  datatype Event =
    | Tap(f: Frame) | ProdStep | SpuriousWake | ConsStep | CdStep | Cancel
    | SendHello | GetReply | SendHello2 | GetGrant(v: int) | SendAck

  function Initial(): Slave
  {
    Slave(0, Free, EmptyQueues(), PIdle, CSweep(1), DHello, [], [], 0, 0, 0, false)
  }

  // ----- the machine -----

  predicate FrameIn(p: Producer)
  {
    p.PIdle? || p.PUnlock? || ForCluster(p.f)
  }

  /** Indices stay inside the array. */
  predicate WellFormed(s: Slave)
  {
    && |s.q| == QUEUES + 1
    && FrameIn(s.prod)
    && 1 <= s.cons.i <= (if s.cons.CSweep? then QUEUES + 1 else QUEUES)
  }

  predicate ProdEnabled(s: Slave)
  {
    match s.prod
    case PIdle => false
    case PWait(_) => false
    case PLock(_) => s.mutex == Free
    case PWoken(_) => s.mutex == Free
    case _ => true
  }

  /** A consumer that would follow a NULL front, or unlock a mutex it does not hold, is stuck. */
  predicate ConsEnabled(s: Slave)
    requires WellFormed(s)
  {
    match s.cons
    case CLock(_) => s.mutex == Free
    case CSeen(i) => s.q[i].hasFront
    case CWrite(i) => s.q[i].hasFront && s.q[i].items != []
    case CStray(_) => false
    case _ => true
  }

  predicate CdEnabled(s: Slave)
  {
    match s.cd
    case DLock => s.mutex == Free
    case DHello | DReply | DHello2 | DRecv | DAck => false
    case _ => true
  }

  predicate Enabled(s: Slave, e: Event)
    requires WellFormed(s)
  {
    match e
    case Tap(_) => s.prod.PIdle?
    case ProdStep => ProdEnabled(s)
    case SpuriousWake => s.prod.PWait?
    case ConsStep => ConsEnabled(s)
    case CdStep => CdEnabled(s)
    case Cancel => true
    case SendHello => s.cd.DHello?
    case GetReply => s.cd.DReply?
    case SendHello2 => s.cd.DHello2?
    case GetGrant(_) => s.cd.DRecv?
    case SendAck => s.cd.DAck?
  }

  function ProdNext(s: Slave): (t: Slave)
    requires WellFormed(s) && ProdEnabled(s)
    ensures WellFormed(t)
  {
    match s.prod
    case PLock(f) => s.(mutex := ByProducer, prod := PTest(f))
    case PWoken(f) => s.(mutex := ByProducer, prod := PTest(f))
    case PTest(f) =>
      if Total(s.q) > FULL then s.(mutex := Free, prod := PWait(f)) else s.(prod := PSort(f))
    case PSort(f) =>
      if Shuffle(f) then
        s.(q := s.q[Dest(f) := Linked(s.q[Dest(f)], Payload(f))], prod := PPublish(f))
      else
        s.(out := s.out + [Direct(Payload(f))], prod := PUnlock)
    case PPublish(f) => s.(q := s.q[Dest(f) := Published(s.q[Dest(f)])], prod := PCount(f))
    case PCount(f) => s.(q := s.q[Dest(f) := Counted(s.q[Dest(f)])], prod := PUnlock)
    case PUnlock => s.(mutex := Free, prod := PIdle)
  }

  function Signalled(p: Producer): Producer
  {
    if p.PWait? then PWoken(p.f) else p
  }

  function ConsNext(s: Slave): (t: Slave)
    requires WellFormed(s) && ConsEnabled(s)
    ensures WellFormed(t)
  {
    match s.cons
    case CSweep(i) =>
      if i > QUEUES then s.(cons := CSweep(1))
      else if s.q[i].hasFront then s.(cons := CSeen(i))
      else s.(cons := CSweep(i + 1))
    case CSeen(i) => if s.slot <= 0 then s else s.(cons := CLock(i))
    case CLock(i) => s.(mutex := ByConsumer, cons := CCheck(i))
    case CCheck(i) =>
      if Total(s.q) <= 0 then s.(mutex := Free, cons := CStray(i)) else s.(cons := CWrite(i))
    case CWrite(i) => s.(out := s.out + [Queued(i, s.q[i].items[0])], cons := CDeq(i))
    case CDeq(i) => s.(q := s.q[i := Dequeued(s.q[i])], deqs := s.deqs + 1, cons := CSignal(i))
    case CSignal(i) =>
      s.(prod := if Total(s.q) < WAKE_BELOW then Signalled(s.prod) else s.prod, cons := CUnlock(i))
    case CUnlock(i) => s.(mutex := Free, cons := CSweep(i + 1))
  }

  function CdNext(s: Slave): (t: Slave)
    requires WellFormed(s) && CdEnabled(s)
    ensures WellFormed(t)
  {
    match s.cd
    case DSet(v) => s.(slot := v, granted := v, drains := 0, cancelled := false, cd := DTest)
    case DTest => s.(cd := if s.slot > 0 then DLock else DZero)
    case DLock => s.(mutex := ByCountdown, cd := DRead)
    case DRead => s.(cd := DStore(s.slot))
    case DStore(seen) => s.(slot := seen - 100, drains := s.drains + 1, cd := DUnlock)
    case DUnlock => s.(mutex := Free, cd := DTest)
    case DZero => s.(slot := 0, cd := DAck)
  }

  function Next(s: Slave, e: Event): (t: Slave)
    requires WellFormed(s) && Enabled(s, e)
    ensures WellFormed(t)
  {
    match e
    case Tap(f) =>
      s.(ingress := s.ingress + [f], prod := if ForCluster(f) then PLock(f) else PIdle)
    case ProdStep => ProdNext(s)
    case SpuriousWake => s.(prod := Signalled(s.prod))
    case ConsStep => ConsNext(s)
    case CdStep => CdNext(s)
    case Cancel => s.(slot := 0, cancelled := true)
    case SendHello => s.(cd := DReply)
    case GetReply => s.(cd := DHello2)
    case SendHello2 => s.(cd := DRecv)
    case GetGrant(v) => s.(cd := DSet(v))
    case SendAck => s.(cd := DRecv)
  }

  /** A finite run: events[t] leads from states[t] to states[t + 1]. */
  datatype Run = Run(states: seq<Slave>, events: seq<Event>)

  ghost predicate StepAt(r: Run, t: nat)
    requires |r.states| == |r.events| + 1
  {
    && t < |r.events| && WellFormed(r.states[t]) && Enabled(r.states[t], r.events[t])
    && r.states[t + 1] == Next(r.states[t], r.events[t])
  }

  ghost predicate IsRun(r: Run)
  {
    && |r.states| == |r.events| + 1
    && r.states[0] == Initial()
    && forall t: nat :: t < |r.events| ==> StepAt(r, t)
  }
}
