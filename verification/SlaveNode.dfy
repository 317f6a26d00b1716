/** The slave over real linked queues: q[10] of queues on the heap, the shared variables, and
    one method per atomic action. Every method takes the object from one state of the machine
    in SlaveModel to the next, so whatever is proved of the machine's runs holds of the heap. */
module SlaveNode {
  import opened Frames
  import opened LinkedQueue
  import opened QueueBank
  import opened SlaveModel
  import opened SlaveInvariants
  import ST = SlaveTheorems

  /** Queued packets are long enough for the header bytes the consumer looks at. */
  lemma {:induction false} AddressedLong(ingress: seq<Frame>, d: nat)
    ensures forall p :: p in Addressed(ingress, d) ==> |p| > SHUFFLE_LENGTH
  {
    if ingress == [] {
    } else {
      AddressedLong(ingress[..|ingress| - 1], d);
    }
  }

  lemma LinkedLong(s: Slave, d: nat)
    requires Inv(s) && 1 <= d <= QUEUES && !s.cons.CDeq?
    ensures forall p :: p in s.q[d].items ==> |p| > SHUFFLE_LENGTH
  {
    AddressedLong(s.ingress, d);
    assert QueueFlow(s, d);
    assert Unwritten(s, d) == s.q[d].items;
    forall p | p in s.q[d].items ensures p in Addressed(s.ingress, d) {
      assert p in Remaining(s, d);
      assert p in Delivered(s.out, d) + Remaining(s, d);
    }
  }

  class SlaveNode {
    const bank: Bank
    var slot: int
    var mutex: Owner
    var prod: Producer
    var cons: Consumer
    var cd: Countdown
    // what an observer has recorded
    ghost var ingress: seq<Frame>
    ghost var out: seq<Output>
    ghost var deqs: nat
    ghost var granted: int
    ghost var drains: nat
    ghost var cancelled: bool

    ghost predicate HeapOk()
      reads this, bank, bank.Repr
    {
      this !in bank.Repr && bank.Valid()
    }

    ghost function View(): Slave
      requires HeapOk()
      reads this, bank, bank.Repr
    {
      Slave(slot, mutex, bank.Views(), prod, cons, cd, ingress, out, deqs, granted, drains, cancelled)
    }

    ghost predicate Valid()
      reads this, bank, bank.Repr
    {
      HeapOk() && Inv(View())
    }

    /** Every front that was not NULL is still the same node. */
    twostate predicate FrontsKept()
      requires old(HeapOk()) && HeapOk()
      reads this, bank, bank.Repr
    {
      forall i :: 0 <= i < |bank.q| && old(bank.q[i].front) != null ==> bank.q[i].front == old(bank.q[i].front)
    }

    constructor ()
      ensures Valid() && fresh(bank) && fresh(bank.Repr) && View() == Initial()
    {
      bank := new Bank();
      slot, mutex, prod, cons, cd := 0, Free, PIdle, CSweep(1), DHello;
      ingress, out, deqs, granted, drains, cancelled := [], [], 0, 0, 0, false;
      new;
      hide Inv, Bank.Valid;
      InitialInv();
    }

    // ----- one method per atomic action; total is the value is_empty() has just returned -----

    method Tap(f: Frame)
      requires HeapOk() && WellFormed(View()) && Enabled(View(), Event.Tap(f))
      modifies this`prod, this`ingress
      ensures HeapOk() && View() == Next(old(View()), Event.Tap(f))
    {
      ingress := ingress + [f];
      if ForCluster(f) {
        prod := PLock(f);
      }
    }

    method ProdLock()
      requires HeapOk() && WellFormed(View()) && ProdEnabled(View()) && (prod.PLock? || prod.PWoken?)
      modifies this`mutex, this`prod
      ensures HeapOk() && View() == ProdNext(old(View()))
    {
      mutex := ByProducer;
      prod := PTest(prod.f);
    }

    method ProdTest(total: int)
      requires HeapOk() && WellFormed(View()) && prod.PTest? && total == Total(View().q)
      modifies this`mutex, this`prod
      ensures HeapOk() && View() == ProdNext(old(View()))
    {
      hide Bank.Valid, Total;
      if total > FULL {
        mutex := Free;
        prod := PWait(prod.f);
      } else {
        prod := PSort(prod.f);
      }
    }

    method ProdLink()
      requires HeapOk() && WellFormed(View()) && prod.PSort? && Shuffle(prod.f)
      requires var home := bank.q[Dest(prod.f)]; home.nodes != [] ==> home.front != null
      modifies this`prod, bank, bank.Repr
      ensures HeapOk() && fresh(bank.Repr - old(bank.Repr)) && View() == ProdNext(old(View()))
      ensures forall i :: 0 <= i < |bank.q| ==> bank.q[i].front == old(bank.q[i].front)
    {
      bank.LinkAt(Dest(prod.f), Payload(prod.f));
      prod := PPublish(prod.f);
    }

    method ProdForward()
      requires HeapOk() && WellFormed(View()) && prod.PSort? && !Shuffle(prod.f)
      modifies this`prod, this`out
      ensures HeapOk() && View() == ProdNext(old(View()))
    {
      out := out + [Direct(Payload(prod.f))];
      prod := PUnlock;
    }

    method ProdPublish()
      requires HeapOk() && WellFormed(View()) && prod.PPublish? && bank.q[Dest(prod.f)].nodes != []
      modifies this`prod, bank.Repr
      ensures HeapOk() && bank.Repr == old(bank.Repr) && View() == ProdNext(old(View()))
      ensures FrontsKept()
    {
      bank.PublishAt(Dest(prod.f));
      prod := PCount(prod.f);
    }

    method ProdCount()
      requires HeapOk() && WellFormed(View()) && prod.PCount?
      modifies this`prod, bank.Repr
      ensures HeapOk() && bank.Repr == old(bank.Repr) && View() == ProdNext(old(View()))
      ensures FrontsKept()
    {
      bank.CountAt(Dest(prod.f));
      prod := PUnlock;
    }

    method ProdUnlock()
      requires HeapOk() && WellFormed(View()) && prod.PUnlock?
      modifies this`mutex, this`prod
      ensures HeapOk() && View() == ProdNext(old(View()))
    {
      mutex := Free;
      prod := PIdle;
    }

    method ProdStep()
      requires HeapOk() && Ready() && ProdEnabled(View())
      modifies this, bank, bank.Repr
      ensures HeapOk() && fresh(bank.Repr - old(bank.Repr)) && View() == ProdNext(old(View()))
      ensures FrontsKept()
    {
      hide Bank.Valid, ProdNext;
      match prod {
        case PLock(_) => ProdLock();
        case PWoken(_) => ProdLock();
        case PTest(_) => var total := bank.IsEmpty(); ProdTest(total);
        case PSort(f) => if Shuffle(f) { ProdLink(); } else { ProdForward(); }
        case PPublish(_) => ProdPublish();
        case PCount(_) => ProdCount();
        case PUnlock => ProdUnlock();
      }
    }

    /** The header bytes the consumer copies out of the front packet, without the mutex: last
        octet of the destination, source port, destination port. */
    method ReadHeader(i: nat) returns (d: Packet, src: Packet, des: Packet)
      requires HeapOk() && i < |bank.q| && bank.q[i].front != null && |bank.q[i].front.data| > SHUFFLE_LENGTH
      ensures View().q[i].items != [] && d + src + des == View().q[i].items[0][19..24]
      ensures |d| == 1 && |src| == |des| == 2
    {
      assert !bank.q[i].front.freed;
      var data := bank.q[i].front.data;
      d, src, des := data[19..20], data[20..22], data[22..24];
      assert d + src + des == data[19..24];
    }

    method ConsLook()
      requires HeapOk() && WellFormed(View()) && cons.CSweep?
      modifies this`cons
      ensures HeapOk() && View() == ConsNext(old(View()))
    {
      var i := cons.i;
      if i > QUEUES {
        cons := CSweep(1);
      } else if bank.q[i].front != null {
        cons := CSeen(i);
      } else {
        cons := CSweep(i + 1);
      }
    }

    method ConsSpin()
      requires HeapOk() && WellFormed(View()) && cons.CSeen?
      requires var front := bank.q[cons.i].front; front != null && |front.data| > SHUFFLE_LENGTH
      modifies this`cons
      ensures HeapOk() && View() == ConsNext(old(View()))
    {
      var d, src, des := ReadHeader(cons.i);
      if slot > 0 {
        cons := CLock(cons.i);
      }
    }

    method ConsLock()
      requires HeapOk() && WellFormed(View()) && ConsEnabled(View()) && cons.CLock?
      modifies this`mutex, this`cons
      ensures HeapOk() && View() == ConsNext(old(View()))
    {
      mutex := ByConsumer;
      cons := CCheck(cons.i);
    }

    method ConsCheck(total: int)
      requires HeapOk() && WellFormed(View()) && cons.CCheck? && total == Total(View().q)
      modifies this`mutex, this`cons
      ensures HeapOk() && View() == ConsNext(old(View()))
    {
      hide Bank.Valid, Total;
      if total <= 0 {
        mutex := Free;
        cons := CStray(cons.i);
      } else {
        cons := CWrite(cons.i);
      }
    }

    method ConsWrite()
      requires HeapOk() && WellFormed(View()) && ConsEnabled(View()) && cons.CWrite?
      modifies this`out, this`cons
      ensures HeapOk() && View() == ConsNext(old(View()))
    {
      out := out + [Queued(cons.i, bank.q[cons.i].front.data)];
      cons := CDeq(cons.i);
    }

    method ConsDeq()
      requires HeapOk() && WellFormed(View()) && cons.CDeq?
      modifies this`deqs, this`cons, bank.Repr
      ensures HeapOk() && bank.Repr == old(bank.Repr) && View() == ConsNext(old(View()))
      ensures forall i :: 0 <= i < |bank.q| && i != old(cons).i ==> bank.q[i].front == old(bank.q[i].front)
    {
      hide Bank.Valid, Dequeued;
      bank.DeqById(cons.i);
      deqs := deqs + 1;
      cons := CSignal(cons.i);
    }

    method ConsSignal(total: int)
      requires HeapOk() && WellFormed(View()) && cons.CSignal? && total == Total(View().q)
      modifies this`prod, this`cons
      ensures HeapOk() && View() == ConsNext(old(View()))
    {
      hide Bank.Valid, Total;
      if total < WAKE_BELOW && prod.PWait? {
        prod := PWoken(prod.f);
      }
      cons := CUnlock(cons.i);
    }

    method ConsUnlock()
      requires HeapOk() && WellFormed(View()) && cons.CUnlock?
      modifies this`mutex, this`cons
      ensures HeapOk() && View() == ConsNext(old(View()))
    {
      mutex := Free;
      cons := CSweep(cons.i + 1);
    }

    method ConsStep()
      requires HeapOk() && Ready() && ConsEnabled(View())
      modifies this, bank, bank.Repr
      ensures HeapOk() && fresh(bank.Repr - old(bank.Repr)) && View() == ConsNext(old(View()))
      ensures forall i :: 0 <= i < |bank.q| && old(cons) != CDeq(i) ==> bank.q[i].front == old(bank.q[i].front)
    {
      hide Bank.Valid, ConsNext;
      match cons {
        case CSweep(_) => ConsLook();
        case CSeen(_) => ConsSpin();
        case CLock(_) => ConsLock();
        case CCheck(_) => var total := bank.IsEmpty(); ConsCheck(total);
        case CWrite(_) => ConsWrite();
        case CDeq(_) => ConsDeq();
        case CSignal(_) => var total := bank.IsEmpty(); ConsSignal(total);
        case CUnlock(_) => ConsUnlock();
      }
    }

    /** slot = S for a grant just parsed. */
    method CdSet()
      requires HeapOk() && WellFormed(View()) && cd.DSet?
      modifies this`slot, this`cd, this`granted, this`drains, this`cancelled
      ensures HeapOk() && View() == CdNext(old(View()))
    {
      hide Bank.Valid;
      slot := cd.v;
      granted, drains, cancelled := cd.v, 0, false;
      cd := DTest;
    }

    /** The loop while (slot > 0): its test, its body cut at the mutex and between the read of
        slot and the store, and the store of 0 after it. */
    method CdTest()
      requires HeapOk() && WellFormed(View()) && cd.DTest?
      modifies this`cd
      ensures HeapOk() && View() == CdNext(old(View()))
    {
      cd := if slot > 0 then DLock else DZero;
    }

    method CdLock()
      requires HeapOk() && WellFormed(View()) && CdEnabled(View()) && cd.DLock?
      modifies this`mutex, this`cd
      ensures HeapOk() && View() == CdNext(old(View()))
    {
      mutex := ByCountdown;
      cd := DRead;
    }

    method CdRead()
      requires HeapOk() && WellFormed(View()) && cd.DRead?
      modifies this`cd
      ensures HeapOk() && View() == CdNext(old(View()))
    {
      cd := DStore(slot);
    }

    method CdStore()
      requires HeapOk() && WellFormed(View()) && cd.DStore?
      modifies this`slot, this`cd, this`drains
      ensures HeapOk() && View() == CdNext(old(View()))
    {
      slot := cd.seen - 100;
      drains := drains + 1;
      cd := DUnlock;
    }

    method CdUnlock()
      requires HeapOk() && WellFormed(View()) && cd.DUnlock?
      modifies this`mutex, this`cd
      ensures HeapOk() && View() == CdNext(old(View()))
    {
      mutex := Free;
      cd := DTest;
    }

    method CdZero()
      requires HeapOk() && WellFormed(View()) && cd.DZero?
      modifies this`slot, this`cd
      ensures HeapOk() && View() == CdNext(old(View()))
    {
      slot := 0;
      cd := DAck;
    }

    method CdStep()
      requires HeapOk() && WellFormed(View()) && CdEnabled(View())
      modifies this
      ensures HeapOk() && View() == CdNext(old(View()))
    {
      hide Bank.Valid, CdNext;
      match cd {
        case DSet(_) => CdSet();
        case DTest => CdTest();
        case DLock => CdLock();
        case DRead => CdRead();
        case DStore(_) => CdStore();
        case DUnlock => CdUnlock();
        case DZero => CdZero();
      }
    }

    /** The reporter's slot = 0. */
    method Cancel()
      requires HeapOk() && WellFormed(View())
      modifies this`slot, this`cancelled
      ensures HeapOk() && View() == Next(old(View()), Event.Cancel)
    {
      slot, cancelled := 0, true;
    }

    /** A wake-up nobody signalled. */
    method SpuriousWake()
      requires HeapOk() && WellFormed(View()) && prod.PWait?
      modifies this`prod
      ensures HeapOk() && View() == Next(old(View()), Event.SpuriousWake)
    {
      prod := PWoken(prod.f);
    }

    /** The sends and receives on the scheduler socket only move the program counter. */
    method Communicate(e: Event)
      requires HeapOk() && WellFormed(View()) && Enabled(View(), e)
      requires e.SendHello? || e.GetReply? || e.SendHello2? || e.GetGrant? || e.SendAck?
      modifies this`cd
      ensures HeapOk() && View() == Next(old(View()), e)
    {
      cd := match e {
        case SendHello => DReply
        case GetReply => DHello2
        case GetGrant(v) => DSet(v)
        case _ => DRecv
      };
    }

    /** What an action may rely on: enq links only into a settled queue, and the front the
        consumer looks at is a node with a full header. */
    ghost predicate Ready()
      requires HeapOk()
      reads this, bank, bank.Repr
    {
      && WellFormed(View())
      && (prod.PSort? ==> bank.q[Dest(prod.f)].front != null || bank.q[Dest(prod.f)].nodes == [])
      && (prod.PPublish? ==> bank.q[Dest(prod.f)].nodes != [])
      && (cons.CSeen? ==>
            var front := bank.q[cons.i].front;
            front != null && front in bank.q[cons.i].nodes && |front.data| > SHUFFLE_LENGTH)
    }

    lemma InvMakesReady()
      requires Valid()
      ensures Ready()
    {
      var s := View();
      if prod.PSort? || prod.PPublish? {
        assert QueueInv(s.q[Dest(prod.f)], s.prod, Dest(prod.f));
      }
      if cons.CSeen? {
        LinkedLong(s, cons.i);
        assert bank.q[cons.i].Items()[0] in s.q[cons.i].items;
      }
    }

    method Step(e: Event)
      requires Valid() && Enabled(View(), e)
      modifies this, bank, bank.Repr
      ensures Valid() && fresh(bank.Repr - old(bank.Repr)) && View() == Next(old(View()), e)
      ensures forall i :: 0 <= i < |bank.q| && old(bank.q[i].front) != null && (e.ConsStep? ==> old(cons) != CDeq(i))
                ==> bank.q[i].front == old(bank.q[i].front)
    {
      hide Inv, Bank.Valid;
      InvMakesReady();
      InvKept(View(), e);
      match e {
        case Tap(f) => Tap(f);
        case ProdStep => ProdStep();
        case ConsStep => ConsStep();
        case CdStep => CdStep();
        case Cancel => Cancel();
        case SpuriousWake => SpuriousWake();
        case _ => Communicate(e);
      }
    }

    /** The object is at the t-th state of a run. */
    ghost predicate At(r: Run, t: nat)
      reads this, bank, bank.Repr
    {
      IsRun(r) && t < |r.states| && Valid() && View() == r.states[t]
    }

    method PlayOne(ghost r: Run, ghost t: nat, e: Event)
      requires At(r, t) && t < |r.events| && r.events[t] == e
      modifies this, bank, bank.Repr
      ensures At(r, t + 1) && fresh(bank.Repr - old(bank.Repr))
      ensures forall i :: 0 <= i < |bank.q| && old(bank.q[i].front) != null && (e.ConsStep? ==> old(cons) != CDeq(i))
                ==> bank.q[i].front == old(bank.q[i].front)
    {
      assert StepAt(r, t);
      Step(e);
    }

    /** The heap follows any run of the machine, action by action: after playing the events of a
        run, the queues on the heap are exactly the run's last state. */
    method Play(ghost r: Run, events: seq<Event>)
      requires At(r, 0) && r.events == events
      modifies this, bank, bank.Repr
      ensures At(r, |events|) && fresh(bank.Repr - old(bank.Repr))
    {
      for t := 0 to |events|
        invariant At(r, t) && fresh(bank.Repr - old(bank.Repr))
      {
        PlayOne(r, t, events[t]);
      }
    }

    /** A consumer at queue i that has not yet dequeued finds a node in front, and is not about to
        remove it unless this is its deq. */
    lemma CommittedFront(r: Run, t: nat, i: nat)
      requires At(r, t) && i < |bank.q| && ST.Committed(r.states[t].cons, i)
      ensures bank.q[i].front != null
      ensures t < |r.events| && ST.Committed(r.states[t + 1].cons, i) && r.events[t].ConsStep? ==> cons != CDeq(i)
    {
      hide Inv, Bank.Valid;
      ST.FrontFound(r, i, t);
      assert bank.Views()[i].hasFront;
      if t < |r.events| {
        assert StepAt(r, t);
      }
    }

    /** From its unlocked look at front until its own deq the consumer finds one and the same node
        there: playing any stretch of a run in which it stays committed to queue i, the pointer
        it dereferences does not move. */
    method PlayCommitted(ghost r: Run, ghost lo: nat, events: seq<Event>, ghost i: nat)
      requires At(r, lo) && lo + |events| <= |r.events| && r.events[lo..lo + |events|] == events && i < |bank.q|
      requires forall t :: lo <= t <= lo + |events| ==> ST.Committed(r.states[t].cons, i)
      modifies this, bank, bank.Repr
      ensures At(r, lo + |events|) && fresh(bank.Repr - old(bank.Repr))
      ensures bank.q[i].front == old(bank.q[i].front) != null
    {
      hide At, ST.Committed, Inv, Bank.Valid;
      CommittedFront(r, lo, i);
      for t := 0 to |events|
        invariant At(r, lo + t) && fresh(bank.Repr - old(bank.Repr))
        invariant bank.q[i].front == old(bank.q[i].front) != null
      {
        CommittedFront(r, lo + t, i);
        assert events[t] == r.events[lo + t];
        PlayOne(r, lo + t, events[t]);
      }
    }
  }
}
