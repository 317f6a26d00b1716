/** The master's arrays take the steps of the protocol machine: what the methods of Scheduler.Master
    do to the object is what the machine does to its tables. */
module MasterNode {
  import opened Reports
  import opened Scheduler
  import opened Protocol

  /** The object's fields are the machine's tables. */
  ghost predicate Shows(o: Master, m: MasterState)
    reads o, o.p, o.sp, o.reducer, o.tAlloc
  {
    && o.Valid()
    && o.p[..] == m.p && o.sp[..] == m.sp && o.reducer[..] == m.reducer && o.tAlloc[..] == m.tAlloc
    && o.pri == m.pri
  }

  /** The busy check, and what follows it at once. */
  method CheckStep(o: Master, ghost s: System) returns (busy: bool)
    requires SysInv(s) && s.master.at.Check? && Shows(o, s.master)
    modifies o`pri, o.tAlloc
    ensures Shows(o, MasterNext(s).master)
    ensures busy == MasterNext(s).master.at.Scan?
  {
    hide NodeInv;
    busy := o.HasData();
    if busy {
      assert Busy(s.master.p);
      o.pri := o.pri + 1;
      if o.pri > 9 {
        o.pri := 2;
      }
    } else {
      o.AllocateIdle();
    }
  }

  /** One turn of the scan loop. */
  method ScanStep(o: Master, ghost s: System) returns (found: bool)
    requires SysInv(s) && s.master.at.Scan? && Shows(o, s.master)
    modifies o`pri
    ensures Shows(o, MasterNext(s).master)
    ensures found == MasterNext(s).master.at.Allocate?
  {
    hide NodeInv;
    found := o.p[o.pri] > 0;
    if !found {
      o.pri := o.pri + 1;
      if o.pri >= 10 {
        o.pri := 2;
      }
    }
  }

  /** The allocation loop of a busy round, and the reducer it favours. */
  method AllocateStep(o: Master, ghost s: System, job: int, progress: int) returns (priReducer: nat)
    requires SysInv(s) && s.master.at.Allocate? && Shows(o, s.master)
    requires job == s.master.job && progress == s.master.progress
    modifies o.tAlloc
    ensures Shows(o, MasterNext(s).master) && priReducer == MasterNext(s).master.priReducer
  {
    hide NodeInv;
    priReducer := o.AllocateBusy(job, progress);
  }

  /** A report printed by node k and processed at any moment. */
  method TakeReport(o: Master, ghost s: System, k: nat, size: nat, reduce: int, speeds: array<int>)
    requires SysInv(s) && IsNode(k) && Shows(o, s.master) && speeds.Length == SPEEDS
    requires speeds != o.p && speeds != o.sp && speeds != o.reducer && speeds != o.tAlloc
    modifies o.p, o.sp, o.reducer
    ensures Shows(o, StepSystem(s, Report(k, size, reduce, speeds[..])).master)
  {
    hide NodeInv;
    ReportReaches(o, k, size, reduce, speeds);
  }
}
