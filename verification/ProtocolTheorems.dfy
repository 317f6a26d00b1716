/** What the protocol guarantees over every run of master and slaves. */
module ProtocolTheorems {
  import opened Reports
  import opened Scheduler
  import opened SlaveModel
  import opened Protocol
  import opened ProtocolInvariant
  import SI = SlaveInvariants
  import ST = SlaveTheorems

  // ----- slot exclusion -----

  /** A slave has a positive slot only while the master waits for its ack, and then no more
      than was granted; so at most one slave has one, in every state of every run. */
  lemma SlotExclusion(r: Trace, t: nat, i: nat, j: nat)
    requires IsTrace(r) && t < |r.states| && IsNode(i) && IsNode(j)
    ensures |r.states[t].nodes| == NODES
    ensures var s := r.states[t];
            && (s.nodes[i].slave.slot > 0 ==> s.master.at == Await(i) && s.nodes[i].slave.slot <= s.master.tAlloc[i])
            && (s.nodes[i].slave.slot > 0 && s.nodes[j].slave.slot > 0 ==> i == j)
  {
    TraceInv(r, t);
    if r.states[t].nodes[i].slave.slot > 0 {
      HolderIsAwaited(r.states[t], i);
    }
    if r.states[t].nodes[j].slave.slot > 0 {
      HolderIsAwaited(r.states[t], j);
    }
  }

  lemma HolderIsAwaited(s: System, k: nat)
    requires SysInv(s) && IsNode(k) && s.nodes[k].slave.slot > 0
    ensures s.master.at == Await(k) && s.nodes[k].slave.slot <= s.master.tAlloc[k]
  {
    assert NodeInv(s.nodes[k], StageOf(s.master, k));
    assert SI.Working(s.nodes[k].slave.cd);
  }

  // ----- lockstep -----

  function One(b: bool): nat { if b then 1 else 0 }

  /** On every socket pair, in every reachable state, exactly one of four things exists: a
      message to the master, a message to the slave, the master's turn to send, the slave's
      turn to send. No socket is ever used out of turn, and whatever a slave receives as a
      grant parses. */
  lemma Lockstep(r: Trace, t: nat, k: nat)
    requires IsTrace(r) && t < |r.states| && IsNode(k)
    ensures |r.states[t].nodes| == NODES
    ensures var l := r.states[t].nodes[k].link;
            && !l.failed
            && |l.toMaster| + |l.toSlave| + One(l.req == MaySend) + One(l.rep == MaySend) == 1
            && (r.states[t].nodes[k].slave.cd.DRecv? && l.toSlave != [] ==> GrantReadable(l.toSlave[0]))
  {
    hide SI.MutexInv, SI.QueuesInv, SI.ConsumerInv, SI.RoomInv, SI.WakeInv, SI.FlowInv, SI.CountdownInv, GrantText;
    TraceInv(r, t);
    var s := r.states[t];
    assert NodeInv(s.nodes[k], StageOf(s.master, k));
    GrantRoundTrip(k, s.master.tAlloc[k], s.master.priReducer);
  }

  // ----- what a round grants -----

  lemma GrantsOfExclusive(tAlloc: Table, pri: nat, k: nat)
    requires IsNode(pri) && k <= NODES && tAlloc == Exclusive(tAlloc, pri)
    ensures GrantsBelow(tAlloc, k) == if pri < k then [pri] else []
  {
  }

  lemma GrantsOfShared(tAlloc: Table)
    requires tAlloc == Shared(tAlloc)
    ensures GrantsBelow(tAlloc, NODES) == [2, 3, 4, 5, 6, 7, 8, 9]
  {
    assert GrantsBelow(tAlloc, 2) == [];
    assert GrantsBelow(tAlloc, 3) == [2];
    assert GrantsBelow(tAlloc, 4) == [2, 3];
    assert GrantsBelow(tAlloc, 5) == [2, 3, 4];
    assert GrantsBelow(tAlloc, 6) == [2, 3, 4, 5];
    assert GrantsBelow(tAlloc, 7) == [2, 3, 4, 5, 6];
    assert GrantsBelow(tAlloc, 8) == [2, 3, 4, 5, 6, 7];
    assert GrantsBelow(tAlloc, 9) == [2, 3, 4, 5, 6, 7, 8];
  }

  /** When a round ends, exactly the picked node has been sent the whole slot, once, or every
      node has been sent the short one, once, in ascending order. */
  lemma RoundGrants(r: Trace, t: nat)
    requires IsTrace(r) && t < |r.states| && r.states[t].master.at == Serve(10)
    ensures var m := r.states[t].master;
            || (2 <= m.pri <= 9 && m.granted == [m.pri] && m.tAlloc[m.pri] == 2000000
                && forall i :: 1 <= i <= 9 && i != m.pri ==> m.tAlloc[i] == 0)
            || (m.granted == [2, 3, 4, 5, 6, 7, 8, 9] && forall i :: 1 <= i <= 9 ==> m.tAlloc[i] == 50000)
  {
    TraceInv(r, t);
    var m := r.states[t].master;
    if m.tAlloc == Shared(m.tAlloc) {
      GrantsOfShared(m.tAlloc);
    } else {
      GrantsOfExclusive(m.tAlloc, m.pri, NODES);
    }
  }

  // ----- the idle round -----

  /** Every node a short slot, nobody granted yet. */
  predicate IdleRoundBegins(m: MasterState)
  {
    m.at == Serve(2) && (forall i :: 1 <= i <= 9 ==> m.tAlloc[i] == 50000) && m.granted == [] && m.priReducer == 0
  }

  /** The check decides: with no data at all the short slots, with any data the scan. */
  lemma CheckDecides(s: System)
    requires SysInv(s) && s.master.at.Check?
    ensures MasterEnabled(s)
    ensures IdleRoundBegins(MasterNext(s).master) <==> forall i :: 1 <= i <= 9 ==> s.master.p[i] == 0
    ensures MasterNext(s).master.at.Scan? <==> exists i :: 1 <= i <= 9 && s.master.p[i] != 0
  {
    if i :| 1 <= i <= 9 && s.master.p[i] != 0 {
      assert Busy(s.master.p);
    }
  }

  lemma IdleStep(s: System, a: Action)
    requires SysInv(s) && CanAct(s, a)
    requires if InRound(s.master) then s.master.tAlloc == Shared(s.master.tAlloc)
             else a.MasterStep? && s.master.at.Check? && forall i :: 1 <= i <= 9 ==> s.master.p[i] == 0
    requires InRound(StepSystem(s, a).master)
    ensures StepSystem(s, a).master.tAlloc == Shared(StepSystem(s, a).master.tAlloc)
  {
    if SlaveAction(a) {
      assert StepSystem(s, a).master == s.master;
    }
  }

  /** The round that begins so gives every node the short slot to its end, and has then sent a
      grant to each of 2 to 9, once, in order. */
  lemma IdleRound(r: Trace, t: nat, u: nat)
    requires IsTrace(r) && t < u < |r.states| && r.states[t].master.at.Check? && r.actions[t].MasterStep?
    requires forall i :: 1 <= i <= 9 ==> r.states[t].master.p[i] == 0
    requires forall v :: t < v <= u ==> InRound(r.states[v].master)
    ensures forall i :: 1 <= i <= 9 ==> r.states[u].master.tAlloc[i] == 50000
    ensures r.states[u].master.at == Serve(10) ==> r.states[u].master.granted == [2, 3, 4, 5, 6, 7, 8, 9]
  {
    hide NodeInv;
    IdleStays(r, t, u);
    TraceInv(r, u);
    GrantsOfShared(r.states[u].master.tAlloc);
  }

  lemma {:induction false} IdleStays(r: Trace, t: nat, u: nat)
    requires IsTrace(r) && t < u < |r.states| && r.states[t].master.at.Check? && r.actions[t].MasterStep?
    requires forall i :: 1 <= i <= 9 ==> r.states[t].master.p[i] == 0
    requires forall v :: t < v <= u ==> InRound(r.states[v].master)
    ensures r.states[u].master.tAlloc == Shared(r.states[u].master.tAlloc)
    decreases u
  {
    hide SysInv, StepSystem, Shared;
    if u == t + 1 {
    } else {
      IdleStays(r, t, u - 1);
    }
    TraceInv(r, u - 1);
    assert ActionAt(r, u - 1);
    IdleStep(r.states[u - 1], r.actions[u - 1]);
  }

  // ----- what a grant tells -----

  /** A busy round favours the last node whose reducer runs the leading job, if that job has begun
      and is not finished; an idle one favours nobody. */
  lemma FavouredReducer(s: System)
    requires SysInv(s) && (s.master.at.Allocate? || (s.master.at.Check? && !Busy(s.master.p)))
    ensures var m, m' := s.master, MasterNext(s).master;
            && m'.priReducer <= 9
            && (m'.priReducer > 0 ==>
                  m.at.Allocate? && m.job != 0 && m.progress < 100 && m.reducer[m'.priReducer] == m.job)
            && (m.at.Allocate? && m.job != 0 && m.progress < 100 ==>
                  forall i :: m'.priReducer < i <= 9 ==> m.reducer[i] != m.job)
  {
    var m, m' := s.master, MasterNext(s).master;
    forall i | m.at.Allocate? && m.job != 0 && m.progress < 100 && m'.priReducer < i <= 9
      ensures m.reducer[i] != m.job
    {
      assert !Favoured(m.reducer, m.job, m.progress, i);
    }
  }

  /** What is on its way to the awaited node reads as its slot and the favoured reducer. */
  lemma GrantTells(r: Trace, t: nat, k: nat)
    requires IsTrace(r) && t < |r.states| && |r.states[t].nodes| == NODES
    requires IsNode(k) && r.states[t].master.at == Await(k)
    requires r.states[t].nodes[k].link.toSlave != []
    ensures var m, f := r.states[t].master, GrantFields(r.states[t].nodes[k].link.toSlave[0]);
            |f| == 3 && f[1] == m.tAlloc[k] && f[2] == m.priReducer
  {
    hide SI.Inv, GrantText, GrantFields;
    TraceInv(r, t);
    var s := r.states[t];
    assert NodeInv(s.nodes[k], StageOf(s.master, k));
    GrantRoundTrip(k, s.master.tAlloc[k], s.master.priReducer);
  }

  // ----- bounded waiting -----

  /** How many busy rounds, this one included if its pick is still open, go by at most until
      node j is picked. */
  function Turns(m: MasterState, j: nat): int
  {
    if m.at.Scan? || m.at.Allocate? then
      if m.pri == 1 then j - 1 else if m.pri <= j then j - m.pri + 1 else j - m.pri + 9
    else if m.pri == 0 then j - 1
    else Ahead(m.pri, j)
  }

  /** The action that fixes a busy round's allocation. */
  predicate Picks(m: MasterState, a: Action) { a.MasterStep? && m.at.Allocate? }

  lemma TurnsRange(m: MasterState, j: nat)
    requires TablesInv(m) && IsNode(j)
    ensures 1 <= Turns(m, j) <= 8
  {
  }

  lemma TurnsStep(s: System, a: Action, j: nat)
    requires SysInv(s) && CanAct(s, a) && IsNode(j) && s.master.p[j] > 0
    requires !(Picks(s.master, a) && s.master.pri == j)
    ensures Turns(StepSystem(s, a).master, j) + One(Picks(s.master, a)) <= Turns(s.master, j)
  {
    if SlaveAction(a) {
      assert StepSystem(s, a).master == s.master;
    }
  }

  /** Busy rounds decided between two moments of a run. */
  function BusyRounds(r: Trace, lo: nat, hi: nat): nat
    requires lo <= hi <= |r.actions| && |r.states| == |r.actions| + 1
  {
    if lo == hi then 0
    else BusyRounds(r, lo, hi - 1) + One(Picks(r.states[hi - 1].master, r.actions[hi - 1]))
  }

  lemma TurnsAt(r: Trace, j: nat, t: nat)
    requires IsTrace(r) && t < |r.actions| && IsNode(j) && r.states[t].master.p[j] > 0
    requires !(Picks(r.states[t].master, r.actions[t]) && r.states[t].master.pri == j)
    ensures Turns(r.states[t + 1].master, j) + One(Picks(r.states[t].master, r.actions[t]))
         <= Turns(r.states[t].master, j)
  {
    TraceInv(r, t);
    assert ActionAt(r, t);
    TurnsStep(r.states[t], r.actions[t], j);
  }

  lemma {:induction false} TurnsOver(r: Trace, j: nat, lo: nat, hi: nat)
    requires IsTrace(r) && lo <= hi <= |r.actions| && IsNode(j)
    requires forall t :: lo <= t < hi ==> r.states[t].master.p[j] > 0
    requires forall t :: lo <= t < hi ==> !(Picks(r.states[t].master, r.actions[t]) && r.states[t].master.pri == j)
    ensures BusyRounds(r, lo, hi) + Turns(r.states[hi].master, j) <= Turns(r.states[lo].master, j)
    decreases hi
  {
    if lo == hi {
    } else {
      TurnsOver(r, j, lo, hi - 1);
      TurnsAt(r, j, hi - 1);
    }
  }

  /** A node whose reported backlog stays positive is picked in one of any eight busy rounds,
      although reports keep changing the table, even during the scan. */
  lemma BoundedWaiting(r: Trace, j: nat, lo: nat, hi: nat)
    requires IsTrace(r) && lo <= hi <= |r.actions| && IsNode(j)
    requires forall t :: lo <= t < hi ==> r.states[t].master.p[j] > 0
    requires BusyRounds(r, lo, hi) >= 8
    ensures exists t :: lo <= t < hi && Picks(r.states[t].master, r.actions[t]) && r.states[t].master.pri == j
  {
    if forall t :: lo <= t < hi ==> !(Picks(r.states[t].master, r.actions[t]) && r.states[t].master.pri == j) {
      TurnsOver(r, j, lo, hi);
      TraceInv(r, lo);
      TraceInv(r, hi);
      TurnsRange(r.states[lo].master, j);
      TurnsRange(r.states[hi].master, j);
    }
  }

  /** The round decided for node j: it alone has a slot, and once the round is over it is the one
      node that was sent a grant. */
  predicate RoundOf(m: MasterState, j: nat)
  {
    && IsNode(j) && m.pri == j && m.tAlloc == Exclusive(m.tAlloc, j)
    && (m.at == Serve(10) ==> m.granted == [j])
  }

  predicate InRound(m: MasterState) { m.at.Serve? || m.at.Await? }

  lemma RoundStep(s: System, a: Action, j: nat)
    requires SysInv(s) && CanAct(s, a)
    requires if InRound(s.master) then RoundOf(s.master, j) else Picks(s.master, a) && s.master.pri == j
    requires InRound(StepSystem(s, a).master)
    ensures RoundOf(StepSystem(s, a).master, j)
  {
    SysInvKept(s, a);
    var m := StepSystem(s, a).master;
    if SlaveAction(a) {
      assert m == s.master;
    }
    assert m.tAlloc == Exclusive(m.tAlloc, j);
    GrantsOfExclusive(m.tAlloc, j, NODES);
  }

  lemma {:induction false} RoundGoesOn(r: Trace, j: nat, t: nat, u: nat)
    requires IsTrace(r) && t < u < |r.states| && Picks(r.states[t].master, r.actions[t]) && r.states[t].master.pri == j
    requires forall v :: t < v <= u ==> InRound(r.states[v].master)
    ensures RoundOf(r.states[u].master, j)
    decreases u
  {
    if u == t + 1 {
    } else {
      RoundGoesOn(r, j, t, u - 1);
    }
    TraceInv(r, u - 1);
    assert ActionAt(r, u - 1);
    RoundStep(r.states[u - 1], r.actions[u - 1], j);
  }

  /** Node j is picked at t, and the round that begins there grants to j and to no other node. */
  ghost predicate GrantedFrom(r: Trace, j: nat, t: nat)
    requires IsTrace(r) && t < |r.actions|
  {
    && Picks(r.states[t].master, r.actions[t]) && r.states[t].master.pri == j
    && forall u ::
         t < u < |r.states| && (forall v :: t < v <= u ==> InRound(r.states[v].master))
         ==> RoundOf(r.states[u].master, j)
  }

  /** A node whose reported backlog stays positive is granted the whole slot in one of any eight
      busy rounds, although reports keep changing the table, even during the scan. */
  lemma GrantedWithinEight(r: Trace, j: nat, lo: nat, hi: nat)
    requires IsTrace(r) && lo <= hi <= |r.actions| && IsNode(j)
    requires forall t :: lo <= t < hi ==> r.states[t].master.p[j] > 0
    requires BusyRounds(r, lo, hi) >= 8
    ensures exists t :: lo <= t < hi && GrantedFrom(r, j, t)
  {
    BoundedWaiting(r, j, lo, hi);
    var t :| lo <= t < hi && Picks(r.states[t].master, r.actions[t]) && r.states[t].master.pri == j;
    forall u | t < u < |r.states| && (forall v :: t < v <= u ==> InRound(r.states[v].master))
      ensures RoundOf(r.states[u].master, j)
    {
      RoundGoesOn(r, j, t, u);
    }
    assert GrantedFrom(r, j, t);
  }

  // ----- the scan, when no report disturbs it -----

  /** At candidate c of a scan that began after pick last, no node with data has been passed. */
  predicate NonePassed(p: Table, last: nat, c: nat)
  {
    1 <= c <= 9 && (c == 1 ==> last == 0)
    && forall j :: 2 <= j <= 9 && p[j] > 0 ==> Ahead(last, c) <= Ahead(last, j)
  }

  lemma ScanStep(s: System, a: Action, last: nat, j: nat)
    requires SysInv(s) && CanAct(s, a) && StepSystem(s, a).master.p == s.master.p && PickState(last)
    requires IsNode(j) && s.master.p[j] > 0
    requires var m := s.master;
             if m.at.Check? then m.pri == last else m.at.Scan? && NonePassed(m.p, last, m.pri)
    ensures var m := StepSystem(s, a).master;
            || (m.at.Check? && m.pri == last)
            || (m.at.Scan? && NonePassed(m.p, last, m.pri))
            || (m.at.Allocate? && NextBusy(m.p, last, m.pri))
  {
    if SlaveAction(a) {
      assert StepSystem(s, a).master == s.master;
    }
  }

  lemma ScanAt(r: Trace, t: nat, last: nat, j: nat)
    requires IsTrace(r) && t < |r.actions| && r.states[t + 1].master.p == r.states[t].master.p && PickState(last)
    requires IsNode(j) && r.states[t].master.p[j] > 0
    requires var m := r.states[t].master;
             if m.at.Check? then m.pri == last else m.at.Scan? && NonePassed(m.p, last, m.pri)
    ensures var m := r.states[t + 1].master;
            || (m.at.Check? && m.pri == last)
            || (m.at.Scan? && NonePassed(m.p, last, m.pri))
            || (m.at.Allocate? && NextBusy(m.p, last, m.pri))
  {
    TraceInv(r, t);
    assert ActionAt(r, t);
    ScanStep(r.states[t], r.actions[t], last, j);
  }

  /** The cyclically next node with data: nothing between the last pick and it, going up to 9 and
      on from 2. */
  lemma NextBusyMeans(p: Table, last: nat, to: nat)
    requires PickState(last) && NextBusy(p, last, to)
    ensures p[to] > 0
    ensures last < to ==> forall j :: 2 <= j && last < j < to ==> p[j] <= 0
    ensures to <= last ==> (forall j :: last < j <= 9 ==> p[j] <= 0) && forall j :: 2 <= j < to ==> p[j] <= 0
  {
  }

  /** If the table does not change from the check on, the node picked is the cyclically next one
      with data after the last pick: the scan taken step by step is the loop of Master.Pick. */
  lemma {:induction false} UndisturbedScan(r: Trace, lo: nat, hi: nat, j: nat)
    requires IsTrace(r) && lo <= hi < |r.states| && IsNode(j) && r.states[lo].master.p[j] > 0
    requires r.states[lo].master.at.Check?
    requires forall t :: lo <= t <= hi ==> r.states[t].master.p == r.states[lo].master.p
    requires forall t :: lo <= t < hi ==> !r.states[t].master.at.Allocate?
    ensures var last, m := r.states[lo].master.pri, r.states[hi].master;
            || (m.at.Check? && m.pri == last)
            || (m.at.Scan? && NonePassed(m.p, last, m.pri))
            || (m.at.Allocate? && NextBusy(m.p, last, m.pri))
    ensures r.states[hi].master.at.Allocate? ==>
              var last, m := r.states[lo].master.pri, r.states[hi].master;
              && m.p[m.pri] > 0
              && (last < m.pri ==> forall i :: 2 <= i && last < i < m.pri ==> m.p[i] <= 0)
              && (m.pri <= last ==>
                    (forall i :: last < i <= 9 ==> m.p[i] <= 0) && forall i :: 2 <= i < m.pri ==> m.p[i] <= 0)
    decreases hi
  {
    TraceInv(r, lo);
    if lo == hi {
    } else {
      UndisturbedScan(r, lo, hi - 1, j);
      assert r.states[hi - 1].master.p == r.states[lo].master.p && r.states[hi].master.p == r.states[lo].master.p;
      ScanAt(r, hi - 1, r.states[lo].master.pri, j);
    }
    if r.states[hi].master.at.Allocate? {
      NextBusyMeans(r.states[hi].master.p, r.states[lo].master.pri, r.states[hi].master.pri);
    }
  }

  // ----- the scan, when reports do disturb it -----

  function MasterSteps(r: Trace, lo: nat, hi: nat): nat
    requires lo <= hi <= |r.actions|
  {
    if lo == hi then 0 else MasterSteps(r, lo, hi - 1) + One(r.actions[hi - 1].MasterStep?)
  }

  /** In a scan that stood at candidate c at time lo, the look the scheduler takes at time t, if it
      takes one, finds nothing at its candidate: the one as many places on as it has looked. */
  predicate LookFails(r: Trace, c: nat, lo: nat, t: nat)
    requires 1 <= c <= 9 && lo <= t < |r.actions| && |r.states| == |r.actions| + 1
  {
    var candidate := Candidate(c, MasterSteps(r, lo, t));
    r.actions[t].MasterStep? ==> candidate < NODES && r.states[t].master.p[candidate] <= 0
  }

  lemma LookStep(s: System, a: Action)
    requires SysInv(s) && CanAct(s, a) && s.master.at.Scan?
    ensures var m := StepSystem(s, a).master;
            if !a.MasterStep? then m.at.Scan? && m.pri == s.master.pri
            else if s.master.p[s.master.pri] <= 0 then m.at.Scan? && m.pri == Advance(s.master.pri)
            else m.at.Allocate? && m.pri == s.master.pri
  {
    if SlaveAction(a) {
      assert StepSystem(s, a).master == s.master;
    }
  }

  lemma {:induction false} ScanPlace(r: Trace, lo: nat, hi: nat)
    requires IsTrace(r) && lo <= hi < |r.states|
    requires forall t :: lo <= t <= hi ==> r.states[t].master.at.Scan?
    ensures 1 <= r.states[lo].master.pri <= 9
    ensures r.states[hi].master.pri == Candidate(r.states[lo].master.pri, MasterSteps(r, lo, hi))
    decreases hi
  {
    TraceInv(r, lo);
    if lo == hi {
    } else {
      ScanPlace(r, lo, hi - 1);
      TraceInv(r, hi - 1);
      assert ActionAt(r, hi - 1);
      LookStep(r.states[hi - 1], r.actions[hi - 1]);
    }
  }

  /** A scan goes on exactly as long as every look fails, whatever is reported in between: the
      candidates come round in their order, and each look must find its own candidate's entry
      not positive at that moment. */
  lemma {:induction false} ScanGoesOnIff(r: Trace, lo: nat, hi: nat)
    requires IsTrace(r) && lo <= hi < |r.states| && r.states[lo].master.at.Scan?
    ensures 1 <= r.states[lo].master.pri <= 9
    ensures (forall t :: lo <= t <= hi ==> r.states[t].master.at.Scan?)
       <==> (forall t :: lo <= t < hi ==> LookFails(r, r.states[lo].master.pri, lo, t))
    decreases hi
  {
    TraceInv(r, lo);
    if lo == hi {
    } else {
      ScanGoesOnIff(r, lo, hi - 1);
      if forall t :: lo <= t <= hi - 1 ==> r.states[t].master.at.Scan? {
        ScanPlace(r, lo, hi - 1);
        TraceInv(r, hi - 1);
        assert ActionAt(r, hi - 1);
        LookStep(r.states[hi - 1], r.actions[hi - 1]);
        assert LookFails(r, r.states[lo].master.pri, lo, hi - 1) <==> r.states[hi].master.at.Scan?;
      }
    }
  }

  /** Before the n-th action of the scheduler since lo there is one that n - 1 precede. */
  lemma {:induction false} StepNumber(r: Trace, lo: nat, hi: nat, n: nat) returns (t: nat)
    requires lo <= hi <= |r.actions| && n < MasterSteps(r, lo, hi)
    ensures lo <= t < hi && r.actions[t].MasterStep? && MasterSteps(r, lo, t) == n
    decreases hi
  {
    if n == MasterSteps(r, lo, hi - 1) {
      t := hi - 1;
    } else {
      t := StepNumber(r, lo, hi - 1, n);
    }
  }

  /** While it goes on and node j's entry stays positive it takes at most eight looks: the ninth
      at the latest is at node j. */
  lemma NineLooks(r: Trace, j: nat, lo: nat, hi: nat)
    requires IsTrace(r) && lo <= hi <= |r.actions| && IsNode(j)
    requires forall t :: lo <= t <= hi ==> r.states[t].master.at.Scan?
    requires forall t :: lo <= t < hi ==> r.states[t].master.p[j] > 0
    ensures MasterSteps(r, lo, hi) < 9
  {
    TraceInv(r, lo);
    var c := r.states[lo].master.pri;
    var n := if c <= j then j - c else j - c + 8;
    CandidateReaches(c, j);
    if MasterSteps(r, lo, hi) > n {
      var t := StepNumber(r, lo, hi, n);
      assert !LookFails(r, c, lo, t);
    }
    ScanGoesOnIff(r, lo, hi);
  }

  /** So while some node's entry stays positive the scan takes at most nine actions of the
      scheduler, whatever else is reported meanwhile, and the ninth ends it with a pick. */
  lemma ScanIsShort(r: Trace, j: nat, lo: nat, hi: nat)
    requires IsTrace(r) && lo <= hi <= |r.actions| && IsNode(j)
    requires r.states[lo].master.at.Scan?
    requires forall t :: lo <= t < hi ==> r.states[t].master.at.Scan? && r.states[t].master.p[j] > 0
    ensures MasterSteps(r, lo, hi) <= 9
    ensures r.states[hi].master.at.Allocate? || (r.states[hi].master.at.Scan? && MasterSteps(r, lo, hi) < 9)
  {
    if r.states[hi].master.at.Scan? {
      NineLooks(r, j, lo, hi);
    } else {
      NineLooks(r, j, lo, hi - 1);
      TraceInv(r, hi - 1);
      assert ActionAt(r, hi - 1);
      LookStep(r.states[hi - 1], r.actions[hi - 1]);
    }
  }

  // ----- the stall -----

  /** The scan is looking for data and there is none. */
  predicate Stalled(m: MasterState)
  {
    m.at.Scan? && forall i :: 1 <= i < NODES ==> m.p[i] <= 0
  }

  /** The busy check passes on node k alone, and k reports that it has nothing left before the
      scan looks at its entry. */
  lemma StallBegins(s: System, k: nat, reduce: int, speeds: seq<int>)
    requires SysInv(s) && s.master.at.Check? && IsNode(k) && s.master.p[k] > 0
    requires forall i :: 1 <= i < NODES && i != k ==> s.master.p[i] == 0
    ensures CanAct(s, MasterStep)
    ensures var t := StepSystem(s, MasterStep);
            Shaped(t) && CanAct(t, Report(k, 0, reduce, speeds))
            && Stalled(StepSystem(t, Report(k, 0, reduce, speeds)).master)
  {
    SysInvKept(s, MasterStep);
    assert Busy(s.master.p);
  }

  predicate ReportsData(a: Action) { a.Report? && a.size > 0 }

  /** Only a report of data fills the table again (it need not end the scan: see ScanWithoutEnd). */
  lemma StallEndsIff(s: System, a: Action)
    requires SysInv(s) && CanAct(s, a) && Stalled(s.master)
    ensures Stalled(StepSystem(s, a).master) <==> !ReportsData(a)
  {
    if SlaveAction(a) {
      assert StepSystem(s, a).master == s.master;
    } else if ReportsData(a) {
      assert StepSystem(s, a).master.p[a.k] > 0;
    }
  }

  lemma StallAt(r: Trace, t: nat)
    requires IsTrace(r) && t < |r.actions| && Stalled(r.states[t].master)
    ensures Stalled(r.states[t + 1].master) <==> !ReportsData(r.actions[t])
  {
    TraceInv(r, t);
    assert ActionAt(r, t);
    StallEndsIff(r.states[t], r.actions[t]);
  }

  /** A stalled scheduler stays so until some node reports data, however long that takes and
      whatever the slaves do; until then no node is polled: every slave keeps waiting for a
      grant, with nothing in flight and no slot. */
  lemma {:induction false} StallPersists(r: Trace, lo: nat, hi: nat, k: nat)
    requires IsTrace(r) && lo <= hi < |r.states| && IsNode(k)
    requires Stalled(r.states[lo].master) && forall t :: lo <= t < hi ==> !ReportsData(r.actions[t])
    ensures Stalled(r.states[hi].master)
    ensures |r.states[hi].nodes| == NODES
    ensures var n := r.states[hi].nodes[k]; n.slave.cd.DRecv? && MasterTurn(n.link) && n.slave.slot <= 0
    decreases hi
  {
    if lo == hi {
    } else {
      StallPersists(r, lo, hi - 1, k);
      StallAt(r, hi - 1);
    }
    TraceInv(r, hi);
    var s := r.states[hi];
    assert NodeInv(s.nodes[k], StageOf(s.master, k));
    if s.nodes[k].slave.slot > 0 {
      HolderIsAwaited(s, k);
    }
  }

  // ----- a run into the stall -----

  function End(r: Trace): System
    requires |r.states| > 0
  {
    r.states[|r.states| - 1]
  }

  lemma Grow(r: Trace, a: Action) returns (r': Trace)
    requires IsTrace(r) && Shaped(End(r)) && CanAct(End(r), a)
    ensures IsTrace(r') && End(r') == StepSystem(End(r), a) && SysInv(End(r'))
    ensures r'.states == r.states + [End(r')] && r'.actions == r.actions + [a]
  {
    r' := Trace(r.states + [StepSystem(End(r), a)], r.actions + [a]);
    forall t: nat | t < |r'.actions| ensures ActionAt(r', t) {
      if t < |r.actions| {
        assert ActionAt(r, t);
      }
    }
    TraceInv(r', |r'.actions|);
  }

  /** r' continues r. */
  ghost predicate Extends(r: Trace, r': Trace)
  {
    IsTrace(r) && IsTrace(r') && r.states <= r'.states && r.actions <= r'.actions && SysInv(End(r'))
  }

  predicate Handshaking(at: Control) { at.Greet? || at.Reply? || at.Confirm? }

  /** The slave the scheduler has reached in the handshake does what the scheduler waits for. */
  lemma PartnerReady(r: Trace) returns (r': Trace)
    requires Extends(r, r) && Handshaking(End(r).master.at)
    ensures Extends(r, r') && End(r').master == End(r).master && MasterEnabled(End(r'))
  {
    hide SI.Inv;
    var m := End(r).master;
    if m.at.Confirm? {
      r' := AnswerRead(r);
      var k := m.at.k;
      assert NodeInv(End(r').nodes[k], StageOf(m, k));
      if End(r').nodes[k].slave.cd.DHello2? {
        r' := Grow(r', Hello2(k));
      }
    } else {
      r' := r;
      if m.at.Greet? {
        var k := m.at.k;
        assert NodeInv(End(r').nodes[k], StageOf(m, k));
        if End(r').nodes[k].slave.cd.DHello? {
          r' := Grow(r', Hello(k));
        }
      }
    }
  }

  /** ... having read the answer to its first hello. */
  lemma AnswerRead(r: Trace) returns (r': Trace)
    requires Extends(r, r) && End(r).master.at.Confirm?
    ensures Extends(r, r') && End(r').master == End(r).master
    ensures !End(r').nodes[End(r).master.at.k].slave.cd.DReply?
  {
    hide SI.Inv;
    r' := r;
    var k := End(r).master.at.k;
    assert NodeInv(End(r).nodes[k], StageOf(End(r).master, k));
    if End(r).nodes[k].slave.cd.DReply? {
      r' := Grow(r, HelloReply(k));
    }
  }

  // ----- no deadlock -----

  /** What node k can do towards its ack: receive the grant, count down, acknowledge; and if the
      countdown waits for the mutex, the thread that holds it goes on. */
  function TowardsAck(n: Node, k: nat): Action
  {
    var s := n.slave;
    if s.cd.DRecv? then Grant(k)
    else if s.cd.DAck? then Ack(k)
    else if s.cd.DLock? && s.mutex == ByProducer then Local(k, ProdStep)
    else if s.cd.DLock? && s.mutex == ByConsumer then Local(k, ConsStep)
    else Local(k, CdStep)
  }

  /** While the master awaits node k, either the ack is there or node k has an action to take. */
  lemma AwaitedCanAct(s: System, k: nat)
    requires SysInv(s) && s.master.at == Await(k)
    ensures MasterEnabled(s) || CanAct(s, TowardsAck(s.nodes[k], k))
  {
    hide SI.QueuesInv, SI.ConsumerInv, SI.RoomInv, SI.WakeInv, SI.FlowInv, SI.CountdownInv, GrantText, GrantFields;
    var n := s.nodes[k];
    assert NodeInv(n, StageOf(s.master, k));
    GrantRoundTrip(k, s.master.tAlloc[k], s.master.priReducer);
    if n.slave.cd.DLock? && n.slave.mutex != Free {
      ST.HolderMoves(n.slave);
    }
  }

  /** Stage of the exchange with the awaited node: grant in flight, being served, acknowledged. */
  function Unserved(l: Link): nat
  {
    if l.toSlave != [] then 2 else if l.toMaster == [] then 1 else 0
  }

  /** Each such action brings the ack nearer. */
  lemma NearerAck(s: System, k: nat)
    requires SysInv(s) && s.master.at == Await(k) && !MasterEnabled(s) && CanAct(s, TowardsAck(s.nodes[k], k))
    ensures var t := StepSystem(s, TowardsAck(s.nodes[k], k));
            && t.master == s.master && |t.nodes| == NODES
            && Nearer(s.nodes[k], t.nodes[k])
  {
    hide SI.MutexInv, SI.QueuesInv, SI.ConsumerInv, SI.RoomInv, SI.WakeInv, SI.FlowInv, SI.CountdownInv;
    hide GrantText, GrantFields, ST.Measure, ST.HolderLeft, Next;
    var n := s.nodes[k];
    assert NodeInv(n, StageOf(s.master, k));
    var a := TowardsAck(n, k);
    SlaveMoves(s, a);
    if a.Local? {
      LocalNearer(n.slave, a.e);
    }
  }

  predicate Nearer(n: Node, n': Node)
  {
    || Unserved(n'.link) < Unserved(n.link)
    || (n'.link == n.link && 0 <= ST.Measure(n'.slave) < ST.Measure(n.slave))
    || (n'.link == n.link && ST.Measure(n'.slave) == ST.Measure(n.slave) >= 0
        && ST.HolderLeft(n'.slave) < ST.HolderLeft(n.slave))
  }

  lemma LocalNearer(s: Slave, e: Event)
    requires SI.Inv(s) && Enabled(s, e)
    requires e.CdStep? || (e.ProdStep? && s.mutex == ByProducer) || (e.ConsStep? && s.mutex == ByConsumer)
    requires !e.CdStep? ==> s.cd.DLock?
    ensures || 0 <= ST.Measure(Next(s, e)) < ST.Measure(s)
            || (ST.Measure(Next(s, e)) == ST.Measure(s) >= 0 && ST.HolderLeft(Next(s, e)) < ST.HolderLeft(s))
  {
    hide ST.Measure, ST.HolderLeft, SI.CountdownInv;
    if e.CdStep? {
      ST.MeasureFalls(s);
    } else {
      ST.HolderMoves(s);
    }
  }

  lemma AckNearer(r: Trace) returns (r': Trace)
    requires Extends(r, r) && End(r).master.at.Await? && !MasterEnabled(End(r))
    ensures Extends(r, r') && End(r').master == End(r).master
    ensures Nearer(End(r).nodes[End(r).master.at.k], End(r').nodes[End(r).master.at.k])
  {
    hide NodeInv, RoundInv, TablesInv, Nearer, TowardsAck, StepSystem, Unserved;
    var s := End(r);
    var k := s.master.at.k;
    AwaitedCanAct(s, k);
    NearerAck(s, k);
    r' := Grow(r, TowardsAck(s.nodes[k], k));
  }

  lemma {:induction false} AckArrives(r: Trace) returns (r': Trace)
    requires Extends(r, r) && End(r).master.at.Await?
    ensures Extends(r, r') && End(r').master == End(r).master && MasterEnabled(End(r'))
    decreases var n := End(r).nodes[End(r).master.at.k]; Unserved(n.link),
              var n := End(r).nodes[End(r).master.at.k]; ST.Measure(n.slave),
              var n := End(r).nodes[End(r).master.at.k]; ST.HolderLeft(n.slave)
  {
    hide NodeInv, RoundInv, TablesInv, ST.Measure, ST.HolderLeft, Unserved;
    if MasterEnabled(End(r)) {
      r' := r;
    } else {
      r' := AckNearer(r);
      r' := AckArrives(r');
    }
  }

  /** Actions of the scheduler, and reports, until it is back at the top of its loop. */
  function LoopLeft(m: MasterState): int
    requires m.pri < NODES
  {
    match m.at
    case Greet(k) => 26 - k
    case Reply(k) => 18 - k
    case Confirm(k) => 10 - k
    case Start => 0
    case Check => 24
    case Scan => if m.p[m.pri] > 0 then 21 else if m.pri >= 2 then 22 else 23
    case Allocate => 20
    case Serve(k) => 2 * (10 - k) + 1
    case Await(k) => 2 * (10 - k)
  }

  /** One action of the scheduler, when it need not wait and does not look in vain, is one less. */
  lemma LoopStep(s: System)
    requires Shaped(s) && TablesInv(s.master) && MasterEnabled(s) && !Handshaking(s.master.at)
    requires s.master.at.Scan? ==> s.master.p[s.master.pri] > 0 || s.master.pri == 1
    ensures var m := MasterNext(s).master; m.pri < NODES && 0 <= LoopLeft(m) < LoopLeft(s.master)
  {
    hide Exclusive, Shared, LastFavoured, GrantText, Busy;
  }

  lemma HandshakeStep(s: System)
    requires Shaped(s) && MasterEnabled(s) && Handshaking(s.master.at)
    ensures var m := MasterNext(s).master;
            && m.pri == s.master.pri && m.p == s.master.p && (Handshaking(m.at) || m.at.Start?)
            && 0 <= LoopLeft(m) < LoopLeft(s.master)
  {
  }

  lemma ReportHere(r: Trace) returns (r': Trace)
    requires Extends(r, r) && End(r).master.at.Scan? && 2 <= End(r).master.pri <= 9
    requires End(r).master.p[End(r).master.pri] <= 0
    ensures Extends(r, r') && End(r').master.pri == End(r).master.pri
    ensures 0 <= LoopLeft(End(r').master) < LoopLeft(End(r).master)
  {
    hide NodeInv;
    r' := Grow(r, Report(End(r).master.pri, 1, 0, []));
  }

  /** Whatever the scheduler is waiting for comes about, and it takes its next action. */
  lemma SchedulerMoves(r: Trace) returns (r': Trace)
    requires Extends(r, r) && !End(r).master.at.Start?
    requires var m := End(r).master; m.at.Scan? ==> m.p[m.pri] > 0 || m.pri == 1
    ensures Extends(r, r')
    ensures var m, m' := End(r).master, End(r').master;
            && 0 <= LoopLeft(m') < LoopLeft(m)
            && (Handshaking(m.at) ==> (Handshaking(m'.at) || m'.at.Start?) && m'.p == m.p && m'.pri == m.pri)
  {
    hide NodeInv, RoundInv, LoopLeft, MasterNext;
    r' := r;
    if Handshaking(End(r).master.at) {
      r' := PartnerReady(r);
      HandshakeStep(End(r'));
    } else {
      if End(r).master.at.Await? {
        r' := AckArrives(r);
      }
      LoopStep(End(r'));
    }
    r' := Grow(r', MasterStep);
  }

  /** Nothing is ever stuck for good: from every reachable state of the protocol, the middle of the
      handshake, of a scan or of a round included, some continuation brings the scheduler back to
      the top of its loop. Only a scan that finds no data needs a report for that. */
  lemma {:induction false} BackToStart(r: Trace) returns (r': Trace)
    requires IsTrace(r)
    ensures Extends(r, r') && End(r').master.at.Start?
    ensures var m, m' := End(r).master, End(r').master;
            Handshaking(m.at) || m.at.Start? ==> m'.p == m.p && m'.pri == m.pri
    decreases if |r.states| > 0 && End(r).master.pri < NODES then LoopLeft(End(r).master) else 0
  {
    hide NodeInv, RoundInv, LoopLeft;
    TraceInv(r, |r.actions|);
    var m := End(r).master;
    if m.at.Start? {
      r' := r;
    } else {
      if m.at.Scan? && m.p[m.pri] <= 0 && m.pri >= 2 {
        r' := ReportHere(r);
      } else {
        r' := SchedulerMoves(r);
      }
      r' := BackToStart(r');
    }
  }

  /** A round under way can be brought to its end, with the allocation it began with. */
  lemma {:induction false} RoundCanEnd(r: Trace) returns (r': Trace)
    requires Extends(r, r) && InRound(End(r).master)
    ensures Extends(r, r') && End(r').master.at == Serve(10)
    ensures End(r').master.tAlloc == End(r).master.tAlloc && End(r').master.pri == End(r).master.pri
    decreases if |r.states| > 0 && End(r).master.pri < NODES then LoopLeft(End(r).master) else 0
  {
    hide NodeInv, RoundInv, LoopLeft;
    var m := End(r).master;
    if m.at == Serve(10) {
      r' := r;
    } else {
      r' := ServeOn(r);
      r' := RoundCanEnd(r');
    }
  }

  lemma ServeOn(r: Trace) returns (r': Trace)
    requires Extends(r, r) && InRound(End(r).master) && End(r).master.at != Serve(10)
    ensures Extends(r, r')
    ensures var m, m' := End(r).master, End(r').master;
            InRound(m') && m'.tAlloc == m.tAlloc && m'.pri == m.pri < NODES && 0 <= LoopLeft(m') < LoopLeft(m)
  {
    hide NodeInv, RoundInv, LoopLeft, MasterNext;
    r' := r;
    if End(r).master.at.Await? {
      r' := AckArrives(r);
    }
    LoopStep(End(r'));
    ServeStep(End(r'));
    r' := Grow(r', MasterStep);
  }

  lemma ServeStep(s: System)
    requires Shaped(s) && MasterEnabled(s) && InRound(s.master) && s.master.at != Serve(10)
    ensures var m := MasterNext(s).master; InRound(m) && m.tAlloc == s.master.tAlloc && m.pri == s.master.pri
  {
  }

  /** Both kinds of round happen: right after the handshake every node is granted the short slot;
      and once node 2 has reported data, it alone is granted the whole one. */
  lemma RoundsReachable() returns (idle: Trace, busy: Trace)
    ensures IsTrace(idle) && End(idle).master.at == Serve(10) && End(idle).master.granted == [2, 3, 4, 5, 6, 7, 8, 9]
    ensures forall i :: 1 <= i <= 9 ==> End(idle).master.tAlloc[i] == 50000
    ensures IsTrace(busy) && End(busy).master.at == Serve(10) && End(busy).master.granted == [2]
    ensures forall i :: 1 <= i <= 9 ==> End(busy).master.tAlloc[i] == if i == 2 then 2000000 else 0
  {
    idle := IdleRun();
    busy := BusyRun();
  }

  lemma IdleRun() returns (r: Trace)
    ensures IsTrace(r) && End(r).master.at == Serve(10) && End(r).master.granted == [2, 3, 4, 5, 6, 7, 8, 9]
    ensures forall i :: 1 <= i <= 9 ==> End(r).master.tAlloc[i] == 50000
  {
    hide NodeInv;
    r := Trace([InitialSystem()], []);
    InitialSysInv();
    r := BackToStart(r);
    r := Grow(r, ReadJobs(0, 0));
    CheckDecides(End(r));
    r := Grow(r, MasterStep);
    r := RoundCanEnd(r);
    GrantsOfShared(End(r).master.tAlloc);
  }

  lemma BusyRun() returns (r: Trace)
    ensures IsTrace(r) && End(r).master.at == Serve(10) && End(r).master.granted == [2]
    ensures forall i :: 1 <= i <= 9 ==> End(r).master.tAlloc[i] == if i == 2 then 2000000 else 0
  {
    hide NodeInv;
    r := RunToScan();
    LookStep(End(r), MasterStep);
    r := Grow(r, MasterStep);
    assert End(r).master.pri == 2 && End(r).master.at.Scan?;
    LookStep(End(r), MasterStep);
    r := Grow(r, MasterStep);
    r := Grow(r, MasterStep);
    assert End(r).master.tAlloc == Exclusive(End(r).master.tAlloc, 2);
    r := RoundCanEnd(r);
    GrantsOfExclusive(End(r).master.tAlloc, 2, NODES);
  }

  // ----- runs in which the scan does not end -----

  /** After the handshake node 2 reports one unit, and the scheduler finds its check satisfied. */
  lemma RunToScan() returns (r: Trace)
    ensures IsTrace(r) && SysInv(End(r)) && End(r).master.at.Scan? && End(r).master.p == ZeroTable()[2 := 1]
    ensures End(r).master.pri == 1
  {
    r := Trace([InitialSystem()], []);
    InitialSysInv();
    r := BackToStart(r);
    r := Grow(r, ReadJobs(0, 0));
    r := Grow(r, Report(2, 1, 0, []));
    assert End(r).master.p[2] == 1;
    r := Grow(r, MasterStep);
  }

  /** The stall does happen: node 2 then reports nothing. */
  lemma StallReachable() returns (r: Trace)
    ensures IsTrace(r) && Stalled(End(r).master)
  {
    r := RunToScan();
    r := Grow(r, Report(2, 0, 0, []));
  }

  predicate DataOnTable(p: Table)
  {
    exists i :: 2 <= i < NODES && p[i] > 0
  }

  /** Another node reports data, and the node the scan stands at reports none. */
  lemma DataElsewhere(r: Trace) returns (r': Trace)
    requires Extends(r, r) && End(r).master.at.Scan?
    ensures Extends(r, r') && End(r').master.at.Scan? && End(r').master.pri == End(r).master.pri <= 9
    ensures End(r').master.p[End(r').master.pri] <= 0
    ensures forall t :: |r.states| <= t < |r'.states| ==>
              r'.states[t].master.at.Scan? && DataOnTable(r'.states[t].master.p)
    ensures |r'.states| > |r.states| && forall t :: |r.actions| <= t < |r'.actions| ==> !r'.actions[t].MasterStep?
  {
    hide NodeInv, RoundInv;
    var at := End(r).master.pri;
    var other := if at == 9 then 8 else 9;
    r' := Grow(r, Report(other, 1, 0, []));
    assert End(r').master.p[other] > 0;
    if at >= 2 {
      r' := Grow(r', Report(at, 0, 0, []));
      assert End(r').master.p[other] > 0;
    }
  }

  lemma {:induction false} NoSteps(r: Trace, lo: nat, hi: nat)
    requires lo <= hi <= |r.actions| && forall t :: lo <= t < hi ==> !r.actions[t].MasterStep?
    ensures MasterSteps(r, lo, hi) == 0
    decreases hi
  {
    if lo == hi {
    } else {
      NoSteps(r, lo, hi - 1);
    }
  }

  /** One look in vain, with data on the table all the while. */
  lemma Dodge(r: Trace) returns (r': Trace)
    requires Extends(r, r) && End(r).master.at.Scan?
    ensures Extends(r, r') && End(r').master.at.Scan?
    ensures forall t :: |r.states| <= t < |r'.states| ==>
              r'.states[t].master.at.Scan? && DataOnTable(r'.states[t].master.p)
    ensures MasterSteps(r', |r.actions|, |r'.actions|) == 1
  {
    hide NodeInv, RoundInv, TablesInv, DataOnTable;
    var q := DataElsewhere(r);
    LookStep(End(q), MasterStep);
    assert MasterNext(End(q)).master.p == End(q).master.p;
    r' := Grow(q, MasterStep);
    NoSteps(q, |r.actions|, |q.actions|);
    StepsConcat(q, r', |r.actions|, |q.actions|, |r'.actions|);
  }

  lemma {:induction false} StepsConcat(r: Trace, r': Trace, lo: nat, mid: nat, hi: nat)
    requires r.actions <= r'.actions && lo <= mid <= |r.actions| && mid <= hi <= |r'.actions|
    ensures MasterSteps(r', lo, hi) == MasterSteps(r, lo, mid) + MasterSteps(r', mid, hi)
    decreases hi - lo
  {
    if hi > mid {
      StepsConcat(r, r', lo, mid, hi - 1);
    } else if lo < mid {
      StepsConcat(r, r', lo, mid - 1, hi - 1);
    }
  }

  /** Data on the table does not end a scan: from wherever a reachable scan stands, some
      continuation looks n times in vain, for any n, although in every state of it some node has
      data. */
  lemma {:induction false} ScanWithoutEnd(r: Trace, n: nat) returns (r': Trace)
    requires IsTrace(r) && End(r).master.at.Scan?
    ensures Extends(r, r')
    ensures forall t :: |r.states| <= t < |r'.states| ==>
              r'.states[t].master.at.Scan? && DataOnTable(r'.states[t].master.p)
    ensures MasterSteps(r', |r.actions|, |r'.actions|) == n
  {
    TraceInv(r, |r.actions|);
    if n == 0 {
      r' := r;
    } else {
      var q := ScanWithoutEnd(r, n - 1);
      r' := Dodge(q);
      StepsConcat(q, r', |r.actions|, |q.actions|, |r'.actions|);
    }
  }

  // ----- silence without a grant -----

  /** Only its own actions change a slave. */
  lemma SlaveUntouched(s: System, a: Action, k: nat)
    requires Shaped(s) && CanAct(s, a) && IsNode(k) && !(SlaveAction(a) && a.k == k)
    ensures |StepSystem(s, a).nodes| == NODES && StepSystem(s, a).nodes[k].slave == s.nodes[k].slave
  {
  }

  lemma SlaveMoves(s: System, a: Action)
    requires Shaped(s) && CanAct(s, a) && SlaveAction(a)
    ensures StepSystem(s, a).nodes[a.k].slave == Next(s.nodes[a.k].slave, SlaveEvent(s, a))
  {
  }

  lemma SilentStep(s: System, a: Action, k: nat)
    requires Shaped(s) && CanAct(s, a) && IsNode(k) && s.nodes[k].slave.slot <= 0
    ensures |StepSystem(s, a).nodes| == NODES
    ensures ST.Pressure(StepSystem(s, a).nodes[k].slave) <= ST.Pressure(s.nodes[k].slave)
  {
    if SlaveAction(a) && a.k == k {
      SlaveMoves(s, a);
      ST.OvershootStep(s.nodes[k].slave, SlaveEvent(s, a));
    } else {
      SlaveUntouched(s, a, k);
    }
  }

  lemma SilentAt(r: Trace, k: nat, t: nat)
    requires IsTrace(r) && t < |r.actions| && IsNode(k) && r.states[t].master.at != Await(k)
    ensures |r.states[t].nodes| == |r.states[t + 1].nodes| == NODES
    ensures ST.Pressure(r.states[t + 1].nodes[k].slave) <= ST.Pressure(r.states[t].nodes[k].slave)
  {
    TraceInv(r, t);
    TraceInv(r, t + 1);
    assert ActionAt(r, t);
    if r.states[t].nodes[k].slave.slot > 0 {
      HolderIsAwaited(r.states[t], k);
    }
    SilentStep(r.states[t], r.actions[t], k);
  }

  /** During any stretch in which the master is not waiting for node k, node k writes at most
      one of its queued packets; and none if its consumer was not already past the slot test. */
  lemma {:induction false} SilentWithoutGrant(r: Trace, k: nat, lo: nat, hi: nat)
    requires IsTrace(r) && lo <= hi < |r.states| && IsNode(k)
    requires forall t :: lo <= t < hi ==> r.states[t].master.at != Await(k)
    ensures |r.states[lo].nodes| == |r.states[hi].nodes| == NODES
    ensures ST.Pressure(r.states[hi].nodes[k].slave) <= ST.Pressure(r.states[lo].nodes[k].slave)
    ensures ST.Writes(r.states[hi].nodes[k].slave.out)
         <= ST.Writes(r.states[lo].nodes[k].slave.out) + One(ST.PastTest(r.states[lo].nodes[k].slave.cons))
    decreases hi
  {
    TraceInv(r, lo);
    if lo == hi {
    } else {
      SilentWithoutGrant(r, k, lo, hi - 1);
      SilentAt(r, k, hi - 1);
    }
  }

  // ----- every slave of the system runs the slave machine -----

  /** The actions of node k's slave, in order, up to time t. */
  ghost function Projection(r: Trace, k: nat, t: nat): Run
    requires IsTrace(r) && t < |r.states| && IsNode(k)
    decreases t
  {
    if t == 0 then Run([Initial()], [])
    else
      var q := Projection(r, k, t - 1);
      assert ActionAt(r, t - 1);
      var a := r.actions[t - 1];
      if SlaveAction(a) && a.k == k then
        Run(q.states + [r.states[t].nodes[k].slave], q.events + [SlaveEvent(r.states[t - 1], a)])
      else q
  }

  /** It is a run of the machine of SlaveModel that ends in node k's present state; so every
      theorem about those runs holds of every slave in every run of the protocol. */
  lemma {:induction false} ProjectionIsRun(r: Trace, k: nat, t: nat)
    requires IsTrace(r) && t < |r.states| && IsNode(k)
    ensures IsRun(Projection(r, k, t))
    ensures |r.states[t].nodes| == NODES
    ensures var q := Projection(r, k, t); q.states[|q.events|] == r.states[t].nodes[k].slave
    decreases t
  {
    if t == 0 {
    } else {
      ProjectionIsRun(r, k, t - 1);
      assert ActionAt(r, t - 1);
      var q, s, a := Projection(r, k, t - 1), r.states[t - 1], r.actions[t - 1];
      if SlaveAction(a) && a.k == k {
        SlaveMoves(s, a);
        ST.RunExtends(q, SlaveEvent(s, a));
      } else {
        SlaveUntouched(s, a, k);
      }
    }
  }
}
