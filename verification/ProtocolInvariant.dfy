/** Every action of the protocol keeps its invariant. */
module ProtocolInvariant {
  import opened Reports
  import opened Scheduler
  import opened SlaveModel
  import opened Protocol
  import SI = SlaveInvariants

  lemma InitialSysInv()
    ensures SysInv(InitialSystem())
  {
    SI.InitialInv();
  }

  // ----- the slave's side -----

  lemma LocalKeepsLink(n: Node, e: Event, stage: Stage)
    requires SI.Inv(n.slave) && Enabled(n.slave, e) && LocalEvent(e) && LinkInv(n, stage)
    ensures LinkInv(Node(Next(n.slave, e), n.link), stage)
  {
    hide SI.MutexInv, SI.QueuesInv, SI.ConsumerInv, SI.RoomInv, SI.WakeInv, SI.FlowInv, SI.CountdownInv;
    match e {
      case CdStep => LocalCd(n, stage);
      case ConsStep => SI.CountdownAlone(n.slave, e);
      case ProdStep => SI.CountdownAlone(n.slave, e);
      case _ =>
    }
  }

  lemma LocalCd(n: Node, stage: Stage)
    requires WellFormed(n.slave) && CdEnabled(n.slave) && LinkInv(n, stage)
    ensures LinkInv(Node(CdNext(n.slave), n.link), stage)
  {
  }

  lemma GrantKeepsLink(n: Node, stage: Stage)
    requires WellFormed(n.slave) && n.slave.cd.DRecv? && n.link.toSlave != [] && LinkInv(n, stage)
    requires stage.Granted? ==> |GrantFields(stage.text)| >= 2 && GrantFields(stage.text)[1] == stage.v
    ensures stage.Granted? && GrantReadable(n.link.toSlave[0]) && SlaveCanReceive(n.link)
    ensures LinkInv(Node(Next(n.slave, GetGrant(GrantFields(n.link.toSlave[0])[1])), SlaveReceives(n.link)), stage)
  {
  }

  lemma TalkKeepsLink(n: Node, a: Action, e: Event, stage: Stage)
    requires WellFormed(n.slave) && Enabled(n.slave, e) && LinkInv(n, stage)
    requires (a.Hello? && e.SendHello?) || (a.HelloReply? && e.GetReply? && SlaveCanReceive(n.link))
          || (a.Hello2? && e.SendHello2?) || (a.Ack? && e.SendAck?)
    ensures LinkInv(Node(Next(n.slave, e), SlaveLink(n.link, a)), stage)
  {
  }

  predicate SlaveAction(a: Action) { !a.MasterStep? && !a.ReadJobs? && !a.Report? }

  lemma SlaveKeepsNode(s: System, a: Action)
    requires SysInv(s) && CanAct(s, a) && SlaveAction(a)
    ensures NodeInv(StepSystem(s, a).nodes[a.k], StageOf(s.master, a.k))
  {
    hide SI.MutexInv, SI.QueuesInv, SI.ConsumerInv, SI.RoomInv, SI.WakeInv, SI.FlowInv, SI.CountdownInv;
    var n, e, stage := s.nodes[a.k], SlaveEvent(s, a), StageOf(s.master, a.k);
    assert NodeInv(n, stage);
    SI.InvKept(n.slave, e);
    match a {
      case Local(k, e) => LocalKeepsLink(n, e, stage);
      case Grant(k) =>
        GrantRoundTrip(k, s.master.tAlloc[k], s.master.priReducer);
        GrantKeepsLink(n, stage);
      case _ => TalkKeepsLink(n, a, e, stage);
    }
  }

  lemma SlaveKeeps(s: System, a: Action)
    requires SysInv(s) && CanAct(s, a) && SlaveAction(a)
    ensures SysInv(StepSystem(s, a))
  {
    SlaveKeepsNode(s, a);
    var t := StepSystem(s, a);
    assert t.master == s.master;
    forall k | 2 <= k <= 9 ensures NodeInv(t.nodes[k], StageOf(t.master, k)) {
      assert NodeInv(s.nodes[k], StageOf(s.master, k));
      assert k != a.k ==> t.nodes[k] == s.nodes[k];
    }
  }

  // ----- the master's side -----

  /** The node a master action talks to, or 0. */
  function Partner(m: MasterState): nat
  {
    match m.at
    case Greet(k) => k
    case Reply(k) => k
    case Confirm(k) => k
    case Await(k) => k
    case Serve(k) => if k <= 9 && m.tAlloc[k] != 0 then k else 0
    case _ => 0
  }

  /** A master action changes the stage of its partner only, and the link of its partner only. */
  lemma OthersUntouched(s: System, k: nat)
    requires Shaped(s) && MasterEnabled(s) && IsNode(k) && k != Partner(s.master)
    ensures MasterNext(s).nodes[k] == s.nodes[k]
    ensures StageOf(MasterNext(s).master, k) == StageOf(s.master, k)
  {
  }

  lemma PartnerLink(s: System, k: nat)
    requires Shaped(s) && MasterEnabled(s) && IsNode(k) && k == Partner(s.master)
    requires LinkInv(s.nodes[k], StageOf(s.master, k))
    ensures MasterNext(s).nodes[k].slave == s.nodes[k].slave
    ensures LinkInv(MasterNext(s).nodes[k], StageOf(MasterNext(s).master, k))
  {
    var n, m := s.nodes[k], s.master;
    match m.at {
      case Greet(_) => assert StageOf(m, k) == Unmet && StageOf(MasterNext(s).master, k) == Met;
      case Reply(_) => assert StageOf(m, k) == Met && StageOf(MasterNext(s).master, k) == Answered;
      case Confirm(_) => assert StageOf(m, k) == Answered && StageOf(MasterNext(s).master, k) == Idle;
      case Serve(_) => assert StageOf(m, k) == Idle && StageOf(MasterNext(s).master, k).Granted?;
      case Await(_) => assert StageOf(m, k).Granted? && StageOf(MasterNext(s).master, k) == Idle;
    }
  }

  lemma MasterTables(s: System)
    requires Shaped(s) && TablesInv(s.master) && RoundInv(s.master) && MasterEnabled(s)
    ensures TablesInv(MasterNext(s).master) && RoundInv(MasterNext(s).master)
  {
    var m := s.master;
    match m.at {
      case Check =>
        if !Busy(m.p) { assert Shared(Shared(m.tAlloc)) == Shared(m.tAlloc); }
      case Allocate => assert Exclusive(Exclusive(m.tAlloc, m.pri), m.pri) == Exclusive(m.tAlloc, m.pri);
      case _ =>
    }
  }

  lemma MasterKeeps(s: System)
    requires SysInv(s) && MasterEnabled(s)
    ensures SysInv(MasterNext(s))
  {
    MasterTables(s);
    var t := MasterNext(s);
    forall k | 2 <= k <= 9 ensures NodeInv(t.nodes[k], StageOf(t.master, k)) {
      assert NodeInv(s.nodes[k], StageOf(s.master, k));
      if k == Partner(s.master) { PartnerLink(s, k); } else { OthersUntouched(s, k); }
    }
  }

  lemma TablesKeep(s: System, a: Action)
    requires SysInv(s) && CanAct(s, a) && (a.ReadJobs? || a.Report?)
    ensures SysInv(StepSystem(s, a))
  {
    var t := StepSystem(s, a);
    forall k | 2 <= k <= 9 ensures NodeInv(t.nodes[k], StageOf(t.master, k)) {
      assert NodeInv(s.nodes[k], StageOf(s.master, k));
    }
  }

  lemma SysInvKept(s: System, a: Action)
    requires SysInv(s) && CanAct(s, a)
    ensures SysInv(StepSystem(s, a))
  {
    if SlaveAction(a) {
      SlaveKeeps(s, a);
    } else if a.MasterStep? {
      MasterKeeps(s);
    } else {
      TablesKeep(s, a);
    }
  }

  // ----- runs -----

  datatype Trace = Trace(states: seq<System>, actions: seq<Action>)

  ghost predicate ActionAt(r: Trace, t: nat)
    requires |r.states| == |r.actions| + 1
  {
    && t < |r.actions| && Shaped(r.states[t]) && CanAct(r.states[t], r.actions[t])
    && r.states[t + 1] == StepSystem(r.states[t], r.actions[t])
  }

  ghost predicate IsTrace(r: Trace)
  {
    && |r.states| == |r.actions| + 1
    && r.states[0] == InitialSystem()
    && forall t: nat :: t < |r.actions| ==> ActionAt(r, t)
  }

  lemma {:induction false} TraceInv(r: Trace, t: nat)
    requires IsTrace(r) && t < |r.states|
    ensures SysInv(r.states[t])
  {
    if t == 0 {
      InitialSysInv();
    } else {
      TraceInv(r, t - 1);
      assert ActionAt(r, t - 1);
      SysInvKept(r.states[t - 1], r.actions[t - 1]);
    }
  }
}
