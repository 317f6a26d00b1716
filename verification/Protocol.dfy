/** The polled slot protocol: one master, eight slaves (nodes 2 to 9) and a REQ/REP socket pair
    between the master and each slave, as one machine. The slave part of every node is the whole
    machine of SlaveModel. Sockets do not lose messages; a socket used out of turn fails and
    records it. Reports may arrive, and change the master's tables, between any two actions of
    the scheduler, also in the middle of its scan. */
module Protocol {
  import opened Reports
  import opened Scheduler
  import opened SlaveModel
  import SI = SlaveInvariants

  const ONE := "1"  // hello and ack alike

  /** Which operation the socket allows next (ZeroMQ RFC 28/REQREP). */
  datatype Turn = MaySend | MustReceive

  /** The slave's REQ socket, the master's REP socket, and the messages in flight. */
  datatype Link = Link(req: Turn, rep: Turn, toMaster: seq<string>, toSlave: seq<string>, failed: bool)

  datatype Node = Node(slave: Slave, link: Link)

  /** Where send_config is; k is the node whose socket the straight-line code has reached. */
  datatype Control =
    | Greet(k: nat)      // receive the first hello of node k
    | Reply(k: nat)      // answer it
    | Confirm(k: nat)    // receive the second hello
    | Start              // top of the loop, about to read jobProgress
    | Check              // has any node data?
    | Scan               // while (p[pri] <= 0) ...
    | Allocate
    | Serve(k: nat)      // if (tAlloc[k] != 0) send the grant
    | Await(k: nat)      // receive the ack

  /** granted is what an observer records: the nodes sent a grant in this round. */
  datatype MasterState = MasterState(
    at: Control, p: Table, sp: Table, reducer: Table, tAlloc: Table, pri: nat,
    job: int, progress: int, priReducer: nat, granted: seq<nat>)

  datatype System = System(master: MasterState, nodes: seq<Node>)

  datatype Action =
    | Local(k: nat, e: Event)     // a thread of slave k that does not touch the scheduler socket
    | Hello(k: nat) | HelloReply(k: nat) | Hello2(k: nat) | Grant(k: nat) | Ack(k: nat)   // slave k on its socket
    | MasterStep                  // the scheduler's next action
    | ReadJobs(job: int, progress: int)
    | Report(k: nat, size: nat, reduce: int, speeds: seq<int>)

  // ----- sockets -----

  function FreshLink(): Link { Link(MaySend, MustReceive, [], [], false) }

  function SlaveSends(l: Link, m: string): Link
  {
    if l.req == MaySend then l.(req := MustReceive, toMaster := l.toMaster + [m]) else l.(failed := true)
  }

  function MasterSends(l: Link, m: string): Link
  {
    if l.rep == MaySend then l.(rep := MustReceive, toSlave := l.toSlave + [m]) else l.(failed := true)
  }

  /** A receive blocks until there is a message, unless it is out of turn, when it fails at once. */
  predicate SlaveCanReceive(l: Link) { l.req == MaySend || l.toSlave != [] }

  predicate MasterCanReceive(l: Link) { l.rep == MaySend || l.toMaster != [] }

  function SlaveReceives(l: Link): Link
    requires SlaveCanReceive(l)
  {
    if l.req == MaySend then l.(failed := true) else l.(req := MaySend, toSlave := l.toSlave[1..])
  }

  function MasterReceives(l: Link): Link
    requires MasterCanReceive(l)
  {
    if l.rep == MaySend then l.(failed := true) else l.(rep := MaySend, toMaster := l.toMaster[1..])
  }

  // ----- the machine -----

  predicate IsNode(k: nat) { 2 <= k <= 9 }

  predicate Shaped(s: System)
  {
    && |s.nodes| == NODES
    && (forall k :: 2 <= k <= 9 ==> WellFormed(s.nodes[k].slave))
    && s.master.pri < NODES
    && match s.master.at
       case Greet(k) => IsNode(k)
       case Reply(k) => IsNode(k)
       case Confirm(k) => IsNode(k)
       case Serve(k) => 2 <= k <= 10
       case Await(k) => IsNode(k)
       case _ => true
  }

  function ZeroTable(): Table { seq(NODES, _ => 0) }

  function InitialAlloc(): Table { seq(NODES, i => if i < 2 then 0 else IDLE_SLOT) }

  function InitialSystem(): System
  {
    System(MasterState(Greet(2), ZeroTable(), ZeroTable(), ZeroTable(), InitialAlloc(), 0, 0, 0, 0, []),
           seq(NODES, _ => Node(Initial(), FreshLink())))
  }

  /** The grant in hand is well formed: it has a second token, which the slave stores in slot. */
  predicate GrantReadable(m: string) { |GrantFields(m)| >= 2 }

  predicate LocalEvent(e: Event)
  {
    e.Tap? || e.ProdStep? || e.SpuriousWake? || e.ConsStep? || e.CdStep? || e.Cancel?
  }

  predicate MasterEnabled(s: System)
    requires Shaped(s)
  {
    match s.master.at
    case Greet(k) => MasterCanReceive(s.nodes[k].link)
    case Confirm(k) => MasterCanReceive(s.nodes[k].link)
    case Await(k) => MasterCanReceive(s.nodes[k].link)
    case Start => false
    case _ => true
  }

  predicate CanAct(s: System, a: Action)
    requires Shaped(s)
  {
    match a
    case Local(k, e) => IsNode(k) && LocalEvent(e) && Enabled(s.nodes[k].slave, e)
    case Hello(k) => IsNode(k) && s.nodes[k].slave.cd.DHello?
    case HelloReply(k) => IsNode(k) && s.nodes[k].slave.cd.DReply? && SlaveCanReceive(s.nodes[k].link)
    case Hello2(k) => IsNode(k) && s.nodes[k].slave.cd.DHello2?
    case Grant(k) =>
      && IsNode(k) && s.nodes[k].slave.cd.DRecv? && SlaveCanReceive(s.nodes[k].link)
      && s.nodes[k].link.toSlave != [] && GrantReadable(s.nodes[k].link.toSlave[0])
    case Ack(k) => IsNode(k) && s.nodes[k].slave.cd.DAck?
    case MasterStep => MasterEnabled(s)
    case ReadJobs(_, _) => s.master.at.Start?
    case Report(k, _, _, _) => IsNode(k)
  }

  /** What the slave of node k does in an action, if anything. */
  function SlaveEvent(s: System, a: Action): Event
    requires Shaped(s) && CanAct(s, a) && !a.MasterStep? && !a.ReadJobs? && !a.Report?
    ensures Enabled(s.nodes[a.k].slave, SlaveEvent(s, a))
  {
    match a
    case Local(k, e) => e
    case Hello(k) => SendHello
    case HelloReply(k) => GetReply
    case Hello2(k) => SendHello2
    case Grant(k) => GetGrant(GrantFields(s.nodes[k].link.toSlave[0])[1])
    case Ack(k) => SendAck
  }

  function SlaveLink(l: Link, a: Action): Link
    requires a.HelloReply? || a.Grant? ==> SlaveCanReceive(l)
  {
    match a
    case Hello(_) => SlaveSends(l, ONE)
    case HelloReply(_) => SlaveReceives(l)
    case Hello2(_) => SlaveSends(l, ONE)
    case Grant(_) => SlaveReceives(l)
    case Ack(_) => SlaveSends(l, ONE)
    case _ => l
  }

  function WithLink(nodes: seq<Node>, k: nat, l: Link): seq<Node>
    requires k < |nodes|
  {
    nodes[k := nodes[k].(link := l)]
  }

  /** The scheduler thread's next action. */
  function MasterNext(s: System): System
    requires Shaped(s) && MasterEnabled(s)
  {
    var m := s.master;
    match m.at
    case Greet(k) =>
      System(m.(at := if k < 9 then Greet(k + 1) else Reply(2)), WithLink(s.nodes, k, MasterReceives(s.nodes[k].link)))
    case Reply(k) =>
      System(m.(at := if k < 9 then Reply(k + 1) else Confirm(2)),
             WithLink(s.nodes, k, MasterSends(s.nodes[k].link, ONE)))
    case Confirm(k) =>
      System(m.(at := if k < 9 then Confirm(k + 1) else Start), WithLink(s.nodes, k, MasterReceives(s.nodes[k].link)))
    case Check =>
      if Busy(m.p) then s.(master := m.(at := Scan, pri := Advance(m.pri)))
      else s.(master := m.(at := Serve(2), tAlloc := Shared(m.tAlloc), priReducer := 0, granted := []))
    case Scan =>
      if m.p[m.pri] <= 0 then s.(master := m.(pri := Advance(m.pri)))
      else s.(master := m.(at := Allocate))
    case Allocate =>
      s.(master := m.(at := Serve(2), tAlloc := Exclusive(m.tAlloc, m.pri),
                      priReducer := LastFavoured(m.reducer, m.job, m.progress, 9), granted := []))
    case Serve(k) =>
      if k > 9 then s.(master := m.(at := Start))
      else if m.tAlloc[k] == 0 then s.(master := m.(at := Serve(k + 1)))
      else System(m.(at := Await(k), granted := m.granted + [k]),
                  WithLink(s.nodes, k, MasterSends(s.nodes[k].link, GrantText(k, m.tAlloc[k], m.priReducer))))
    case Await(k) =>
      System(m.(at := Serve(k + 1)), WithLink(s.nodes, k, MasterReceives(s.nodes[k].link)))
  }

  function StepSystem(s: System, a: Action): System
    requires Shaped(s) && CanAct(s, a)
  {
    match a
    case MasterStep => MasterNext(s)
    case ReadJobs(job, progress) => s.(master := s.master.(at := Check, job := job, progress := progress))
    case Report(k, size, reduce, speeds) =>
      s.(master := s.master.(
        p := s.master.p[k := size],
        reducer := s.master.reducer[k := reduce],
        sp := s.master.sp[k := Speed(s.master.sp[k], speeds)]))
    case _ =>
      var n := s.nodes[a.k];
      s.(nodes := s.nodes[a.k := Node(Next(n.slave, SlaveEvent(s, a)), SlaveLink(n.link, a))])
  }

  // ----- the invariant -----

  /** How far the master has got with a node. */
  datatype Stage = Unmet | Met | Answered | Idle | Granted(v: int, text: string)

  function StageOf(m: MasterState, k: nat): Stage
    requires k < NODES
  {
    match m.at
    case Greet(j) => if k < j then Met else Unmet
    case Reply(j) => if k < j then Answered else Met
    case Confirm(j) => if k < j then Idle else Answered
    case Await(j) => if k == j then Granted(m.tAlloc[k], GrantText(k, m.tAlloc[k], m.priReducer)) else Idle
    case _ => Idle
  }

  /** The slave has the turn: it has received and not yet answered. */
  predicate SlaveTurn(l: Link) { l == Link(MaySend, MustReceive, [], [], false) }

  predicate MasterTurn(l: Link) { l == Link(MustReceive, MaySend, [], [], false) }

  predicate ToMaster(l: Link, m: string) { l == Link(MustReceive, MustReceive, [m], [], false) }

  predicate ToSlave(l: Link, m: string) { l == Link(MustReceive, MustReceive, [], [m], false) }

  predicate CountingDown(s: Slave, v: int)
  {
    (s.cd.DSet? && s.cd.v == v) || ((SI.Working(s.cd) || s.cd.DZero? || s.cd.DAck?) && s.granted == v)
  }

  /** For each stage, where the one message or the one turn of the pair can be. */
  predicate LinkInv(n: Node, stage: Stage)
  {
    var cd, l := n.slave.cd, n.link;
    match stage
    case Unmet => (cd.DHello? && SlaveTurn(l)) || (cd.DReply? && ToMaster(l, ONE))
    case Met => cd.DReply? && MasterTurn(l)
    case Answered =>
      || (cd.DReply? && ToSlave(l, ONE))
      || (cd.DHello2? && SlaveTurn(l))
      || (cd.DRecv? && ToMaster(l, ONE))
    case Idle => cd.DRecv? && MasterTurn(l)
    case Granted(v, text) =>
      || (cd.DRecv? && ToSlave(l, text))
      || (CountingDown(n.slave, v) && SlaveTurn(l))
      || (cd.DRecv? && ToMaster(l, ONE))
  }

  /** Grants sent in a round once nodes below k have been served. */
  function GrantsBelow(tAlloc: Table, k: nat): seq<nat>
    requires k <= NODES
  {
    if k <= 2 then []
    else GrantsBelow(tAlloc, k - 1) + (if tAlloc[k - 1] != 0 then [k - 1] else [])
  }

  predicate TablesInv(m: MasterState)
  {
    && m.p[1] == 0
    && (forall i :: 1 <= i < NODES ==> m.p[i] >= 0)
    && m.priReducer < NODES
    && (if m.at.Scan? then 1 <= m.pri <= 9
        else if m.at.Allocate? then 2 <= m.pri <= 9
        else m.pri == 0 || IsNode(m.pri))
  }

  /** During a round the allocation is one of two: a short slot for everyone, or the whole slot
      for the picked node alone; and exactly the nodes with a slot have been sent a grant. */
  predicate RoundInv(m: MasterState)
  {
    m.at.Serve? || m.at.Await? ==>
      && (m.tAlloc == Shared(m.tAlloc) || (2 <= m.pri <= 9 && m.tAlloc == Exclusive(m.tAlloc, m.pri)))
      && m.at.k <= NODES
      && m.granted == GrantsBelow(m.tAlloc, m.at.k) + (if m.at.Await? then [m.at.k] else [])
      && (m.at.Await? ==> m.at.k < NODES && m.tAlloc[m.at.k] != 0)
  }

  predicate NodeInv(n: Node, stage: Stage)
  {
    SI.Inv(n.slave) && LinkInv(n, stage)
  }

  predicate SysInv(s: System)
  {
    && Shaped(s)
    && TablesInv(s.master)
    && RoundInv(s.master)
    && forall k :: 2 <= k <= 9 ==> NodeInv(s.nodes[k], StageOf(s.master, k))
  }
}
