# Slot scheduling of a shared wireless link: a verified model

A small Hadoop cluster shares one wireless link. This project models the two generations of its
link scheduler and proves what they guarantee.

**The polled slot protocol.** A master polls eight slaves (nodes 2 to 9) over REQ/REP sockets. In
each round it gives the whole slot to one node that has reported data, in cyclic order, or a short
slot to every node when none has. A slave queues large shuffle packets per destination and lets its
consumer write them while `slot > 0`; a countdown thread drains `slot` and acknowledges; a reporter
thread replays a log of map outputs, may cancel the slot at any moment, and reports the backlog.

- `Frames`, `LinkedQueue`, `QueueBank`: packets and their classification, the malloc'd queue with
  `front`, `rear` and `count`, and the array of ten of them, on the heap.
- `SlaveModel`: the slave's threads as one machine of atomic actions. Unlocked reads of `front` and
  `slot`, the two halves of `slot = slot - 100`, and the stores of `enq` that another thread can see
  are actions of their own. `SlaveInvariants` and `SlaveTheorems`: what every action keeps, and what
  follows for whole runs. `SlaveProgress`: that the consumer, and the slave as a
  whole, gets somewhere. `SlaveNode`: the same actions as methods over the heap queues; each takes
  the object from one state of the machine to the next.
- `Scheduler`: the master's decisions as a class over its arrays. `Protocol`, `ProtocolInvariant`,
  `ProtocolTheorems`: master, eight whole slaves and their sockets as one machine. `MasterNode`: the
  arrays take that machine's steps.
- `Reports`, `Backlog`, `Monitor`: the messages, the meaning of the log, and the incremental replay.

**The static schedule.** `Tdma` is the send test of `CreateLoopback.c` on nodes whose clocks differ;
`Allocation` and `MapRanges` are the publisher `QuickStart.java`. **Link speeds.** `LinkSpeed` is the
counter exchange of `packet_rate.c` and its file. `Text` is printf's `%d`, `atoi` and `strtok`.

Hypotheses. Memory is sequentially consistent. Sockets lose nothing. Reports to the protocol machine
come from nodes 2 to 9 with non-negative sizes. `char` is unsigned (`SignedCharNeverMatches` shows
that nothing would be queued otherwise). The machine lets the reporter store `slot = 0` between any
two actions, lets frames arrive and the consumer run already during the handshake, and lets the
producer wake spuriously. Three pieces of the original are taken as atomic: the busy check, the
allocation loop, and the three stores of one report; the scan between check and allocation is not.

Where the code falls short of what one might expect, the model follows the code: while the slot is
gone one packet may still be written, in exactly the states `OvershootIff` names, and no more than
one (`SilentWithoutGrant`); a scan, once begun, need not end with a pick: it goes on exactly as long
as every look comes at a moment when that candidate has no data (`ScanGoesOnIff`), be it that the
only node with data reports 0 after the busy check and the table stays empty (`StallReachable`,
`StallPersists`), or that the data is always somewhere else (`ScanWithoutEnd`), while one entry that
stays positive ends it within nine looks (`ScanIsShort`); an allocation text of more than 31 characters does not reach the stations whole
(`RecoveredIff`), which the publisher's built-in base never produces (`BuiltInBaseFits`) but another
base can (`LongBaseIsCut`); and a clock skew of 501 microseconds already breaks the static schedule
(`GuardIsExact`; `ToleranceIff` gives the tolerance of any allocation).

## Model

| member | source | states |
|---|---|---|
| Text.AtoiOfIntText | CreateLoopbackMS.c:203-212 | atoi gives back the int that `%d` printed, negative ones too, whatever non-digit text follows |
| Text.TokensOfJoin | CreateLoopbackMS.c:201-216 | strtok until NULL gives back exactly the list that was joined with the separator |
| Text.IntListRoundTrip | monitor.h:119-137 | a list of ints printed with a separator is recovered by strtok and atoi |
| Text.StrtokSkips | CreateLoopbackMS.c:201-216 | separators in front, or several in a row, delimit no empty token |
| Frames.SignedCharNeverMatches | CreateLoopbackCS1Q.c:630-636 | with a signed char no two bytes form port 13562; with an unsigned one exactly the bytes 52, 250 do |
| Frames.PortTestAgrees | CreateLoopbackCS1Q.c:630-636 | for every frame the unsigned bit expression tests exactly the port the model classifies by |
| LinkedQueue.EnqIsAppend | CreateLoopbackCS1Q.c:98-127 | the visible stores of enq together append the packet and leave front and count consistent with the chain |
| LinkedQueue.DeqAfterEnq | CreateLoopbackCS1Q.c:98-163 | deq undoes enq on an empty queue and commutes with it otherwise: first in, first out |
| LinkedQueue.Queue.constructor | CreateLoopbackCS1Q.c:79-87 | a new queue is empty: front and rear NULL, count 0 |
| LinkedQueue.Queue.Link | CreateLoopbackCS1Q.c:98-123 | enq up to the store to rear extends the chain by one fresh last node and does not show front yet |
| LinkedQueue.Queue.Publish | CreateLoopbackCS1Q.c:110 | the store to front makes the first node visible and changes nothing else |
| LinkedQueue.Queue.Deq | CreateLoopbackCS1Q.c:130-163 | deq unlinks exactly the first node, frees no node twice and keeps the chain well formed; on NULL it does nothing |
| LinkedQueue.Queue.Enq | CreateLoopbackCS1Q.c:98-127 | a whole enq keeps the representation invariant and appends the packet |
| LinkedQueue.Queue.FollowChain | CreateLoopbackCS1Q.c:42-50 | k pointers from the i-th node of a chain lead to node i+k, and past the last to NULL |
| LinkedQueue.Queue.RearIsLastReachable | CreateLoopbackCS1Q.c:42-50 | from front the pointers reach rear as the last node and then NULL: the chain has no cycle |
| QueueBank.Bank.CreateQueues | CreateLoopbackCS1Q.c:593-595 | ten fresh empty queues, each with its own index as id |
| QueueBank.Bank.ChainsDisjoint | CreateLoopbackCS1Q.c:42-50 | no node reached from one queue's front is reached from another's |
| QueueBank.Bank.IsEmpty | CreateLoopbackCS1Q.c:165-173 | the returned total is the sum of the counts of queues 1 to 9 |
| QueueBank.Bank.LinkAt | CreateLoopbackCS1Q.c:98-123 | linking into one queue leaves the other nine as they were |
| QueueBank.Bank.DeqAt | CreateLoopbackCS1Q.c:130-163 | dequeuing from one queue leaves the other nine as they were |
| SlaveInvariants.SeenMeansPositive | CreateLoopbackCS1Q.c:206-247 | once front was seen non-NULL, is_empty() under the mutex is at least 1 |
| SlaveInvariants.MutexKept | CreateLoopbackCS1Q.c:244-272 | the owner of qu_mutex is the one thread inside a critical section |
| SlaveInvariants.QueuesKept | CreateLoopbackCS1Q.c:98-163 | every queue stays settled but for the one the producer is halfway through |
| SlaveInvariants.ConsumerKept | CreateLoopbackCS1Q.c:206-247 | the queue the consumer saw non-empty stays so, and the double-unlock branch is never entered |
| SlaveInvariants.TotalStep | CreateLoopbackCS1Q.c:165-173 | the total changes only at count++ and at deq, by one |
| SlaveInvariants.BufferKept | CreateLoopbackCS1Q.c:624-628 | never more than 500 queued; a blocked producer implies at least 450, or the signal is next |
| SlaveInvariants.QueueFlowKept | CreateLoopbackCS1Q.c:618-644 | for one destination, written plus remaining equals arrived, in order, across every action |
| SlaveInvariants.DirectFlowKept | CreateLoopbackCS1Q.c:636-640 | what the producer wrote plus what it holds equals the arrivals that belong in no queue, in order |
| SlaveInvariants.CountdownKept | CreateLoopbackCS1Q.c:397-412 | bounds on slot in terms of the grant and the decrements made, with lost updates and cancellations |
| SlaveInvariants.InvKept | CreateLoopbackCS1Q.c:195-295 | every action of every thread keeps the whole invariant |
| SlaveInvariants.RunInv | CreateLoopbackCS1Q.c:602-649 | the invariant holds in every state of every run |
| SlaveTheorems.FifoConservation | CreateLoopbackCS1Q.c:618-644 | per destination written + linked + in hand equals the shuffle packets that arrived, in order; all others for the cluster are written directly once, in order |
| SlaveTheorems.BytesConserved | CreateLoopbackCS1Q.c:618-644 | packet by packet and byte by byte: written + linked + in hand are the frames with destination d, port bytes 52 250 and over 700 bytes, each with exactly the bytes read; the same for those written directly; so byte totals agree |
| SlaveTheorems.NoCrashNoDeadlock | CreateLoopbackCS1Q.c:206-272 | the consumer never follows NULL nor unlocks twice; a mutex holder can always go on; while nobody holds it front and count of every queue agree with what is linked |
| SlaveTheorems.FrontStable | CreateLoopbackCS1Q.c:206-267 | from the unlocked look at front until its own deq the consumer finds the same packet in front, whatever is added behind it |
| SlaveTheorems.BoundedOvershoot | CreateLoopbackCS1Q.c:239-272 | while slot <= 0 at most one queued packet is written, none if the consumer was not past its test |
| SlaveTheorems.OvershootIff | CreateLoopbackCS1Q.c:239-272 | with slot <= 0, some continuation with slot <= 0 throughout writes a queued packet iff the consumer is past its test and is not locked out by a countdown about to store a positive remainder |
| SlaveTheorems.DoomReachable | CreateLoopbackCS1Q.c:404-412 | a run reaches that excluded case: slot cancelled between the read and the store of slot - 100, and no packet can be written while slot <= 0 |
| SlaveTheorems.OvershootReachable | CreateLoopbackCS1Q.c:239-267 | a run exists in which a queued packet is written while slot is 0 throughout |
| SlaveTheorems.SweepIsFair | CreateLoopbackCS1Q.c:195-272 | while queue d has a packet in front, n writes of its own leave room for at most 9n + 8 writes in all: of any nine, one is from d |
| SlaveTheorems.BlockedUntil51 | CreateLoopbackCS1Q.c:270-272 | the producer blocks at exactly 500 and the consumer wakes it exactly at the 51st dequeue after that |
| SlaveTheorems.GrantServed | CreateLoopbackCS1Q.c:404-416 | a grant of v is acknowledged after at most 5*ceil(v/100)+3 actions of the countdown thread |
| SlaveTheorems.CountdownBound | CreateLoopbackCS1Q.c:397-416 | slot > 0 only between grant and ack, slot >= -100, and ceil(v/100) decrements before the ack, at most that many if cancelled |
| SlaveProgress.ConsumerPace | CreateLoopbackCS1Q.c:195-295 | while queue d has a packet in front and the slot is positive, n of its own writes leave room for at most 73n + 72 consumer actions |
| SlaveProgress.EverythingCanBeWritten | CreateLoopbackCS1Q.c:195-421 | from every reachable state some continuation without new frames writes, from each queue and directly, everything that has arrived |
| SlaveNode.SlaveNode.constructor | CreateLoopbackCS1Q.c:593-600 | the initial heap is the machine's initial state |
| SlaveNode.SlaveNode.ProdLink | CreateLoopbackCS1Q.c:636-637 | linking on the heap is the machine's step |
| SlaveNode.SlaveNode.ConsDeq | CreateLoopbackCS1Q.c:267 | deq on the heap is the machine's step |
| SlaveNode.SlaveNode.InvMakesReady | CreateLoopbackCS1Q.c:206-220 | the machine's invariant gives each heap action what it dereferences |
| SlaveNode.SlaveNode.Step | CreateLoopbackCS1Q.c:195-421 | every action on the heap refines the machine's action and keeps the invariant; a front once stored is changed by the consumer's deq alone |
| SlaveNode.SlaveNode.Play | CreateLoopbackCS1Q.c:195-421 | after the events of any run the heap is in exactly that run's last state |
| SlaveNode.SlaveNode.PlayCommitted | CreateLoopbackCS1Q.c:206-267 | from the unlocked look at front until its own deq the consumer finds the same node in front: no other action moves the pointer |
| Reports.SpeedIsFloorMean | CreateLoopbackMS.c:206-220 | the stored speed is the floor of the mean of the non-zero speeds, between their least and greatest; unchanged if all are zero |
| Reports.SumAppend | CreateLoopbackMS.c:209-216 | every further speed adds itself to the sum, and one to the count unless it is 0 |
| Reports.QuotientTruncates | CreateLoopbackMS.c:217-219 | the mean is rounded towards zero for either sign |
| Reports.IntArrayToText | monitor.h:119-137 | the string is the nine numbers joined by dots |
| Reports.PrintReport | monitor.h:301-303 | the message is node, size, reducer and the nine speeds joined by dots |
| Reports.ReportRoundTrip | monitor.h:356-365 | the fields parsed from a printed report are the ones printed |
| Reports.GrantRoundTrip | CreateLoopbackMS.c:439 | the slave's second and third tokens of a grant are the slot and the reducer sent |
| Reports.GrantFits | CreateLoopbackCS1Q.c:391 | a grant is at most 15 characters, so the 31-byte receive never cuts it |
| Scheduler.ScanStopsIff | CreateLoopbackMS.c:402-407 | on a table at rest the scan ends exactly when a node in 2..9 has a positive entry, or the node it starts on has |
| Scheduler.Master.HasData | CreateLoopbackMS.c:382-387 | the check loop answers yes if and only if some entry of 1..9 is not 0 |
| Scheduler.Master.Pick | CreateLoopbackMS.c:398-407 | on a table at rest on which the scan ends, the pick has data and no node between the last pick and it has, going up to 9 and on from 2; node 1 only if the first scan finds data there |
| Scheduler.LastFavoured | CreateLoopbackMS.c:411-416 | the last node up to i whose reducer runs the favoured job, or 0 |
| Scheduler.Master.AllocateBusy | CreateLoopbackMS.c:411-423 | exactly the picked node gets 2000000 and the rest 0; the favoured reducer is the last that matches the job |
| Scheduler.Master.AllocateIdle | CreateLoopbackMS.c:389-392 | every node 1..9 gets 50000 |
| Scheduler.EntryRoundTrip | CreateLoopbackMS.c:363-376 | a line job:percent is read back as that job and percentage |
| Scheduler.Master.JobPriority | CreateLoopbackMS.c:351-380 | the first job with the greatest positive progress, or 0 |
| Scheduler.Master.SumSpeeds | CreateLoopbackMS.c:209-216 | the token loop yields the sum of the numbers and how many are non-zero |
| Scheduler.Master.ProcessReport | CreateLoopbackMS.c:201-220 | one message updates exactly one entry of each table, as its fields say |
| Scheduler.ReportReaches | monitor.h:356-365 | a printed report, processed, leaves its size, reducer and mean speed at its node and nowhere else |
| MasterNode.CheckStep | CreateLoopbackMS.c:382-400 | the check on the arrays, with the idle allocation or the first advance, is the machine's step |
| MasterNode.ScanStep | CreateLoopbackMS.c:402-407 | one turn of the scan loop is the machine's step |
| MasterNode.AllocateStep | CreateLoopbackMS.c:411-423 | the allocation loop is the machine's step, with the same favoured reducer |
| MasterNode.TakeReport | CreateLoopbackMS.c:201-220 | a printed report, processed, is the machine's report action |
| ProtocolInvariant.LocalKeepsLink | CreateLoopbackCS1Q.c:388-421 | threads that do not touch the socket keep the pair's turn where it is |
| ProtocolInvariant.GrantKeepsLink | CreateLoopbackCS1Q.c:391-397 | a grant received is readable and its slot is the one allocated |
| ProtocolInvariant.PartnerLink | CreateLoopbackMS.c:302-339 | a send or receive of the master moves its partner to the next stage of the exchange |
| ProtocolInvariant.MasterTables | CreateLoopbackMS.c:382-437 | the allocation is one of the two shapes and the grants sent so far are exactly the nodes with a slot |
| ProtocolInvariant.SysInvKept | CreateLoopbackMS.c:344-517 | every action of master and slaves keeps the protocol invariant |
| ProtocolInvariant.TraceInv | CreateLoopbackMS.c:344-517 | the invariant holds in every state of every run of the protocol |
| ProtocolTheorems.SlotExclusion | CreateLoopbackMS.c:436-517 | at most one slave has slot > 0, namely the one whose ack the master awaits, and no more than was allocated |
| ProtocolTheorems.Lockstep | CreateLoopbackMS.c:302-339 | on each pair exactly one message or one turn exists; no socket is used out of turn; every grant parses |
| ProtocolTheorems.RoundGrants | CreateLoopbackMS.c:436-517 | a round sends the whole slot to the picked node once, or the short one to each of 2..9 once, in order |
| ProtocolTheorems.CheckDecides | CreateLoopbackMS.c:382-407 | the check leads to a round of short slots iff every entry is 0, and to the scan iff one is not |
| ProtocolTheorems.IdleRound | CreateLoopbackMS.c:389-517 | such a round keeps 50000 for every node and ends with one grant to each of 2..9, in order |
| ProtocolTheorems.RoundsReachable | CreateLoopbackMS.c:302-517 | runs from the start of the handshake complete an idle round and a busy one |
| ProtocolTheorems.FavouredReducer | CreateLoopbackMS.c:411-416 | a busy round favours the last node whose reducer runs the leading unfinished job, an idle one nobody |
| ProtocolTheorems.GrantTells | CreateLoopbackMS.c:436-441 | the grant on its way reads as the node's slot and the favoured reducer |
| ProtocolTheorems.BoundedWaiting | CreateLoopbackMS.c:398-418 | a node whose entry stays positive is picked in any eight busy rounds, with reports arriving all the while |
| ProtocolTheorems.GrantedWithinEight | CreateLoopbackMS.c:398-517 | a node whose entry stays positive is picked in any eight busy rounds, and the round of that pick gives it alone the whole slot and ends with exactly one grant, to it |
| ProtocolTheorems.UndisturbedScan | CreateLoopbackMS.c:398-407 | if no report changes the table during the scan, the pick is the cyclically next node with data |
| ProtocolTheorems.ScanGoesOnIff | CreateLoopbackMS.c:402-407 | on a table that changes at any time: a scan goes on exactly as long as each look finds the entry of its own candidate not positive at that moment |
| ProtocolTheorems.ScanIsShort | CreateLoopbackMS.c:402-407 | while some node's entry stays positive the scan takes at most nine scheduler actions, whatever else is reported, and the ninth picks |
| ProtocolTheorems.ScanWithoutEnd | CreateLoopbackMS.c:402-407 | from any reachable scan and for any n, a continuation looks n times in vain although some node has data in every state of it |
| ProtocolTheorems.StallBegins | CreateLoopbackMS.c:382-407 | if the check passes on one node alone and that node then reports 0, the scan is left without a positive entry |
| ProtocolTheorems.StallEndsIff | CreateLoopbackMS.c:402-407 | an empty table under a scan stays empty across an action iff that is not a report of positive size |
| ProtocolTheorems.StallPersists | CreateLoopbackMS.c:402-407 | until such a report no node is polled: every slave waits for a grant with nothing in flight and slot <= 0 |
| ProtocolTheorems.StallReachable | CreateLoopbackMS.c:302-407 | a run from the start of the handshake ends in a stalled scan |
| ProtocolTheorems.AwaitedCanAct | CreateLoopbackCS1Q.c:388-421 | while the master awaits node k the ack is there, or node k can receive, count down, acknowledge, or release the mutex the countdown waits for |
| ProtocolTheorems.BackToStart | CreateLoopbackMS.c:302-517 | from every reachable state some continuation brings the scheduler back to the top of its loop: no deadlock anywhere |
| ProtocolTheorems.SilentWithoutGrant | CreateLoopbackCS1Q.c:239-272 | while the master does not await node k, node k writes at most one queued packet |
| ProtocolTheorems.ProjectionIsRun | CreateLoopbackCS1Q.c:195-421 | each slave's actions in a protocol run form a run of the slave machine ending in its present state |
| Backlog.FoldConcat | monitor.h:222-249 | replaying a log in two parts is replaying it once |
| Backlog.LineMeanings | monitor.h:229-340 | a line of type 1 announces its output, of type 0 reports it sent, of type 2 gone, of type 4 the end of the job |
| Backlog.ReduceLine | monitor.h:232-241 | a line of type 3 sets the reducer to the number in characters 22 to 25 of its third token |
| Backlog.BacklogBalanced | monitor.h:273-340 | waiting ids are distinct; accepted = waiting + completed + dropped; backlog = accepted sizes - removed sizes |
| Backlog.WaitingIffLastAdded | monitor.h:105-117 | an id waits exactly when the last type 0, 1 or 2 line about it is of type 1 |
| Backlog.CancelIff | monitor.h:294-329 | a line cancels the slot iff no reducer is in force and it completes a waiting output or drops the only one; the backlog that remains is reported with it |
| Backlog.PassEnd | monitor.h:222-250 | a pass never goes back and advances whenever a line is unread |
| Backlog.PassEndMeans | monitor.h:222-250 | a pass stops behind the first type 4 line, or at the end of the log |
| Backlog.PassesCatchUp | monitor.h:246-250 | a log at rest is read to its end in one pass more than it has unread type 4 lines |
| Monitor.MapList.Compare | monitor.h:105-117 | finds an id iff it is in the list, and leaves the cursor on its first item |
| Monitor.MapList.GetDataSize | monitor.h:140-148 | the sum of the sizes in the list |
| Monitor.Reporter.HandleLine | monitor.h:229-344 | one line has exactly the effect of its event, and zeroes slot exactly when the event cancels |
| Monitor.Reporter.OutputAnnounced | monitor.h:273-281 | a type 1 line with a new id puts it last in the list and adds exactly its size to the backlog |
| Monitor.Reporter.OutputSent | monitor.h:283-311 | a type 0 line for a waiting id removes its first item and that item's size, enters the output as completed, and without a reducer zeroes slot |
| Monitor.Reporter.Pass | monitor.h:213-350 | a pass applies exactly the unread lines up to the first type 4 line or the end |
| Monitor.Reporter.Passes | monitor.h:213-350 | for any growing log and any number of passes the state is one fold over the lines read |
| Monitor.Reporter.Report | monitor.h:356-365 | the report carries the present backlog and reducer |
| Tdma.NowShift | CreateLoopback.c:401-402 | of two readings d apart the later is d further on, or less than d past an epoch or second boundary |
| Tdma.NoCollision | CreateLoopback.c:401-406 | with clocks at most 500 apart two nodes never both pass the send test, across any boundaries |
| Tdma.ToleranceIff | CreateLoopback.c:401-406 | for any allocation within its epoch, a skew is tolerated iff it is below the gap of every two nodes with time to send: within an epoch, into the next, or into the next second, which may cut an epoch short |
| Tdma.GuardIsExact | CreateLoopback.c:401-406 | if two neighbouring nodes have time to send, a skew is tolerated iff it is at most 500 |
| Tdma.Station.RecvConfig | CreateLoopback.c:146-157 | up to six numbers overwrite tAlloc and the last of them becomes epoch |
| Tdma.AskBoth | CreateLoopback.c:401-406 | each of two stations answers yes exactly in tAlloc[i-1]+500 <= usec % epoch < tAlloc[i]; with one allocation and clocks at most 500 apart never both do |
| Allocation.Reshape | Http/src/QuickStart.java:212-220 | the filled array is the base with the shift taken off from the reducer on |
| Allocation.OnlyReducerShrinks | Http/src/QuickStart.java:216-220 | every window keeps its length but the reducer's, which loses the shift |
| Allocation.ReshapeUsableIff | Http/src/QuickStart.java:210-220 | the result is a non-decreasing allocation with room for the reducer iff its window exceeded shift plus guard |
| Allocation.PrintedNumbers | Http/src/QuickStart.java:223-227 | the printed allocation parses back to itself |
| Allocation.RecoveredIff | CreateLoopback.c:146-157 | the numbers a station reads are the published ones iff their text has at most 31 characters |
| Allocation.OneTooMany | CreateLoopback.c:146-157 | a 32-character text whose last number has two or more digits loses the last of them, so the epoch received is a tenth of the one sent |
| Allocation.BuiltInBaseFits | Http/src/QuickStart.java:211-227 | with the built-in base, for every reducer node, the text fits, the window suffices and the stations read the published numbers |
| Allocation.LongBaseIsCut | CreateLoopback.c:146-157 | a valid base with an epoch of 180800 whose text has 32 characters: stations get epoch 18000, and nodes 2 to 5 never send |
| Allocation.Deliver | Http/src/QuickStart.java:212-227 | a station holds the numbers that survive the cut, then what it had, and the last of them as epoch: exactly the published array if the text fits |
| Allocation.DeliveredIsSafe | CreateLoopback.c:401-406 | two stations with the same published allocation and clocks at most 500 apart never both send |
| Allocation.PublishAndAsk | Http/src/QuickStart.java:210-227 | publishing to two stations and asking both at clocks at most 500 apart: they never both answer that they may send |
| MapRanges.RangesTile | Http/src/QuickStart.java:193-195 | a task number is watched for exactly one reducer inside [clusterSize*cpus, clusterSize*(w+cpus)) and for none outside |
| MapRanges.RangesRunDown | Http/src/QuickStart.java:193-195 | the reducer on a greater node is given smaller task numbers |
| MapRanges.RangeIs | Http/src/QuickStart.java:193-195 | the range of node r runs from clusterSize*cpus + (clusterSize-r)*w for w tasks |
| MapRanges.LastNodeFirst | Http/src/QuickStart.java:193-195 | the last node's range begins at clusterSize*cpus |
| MapRanges.SixtyBlocks | Http/src/QuickStart.java:193-195 | 60 blocks, 5 nodes, 2 processors: node 1 watches 50..59, node 5 watches 10..19 |
| MapRanges.RangesWithinFile | Http/src/QuickStart.java:193-195 | no watched range passes the last whole block of the file |
| MapRanges.Monitored | Http/src/QuickStart.java:193-208 | the ids collected are those of the map tasks in the range, in order |
| MapRanges.MonitoredForTwo | Http/src/QuickStart.java:193-208 | every id collected for the greater of two nodes has a smaller number |
| MapRanges.SelectionMembers | Http/src/QuickStart.java:197-207 | an id is collected iff a map task with that id has its number in the range |
| MapRanges.SelectionInOrder | Http/src/QuickStart.java:197-207 | ids are collected task by task, in order |
| MapRanges.NumberReads | Http/src/QuickStart.java:201 | the last five digits of an id are its number |
| LinkSpeed.BestIsMaximum | packet_rate.c:169-176 | an entry is 0 or the greatest count over 100 heard from that node |
| LinkSpeed.GetDigitFromContent | packet_rate.c:262-280 | the value taken is that of token number lastDigit, or of the last token |
| LinkSpeed.CommaCuts | packet_rate.c:163-166 | only the text before the first comma is read |
| LinkSpeed.BroadcastRoundTrip | packet_rate.c:436-449 | the value node me takes from a broadcast is the sender's counter for me |
| LinkSpeed.LinkTable.RecvBroadcast | packet_rate.c:157-254 | one broadcast from another node is recorded once, the table stays the running maximum, and the file follows it |
| LinkSpeed.GetLinkQuality | monitor.h:83-103 | entry i becomes token i for 1..8 where there is one; entry 0 and missing ones are unchanged |
| LinkSpeed.SpeedsReachReporter | monitor.h:83-103 | the reporter reads exactly the table's maxima for nodes 2..9 and 0 for node 1 |
| LinkSpeed.Meter.Capture | packet_rate.c:368-376 | exactly the long probe packets from another station are counted, each once |
| LinkSpeed.Meter.Publish | packet_rate.c:433-470 | non-zero counters are broadcast and reset; counted = broadcast + pending for every station |
| LinkSpeed.Broadcast | packet_rate.c:153-177 | a published counter for a station arrives in that station's record |

## Left out

- TUN/TAP set-up, select, sockets, pcap, zbeacon and files: a write is an element of an output trace, a broadcast a method argument, a file a string.
- `hadoop_hb`, the port list, `limit`, `real_limit`, `c`, `est`, `data_in_q` and `is_writting` in `write_tun`: computed, but nothing in the running code depends on them.
- The master's own `slot` (set and cleared at CreateLoopbackMS.c:431-434), which no thread of the master reads.
- `response_task` and `folder_watch` in `monitor.h`, `recv_config` and `max_array` in `CreateLoopbackMS.c`: not part of the running protocol.
- Time: sleeps are points where other threads may act; `fast_update` and the one-second expiry are not modelled, their effects may come at any moment.
- C buffers: short token arrays, strings over uninitialised memory (packet_rate.c:238), reads past a short third token of a type 3 line, and lines longer than 383 characters or read half-written.
- Integer widths: counts, sizes and speeds are unbounded integers.
- HTTP and JSON (`httpRequest`, `getTaskIds`, the record classes) in `Http/src`.
- The moment when stations hold different allocations because only some have received the latest one.
- The reporter's replay is not wired into the protocol machine: there a cancellation and a report of any non-negative size may come at any time, which covers what `Monitor` computes.
- Scheduler.Master.ProcessReport: requires what the original needs to survive, at least three fields and a node number within its arrays.
- Monitor.Reporter.HandleLine: requires a line on which strtok yields the tokens the code dereferences.
