# The Helios microkernel, verified

This project models the core of the Helios microkernel in Dafny and proves what
its design promises: message routing between processors, ports and links, the
Executive's scheduler and timer queue, and the arithmetic run-time below them.
`dafny verify dfyconfig.toml` checks all of it.

| files | what they model |
|---|---|
| `Words`, `Times`, `Lists`, `Filters` | 32-bit words, the wrapping microsecond clock, sequences without repetition, sub-sequences and scans |
| `Reciprocals`, `Division` | the integer division routines of `kernel/nccsupport.c` |
| `Ports` | port descriptors, the two-level port table and its free list |
| `Routing`, `Journeys` | one hop of a message, and whole journeys there and back |
| `Ledgers`, `Network` | the meaning of descriptors over time, and every interleaving of a network |
| `Conservation`, `Refinement` | what becomes of each message of a network: none is lost but by its rules, none doubled; and that the network's steps are those of the kernel's routines |
| `Slips`, `Misdelivery`, `Growth`, `MisdeliveryRun` | when a large message goes astray inside LinkMsg, and a run in which it does |
| `LinkIO`, `DoubleBuffer` | link to link forwarding by two processes |
| `C40Receive`, `C40Send` | the unaligned receive path of the C40, and the sender's end |
| `IdQueues`, `LocalPorts`, `Rendezvous`, `Fates` | waiter queues, transmitters meeting receivers at a local port, and what becomes of each call |
| `Links` | who may send on a link |
| `Executive`, `Housing`, `Schedules`, `TimerQueues`, `ExecutiveRuns` | the scheduler as a step system and its invariants |
| `Fairness`, `TimerRuns` | what a thread can count on, on the run queues and on the timer queue |
| `Scheduling`, `Promises`, `Sleeping` | what a thread's own call leaves it with, whatever happens until it runs again: Yield, Suspend, Stop, Resume, SetPhysPri, System, Sleep |
| `ClockHandlers` | the clock interrupt handler written in C, and two details of an assembler one |
| `ExecRoots` | the scheduler's C functions, proved against `Executive` |
| `ThreadQs`, `TimerList` | run queues and the timer queue as linked lists, and eviction of a killed task's threads |
| `Floats` | floor, ceil and modf on the bits of a double |

Where the kernel updates structures in place the model does too: `RootStruct`,
`LocalPort`, `LinkInfo`, `ThreadQ` and `ExecRoot` are classes whose methods
follow the C functions, and each method's contract gives its new state as a
function of the old one. What is then proved over all runs is proved about
those functions.

Kernel calls run at the highest priority and are not interrupted by each other.
In the network each is one step, but where it gives way. `_PutMsg`, once it is
through with the entry, queues for its link and sends when it gets it. LinkMsg,
when it passes a message straight on, is a step up to where it has looked at the
destination's entry and claimed the link, a step that reads the descriptor and
sends, and a step that frees the entry; only up to 256 bytes are the first two
one. Until it is done the link that the message came by has no other reader, and
the link that it goes by no other sender (`Networks.Event`); without anything in
between, the parts come to the whole routine (`Refinements`). In the Executive each
call is one step, and a clock interrupt is any number of steps: the clock goes
on, the head of the timer queue is woken, the running thread is sliced, each when
the handler sees fit. So what is proved of all runs holds of a handler that wakes
one thread at each interrupt, as those in `kernel/C40/c40intr.a` and
`kernel/ARM/armslice.a` do, and of one that wakes all that are due, as long as it
lowers the hint for them (see below).

Results that are not what the code or its comments suggest, with the condition
under which each happens and an input or a run from the start that shows it:

* A message of more than 256 bytes can be handed to the wrong port. LinkMsg
  checks the destination's entry (`kernel/linkmsg1.c:171`), waits for the double
  buffer process (`:486`) and then reads from the entry where to send the message
  (`:489`) without a second check. If a `_PutMsg` uses the entry up meanwhile and
  the next message to come by another link has it for its reply port, the message
  in hand goes to that (`MisdeliveryRun.MisdeliveryHappens`, a run of three
  processors, and `Misdeliveries.Misdelivers`). In every run, short of 256 frees,
  a message is handed to what its entry stood for when LinkMsg read it or to
  nobody, so it goes wrong if and only if that is not what its sender named
  (`Networks.NeverMisdelivered`, `Slips.BoundFor`, `Slips.HandedTo`); a message
  sent on by an entry that is free by then is refused by the neighbour until its
  entry 0 has been freed 255 times (`Slips.HandedToNobody`). If no entry is freed
  in between it cannot happen (`Slips.SteadyNeverMisdelivers`), nor, short of 256
  frees, if the check is made again (`Slips.RecheckSuffices`).
* `_PutMsg` gives up a link only if it has got as far as using it. If
  `EvictLinks` marks it after the link has been handed to it and before it has
  run (`kernel/putmsg1.c:211`), nobody ever gets the link again
  (`Links.LostIff`, `Links.LostReachable`, `Links.LostForEver`).
* A function called through `System` has to come back at high priority;
  otherwise its thread can be passed over for a less urgent one
  (`ExecutiveRuns.BackInv`, `Fairness.Overlooked`, `Fairness.OverlookedReachable`).
* That the hint `HighestAvailPri` is at most every run queue in use, as Dispatch
  needs, assumes that a clock handler lowers it for every thread it wakes. The
  ARM handler does so only for a thread more urgent than the running one
  (`kernel/ARM/armslice.a:426-440`), so an interrupt inside System can leave a
  thread above the hint (`ClockHandlers.ArmHint`, `ClockHandlers.ArmHintReachable`).
  It and the C40's also compare times as signed numbers, not with After, which
  fails around the turn from 0x7fffffff to 0x80000000 (`ClockHandlers.SignedTest`).
* A time-out of `_PutMsg` or `_GetMsg` that happens to end at the clock reading
  0xffffffff never comes, as that word stands for no time-out in the `endtime` it
  is kept in (`kernel/putmsg1.c:78-79`, `kernel/port1.c:403`); one of 2^31
  microseconds or more is over at the first scan (`Fates.Past`,
  `Fates.MissedDeadline`, `Fates.PastAtOnce`). `Fates.FailedIff` has the exact
  condition under which any call fails.
* On the C40, `_GetMsg` clears the alignment bits of the flag byte in any case
  and `_PutMsg` only if there is data, in spite of the layout of
  `kernel/getmsg1.c:122-131`; otherwise the message received is the same
  whichever side comes first (`Rendezvous.EitherOrder`, `Rendezvous.OrderMatters`).
* On the C40, `_PutMsg` takes a header with alignment bits for one on its way
  through (`kernel/putmsg1.c:259`), and leaves the bits it sets in the sender's own
  header (`:295`). A header that has been sent with unaligned data is not fit to be
  sent again, unless the same data also follows the control vector
  (`C40Sends.SentAgain`, `C40Sends.SentAgainWrong`).

`kernel/C40/csliceintr.c`, the handler written in C, calls itself a dummy
implementation and is built by neither makefile (`kernel/C40/makefile:79`,
`kernel/ARM/makefile:77` list it beside the documentation). `ClockHandlers` shows
that it is a run of the steps above and what it would do - its comment at lines
71-72 takes `SliceTime` for signed, which it is not - but nothing else here
depends on it.

## Model

| member | source | states |
|---|---|---|
| Reciprocals.U3 | kernel/nccsupport.c:148-171 | for every 32-bit dividend the estimate is never above the quotient by 3 and low by at most 2, with no sum leaving 32 bits |
| Reciprocals.U5 | kernel/nccsupport.c:176-187 | likewise for 5: never above, low by at most 1 |
| Reciprocals.U6 | kernel/nccsupport.c:189-207 | likewise for 6 |
| Reciprocals.U7 | kernel/nccsupport.c:209-221 | likewise for 7, although the remainder is formed through a sum that may leave the word |
| Reciprocals.U9 | kernel/nccsupport.c:226-242 | likewise for 9, whose path starts by rounding up |
| Reciprocals.U10 | kernel/nccsupport.c:244-262 | likewise for 10 |
| Reciprocals.U11 | kernel/nccsupport.c:264-278 | likewise for 11, whose path re-uses the dividend twice |
| Reciprocals.U12 | kernel/nccsupport.c:280-293 | likewise for 12 |
| Reciprocals.U13 | kernel/nccsupport.c:295-309 | likewise for 13 |
| Reciprocals.U14 | kernel/nccsupport.c:311-324 | likewise for 14 |
| Reciprocals.U15 | kernel/nccsupport.c:326-337 | likewise for 15 |
| Reciprocals.S3 | kernel/nccsupport.c:834-852 | for every magnitude up to 2^31 the signed estimate by 3 is low by at most 1 |
| Reciprocals.S5 | kernel/nccsupport.c:860-870 | likewise for 5 |
| Reciprocals.S6 | kernel/nccsupport.c:872-883 | likewise for 6 |
| Reciprocals.S7 | kernel/nccsupport.c:885-896 | likewise for 7 |
| Reciprocals.S10 | kernel/nccsupport.c:918-930 | likewise for 10 |
| Reciprocals.Tenth | kernel/nccsupport.c:724-756 | the estimate of the division by ten is never above and low by at most 1 |
| Division.Ladder | kernel/nccsupport.c:368-397 | entered at any label with the dividend left below twice the shifted divisor, it ends with a remainder below the divisor and loses nothing |
| Division.Label | kernel/nccsupport.c:354-366 | the label chosen bounds the dividend, and no tested shift leaves 32 bits |
| Division.Normalise | kernel/nccsupport.c:346-366 | the loop ends at a multiple of 256 of the divisor from which a label fits |
| Division.General | kernel/nccsupport.c:346-405 | for every divisor from 17 on and every dividend the two loops end with the exact quotient and remainder |
| Division.UDivide | kernel/nccsupport.c:109-405 | the unsigned quotient, and 0 for divisor 0 |
| Division.URemainder | kernel/nccsupport.c:411-705 | the unsigned remainder, and the dividend for divisor 0 |
| Division.SDivide | kernel/nccsupport.c:760-1077 | the quotient truncated toward zero, modulo 2^32, for every pair of words |
| Division.SRemainder | kernel/nccsupport.c:1081-1344 | the remainder with the dividend's sign, for every pair of words |
| Division.TruncationIsUnique | kernel/nccsupport.c:772-772 | the identity, the bound and the sign rule determine quotient and remainder |
| Division.QuotientOverflow | kernel/nccsupport.c:760-1077 | over 32-bit words the exact quotient overflows for INT_MIN by -1 and in no other case |
| Division.DivisionIdentity | kernel/nccsupport.c:1081-1344 | what the two signed routines return satisfies the identity of section 6.5.5 of ISO/IEC 9899:1999 modulo 2^32 always, and exactly if and only if not INT_MIN by -1, which gives INT_MIN and 0 |
| Division.PackedSigns | kernel/nccsupport.c:780-788 | the two sign bits packed into ip are the signs of the dividend and of the quotient |
| Division.UDiv10 | kernel/nccsupport.c:724-756 | the unsigned quotient by ten |
| Division.SDiv10 | kernel/nccsupport.c:1348-1397 | the signed quotient by ten, INT_MIN included |
| Ports.ExtendKeepsEntries | kernel/port1.c:230-300 | filling a free slot or doubling the base table keeps every existing entry's look-up and the terminator, and adds exactly 64 fresh entries |
| Ports.ExtendFreeList | kernel/port1.c:276-300 | the extended free list is the fresh entries, last first, and then the old list; it is acyclic and holds exactly the free entries |
| Ports.NewPortIsNew | kernel/port1.c:71-95 | a new descriptor leads to its own entry, which was free, differs from every live descriptor, and leaves the others and the free list intact |
| Ports.FreePortFrees | kernel/port1.c:105-125 | a port is freed if and only if it is live and not permanent; then its own descriptor is stale, and nothing else changes |
| Ports.RunValid | kernel/port1.c:71-125 | over any run of allocations, frees and writes the table and its free list stay well formed |
| Ports.CycleCountsFrees | kernel/port1.c:117-117 | an entry's cycle counter is the number of its frees, as a byte |
| Ports.StaleDescriptors | kernel/kernel.h:53-75 | over any run a descriptor passes the cycle check if and only if its entry has since been freed a multiple of 256 times |
| Ports.RootStruct.PortInit | kernel/port1.c:35-61 | the first table: 192 free entries and a well-formed free list |
| Ports.RootStruct.ExtendTable | kernel/port1.c:230-300 | the loop that looks for a slot and doubles the table (FreeSlot) and the loop that threads the free list compute Ports.Extended |
| Ports.RootStruct.KernelNewPort | kernel/port1.c:71-95 | the new table and descriptor |
| Ports.RootStruct.KernelFreePort | kernel/port1.c:105-125 | the new table and return code |
| Routing.InstallReplyFacts | kernel/linkmsg1.c:154-169 | the reply port of a message is replaced by a new surrogate that names the link it came by and the port it named; no entry in use changes |
| Routing.ForwardFacts | kernel/linkmsg1.c:433-456 | a hop along a surrogate rewrites the destination, uses the surrogate up unless preserved or permanent, and touches only it and the new reply surrogate |
| Routing.DeliverFacts | kernel/linkmsg1.c:171-265 | a hop onto a local port changes only the port's age and adds the reply surrogate |
| Routing.ConsumeFacts | kernel/putmsg1.c:177-192 | sending through a surrogate frees it if the message is not preserving and the entry not permanent, and changes nothing else |
| Routing.KernelPutMsg | kernel/putmsg1.c:43-192 | _PutMsg's routing, with its error exits in order, computes Routing.PutMsg |
| Routing.KernelAccept | kernel/linkmsg1.c:125-433 | LinkMsg's routing up to where a message that goes straight on may give way, allocating before it checks the destination, computes Routing.Accept, of which Conservation says what is kept, handed over and thrown away |
| Routing.ReplyMarked | kernel/linkmsg1.c:160-168 | the descriptor that goes on is marked remote and for transmission; its entry is a trail on the way, a surrogate at the last node, and belongs to the owner of the destination's |
| Routing.KernelFinish | kernel/linkmsg1.c:517-519 | its end frees the entry unless the message is preserving or the entry, as it is by then, permanent |
| Routing.KernelLinkMsg | kernel/linkmsg1.c:125-456 | all of it, nothing coming between, computes Routing.LinkMsg, whose outcomes are those of ForwardFacts, DeliverFacts and Conservation |
| Journeys.TrailIsAcyclic | kernel/linkmsg1.c:154-169 | a trail of surrogates never comes back to an entry |
| Journeys.TrailFrame | kernel/linkmsg1.c:154-169 | a trail outlives every change that spares its own entries |
| Journeys.TravelArrives | kernel/linkmsg1.c:433-456 | over any number of hops the message reaches the end of its trail, uses up exactly the entries it may, and lays a trail in their wake that leads to the sender's reply port |
| Journeys.TransmitArrives | kernel/putmsg1.c:177-192 | the same from the sender's own call of _PutMsg |
| Journeys.RoundTrip | kernel/linkmsg1.c:150-176 | a request and the answer to its reply port both arrive, and afterwards nothing is in use that was not before: the way back is gone and the way out is freed |
| Ledgers.CycleCheck | kernel/kernel.h:71-75 | the cycle check passes if and only if the entry has been freed a multiple of 256 times since the descriptor was issued |
| Ledgers.InstalledOk | kernel/linkmsg1.c:154-169 | a reply surrogate stands for the same local port as the descriptor it replaces, one hop further away |
| Ledgers.AttachedOk | kernel/link1.c:125-140 | the permanent port of a link that comes up stands for the local port at the far end, and no descriptor changes its meaning |
| Ledgers.TrailsLeadHome | kernel/linkmsg1.c:154-169 | as long as no entry on it has been freed, following a descriptor's trail ends at exactly the port it was made for, in as many hops |
| Networks.StepKeeps | kernel/linkmsg1.c:125-520 | every step of the network - ports opened and freed, links attached, messages put, queued, received, claimed, sent on, finished with, buffered, lost or given up - keeps the meaning of all descriptors and messages |
| Networks.RunKeeps | kernel/linkmsg1.c:125-520 | hence every run does, whatever comes between the parts of LinkMsg and of _PutMsg |
| Networks.RunExtends | kernel/linkmsg1.c:125-520 | over every run, what a descriptor was issued for stays what it stands for |
| Networks.StartedOk | kernel/port1.c:35-61 | a network whose tables have just been made satisfies it |
| Networks.NeverMisdelivered | kernel/linkmsg1.c:150-176 | in every run, short of 256 frees of an entry it went through since its descriptor was issued, a message that is handed over is in the hands of what Dest called for when LinkMsg last read it from an entry or when the message was made, and if it has at most 256 bytes, of what its sender named |
| Conservation.StepConserves | kernel/linkmsg1.c:171-456 | each event of the network adds one copy of a message if it is put, takes one away if LinkMsg or _PutMsg refuses it or it is given up, abandoned or lost on a wire, and otherwise neither loses nor doubles any |
| Conservation.RunConserves | kernel/linkmsg1.c:171-456 | over every run a message is on wires, waiting, on its way and handed over as often, in all, as it was put less what was so taken away |
| Conservation.ThereOnce | kernel/linkmsg1.c:171-456 | from the start, a message put once and not dropped is in exactly one place, once |
| Conservation.ReceivePlaces | kernel/linkmsg1.c:189-204 | what LinkMsg does not refuse it hands to the local port if a receiver is there, keeps to wait if there is none or the link is busy, and sends on otherwise; it refuses, for a local port without a receiver, exactly the messages that asked not to wait, and so keeps none of them |
| Conservation.PutPlaces | kernel/putmsg1.c:55-192 | _PutMsg hands over exactly what it does not refuse and what is for a local port of its node |
| Conservation.PutMsgErrors | kernel/putmsg1.c:52-185 | Err_BadPort if and only if Dest is null or its entry has since been freed, but not a multiple of 256 times; Err_BadLink if and only if it has not and leads to a link that is down |
| Conservation.LinkMsgErrors | kernel/linkmsg1.c:171-427 | Err_BadPort for a stale Dest; for one that was never freed Err_BadRoute if and only if its link is down, and Err_Congestion if and only if it is a local port without a receiver and the message asked not to wait |
| Refinements.PutRefines | kernel/putmsg1.c:55-192 | the network's step for _PutMsg leaves the table, and on the way out the header and link, that Routing.PutMsg does |
| Refinements.ReceiveRefines | kernel/linkmsg1.c:150-433 | the first part of LinkMsg leaves the table that Routing.Accept does |
| Refinements.FinishRefines | kernel/linkmsg1.c:517-519 | its last part leaves the table that Routing.Consume does, and nothing else changes |
| Refinements.LinkMsgRefines | kernel/linkmsg1.c:125-520 | the two or three parts of LinkMsg, with nothing coming between, together leave the table, header and link that Routing.LinkMsg does, for small messages and large |
| Slips.BoundFor | kernel/linkmsg1.c:486-489 | whatever has become of the entry, what a message that has its link is bound for: what the entry stands for, if it is a surrogate for that neighbour; what the null port calls for, if it is free; and else what the word in it calls for there |
| Slips.HandedTo | kernel/linkmsg1.c:486-489 | over every run from there, short of 256 frees, it is handed to the port the entry stood for when it was read or to none |
| Slips.SlipsWhen | kernel/linkmsg1.c:486-489 | it is no longer bound for the same port if and only if the entry stands for another one, or for none of that node and the word in it does not call for the same |
| Slips.SlipsOnlyIfFreed | kernel/linkmsg1.c:486-489 | which cannot be unless the entry has been freed since it was checked |
| Slips.RecheckSuffices | kernel/linkmsg1.c:171-171 | the same check made again at that point passes if and only if the entry has been freed a multiple of 256 times meanwhile, and short of 256 no message that passes slips |
| Slips.NullRefused | kernel/linkmsg1.c:171-171 | the null port passes LinkMsg's check if and only if entry 0 has been freed 255 times, or 256 times more often |
| Slips.HandedToNobody | kernel/linkmsg1.c:486-489 | in every run a message sent on by a free entry is handed to nobody before that |
| Slips.SteadyNeverMisdelivers | kernel/linkmsg1.c:486-489 | in every run from the start in which no message slips, as in every one in which no entry is freed between LinkMsg's check and its reading, no message of any size is misdelivered short of 256 frees |
| Misdeliveries.Misdelivers | kernel/linkmsg1.c:171-489 | in every network where a large message without a reply port waits so, another waits to use up the same entry, and the next message from the neighbour it goes to gives a local port there as its reply port, four events end with the large message in the hands of that port: the second is put and queues, the third is received, the first is sent on and arrives |
| MisdeliveryRun.MisdeliveryHappens | kernel/linkmsg1.c:171-489 | a run of three processors in a row, just started, gets there, with nothing lost, nothing freed but by a message that uses it up, and nothing more than once |
| DoubleBuffers.StepInv | kernel/linkmsg1.c:839-877 | every interleaving of single statements keeps one process receiving the chunk after the one the other is sending |
| DoubleBuffers.InStep | kernel/linkmsg1.c:83-85 | the two never both receive or both send, and meet only at matching points |
| DoubleBuffers.SomebodyMoves | kernel/linkmsg1.c:83-85 | there is no deadlock before the message is through |
| DoubleBuffers.StepDecreases | kernel/linkmsg1.c:839-874 | every step brings the end nearer |
| DoubleBuffers.DoubleBufferCopies | kernel/linkmsg1.c:460-521 | however they interleave, the destination link carries the header and then the source link's bytes in order, both counts end at 0, and no byte beyond the message is taken |
| DoubleBuffers.AlwaysGetsThrough | kernel/linkmsg1.c:824-878 | from every reachable state some schedule completes the message, within a bound |
| DoubleBuffers.ReadyForNext | kernel/linkmsg1.c:891-912 | the pair is then ready for the next message |
| DoubleBuffers.SingleBuffer | kernel/linkmsg1.c:980-1003 | the chunk loop sends the same bytes |
| C40Receives.LeftShuffle | kernel/linkmsg1.c:1082-1119 | moving whole words down by one to three bytes in place is a byte copy, and the byte before and after survive as they must |
| C40Receives.ReceiveData | kernel/linkmsg1.c:268-375 | for every alignment, size and address the data lands unchanged, no other byte of memory changes, and exactly the sender's words are taken from the link |
| C40Receives.PieceSizes | kernel/linkmsg1.c:276-284 | the words the receiver takes are the words the sender rounds out to |
| C40Receives.SenderEmits | kernel/putmsg1.c:302-316 | what _PutMsg puts on the link for a header without alignment bits is what the receiver expects |
| C40Sends.SendBody | kernel/putmsg1.c:258-316 | the two branches of _PutMsg send C40Sends.Body, and leave the bits of C40Sends.Bits in the sender's header |
| C40Sends.ReceiverGets | kernel/putmsg1.c:258-316 | the receiver gets the control vector and exactly this data: what the sender said if its header had no bits set, and otherwise what lies that many bytes past the control vector |
| C40Sends.ThroughRouted | kernel/putmsg1.c:259-283 | which is right for a message that was buffered, with its data in the words after its control vector |
| C40Sends.SentAgain | kernel/putmsg1.c:289-296 | and right for a header that was sent before with unaligned data if and only if the same data is to be found there too |
| C40Sends.SentAgainWrong | kernel/putmsg1.c:259-296 | and there is such a header for which it is not |
| Times.AfterIsOrder | kernel/gexec.h:766-776 | After is true time order for times within 2^31 microseconds of a common base, wherever the clock wraps |
| Times.AfterFailsHalfWay | kernel/gexec.h:766-776 | two times half a turn apart are each after the other |
| Filters.KeepAndTake | kernel/kill1.c:357-368 | what a scan keeps and what it takes are together the list, each element counted |
| IdQueues.Append | kernel/putmsg1.c:75-84 | a waiter joins the end of an intrusive queue whose tail pointer is in its head |
| IdQueues.Jump | kernel/link1.c:1786-1802 | a jumper joins at the front and inherits the tail |
| IdQueues.Pop | kernel/getmsg1.c:85-91 | the head leaves and the tail pointer moves to the next |
| IdQueues.Dq | kernel/kill1.c:357-368 | taking out an element at any position keeps the queue well formed |
| IdQueues.TimeoutScan | kernel/port1.c:399-409 | exactly the waiters whose finite endtime has passed leave, with rc Err_Timeout, resumed once each and in order; the rest stay, in order |
| Rendezvous.EitherOrder | kernel/getmsg1.c:82-147 | the receiver ends with the sender's header, control and data, its own Dest and a marked Reply, and identically whichever side came first, if and only if it is not a C40 message without data whose alignment bits are set |
| Rendezvous.OrderMatters | kernel/getmsg1.c:122-131 | and there is such a message |
| Rendezvous.PutInv | kernel/putmsg1.c:67-176 | a call of _PutMsg keeps the port's invariant: one side waits at most, both sides in order, every call accounted for, every meeting a true transfer; which calls may fail is in Fates |
| Rendezvous.GetInv | kernel/getmsg1.c:62-151 | a call of _GetMsg keeps it |
| Rendezvous.ScanInv | kernel/port1.c:398-434 | a timeout scan keeps it |
| Rendezvous.AbortInv | kernel/kill1.c:56-93 | _AbortPort keeps it |
| Rendezvous.EmptyInv | kernel/port1.c:85-90 | a new port satisfies it |
| Rendezvous.RunInv | kernel/putmsg1.c:67-176 | over every run the two queues are never both in use, each side is served in the order of its calls, and each call meets one partner or fails or waits |
| Rendezvous.ReadyMeans | kernel/putmsg1.c:353-371 | _PutReady and _GetReady tell whether a call would complete at once, which is when somebody waits at the other end |
| Fates.FailedIff | kernel/putmsg1.c:74-102 | over every run a call has failed if and only if its timeout was 0 and nobody waited at the other end, or it waited when a scan found its call time plus timeout past, or when the port was aborted |
| Fates.MetIff | kernel/putmsg1.c:103-176 | two calls have met if and only if one was made while the other was the first to wait at the other end |
| Fates.WaitingIff | kernel/putmsg1.c:74-102 | the other calls wait, each at its own end, and none of them with timeout 0 |
| Fates.MessagePassed | kernel/getmsg1.c:82-147 | whoever has met has the message that the transmitter called with, in the buffer it called with itself |
| Fates.PastInWindow | kernel/port1.c:398-434 | within 2^31 microseconds of a call's deadline a scan finds it past if and only if it is, unless the deadline is the word that stands for no time-out |
| Fates.PastAtOnce | kernel/port1.c:398-434 | a timeout counts as over at once if and only if it is for 2^31 microseconds or more, and neither it nor its deadline is that word |
| Fates.MissedDeadline | kernel/port1.c:398-434 | a call with such a deadline waits through any number of scans |
| LocalPorts.LocalPort.PutMsg | kernel/putmsg1.c:67-176 | on the linked queues _PutMsg does what Rendezvous.Put says: with somebody waiting for the message it makes the transfer, and otherwise it fails if and only if its timeout is 0 |
| LocalPorts.LocalPort.GetMsg | kernel/getmsg1.c:62-151 | and _GetMsg what Rendezvous.Get says, up to where a receiver waits |
| LocalPorts.LocalPort.GetMsgWakes | kernel/getmsg1.c:145-151 | a receiver that waited gets its own Dest back, a marked Reply, and the message's return code or the reason why there is none |
| LocalPorts.LocalPort.Meeting | kernel/putmsg1.c:67-176 | a transmitter that meets a waiting receiver, and the receiver's way out, together leave it the message as Rendezvous promises |
| LocalPorts.LocalPort.Timeout | kernel/port1.c:398-434 | both queues of a port lose exactly their expired waiters |
| LocalPorts.LocalPort.AbortPort | kernel/kill1.c:56-93 | every waiter at either end gets the return code and is resumed, in order |
| Links.LinkInfo.WaitLink | kernel/link1.c:1760-1783 | rc and endtime are reset, and state and mcb if it queues; an idle link is taken, a busy one queued for at the tail, and the caller is told whether to suspend |
| Links.LinkInfo.JumpLink | kernel/link1.c:1786-1802 | likewise, but at the front |
| Links.LinkInfo.SignalLink | kernel/link1.c:1805-1817 | ownership passes to the head of the queue, or to nobody if it is empty |
| Links.RunInv | kernel/link1.c:1760-1817 | over every run a queue means an owner, jumpers wait first and latest first, the others get the link in the order in which they came, and each request has owned the link, waits or was dropped |
| Links.OwnerHoldsOn | kernel/link1.c:1760-1817 | over every run from an idle link, its owner is the request that has been granted it and has not let go since, if there is one |
| Links.ReleasePasses | kernel/link1.c:1805-1817 | whoever lets go has the link no more: the head of the queue has it, or nobody if and only if the queue was empty |
| Links.OnlyByRelease | kernel/putmsg1.c:327-336 | a link changes hands only when its owner lets go, and then to the head of the queue |
| Links.LostWhen | kernel/putmsg1.c:211-211 | a step loses the link if and only if it is a _PutMsg that was given the link and runs with the mark of EvictLinks on it |
| Links.LostIff | kernel/putmsg1.c:201-222 | over every run from an idle link, the link is lost if and only if a _PutMsg was marked after the link had been handed to it, and was then the next to run |
| Links.LostReachable | kernel/putmsg1.c:201-222 | two senders, the first done and the second marked before it runs, bring that about |
| Links.LostForEver | kernel/putmsg1.c:201-222 | and then no run ever gives it to anyone |
| Links.OwnerGoesOn | kernel/putmsg1.c:327-336 | otherwise the owner can always go on to let go |
| Links.DrainsIff | kernel/putmsg1.c:201-336 | from a state of any run, by owners' going on and letting go alone, all that wait can have the link in order and leave it idle, if and only if the owner is not lost and will not be when it runs |
| ExecutiveRuns.RunInv | kernel/gslice.c:169-428 | in every reachable state, whatever a clock handler wakes and slices and when, the hint is at most every non-empty run queue, the running thread has the current priority, which is high or at least the hint, every thread is in the one place its save state tells, and the timer queue is in order of true time, overdue threads included |
| ExecutiveRuns.ApplyInv | kernel/gslice.c:127-587 | every call, and each of the three things a clock interrupt may do, keeps all of that |
| ExecutiveRuns.ResumeInv | kernel/gslice.c:344-428 | Resume does, whether the thread is blocked, on the timer queue, or already expired onto a run queue |
| ExecutiveRuns.SetPhysPriInv | kernel/gexec.c:346-363 | SetPhysPri does, up or down |
| ExecutiveRuns.BackInv | kernel/gexec.c:320-330 | System's return keeps the invariant if and only if the hint is no lower than what System goes back to, which a function that is back at high priority guarantees |
| Fairness.DispatchMostUrgent | kernel/gslice.c:169-216 | though it scans from the hint, Dispatch runs the head of the most urgent non-empty queue, and idles only if all are empty |
| Fairness.ExactlyOnePlace | kernel/gslice.c:282-428 | each thread is once in one place, and in none if and only if it is blocked or killed |
| Fairness.FirstInFirstOut | kernel/gslice.c:408-424 | over every run, whatever joined a run queue has run in that order or is still queued |
| Fairness.ApplyWaits | kernel/gslice.c:169-216 | a thread on a run queue stays on it until it is run with nothing queued above it |
| Fairness.SystemReturns | kernel/gexec.c:300-330 | when a thread comes back from System, at once or after the Yield, it has its old priority and nothing is queued above that |
| Promises.SystemRestores | kernel/gexec.c:300-330 | System gives its caller back the priority it had, whatever the function does in between, nested calls of System included, with nothing queued above that |
| Promises.SetPhysPriSets | kernel/gexec.c:346-363 | a thread that raises itself runs on at the level it asked for; one that lowers itself is at that level when it runs again, with nothing queued above it |
| Promises.SuspendedUntilResumed | kernel/gslice.c:282-297 | a suspended thread keeps its reason and is nowhere until it is resumed, over any run |
| Promises.StoppedForEver | kernel/gslice.c:571-590 | a stopped thread is never resumed and never runs again |
| Promises.ResumeReadies | kernel/gslice.c:344-428 | a resumed thread is off the timer queue and last on the run queue of its priority, unless the clock had already put it there |
| Promises.ResumedRuns | kernel/gslice.c:344-428 | and when it runs nothing is queued above it |
| Promises.StartedRuns | kernel/gslice.c:860-938 | a new thread runs, for the first time, at the level it was started for |
| Promises.WholeSlice | kernel/gslice.c:183-187 | whoever is given the processor has a whole time slice |
| Scheduling.YieldGivesWay | kernel/gslice.c:542-555 | if no queue up to the thread's level has a thread it runs on; otherwise the head of the most urgent one runs and the thread is last on the queue of its level |
| Scheduling.SliceGivesWay | kernel/C40/csliceintr.c:85-101 | so does a thread that is sliced |
| Scheduling.LeaveGivesWay | kernel/gexec.c:320-330 | and one that comes back from System, if the hint is above its old priority; otherwise it keeps the processor |
| Scheduling.YieldLetsOthers | kernel/gslice.c:527-555 | over every run, each thread queued at the level of a thread that yields, or above it, has run before that thread runs again |
| Fairness.Overlooked | kernel/gexec.c:300-330 | a System function that leaves its thread below high priority lets a less urgent thread run before it |
| Fairness.OverlookedReachable | kernel/gexec.c:300-363 | a function that lowers its own priority with SetPhysPri inside System gets there from the start |
| TimerRuns.TimedSuspendReturns | kernel/gslice.c:300-428 | between a thread's TimedSuspend and its running again, over any steps, it joins run queues exactly once, and the call returns TRUE if and only if one of the steps was a Resume of it |
| TimerRuns.NeverEarly | kernel/gexec.c:454-518 | over any run whose handler wakes only heads that are due, a thread leaves the timer queue without Resume only after the wake-up time recorded for it, however the clock wraps |
| Sleeping.SleepLasts | kernel/gexec.c:454-518 | over any such run a thread that sleeps or waits with a time-out, and is not resumed, runs again only when more time has passed since its call than it asked for |
| Sleeping.SleepEnds | kernel/gexec.c:454-518 | with the C handler it is on the timer queue, from its call on, exactly as long as no more time has passed than it asked for: it leaves at the first interrupt after |
| TimerRuns.InOrder | kernel/gexec.c:454-518 | over any run, whatever the handler wakes, nobody sleeps on who was to wake before one who has woken without Resume |
| TimerRuns.HeadIsFirst | kernel/gexec.c:481-505 | the head of the timer queue wakes first of all on it, and After finds it due if and only if its true time has passed |
| TimerRuns.SleepTooLong | kernel/gexec.c:454-460 | a sleep counts as over at once if and only if it is for 2^31 microseconds or more |
| ClockHandlers.TickIsRun | kernel/C40/csliceintr.c:34-104 | one interrupt of the C handler is a run of single steps: the clock, the heads that are due, and perhaps a slice |
| ClockHandlers.TickInv | kernel/C40/csliceintr.c:34-104 | with it no thread is left overdue |
| ClockHandlers.Punctual | kernel/C40/csliceintr.c:39-69 | with it, a thread is woken by an interrupt if and only if its true wake-up time has passed, and is then queued or runs with nothing above it |
| ClockHandlers.SliceLasts | kernel/C40/csliceintr.c:71-83 | with it, nobody due and nothing more urgent, a thread keeps the processor for the rest of its quantum |
| ClockHandlers.SliceEnds | kernel/C40/csliceintr.c:71-101 | and is then sent to the end of its queue; with SliceTime at 0 that takes 2^32 interrupts |
| ClockHandlers.Preempts | kernel/C40/csliceintr.c:71-101 | after any interrupt of a thread below high priority nothing is queued above whoever runs then |
| ClockHandlers.SignedTest | kernel/ARM/armslice.a:306-308 | the signed comparison tells true time if and only if the clock has not turned over between the thread's time and the present |
| ClockHandlers.ArmHint | kernel/ARM/armslice.a:426-442 | the hint the ARM handler leaves is sound if and only if the woken thread is not above it, or, if more urgent than the running one, no queue is above the thread |
| ClockHandlers.ArmHintReachable | kernel/ARM/armslice.a:426-442 | from the start a run leads to where it is not: a thread that sleeps at high priority comes due inside a call of System |
| TimerQueues.SlotIs | kernel/gexec.c:481-505 | Sleep's walk finds the place before which all wake no later and from which all wake no earlier; among threads that wake at the same time it is before all but the head of the queue |
| TimerQueues.DozeTimed | kernel/gexec.c:460-518 | Sleep keeps the queue in order of true time for any common base of all end times, overdue threads included |
| TimerQueues.OldestBase | kernel/gexec.c:460-518 | if there is such a base, the earliest of the present and all wake-up times is one, and the latest there is |
| TimerQueues.DueSpeaksForAll | kernel/gexec.c:460-518 | the head of the queue is due if and only if any thread on it is |
| ExecRoots.ExecRoot.Dispatch | kernel/gslice.c:169-216 | the scan of the queues computes Executive.Dispatch |
| ExecRoots.ExecRoot.Suspend | kernel/gslice.c:282-297 | the thread is blocked with its reason before Dispatch scans: Executive.Suspend |
| ExecRoots.ExecRoot.TimedSuspend | kernel/gslice.c:313-329 | status and default result are set before Sleep queues the thread: Executive.TimedSuspend, of which Sleeping says how long it lasts |
| ExecRoots.ExecRoot.Stop | kernel/gslice.c:571-590 | the thread is killed and not saved: Executive.Stop |
| ExecRoots.ExecRoot.EnterProcess | kernel/gslice.c:860-938 | a thread that starts joins its run queue and keeps THREAD_STARTUP: Executive.Start |
| ExecRoots.ExecRoot.Sleep | kernel/gexec.c:460-518 | the insertion loop computes Executive.Sleep, of which Sleeping says how long it lasts |
| TimerLists.InsertTimer | kernel/gexec.c:481-505 | on the linked timer queue, empty or not, the save state goes in at the head or where the walk ends, and every other link stays |
| TimerLists.PlaceIsSlot | kernel/gexec.c:481-505 | that is the place Executive.Sleep has for it |
| ExecRoots.ExecRoot.Resume | kernel/gslice.c:344-428 | the search of the timer queue and the rest compute Executive.Resume |
| TimerLists.RemoveTimer | kernel/gslice.c:356-387 | on the linked timer queue the save state is found if it is there, at any place, and unlinked; the others stay linked in order |
| ExecRoots.ExecRoot.Yield | kernel/gslice.c:527-555 | computes Executive.Yield, of which Scheduling says who runs then |
| ExecRoots.ExecRoot.SetPhysPri | kernel/gexec.c:346-363 | computes Executive.SetPhysPri |
| ExecRoots.ExecRoot.SystemEnter | kernel/gexec.c:300-308 | computes Executive.Enter |
| ExecRoots.ExecRoot.SystemLeave | kernel/gexec.c:321-330 | computes Executive.Leave |
| ExecRoots.ExecRoot.WakeHead | kernel/C40/csliceintr.c:45-69 | a turn of the expiry loop computes Executive.Expire |
| ExecRoots.ExecRoot.SliceIntrHandler | kernel/C40/csliceintr.c:34-104 | the C handler, with the loop and the preemption tests, computes ClockHandlers.Tick |
| ThreadQs.Append | kernel/gslice.c:422-424 | a thread joins the end of a linked run queue, empty or not |
| ThreadQs.TakeHead | kernel/gslice.c:176-180 | the head leaves and an emptied queue gets its own address as tail |
| ThreadQs.EvictRunQ | kernel/kill1.c:657-694 | the queue keeps, in order, the threads outside the pool or busy on a link, also if the first, the last or all go and prev is itself removed; the others are killed |
| ThreadQs.EvictRunQs | kernel/kill1.c:634-697 | every run queue is so filtered, its threads killed or left as they were, and none disturbs another |
| ThreadQs.EvictTimerQ | kernel/kill1.c:451-515 | the timer queue keeps, in order, the threads outside the pool |
| Floats.EncodeIs | fplib/fplib.h:26-27 | normalising a significand of 53 bits gives a double of exactly that value |
| Floats.ClearFraction | fplib/math.c:1016-1026 | the masks clear exactly the bits worth less than one, and exact tells whether there were any |
| Floats.Floor | fplib/math.c:1004-1029 | for every finite double the result is whole, at most the argument, and within one of it |
| Floats.Ceil | fplib/math.c:1031-1056 | for every finite double the result is whole, at least the argument, and within one of it |
| Floats.CeilIsFloor | fplib/math.c:1031-1056 | any ceiling is the negated floor of the negated argument, so both are determined |
| Floats.Modf | fplib/math.c:1058-1087 | whole part and fraction add up exactly, the fraction is below one in size, and neither has the other sign |

## Left out

- Context save and restore, DMA, interrupt entry and the insides of LinkRx and LinkTx: a transfer moves bytes on a FIFO, a context switch changes the current thread.
- The clock handlers that are linked are assembler (kernel/C40/c40intr.a, kernel/ARM/armslice.a, and the transputer's own): the model has the steps they are made of, and of the ARM's the time test and the hint; how they choose to slice is not part of it.
- ClockHandlers.Tick: kernel/C40/csliceintr.c writes TimedWaitUtil through a register and reads a field `wakeup` that include/cpustate.h does not have; the model reads endtime.
- Memory allocation: a table that cannot grow is the outcome NoRoom of a journey, and a precondition elsewhere; membership of a task's pool is a given set.
- Networks.Event: the permanent port of a link is allocated and told its far end in one step, Attach, where the kernel does the one in LinkInit and the other when info messages are exchanged.
- A meeting of _PutMsg and _GetMsg is one step: while they copy they are one level below high priority (kernel/putmsg1.c:118-161, kernel/getmsg1.c:93-139), where calls of other threads may come in; the two have left the port's queues by then.
- Networks.Event: what SingleBuffer and DoubleBuffer do on the way out is a message on a wire or a failure (Abandon, Lose); the bytes are in DoubleBuffers.
- A descriptor whose index lies beyond the port table: GetPTE does not check it, and the model asks for an index that has an entry.
- The port garbage collector, which kernel/port1.c:317-321 switches off.
- MultiWait, and therefore the MultiWaiting branches of the scans and of _PutMsg.
- Flow control, half-duplex links, link probing, Configure, BootLink and XchMsg; the topology is fixed.
- Transfer errors and timeouts in the double buffer and single buffer code, and in the tail of _PutMsg.
- The Dest field that a _PutMsg leaves rewritten when it gives up in a link's queue (kernel/putmsg1.c:211).
- The big-endian branches of the C40 receive path.
- Links.LinkInfo.WaitLink: the suspension itself is not part of it, as it is not of JumpLink; the thread's steps are in Links.Apply.
- Links.LinkInfo.JumpLink: as for WaitLink.
- Ports.RootStruct.ExtendTable: freeing the old base table is not modelled.
- ThreadQs.EvictRunQ: no interrupt comes between its statements, where an append could be lost; the list of known threads is not modelled.
- ThreadQs.EvictTimerQ: the timer queue is taken off the root and put back around it with the clock interrupt off.
- ExecRoots.ExecRoot.Dispatch: run queues are sequences there, and the choice of the restore routine and CPU time accounting are left out; the linked lists are in ThreadQs.
- ExecRoots.ExecRoot.Sleep: the timer queue is a sequence there, as it is in Resume; the relinking is in TimerLists.
- ExecRoots.ExecRoot.Resume: as for Sleep.
- Semaphores: a thread in TimedSuspend is on the timer queue, and Resume stands for Signal.
- Threads that are killed while queued: EvictRunQs and EvictTimerQ are not steps of Executive.Run.
- Floats.Floor: sums and differences are taken to be the exact double whenever there is one, as section 4.3 of IEEE 754-2008 requires; infinities and NaNs are passed through.
- The remaining functions of fplib/math.c, and the IBM and C40 formats.
