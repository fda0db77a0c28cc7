# Fibers, timers and DNS: a verified model

The repository is a library of stackful fibers for network programs. A *runner* keeps a table of
fiber slots and switches between the main stack and fiber stacks; a *poller* waits for sockets and
drains a hashed *timer wheel*, handing each fired timer to the runner it belongs to; and a small DNS
codec builds queries and parses answers so that fibers can connect by name.

This project models those four parts and proves what they promise.

| part | values and theorems | code in the source's own form |
|---|---|---|
| timer wheel | `WheelSpec`, `WheelTheorems`, `WheelRuns`, `WheelSleep` | `Wheel` (class with slots, slab and cursor) |
| poller | `Poller` (packed ids, dispatch) | `Poller.PollerInt` |
| DNS codec | `DnsTypes`, `DnsName`, `DnsNameErrors`, `DnsHeader`, `DnsHeaderBytes`, `DnsRData`, `DnsUtf8`, `DnsParser`, `DnsWire`, `DnsErrors`, `DnsBuilder`, `DnsExamples` | the methods and `DnsBuilder.Builder` |
| fiber scheduler | `FiberTable`, `FiberState`, `FiberSpec`, `FiberSched`, `FiberRuns`, `FiberFrames`, `FiberYields`, `FiberLookups`, `FiberSwitches`, `FiberEvents`, `FiberQueues`, `FiberDelivery`, `FiberLoss`, `FiberParked`, `FiberWakeups`, `FiberTimers`, `FiberLeaks`, `FiberPool` | `Runner.RunnerInt` |

Each method that updates state in place is proved equal to a function on values, and the theorems are
about those functions: over every input, or over every run.

**Timer wheel.** The linked lists threaded through the slab, the slot heads and the cursor represent a
plain sequence of tokens for each slot (`Wheel.Wheel`, `Wheel.PushLinks`, `Wheel.BypassLinks`), and
every run of the wheel refines a map from armed token to (task, tick) (`WheelRuns.EveryRunRefinesMap`).
A drain fires exactly the due timeouts, once each, however far the clock jumped
(`WheelTheorems.DrainExact`), in tick order exactly while it is no more than a turn behind
(`WheelTheorems.FiringOrderIff`, `WheelRuns.RunsInOrderIff`), and the reported next timeout is a safe time to sleep
(`WheelRuns.SleepIsSafe`), and exactly the least armed instant unless a step named in
`WheelSleep.StepKeepsTightIff` has made it too early (`WheelSleep.SleepIsExact`). A run is any sequence of reserving, setting a timeout on a reserved token
for a tick below 2^32, cancelling any token, and polling at times that do not decrease.

**DNS.** The scanner accepts exactly the names whose compression pointers form a chain that goes
strictly backwards after its first hop (`DnsName.ScanAcceptsIff`); the printer's second scan of a
pointer target cannot fail although it uses another bound (`DnsName.RescanSucceeds`); every name in a
parsed packet can be printed (`DnsParser.EveryNamePrintable`); a message is accepted as a packet exactly
when it is the packet's wire form (`DnsWire.PacketAcceptsIff`), and refused with the error of the first
part that is not (`DnsErrors.PacketErrIff`, `DnsNameErrors.ScanErrIff`); and the parser reads a built query
back as the accepted questions exactly when every label is non-empty and ASCII (`DnsBuilder.BuildThenParse`).
Numbers on the wire are stated as numbers: the bits of the header (`DnsHeaderBytes.Stands`), the codes
(`DnsTypes.StandardCodes`), the bytes of a query (`DnsExamples.ExampleQuery`).

**Poller.** A timer set for a duration fires in no drain a tick or more before it is over, and in every
drain past it, and its slot is then in its runner's queue (`Poller.TimerOnTime`); setting one fails exactly
when 4194304 are set (`Poller.PollerInt.TimerReg`).

**Scheduler.** A fiber's own code is unknown, so what it does between two switches is a *burst*
supplied by an oracle, and every theorem holds for all oracles. A *disciplined* run (`FiberRuns.Allowed`,
`FiberSched.EndBurst`) is one in which

- a fiber returns only when it has no children left, and waits for its socket only if it does not count
  as waiting for a lookup;
- no entry of the run queue or of the timed-out queue names a closed fiber (one whose timer token is no
  longer held does no harm);
- the main stack resumes only living fibers;
- a lookup that has been given up delivers no address, its socket being gone;
- a timer whose token is still held is cancelled only if its fiber has no parent, holds its slot and has
  not started, or if the slot was lost;
- fibers do not hibernate.

The condition on timers is exact: any other cancellation of a held token makes the table unsound
(`FiberTimers.CancelTimerSettledIff`). For every disciplined run the slot table is sound, parents form
a forest, so `step_into` and `stepped_out` terminate, stacks are conserved, and a response is delivered
once and in order unless it is overwritten; the runs in which no fiber overwrites or cancels a response
of its own are characterised exactly (`FiberDelivery.CarefulIff`), with a simpler sufficient condition
for authors of fibers (`FiberDelivery.SimpleRunsAreCareful`). Listeners may be refused at any time; every
slot is accounted for (`FiberLeaks.SlotsAccounted`). Several runners share one pool of stacks, and each
stack is in the pool or held by exactly one fiber of one runner (`FiberPool.PoolConserved`).

What a fiber sends is exactly what its bursts end with (`FiberYields.SentIsTraced`), and what a parentless
fiber sends reaches the main stack in that order, with nothing lost or left behind, in every disciplined
run without join_main (`FiberYields.RootsDeliver`). A lookup is given up at the N-th tick of its timer, N
being its timeout in ticks of 250 ms, at least 1 and at most 255 (`FiberLookups.LookupRunsOut`). Queues are
first in, first out (`FiberQueues.EventOrdered`).

## Where the code does less than it seems to promise

Each of these is a theorem: concrete inputs or runs in which the promise fails, and the exact condition
under which it holds.

- `tick as u32` narrows the tick of a timeout. The stored instant maps back to the tick if and only if
  the tick is below 2^32 (`WheelTheorems.ArmedTickExactIff`); beyond that a timeout can fire decades
  early (`WheelTheorems.WrappedTickFiresEarly`).
- With `n` slots and the cursor at tick `cur`, every sound wheel drains in order at tick `now` if and
  only if `now < cur + n`, or `now == cur + n` and nothing is left to visit in the current slot
  (`WheelTheorems.FiringOrderIff`). The same bound is exact for the wheels that runs from an empty one
  produce, below tick 2^32 and once the cursor has moved: beyond it there is a run for every `n`, `cur`
  and `now` whose drain returns a later timeout first (`WheelRuns.RunsInOrderIff`,
  `WheelRuns.SkewedIsReached`).
- The reported next timeout can lie in the past: cancelling leaves the minimum of its slot behind, and so
  does arming a timeout for a later turn into the slot whose walk is about to begin, once the timeout that
  was there has fired (`WheelSleep.CancelLeavesStale`, `WheelSleep.FiredLeavesStale`);
  `WheelSleep.StepKeepsTightIff` says exactly which steps do that, told from the wheel before them.
- A pointer that follows a label and leads to an empty name leaves a trailing dot in the printed text
  (`DnsName.DanglingDotExample`); `DnsName.DisplayText` says exactly when.
- The builder turns an empty label into a zero byte, which ends the name early: the question for the
  root, or for `a..b`, is not read back (`DnsBuilder.RootQuestionIsMisread`,
  `DnsBuilder.UncleanQuestionIsMisread`). It refuses labels of 63 bytes, which RFC 1035 allows. Where
  its documentation speaks of panics it returns an error. A refused question leaves the message as it
  was if and only if its name does not fit: one refused because the count stands at 65535 is in the
  buffer already, and the offset is behind it (`DnsBuilder.Builder.AddQuestion`).
- The builder does not check that the terminator and the codes of a question fit behind its labels, and
  panics exactly when they do not (`DnsBuilder.Builder.AddQuestion`). In the 512 bytes that a lookup
  uses, exactly the hosts of 495 to 499 bytes with short labels cause it, and there are such hosts
  (`DnsBuilder.PanicsIn512Iff`, `DnsBuilder.LongHostIsShort`).
- A fiber in the middle of a family tree that has a response pending is switched into when its own
  child sends, and its next response overwrites the pending one (`FiberLoss.ResponseCanBeLost`);
  `FiberDelivery.CarefulIff` says exactly which runs lose nothing.
- A fiber whose lookup timed out stays marked as waiting for the lookup. The queue entry of a started
  fiber switches into it if and only if it is not so marked; otherwise the entry is swallowed
  (`FiberWakeups.EntryResumesIff`). Such a fiber without children stays suspended through every
  disciplined continuation (`FiberParked.ParkedForEver`), and there is a run that ends with one
  (`FiberWakeups.TimedOutLookupCanStrand`).
- Cancelling the timer of a fiber that was started before it went off puts the slot of a living fiber on
  the free list (`FiberTimers.TimerCanGiveAwayLivingSlot`); `FiberTimers.CancelTimerSettledIff` says
  exactly when cancelling is safe.
- A listener whose socket cannot be registered loses a slot exactly when one is free
  (`FiberLeaks.RefusalLosesIff`). The lost slot keeps the record of its last fiber, so that the links
  between parents and children, read without knowing which slots are lost, hold if and only if no lost
  slot names a parent (`FiberLeaks.PlainlyLinkedIff`, `FiberLeaks.RefusalUnlinksIff`);
  `FiberLeaks.ReapedSlotIsLost` is a run in which one does.
- A lookup that fails leaks its slot exactly when no timer could be armed for it
  (`FiberLeaks.LookupLeaksIff`), and a timer that cannot be armed leaves a fiber that nothing starts
  (`FiberLeaks.TimerIdlesIff`); both stay as they are for ever (`FiberParked.ParkedForEver`). A lookup
  whose socket cannot be registered returns an error although its fiber stays
  (`Runner.RunnerInt.NewResolve`).

## Model

| member | source | states |
|---|---|---|
| `Bits.MaskIsModulo` | src/wheel.rs:84-90 | if n and n-1 share no bit, masking with n-1 is the remainder modulo n, for every tick |
| `Bits.OrOfDisjoint` | src/runner.rs:389-391 | or-ing a slot number below 2^k with a runner number shifted by k is their sum: packing mixes no bits |
| `WheelSpec.TicksOfTickStart` | src/wheel.rs:144-145 | the start of a tick maps back to the tick modulo 2^32 |
| `WheelSpec.TickStartIsFirst` | src/wheel.rs:144-147 | below tick 2^32 a time has come to a tick if and only if it has come to the tick's start, tick times tick length in milliseconds |
| `WheelSpec.ArmKeepsInv` | src/wheel.rs:132-175 | arming keeps the lists a partition of the armed tokens by slot, without repetition, with the cursor inside the current list |
| `WheelSpec.RemoveKeepsInv` | src/wheel.rs:292-315 | removing any token, armed, reserved or absent, keeps the same structure, also under the cursor |
| `WheelSpec.AdvanceKeepsInv` | src/wheel.rs:200-208 | going to the next tick keeps the structure |
| `WheelSpec.SkipKeepsInv` | src/wheel.rs:235-240 | stepping over a timeout that is not due keeps the structure |
| `WheelSpec.FireKeepsInv` | src/wheel.rs:226-234 | firing the timeout under the cursor keeps the structure |
| `WheelSpec.Poll` | src/wheel.rs:188-244 | a poll ends, by (ticks left, list left from the cursor), in a sound wheel of the same shape |
| `WheelTheorems.ArmedTickExactIff` | src/wheel.rs:136-147 | the stored instant maps back to the tick the timeout was deferred to if and only if that tick is below 2^32 |
| `WheelTheorems.ArmKeepsTimeInv` | src/wheel.rs:132-175 | arming keeps every timeout in the slot of its tick, at or after the cursor's tick, and those of the current tick ahead of the cursor |
| `WheelTheorems.RemoveKeepsTimeInv` | src/wheel.rs:292-315 | so does removing a token, including the one under the cursor |
| `WheelTheorems.PollTakesOnlyTheFired` | src/wheel.rs:188-244 | a poll removes nothing or exactly the token it returns, which is due, from its list and from the map |
| `WheelTheorems.PollKeepsTime` | src/wheel.rs:194-208 | a poll keeps the cursor invariant; when it returns nothing the cursor is one past the polled tick and all that remain are later |
| `WheelTheorems.PollCorrect` | src/wheel.rs:188-244 | a poll returns a timeout if and only if one is due, removes exactly that one, and otherwise changes no timeout |
| `WheelTheorems.DrainExact` | src/wheel.rs:177-244 | polling until nothing is returned fires each due timeout exactly once and no other, over any jump of the clock |
| `WheelTheorems.DrainOrder` | src/wheel.rs:194-234 | less than a turn behind, a drain returns the due timeouts tick by tick and in list order |
| `WheelTheorems.ArmKeepsLatestFirst` | src/wheel.rs:149-161 | arming keeps each list sorted with the latest armed first |
| `WheelTheorems.FiringOrderIff` | src/wheel.rs:150-161 | every wheel of n slots at tick cur fires by tick, and within a tick the last armed first, if and only if now < cur + n, or now == cur + n with nothing left in the current slot |
| `WheelTheorems.SkewedIsOutOfOrder` | src/wheel.rs:194-234 | for every n, cur and now beyond that there is a sound wheel that returns a later timeout before an earlier one |
| `WheelTheorems.OutOfOrderAfterATurn` | src/wheel.rs:194-234 | a full turn behind, a poll of a wheel of two slots returns the timeout of tick 3 before that of tick 2 |
| `WheelTheorems.NeverATickEarly` | src/wheel.rs:136-147 | for ticks below 2^32 a timeout fires less than one tick before the instant asked for |
| `WheelTheorems.FiresWhenDue` | src/wheel.rs:136-142 | any drain at a tick at least that asked for and past the cursor's tick at arming fires the timeout if it is still armed |
| `WheelTheorems.WrappedTickFiresEarly` | src/wheel.rs:144-145 | a timeout asked for tick 2^32 fires at tick 1 |
| `WheelTheorems.MinNextIsLeast` | src/wheel.rs:248-261 | the reported next timeout is one of the slot minima and no larger than any |
| `WheelTheorems.SleepBound` | src/wheel.rs:248-261 | if every slot minimum bounds its timeouts, the reported next timeout exists and bounds them all |
| `WheelTheorems.ArmKeepsCover` | src/wheel.rs:171-174 | arming keeps the slot minima below their timeouts |
| `WheelTheorems.RemoveKeepsCover` | src/wheel.rs:292-315 | so does cancelling, which leaves stale minima |
| `WheelTheorems.PollCovers` | src/wheel.rs:200-240 | so does polling, which clears a minimum and restores it while it walks; after a poll that returns nothing all timeouts are bounded |
| `WheelRuns.StepRefinesMap` | src/wheel.rs:132-244 | each operation acts on the map from token to (task, tick) as its plain meaning says; a poll takes a due entry, and none only if none is due |
| `WheelRuns.StepKeepsGood` | src/wheel.rs:82-315 | each operation keeps structure, time, arming order and slot minima |
| `WheelRuns.EveryRunIsGood` | src/wheel.rs:82-315 | all of these hold after every run with a clock that does not go back |
| `WheelRuns.EveryRunRefinesMap` | src/wheel.rs:82-315 | every operation of every run refines the plain map |
| `WheelRuns.SleepIsSafe` | src/wheel.rs:246-261 | in every run, after a poll that returned nothing and any later set_timeout or cancel, no armed timeout is due before the reported next timeout |
| `WheelSleep.ArmKeepsTightIff` | src/wheel.rs:149-174 | arming leaves every slot minimum that of an armed timeout, except exactly into the current slot before its walk begins, for an instant behind the minimum |
| `WheelSleep.RemoveKeepsTightIff` | src/wheel.rs:292-315 | so does cancelling, except exactly the last timeout with its slot's minimum |
| `WheelSleep.PollKeepsTight` | src/wheel.rs:200-240 | so does every poll: clearing and restoring loses and invents no minimum |
| `WheelSleep.StepKeepsTightIff` | src/wheel.rs:108-315 | an operation keeps the minima tight if and only if it is none of those, told from the wheel before it |
| `WheelSleep.SleepIsExact` | src/wheel.rs:246-261 | in every run of such operations, after a poll that returned nothing, the reported next timeout is exactly the least armed instant, and none if and only if nothing is armed |
| `WheelSleep.TurnClearsStale` | src/wheel.rs:200-240 | a drain that takes the cursor a whole turn ahead leaves every slot minimum that of an armed timeout, whatever was there before |
| `WheelSleep.CancelLeavesStale` | src/wheel.rs:281-315 | a run that reports a next timeout with nothing armed |
| `WheelSleep.FiredLeavesStale` | src/wheel.rs:210-216 | a run without cancelling that reports an instant already past |
| `WheelRuns.DeferralIsBounded` | src/wheel.rs:136-140 | in every run a timeout is armed for the tick of its instant or at most two ticks past the last poll |
| `WheelRuns.SkewedIsReached` | src/wheel.rs:132-244 | for every n and start tick, idle or not, there is a run from an empty wheel that arms a later timeout in front of an earlier one |
| `WheelRuns.RunsInOrderIff` | src/wheel.rs:150-161 | all runs that leave n slots at tick cur drain by tick, and within a tick the last armed first, if and only if now < cur + n, or now == cur + n and the cursor is idle, or the cursor has not moved and is not idle, which cannot be |
| `Wheel.PushLinks` | src/wheel.rs:149-169 | pushing at the head keeps prev and next inverse to each other and adds exactly the new token |
| `Wheel.BypassLinks` | src/wheel.rs:298-307 | unlinking the k-th node leaves the list without it, still doubly linked, and takes out only that token |
| `Wheel.FreeIndex` | src/wheel.rs:124-125 | a slab that is not full has an unused index below its capacity |
| `Wheel.ArmRep` | src/wheel.rs:132-175 | the fields set_timeout leaves behind are sound and stand for the wheel with the timeout armed |
| `Wheel.RemoveRep` | src/wheel.rs:292-315 | the fields remove_slab leaves behind are sound and stand for the wheel without the token, the cursor on the successor if it was under it |
| `Wheel.PollUnfolds` | src/wheel.rs:194-241 | one turn of the polling loop, read off the fields, is one step of the abstract poll |
| `Wheel.Unlink` | src/wheel.rs:298-307 | the neighbours of a node, or the slot head, take over its links |
| `Wheel.Wheel.constructor` | src/wheel.rs:84-101 | a new wheel has no entries, no slot minimum and the cursor at tick 0; the number of slots must be a power of two |
| `Wheel.Wheel.TicksToWheelIdx` | src/wheel.rs:327-329 | masking gives the tick modulo the number of slots |
| `Wheel.Wheel.Reserve` | src/wheel.rs:108-126 | hands out an unused token; fails if and only if the slab is at its capacity and that is 0 or the maximum, so a wheel created with room takes exactly the maximum; a full slab doubles, up to the maximum |
| `Wheel.Wheel.SetTimeout` | src/wheel.rs:132-175 | the lists after it stand for the wheel with the timeout armed |
| `Wheel.Wheel.RemoveTimeout` | src/wheel.rs:298-312 | the lists after it stand for the wheel without the armed token |
| `Wheel.Wheel.RemoveSlab` | src/wheel.rs:292-315 | the same for any token, and the entry it held is returned |
| `Wheel.Wheel.Cancel` | src/wheel.rs:283-290 | exactly the given token is gone |
| `Wheel.Wheel.NextTick` | src/wheel.rs:200-208 | at the end of a list the cursor goes to the head of the next slot's list |
| `Wheel.Wheel.StepCursorOn` | src/wheel.rs:214-224 | clears the minimum at the head of a list and moves the cursor on |
| `Wheel.Wheel.RestoreMinimum` | src/wheel.rs:235-240 | lowers the slot minimum to the timeout stepped over |
| `Wheel.Wheel.Poll` | src/wheel.rs:188-244 | the loop over slots and lists is the abstract poll, and returns the fired token's task |
| `Wheel.Wheel.NextTimeout` | src/wheel.rs:248-261 | returns the least of the slot minima |
| `Poller.SplitUndoesPacking` | src/poller.rs:101-105 | splitting a packed id gives runner and slot back if and only if the runner is below 256 and the slot below 2^32 |
| `Poller.PackedBits` | src/runner.rs:389-391 | an id is the slot plus the runner times 2^40 |
| `Poller.DispatchAppends` | src/poller.rs:117-136 | each queue, of slots or of lookup results, grows by exactly what is addressed to its runner, in order |
| `Poller.DispatchCounts` | src/poller.rs:125-129 | a slot number is queued once for every fired timer that carries it |
| `Poller.FoundForItsFiber` | src/poller.rs:131-136 | a lookup result goes to the runner it was found for, with its slot, generation and address |
| `Poller.TimerDispatch` | src/poller.rs:124-129 | draining the wheel adds exactly one entry for each due timer, in its own runner's queue and with its own slot number |
| `Poller.PollerInt.constructor` | src/poller.rs:63-91 | a new poller has an empty wheel of 4096 slots of 250 ms, room for 256 timers and at most 4194304, and 20 empty queues of each kind |
| `Poller.DrainDispatches` | src/poller.rs:124-129 | draining a wheel that keeps time leaves one that keeps time, and for every runner and slot adds one entry for each due timer |
| `Poller.PollerInt.Poll` | src/poller.rs:107-138 | socket events go to the run queues, due timers once each to the timed-out queues, lookup results to theirs; time is kept; a failed socket poll changes nothing; the result says whether anything happened |
| `Poller.PollerInt.PollTimers` | src/poller.rs:124-129 | one drain, dispatched exactly, keeping time |
| `Poller.PollerInt.QueueEvents` | src/poller.rs:117-120 | the loop over socket events is their dispatch |
| `Poller.PollerInt.DeliverFound` | src/poller.rs:131-136 | the loop over lookup results is their delivery |
| `Poller.PollerInt.DrainTimers` | src/poller.rs:124-129 | the loop over the wheel is one drain, dispatched |
| `Poller.PollerInt.FireAll` | src/poller.rs:124-129 | the loop itself ends exactly at the end of the drain, with every fired timer queued, and reports whether any fired |
| `Poller.PollerInt.FireOne` | src/poller.rs:125-128 | one turn of that loop queues the fired timer, and ends the drain when there is none |
| `Poller.PollerInt.TimerReg` | src/poller.rs:140-151 | arms a fresh token for now plus the duration, or plus 250 ms without one, that is for the later of that instant's tick and the one behind the cursor; fails if and only if 4194304 tokens are taken, changing nothing |
| `Poller.TimerOnTime` | src/poller.rs:124-151 | no drain 250 ms or more before the instant a timer was set for fires it, and every drain at its tick or later, and past the cursor's at setting, does and queues its slot for its runner |
| `Poller.PollerInt.ReserveToken` | src/wheel.rs:108-126 | a fresh token, unless 4194304 are taken |
| `Poller.PollerInt.ArmToken` | src/poller.rs:147 | arms a reserved token for a fiber's id |
| `Poller.PollerInt.TimerCancel` | src/poller.rs:153-155 | takes the token out of the wheel, keeping time |
| `DnsTypes.QueryTypeRoundTrip` | src/dns_parser/enums.rs:200-228 | codes and query types are inverse to each other where defined |
| `DnsTypes.QueryClassRoundTrip` | src/dns_parser/enums.rs:230-242 | codes and query classes are inverse to each other where defined |
| `DnsTypes.StandardCodes` | src/dns_parser/enums.rs:200-282 | the codes of the standards, as numbers, give their types and classes |
| `DnsTypes.AskedByCode` | src/dns_parser/enums.rs:7-123 | the code of a question type or class is that of the record type or class of the same name, or of none; OPT cannot be asked for |
| `DnsTypes.UnknownCodes` | src/dns_parser/enums.rs:200-282 | a code is refused, and named in the error, if and only if it is no type's or class's |
| `DnsTypes.HighByteFirst` | src/dns_parser/header.rs:46-62 | words of two and four bytes are read and written with the high byte first |
| `DnsName.LengthOrPointer` | src/dns_parser/name.rs:36-45 | length bytes below 64 start a label; two bytes, the first at least 192, point to the offset in their other fourteen bits |
| `DnsName.Scan` | src/dns_parser/name.rs:21-82 | the scanning loop is total on every pair of buffers and equals the recursive label walk |
| `DnsName.WalkByRuns` | src/dns_parser/name.rs:32-76 | a walk succeeds if and only if its first run of labels ends in a terminator, or in a pointer below the bound whose target walks under that target |
| `DnsName.WalkGivesChain` | src/dns_parser/name.rs:36-59 | an accepted name has a strictly decreasing chain of pointers whose runs hold its labels |
| `DnsName.ChainGivesWalk` | src/dns_parser/name.rs:36-59 | a strictly decreasing chain of well-formed runs is accepted, with those labels |
| `DnsName.ScanAcceptsIff` | src/dns_parser/name.rs:21-82 | a name is accepted if and only if such a chain exists, and what is returned is the prefix up to the terminator or first pointer |
| `DnsNameErrors.ScanErrIff` | src/dns_parser/name.rs:25-76 | the scanner fails with an error if and only if hops, each lower than the one before, lead to bytes that fail for that reason: too short, a pointer not below the last hop, a byte of 128 or more in a label, or a byte from 64 to 191 |
| `DnsNameErrors.BadPointers` | src/dns_parser/name.rs:124-144 | a pointer to itself and two pointers to each other are bad pointers |
| `DnsName.LooserBound` | src/dns_parser/name.rs:28-30 | a walk that succeeds under a bound gives the same under any looser bound |
| `DnsName.OnlyThePrefix` | src/dns_parser/name.rs:77-81 | the bytes behind a name change neither its walk nor its text |
| `DnsName.WalkExtends` | src/dns_parser/name.rs:77-81 | bytes added behind a walkable name do not change its walk |
| `DnsName.ScanIff` | src/dns_parser/name.rs:21-82 | scanning returns a name if and only if the data starts with its bytes and they are exactly one walkable name |
| `DnsName.ScanGivesScanned` | src/dns_parser/name.rs:77-85 | the returned bytes are exactly one walkable name, so byte_len is its length |
| `DnsName.RescanSucceeds` | src/dns_parser/name.rs:97-104 | at a pointer of a scanned name the second scan succeeds, returns a scanned name strictly below, with the same text |
| `DnsName.Display` | src/dns_parser/name.rs:89-117 | the printer terminates on every scanned name, reaches no failing unwrap and no unreachable arm, and prints the rendered text |
| `DnsName.RenderedText` | src/dns_parser/name.rs:89-117 | the printed text is the dot-join of the decompressed labels, with one more dot if a pointer after a label leads to an empty name |
| `DnsName.DisplayText` | src/dns_parser/name.rs:89-117 | a scanned name prints as the dot-join of its labels if and only if no pointer after a label leads to an empty name |
| `DnsName.DanglingDotExample` | src/dns_parser/name.rs:97-104 | a name of that kind, printed with a trailing dot |
| `DnsHeader.FlagWord` | src/dns_parser/header.rs:73-81 | the accumulated flag word is the packed flags; `DnsHeaderBytes.WrittenHeader` says which bits those are |
| `DnsHeader.Write` | src/dns_parser/header.rs:69-88 | the first twelve bytes are the header, where `DnsHeaderBytes.WrittenHeader` says, and the rest of the buffer is unchanged |
| `DnsHeader.UnpackUndoesPackIff` | src/dns_parser/enums.rs:147-198 | unpacking a packed flag word gives the flags back if and only if they are canonical with AD and CD clear |
| `DnsHeader.PackUndoesUnpack` | src/dns_parser/header.rs:41-56 | packing an unpacked word clears AD and CD and nothing else |
| `DnsHeader.ParseUndoesWriteIff` | src/dns_parser/header.rs:37-88 | parse of write is the header if and only if it is canonical with AD and CD clear |
| `DnsHeader.WriteUndoesParse` | src/dns_parser/header.rs:37-88 | write of parse gives the same twelve bytes with the AD and CD bits cleared |
| `DnsHeader.HeaderAcceptsIff` | src/dns_parser/header.rs:37-63 | data starts with a header if and only if its fields, with canonical codes in the flag word, stand in the first twelve bytes |
| `DnsHeaderBytes.ParsedHeader` | src/dns_parser/header.rs:37-63 | a header is refused if and only if it is short or has the reserved bit, with the error for it, and otherwise each field is the stated bits or bytes of the data, in numbers |
| `DnsHeaderBytes.WrittenHeader` | src/dns_parser/header.rs:69-88 | every field of a written header stands in the stated bits and bytes |
| `DnsRData.ParseTxt` | src/dns_parser/rrdata.rs:97-117 | the loop equals the recursive reading of length-prefixed UTF-8 strings, with the same errors |
| `DnsRData.TxtAcceptsIff` | src/dns_parser/rrdata.rs:97-117 | TXT data is accepted with a text if and only if it is a non-empty concatenation of length-prefixed UTF-8 strings whose join is the text |
| `DnsUtf8.Utf8Iff` | src/dns_parser/rrdata.rs:110-113 | text is valid UTF-8 if and only if it encodes a sequence of Unicode scalar values, as RFC 3629 defines it |
| `DnsRData.SoaAcceptsIff` | src/dns_parser/rrdata.rs:67-85 | SOA data is accepted with a record if and only if it starts with the two scanned names back to back and the big-endian bytes of the five words behind them |
| `DnsRData.RDataAcceptsIff` | src/dns_parser/rrdata.rs:23-122 | data of any type is accepted with a meaning if and only if it holds the wire form of that meaning |
| `DnsRData.ParsedNamesPrintable` | src/dns_parser/rrdata.rs:49-95 | every name in parsed record data is a scanned one |
| `DnsParser.QuestionAt` | src/dns_parser/parser.rs:13-33 | a parsed question takes at least 5 bytes and ends within the data |
| `DnsParser.RecordAt` | src/dns_parser/parser.rs:83-117 | a parsed record takes at least 11 bytes and ends within the data |
| `DnsParser.OptAt` | src/dns_parser/parser.rs:120-155 | so does an OPT record |
| `DnsParser.Additional` | src/dns_parser/parser.rs:42-54 | additional records and at most one OPT record together make up the count of the header |
| `DnsParser.ParseQuestion` | src/dns_parser/parser.rs:13-33 | the moving offset reads one question |
| `DnsParser.ParseRecord` | src/dns_parser/parser.rs:83-117 | the moving offset reads one record; a time to live beyond 31 bits becomes zero |
| `DnsParser.ParseOptRecord` | src/dns_parser/parser.rs:120-155 | the moving offset reads one OPT record |
| `DnsParser.ParseQuestions` | src/dns_parser/parser.rs:13-33 | the loop equals the recursive reading of n questions |
| `DnsParser.ParseRecords` | src/dns_parser/parser.rs:34-41 | the loop equals the recursive reading of n records |
| `DnsParser.ParseAdditional` | src/dns_parser/parser.rs:42-54 | the loop equals the recursive reading, a second OPT record being an error |
| `DnsParser.Parse` | src/dns_parser/parser.rs:9-63 | total on every byte string, with every index in range |
| `DnsParser.SectionsMatchHeader` | src/dns_parser/parser.rs:9-63 | sections have the lengths of the header, and the data has at least 12 + 5 questions + 11 records bytes |
| `DnsParser.EveryNamePrintable` | src/dns_parser/parser.rs:9-63 | every name anywhere in a parsed packet can be printed without failing |
| `DnsTypes.TypeIff` | src/dns_parser/enums.rs:244-269 | a code parses to a record type if and only if it is the type's code |
| `DnsTypes.ClassIff` | src/dns_parser/enums.rs:271-280 | a code parses to a class if and only if it is the class's code |
| `DnsWire.QuestionAcceptsIff` | src/dns_parser/parser.rs:13-33 | a question is accepted, with its end, if and only if its scanned name, type, class and flag bit stand there |
| `DnsWire.RecordAcceptsIff` | src/dns_parser/parser.rs:83-117 | a record is accepted, with its end, if and only if its name, codes, time to live, length and the wire form of its data stand there |
| `DnsWire.OptAcceptsIff` | src/dns_parser/parser.rs:120-155 | so for an OPT record |
| `DnsWire.OptStartsIff` | src/dns_parser/parser.rs:6-47 | an OPT record starts where the root name and the code of its type stand |
| `DnsWire.QuestionsAcceptIff` | src/dns_parser/parser.rs:13-33 | so for a section of questions, one behind the other |
| `DnsWire.RecordsAcceptIff` | src/dns_parser/parser.rs:34-41 | so for a section of records |
| `DnsWire.AdditionalAcceptsIff` | src/dns_parser/parser.rs:42-54 | the additional section is accepted if and only if records and at most one OPT record stand there, in the number of the header |
| `DnsWire.PacketAcceptsIff` | src/dns_parser/parser.rs:9-63 | a message is accepted as a packet if and only if it is the packet's wire form, whatever bytes follow |
| `DnsErrors.TxtErrIff` | src/dns_parser/rrdata.rs:97-117 | TXT data is refused if and only if it is empty, or behind its whole strings one overruns it or is not UTF-8, with the error for it |
| `DnsErrors.RDataErrIff` | src/dns_parser/rrdata.rs:23-122 | record data is refused with an error if and only if its length, the first bad name in it or its text is wrong in that way |
| `DnsErrors.QuestionErrIff` | src/dns_parser/parser.rs:13-24 | a question is refused with an error if and only if its name, its room, its type or its class fails, in this order, unknown codes being named |
| `DnsErrors.RecordErrIff` | src/dns_parser/parser.rs:84-119 | so for a record, with the length of its data and the data behind them |
| `DnsErrors.OptErrIff` | src/dns_parser/parser.rs:122-155 | so for an OPT record, which can only be too short |
| `DnsErrors.QuestionsErrIff` | src/dns_parser/parser.rs:13-32 | a section of questions is refused with the error of the first one that is not in wire form |
| `DnsErrors.RecordsErrIff` | src/dns_parser/parser.rs:33-40 | so for a section of records |
| `DnsErrors.AdditionalErrIff` | src/dns_parser/parser.rs:41-53 | so for the additional section, where a second OPT record is an error of its own |
| `DnsErrors.PacketErrIff` | src/dns_parser/parser.rs:9-63 | a message is refused with an error if and only if its header fails for that reason, or the first part that is not in wire form does |
| `DnsBuilder.JoinUndoesSplit` | src/dns_parser/builder.rs:80 | joining the parts of a split text gives the text |
| `DnsBuilder.SplitIff` | src/dns_parser/builder.rs:80 | the parts are the only ones without a dot, byte 46, that join to the text |
| `DnsBuilder.NameReadsBackIff` | src/dns_parser/builder.rs:79-92 | a written name is read back as its parts if and only if all are non-empty and ASCII |
| `DnsBuilder.UncleanNameIsCut` | src/dns_parser/builder.rs:79-92 | of any other name nothing is read, or only a proper part of its labels |
| `DnsBuilder.WriteLabel` | src/dns_parser/builder.rs:84-87 | appends a length byte and the label to what was written |
| `DnsBuilder.FitsIff` | src/dns_parser/builder.rs:80-88 | a name fits if and only if its labels have at most 62 bytes and there is room for them with their lengths |
| `DnsBuilder.WriteLabels` | src/dns_parser/builder.rs:80-88 | the loop fails exactly on a label of 63 bytes or more or one that does not fit, and otherwise appends all labels |
| `DnsBuilder.WriteName` | src/dns_parser/builder.rs:79-92 | gives up exactly when the labels do not fit, panics exactly when they fill the buffer, and otherwise appends them and the terminator |
| `DnsBuilder.WriteQuestion` | src/dns_parser/builder.rs:62-70 | appends name, type and class, gives up inside the name, or panics exactly when the labels fit without room behind them; what stood before is as it was |
| `DnsBuilder.PanicsIn512Iff` | src/dns.rs:360-362 | in a buffer of 512 bytes exactly the names of 495 to 499 bytes with short labels panic |
| `DnsBuilder.LongHostIsShort` | src/dns_parser/builder.rs:80-83 | there is a name with short labels of every length |
| `DnsBuilder.QuestionReadsBack` | src/dns_parser/parser.rs:13-33 | a written question with non-empty ASCII labels parses to the same text, type and class |
| `DnsBuilder.RootQuestionIsMisread` | src/dns_parser/builder.rs:79-92 | the question for the empty text, with any type and class and anywhere in a message, parses to an error |
| `DnsBuilder.UncleanQuestionIsMisread` | src/dns_parser/builder.rs:79-92 | a question with an empty or non-ASCII label never parses to itself |
| `DnsBuilder.QuestionsReadBackIff` | src/dns_parser/parser.rs:13-33 | a sequence of written questions parses to itself, in order, if and only if all labels are non-empty and ASCII |
| `DnsBuilder.BuildThenParse` | src/dns_parser/builder.rs:24-92 | a built message parses to exactly the accepted questions if and only if all labels are non-empty and ASCII, with the same id and recursion flag and empty other sections |
| `DnsBuilder.Builder.constructor` | src/dns_parser/builder.rs:14-19 | a builder that has not started |
| `DnsBuilder.Builder.Start` | src/dns_parser/builder.rs:24-49 | succeeds exactly when the buffer has more than 12 bytes, and writes the id, 1 for recursion or 0, and nine zeros |
| `DnsBuilder.Builder.AddQuestion` | src/dns_parser/builder.rs:57-77 | accepts exactly the questions that fit with room behind their labels while the count is below 65535; panics exactly when the labels fit without that room; a refused question leaves the message as it was if and only if its name does not fit, and at 65535 its bytes follow the others |
| `DnsBuilder.Builder.Count` | src/dns_parser/builder.rs:71-76 | raises the count in place without touching another byte, or keeps it at 65535 |
| `DnsBuilder.Builder.Finish` | src/dns_parser/builder.rs:94-96 | the first twelve bytes are the id, the recursion bit and the number of accepted questions; the written prefix parses to those if and only if all their labels are non-empty and ASCII |
| `DnsBuilder.QueryHeaderBytes` | src/dns_parser/builder.rs:29-47 | the twelve bytes of a query with a number of questions |
| `DnsExamples.ExampleQuery` | src/dns_parser/parser.rs:170-196 | the query for example.com, byte for byte, and what is parsed from it |
| `DnsExamples.QueryOfTwo` | src/dns_parser/builder.rs:24-92 | the bytes of a query for the address of any host of two labels, and that it parses to that question |
| `DnsExamples.NestedNames` | src/dns_parser/name.rs:146-164 | names that point to names, and the texts they print as |
| `Sequences.SwapRemoveFrontRemoves` | src/runner.rs:530 | taking a child out by moving the first into its place removes exactly that child |
| `FiberTable.WithKeepsInv` | src/runner.rs:592-612 | a change to one record that keeps its place keeps the table sound |
| `FiberTable.RegisterRootKeepsInv` | src/runner.rs:446-497 | registering a parentless fiber in a free or new slot keeps the table sound |
| `FiberTable.RegisterChildKeepsInv` | src/runner.rs:468-496 | so does registering a child of a fiber that is running |
| `FiberTable.ReleaseKeepsInv` | src/runner.rs:636-639 | so does giving back the slot of a closed parentless fiber |
| `FiberTable.ReapKeepsInv` | src/runner.rs:529-531 | so does reaping a closed child |
| `FiberTable.DisownKeepsInv` | src/runner.rs:434-441 | so does undoing a registration after a failed lookup |
| `FiberTable.LaunchKeepsInv` | src/runner.rs:594-600 | so does starting a fiber on a pooled or new stack |
| `FiberTable.PoppedStackIsUnheld` | src/poller.rs:169-181 | the stack the next fiber gets is held by no fiber, and leaves the pool once |
| `FiberTable.LoseSlotKeepsInv` | src/runner.rs:468-478 | a refused listener keeps the table sound, lost slots apart, and the same slots unoccupied |
| `FiberTable.UnstackKeepsInv` | src/runner.rs:614-620 | so does putting the stack of a closed fiber back |
| `FiberState.SendKeepsGood` | src/runner.rs:546-549 | sending keeps every response accounted for: taken, pending or overwritten |
| `FiberState.CollectKeepsGood` | src/runner.rs:526-538 | so does a parent taking a response |
| `FiberState.PublishKeepsGood` | src/runner.rs:654-660 | so does handing a response to the main stack, which gets it in order |
| `FiberState.EnrollKeepsGood` | src/runner.rs:446-497 | so does registering a fiber, in a slot that is no longer free |
| `FiberState.ReapKeepsGood` | src/runner.rs:529-531 | so does reaping a closed child whose response was taken |
| `FiberState.ReleaseKeepsGood` | src/runner.rs:636-639 | so does giving a slot back |
| `FiberState.LaunchKeepsGood` | src/runner.rs:594-600 | so does starting a fiber |
| `FiberState.UnstackKeepsGood` | src/runner.rs:614-620 | so does giving up a stack |
| `FiberSpec.TakeChildScene` | src/runner.rs:525-535 | taking from a child keeps the parent running in a sound state; a closed child leaves the children |
| `FiberSpec.ChildIter` | src/runner.rs:507-544 | the loop over children ends, in a sound state with the parent still running |
| `FiberSpec.GetChildMeans` | src/runner.rs:507-544 | get_child returns the response of the first child in the list that has one; if none has, nothing when all are closed, reaping them, and otherwise it waits with no closed child left |
| `FiberEvents.GetChildTakes` | src/runner.rs:525-540 | get_child takes the response it returns from one child, which is queued again, or reaped if closed; children that are gone had closed, and their slots are free |
| `FiberSpec.SpawnKeeps` | src/runner.rs:446-497 | starting a fiber keeps the state sound and every living fiber in its place |
| `FiberSpec.ResolveKeeps` | src/runner.rs:393-444 | so does starting a lookup, on the failing path too |
| `FiberSched.EndBurst` | src/runner.rs:546-589 | giving up control leaves a sound state in which the pending response is the chunk, or what the function returned, or the one before; it is a breach exactly for a return with children left or a socket wait without a socket |
| `FiberYields.YieldMeans` | src/runner.rs:546-589 | the fiber's record and the log of what it sent are exactly what the burst ends with; only join_main hands it to the main stack; nothing else changes |
| `FiberSched.WakeUpScene` | src/runner.rs:592-606 | a fiber that may be switched into runs on its own stack in a sound state |
| `FiberSched.ParentCanStep` | src/runner.rs:629-645 | the parent of a fiber that gave up control may be switched into, and is older: the measure of the recursion |
| `FiberSched.RetireQuiet` | src/runner.rs:636-639 | a closed parentless fiber leaves a sound state with its slot free |
| `FiberSched.RepublishQuiet` | src/runner.rs:646-651 | a parentless fiber with a response leaves a sound state |
| `FiberSched.StepInto` | src/runner.rs:592-612 | switching into a fiber ends, with everything it leads to, in a sound state without a running fiber |
| `FiberSched.SteppedOut` | src/runner.rs:623-652 | so does dealing with a fiber that gave up control |
| `FiberSwitches.WakeUpMeans` | src/runner.rs:566-606 | a fiber wakes up without its timer if it waited for its socket, with the answer taken if it waited for the main stack, and else unchanged; a new one gets the first stack of the pool or one never used |
| `FiberSwitches.BodyTimerIff` | src/runner.rs:566-578 | after a stretch of a fiber its timer is set if and only if the stretch ends in a wait that sets it, or it was set and the fiber did not wait for its socket |
| `FiberSwitches.WokenTimerIsSilent` | src/runner.rs:574-578 | an entry left by the timer of a fiber that its socket woke does nothing, unless the fiber set another |
| `FiberSwitches.StackGoesFirst` | src/runner.rs:614-620 | the stack of a closed fiber is the first of the pool, the one the next fiber to start takes |
| `FiberSwitches.ParentResumesIff` | src/runner.rs:629-645 | the parent of a fiber that gave up control is switched into at once if and only if the fiber has closed or has a response |
| `FiberSwitches.RootSettles` | src/runner.rs:636-651 | a parentless fiber's response goes to the end of the results; its slot to the end of the free list if it has closed, else, with a response, to the end of the queue |
| `FiberTimers.CancelTimerSettledIff` | src/runner.rs:379-387 | cancelling a timer keeps the state sound if and only if its token is not held, or its fiber has no parent, holds the slot and has not started, or the slot was lost |
| `FiberTimers.StartedTimerFreesLiving` | src/runner.rs:379-387 | cancelling the held token of a started fiber puts its slot on the free list while it lives and keeps its stack |
| `FiberTimers.TimerCanGiveAwayLivingSlot` | src/runner.rs:379-387 | a run of seven events that gets there: a fiber returns leaving a queue entry, and the entry starts the timer's fiber that reuses the slot |
| `FiberLeaks.SlotsAccounted` | src/runner.rs:446-497 | in every run a slot is free once, lost, living, closed and waiting for its living parent, or abandoned |
| `FiberLeaks.RefusalLosesIff` | src/runner.rs:468-478 | a refused listener changes the table if and only if a slot is free, and then loses that one |
| `FiberLeaks.LookupLeaksIff` | src/runner.rs:434-441 | a lookup leaks its slot if and only if it fails with no timer armed |
| `FiberLeaks.TimerIdlesIff` | src/runner.rs:364-376 | a timer leaves a fiber that nothing starts if and only if it could not be armed |
| `FiberLeaks.PlainlyLinkedIff` | src/runner.rs:468-496 | that every slot off the free list is a child of its parent once, and of nobody else, holds if and only if no lost slot names a parent |
| `FiberLeaks.RefusalUnlinksIff` | src/runner.rs:468-475 | a refused listener breaks that if and only if the slot it takes held a child before |
| `FiberLeaks.ReapedSlotIsLost` | src/runner.rs:468-475 | a run of four events that breaks it |
| `FiberRuns.Step` | src/runner.rs:707-775 | every allowed event keeps the state sound |
| `FiberRuns.EveryRunIsSettled` | src/runner.rs:592-775 | every disciplined run, with any fiber functions, ends in a sound state |
| `FiberRuns.SlotTableSound` | src/runner.rs:468-496 | in every such run the free list has no repetition and names no living or unreaped fiber, and c is in children(p) exactly once if and only if its parent is p |
| `FiberRuns.ParentsAcyclic` | src/runner.rs:629-645 | in every such run following parents never returns to a fiber |
| `FiberRuns.StacksConserved` | src/poller.rs:169-185 | in every such run of a single runner a fiber holds a stack if and only if it holds a transfer, and each stack ever made is in the pool or held by exactly one fiber |
| `FiberPool.EverySystemIsSound` | src/poller.rs:169-185 | when up to 20 runners share the pool and take turns in any order, each of them stays sound |
| `FiberPool.PoolConserved` | src/poller.rs:169-185 | then each stack ever made is in the pool once, or held by exactly one fiber of exactly one runner |
| `FiberRuns.ResponsesDelivered` | src/runner.rs:507-549 | in every such run without join_main, what was taken from a fiber plus what is pending is what it sent, once and in order, if and only if none was overwritten or cancelled; a parentless fiber's went to the main stack |
| `FiberRuns.OldResponsesDelivered` | src/runner.rs:623-664 | the same for fibers whose slot has been reused |
| `FiberYields.StepSends` | src/runner.rs:592-652 | the log grows, over the whole recursion of a switch, by what the bursts in it end with |
| `FiberYields.SentIsTraced` | src/runner.rs:546-549 | in every disciplined run the log of what a fiber sent is exactly the values its bursts ended with, in order |
| `FiberYields.RootsDeliver` | src/runner.rs:623-664 | in every such run without join_main, what a parentless fiber handed to the main stack is exactly the values its bursts ended with, in order, with nothing pending or lost |
| `FiberYields.FibersDeliver` | src/runner.rs:507-549 | for any fiber, what was taken from it with what is pending is what its bursts ended with, if and only if nothing was dropped |
| `FiberLookups.EventCounts` | src/runner.rs:739-766 | an event that does not disturb a lookup counts it down if and only if it is its timer's |
| `FiberLookups.LookupRunsOut` | src/runner.rs:415-421 | a lookup whose timer is set each time and that is not answered keeps its fiber from starting through fewer than N timer events, and starts it at the N-th; N is its timeout in ticks of 250 ms, at least 1 and at most 255 |
| `FiberLookups.AnsweredLookup` | src/runner.rs:674-703 | an answered lookup has no timer and counts as none, and runs at once if its socket cannot be registered |
| `FiberQueues.EventOrdered` | src/runner.rs:446-668 | every event takes at most one entry, from the front of a queue, and adds only at the ends; free slots are reused in the order they were given back |
| `FiberEvents.EnrollPlaces` | src/runner.rs:446-497 | a new fiber stands in the first free slot or a new one, as a record that has not started, and is its parent's last child; nothing else changes |
| `FiberEvents.SpawnPlaces` | src/runner.rs:488-496 | so does one started with a socket, which is queued at the end |
| `FiberEvents.LookupPlaced` | src/runner.rs:393-433 | so does one that waits for a lookup, with its countdown, and is not queued |
| `FiberEvents.FailedLookup` | src/runner.rs:434-441 | a lookup that cannot be started leaves every other record as it was, its parent's included, and its slot without a fiber, given back if its timer was set |
| `FiberEvents.TimersPlaced` | src/runner.rs:364-376 | so does a timer, with its response pending or its function, and is not queued |
| `FiberEvents.TimerAnswers` | src/runner.rs:739-771 | a timer that answers by itself, going off, puts its response at the end of the results and its slot at the end of the free list |
| `FiberEvents.TimerStarts` | src/runner.rs:766-771 | any other timer switches into its fiber, marked as timed out |
| `FiberEvents.CancelMeans` | src/runner.rs:379-387 | a timer that is given up answers nothing and starts nothing afterwards, and its slot is the last of the free ones |
| `FiberEvents.FetchedInOrder` | src/runner.rs:662-664 | the main stack fetches responses in the order they were handed over |
| `FiberEvents.AnswerWaits` | src/runner.rs:345-356 | the main stack's answer stands in the fiber's record, and the fiber at the end of the queue, until it wakes up and takes it |
| `FiberFrames.BodyFrame` | src/runner.rs:592-606 | between two switches a fiber leaves every other living fiber, and every lost or abandoned slot, as it was, except for responses taken from its own children |
| `FiberDelivery.EndBurstDrops` | src/runner.rs:546-549 | giving up control keeps all responses if and only if the fiber does not send or return with one pending |
| `FiberDelivery.BodyDropsIff` | src/runner.rs:592-606 | the same from the switch into a fiber, whatever it does before |
| `FiberDelivery.StepDropsIff` | src/runner.rs:592-652 | the same over the whole recursion through the parents |
| `FiberDelivery.CarefulStepIff` | src/runner.rs:379-387 | an event loses a response if and only if it is not careful, a cancelled timer's own response included |
| `FiberDelivery.CarefulIff` | src/runner.rs:592-652 | a disciplined run has no response overwritten by its own fiber or cancelled if and only if each of its events is careful |
| `FiberDelivery.CarefulRunsDeliver` | src/runner.rs:507-549 | in careful runs without join_main every response is taken once and in order, except one that is still pending, and a parentless fiber's reach the main stack in that order |
| `FiberDelivery.SimpleRunsAreCareful` | src/runner.rs:592-652 | a run is careful if, between events, only fibers without children have responses pending and no event names one of those |
| `FiberDelivery.LossIffPending` | src/runner.rs:546-549 | giving up control loses exactly the pending response, if and only if the fiber sends or returns |
| `FiberLoss.ResponseCanBeLost` | src/runner.rs:640-645 | a disciplined run of four events that loses a response of a middle fiber |
| `FiberWakeups.BodyScheduled` | src/runner.rs:592-606 | what a fiber does between two switches keeps every fiber whose response was taken in the queue |
| `FiberWakeups.StepScheduled` | src/runner.rs:592-652 | so does the whole recursion of a switch |
| `FiberWakeups.EventScheduled` | src/runner.rs:707-775 | so does every event |
| `FiberWakeups.EveryRunSchedules` | src/runner.rs:533-535 | in every disciplined run a fiber whose response was taken is queued to go on, unless it still counts as waiting for a lookup |
| `FiberWakeups.EntryResumesIff` | src/runner.rs:708-723 | the queue entry of a started fiber switches into it if and only if it does not count as waiting for a lookup, and else is swallowed |
| `FiberParked.ParkedForEver` | src/runner.rs:707-775 | through every further run a stranded fiber (started, childless, marked as waiting for a lookup) stays suspended, a leaked slot is never used, and a fiber without its timer is not started unless an event names its slot |
| `FiberWakeups.TimedOutLookupCanStrand` | src/runner.rs:739-766 | a disciplined run that ends with such a fiber suspended, its response taken and the queue empty |
| `Runner.RunnerInt.constructor` | src/runner.rs:136-145 | a new runner has no fibers and empty queues |
| `Runner.RunnerInt.PlaceFiber` | src/runner.rs:449-487 | writes the new record into the first free slot, or a new one |
| `Runner.RunnerInt.Register` | src/runner.rs:446-497 | the vector, free list and queue after it are the registered state; the slot is the first free one, or a new one at the end |
| `Runner.RunnerInt.RegisterListener` | src/runner.rs:468-487 | the same for listeners; when the socket is refused, only a free slot is lost |
| `Runner.RunnerInt.ChildIter` | src/runner.rs:507-544 | the loop in place is get_child up to its return or wait |
| `Runner.RunnerInt.ReadyIndex` | src/runner.rs:512-524 | the first child that is closed or has a response |
| `Runner.RunnerInt.TakeFrom` | src/runner.rs:525-535 | takes the child's response, reaping or rescheduling it |
| `Runner.RunnerInt.TakeResult` | src/runner.rs:654-660 | moves a response to the main stack's queue |
| `Runner.RunnerInt.StackPop` | src/poller.rs:169-181 | a pooled stack if there is one, else a new one; held by no fiber, and gone from the pool |
| `Runner.RunnerInt.Unstack` | src/runner.rs:614-620 | the stack goes to the front of the pool |
| `Runner.RunnerInt.NewResolve` | src/runner.rs:393-444 | refuses an empty domain; registers a fiber that waits for a lookup, for its timeout in ticks of 250 ms, at least 1 and at most 255; if the lookup fails the parent forgets it and the slot is given back if a timer was armed; if its socket is refused, an error is returned and the fiber stays |
| `Runner.RunnerInt.Undo` | src/runner.rs:434-441 | takes a registration back: the parent forgets its newest child, and a timer gives its slot back |
| `Runner.RunnerInt.RunOps` | src/runner.rs:446-544 | the calls of a burst, in order, up to a wait |
| `Runner.RunnerInt.RunOp` | src/runner.rs:446-544 | one call of a burst |
| `Runner.RunnerInt.EndBurst` | src/runner.rs:546-589 | how a fiber gives up control |
| `Runner.RunnerInt.SetResult` | src/runner.rs:546-547 | a new response replaces the pending one |
| `Runner.RunnerInt.WakeUp` | src/runner.rs:592-606 | starts a fiber on its own stack or resumes it where it waited |
| `Runner.RunnerInt.Body` | src/runner.rs:592-606 | one stretch of a fiber between two switches |
| `Runner.RunnerInt.StepInto` | src/runner.rs:592-612 | the mutual recursion in place is the scheduling function, and terminates |
| `Runner.RunnerInt.SteppedOut` | src/runner.rs:623-652 | so is its other half |
| `Runner.RunnerInt.CancelTimer` | src/runner.rs:379-387 | gives up timer, response and slot |
| `Runner.RunnerInt.NewTimer` | src/runner.rs:358-377 | registers a timer with a response or a function; fails exactly when it cannot be set, and the fiber stays |
| `Runner.RunnerInt.ResumeFiber` | src/runner.rs:353-356 | hands an answer to a fiber and queues it |
| `Runner.RunnerInt.GetResponse` | src/runner.rs:662-664 | takes the first response, if any |
| `Runner.RunnerInt.GetFiber` | src/runner.rs:666-668 | takes the first fiber in join_main, if any |
| `Runner.RunnerInt.RunNext` | src/runner.rs:708-723 | one turn of the loop over the queue in place is the step on values |
| `Runner.RunnerInt.HaveAddress` | src/runner.rs:674-703 | the record after a lookup is answered |
| `Runner.RunnerInt.TimedOut` | src/runner.rs:739-773 | one turn of the loop over timed-out fibers in place is the step on values |

## Left out

- Sockets, TLS, mio, context switches and raw pointers are foreign effects: socket events, the clock and timer results are parameters, and a fiber body is a burst chosen by an oracle.
- Instants are nanoseconds since the wheel was created; instants before that and the overflow check of `time_to_ticks`, which panic, are not modelled.
- The slab is a finite map that hands out an unused index below its capacity; which index it picks is not modelled.
- `Wheel::release`, `move_timeout` and `available` are not called by the library.
- Cancelling a token after its timer has fired and its slab index has been reused: tokens are live or absent in the wheel, and the scheduler keeps only whether a fiber has a timer, so timeout accuracy across that race is not claimed.
- The loop of `run` over lookup results, which only macOS fills, and its check of the slot's `generation`; the poller's side of it is modelled.
- `run`'s three loops appear as one event for each queue entry; since a fiber may queue new work for ever, their termination is not claimed.
- Runner.RunnerInt.Register: is the successful path; a refused listener is in `RegisterListener`.
- FiberRuns.Step: `Allowed` is part of what it requires; the cancellations it leaves out are those that `FiberTimers.CancelTimerSettledIff` shows to be unsound.
- `join_main` and `resume_fiber` are modelled, but delivery is claimed only for runs without them, because they pass values through the same field in the other direction.
- Hibernation, `Drop` of poller and runner, the thread-local tables in `src/tls.c`, `FiberSock::write_bufs`, and the getters and setters of `src/builder.rs`.
- The resolver in `src/dns.rs` beyond the codec, `Header::set_truncated` and the texts of errors; the UTF-8 error inside `TxtDataIsNotUTF8` is dropped, and text is a sequence of bytes.
- Checks that cannot fail are left out: the first length check inside the loop of `Name::scan`, the type check of `parse_opt_record`, and the check of `add_question` for sections already written.
- DnsHeader.Write: takes the whole buffer and fills its first twelve bytes; the panic for slices of another length is not modelled.
