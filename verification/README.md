# Forwarding core of the delay-tolerant network, verified

This project models the forwarding core of the node software: contact-graph routing, contact
accounting, the wire codec with its checksum, the bundle queue, the custody table, the node's
step functions, and a network of such nodes sharing a lossy radio channel. Every file is Dafny;
`dafny verify dfyconfig.toml` checks the whole project.

How the modules follow the program:

| module | models |
|---|---|
| Bundles | the bundle record, its clocks and the scheduling key (`dtn_core/bundle.h`, `dtn_core/bundle.c`) |
| Contacts | contacts, capacity accounting, timing, the contact plan (`dtn_core/contact.c`) |
| CgrModel, CgrFrontier, CgrBeam, CgrSearch | the route search: walks and signatures, the Pareto frontier, the K-best beam, and the search itself as a stack machine with loops (`dtn_core/cgr.c`) |
| Timetables, CgrWeights | feasible routes as journeys that may wait, the bit-error test as odds, and what each weight of the cost asks for |
| CgrTheorems, CgrMargin | what a route selection means: soundness, completeness, optimality and its exact condition, what the frontier table holds |
| CgrLimits, CgrTrees, CgrSelect | when the bounded tables suffice: the exact bounds for certain contacts, tree plans and the repository's own plan, and the selection a node calls |
| Crc32, Codec, Bursts | checksum, frame encoder and decoder over byte buffers, round trips, error detection (`dtn_core/bundle.c`) |
| Wire | the frame's layout, byte order and float fields, for a peer that knows only those |
| Queues, Custodies | the queue and the custody table as classes over arrays, each with the function on sequences it computes (`dtn_core/queue.c`, `dtn_core/custody.c`) |
| NodeModel, Nodes | one node's steps as values, and the class that performs them (`node/forwarding.c`) |
| Network, Provenance, Airtime, Flooding, Standing, Episodes | runs of many nodes over a channel that loses, delays, repeats, broadcasts and damages frames; what custody records stand for |
| Deliveries | what each step does in terms of frame, clock and tables alone, and what reaches the users over whole runs |

The imperative code keeps its form: the search runs on an explicit stack with nested loops, the
queue, the custody table, the contact plan and the node are classes with arrays and counters, the
codec writes into a byte buffer. Each method is proved against a function of its inputs or of the
old state, and the properties are lemmas about those functions. So that such a function cannot be
wrong unnoticed, each is also tied to something stated without it: a route to timetables with free
departure times, a cost to delay, odds and spare capacity, a rank to the time left, a step to the
frame and tables it starts from, a frame to its bytes.

Conventions of the model:

- Times, sizes, rates and confidences are exact reals; the logarithm is a parameter `ln`. The two
  time fields that travel in a frame stay 32-bit patterns with a reading `val`, so that the codec
  moves them bit by bit and the node computes with their values.
- The route search has two outcomes the program does not announce. `Overflow` is reported where a
  frontier of eight entries would take a ninth, which the program writes past its array
  (`dtn_core/cgr.c:249`); `Unpruned` where a walk would be expanded at a node that found all eight
  frontier slots taken (`dtn_core/cgr.c:225`), since nothing then stops the program from taking the
  same contact again each time it returns to it. An ordinary answer is possible only where the final
  table holds every accepted walk within its bounds. `AnsweredIffWithinBounds` gives the exact
  bounds for certain contacts, `NineAlwaysOverflow`, `MixedAlwaysOverflows` and `StarNeverFits` plans
  on which every answer is such a stop, and `TreePlanAnswers` a condition with mixed confidences
  that the repository's plan meets.
- A run of the network is any sequence of atomic node steps on a shared, non-decreasing clock. A
  frame once sent may reach any node at any later time, any number of times or never, intact or
  with up to four consecutive bytes changed, other than in the one pattern the checksum is blind
  to (`ShortBurstNoticed`): a frame hit in exactly that pattern passes for another one.
- Where a result speaks of timetables or of odds, `ln` is assumed to be a logarithm (`Logarithm`:
  products go to sums, strictly increasing on positive numbers), and nothing else about it. Results
  with a one-hour lifetime assume that the pattern reads as 3600; `Wire.OneHour` derives that from
  the binary32 format.
- Results about the search assume physical plans where they need them (`PlanOk`: confidences in
  [0,1], no negative delay or counters) and the bounded tables (`Fits`: at most eight receivers and
  no more than the hop limit). These are conditions a caller can check on the plan.

Where the code and its documentation disagree, the model follows the code:

- The header comment of `dtn_core/bundle.c:3` calls the frame little-endian; every field is written
  big-endian. Because the checksum is computed bit-reflected and stored most significant byte first,
  a burst across the edge between body and checksum is not always detected: `ShortBurstNoticed`
  gives the one pattern that is not.
- `dtn_core/cgr.c` prunes by the margin of the last hop (line 218) and charges the smallest margin of
  the path (lines 113-122), so with the default weight 0.3 the route returned need not be a
  cheapest one: `OptimalIffMarginFree`.
- The comment at `node/forwarding.c:164` says that a bundle whose custody timed out is still queued.
  `RecordOutlivesBundle` is a run in which it is not; `QueuedIffEnteredMore` says when it is.

## Model

| member | source | states |
|---|---|---|
| Bundles.PriorityGap | dtn_core/bundle.c:69-98 | priority alone decides the service order exactly when the gap is at least 3, and at least 2 between bundles of equal custody bonus, whatever ages, lifetimes and sizes |
| Bundles.UrgencyBounds | dtn_core/bundle.c:81-86 | urgency stays in (0,1], expired bundles included |
| Bundles.EqualsByDeadline | dtn_core/bundle.c:69-98 | among bundles of equal priority and custody, one ranks above the other if and only if it expires earlier and the other has more than a second left; within the last second they tie |
| Bundles.EqualDeadlines | dtn_core/bundle.c:74-98 | with the same time left, priority decides, then custody at this node; size never matters |
| Bundles.LastSecondTrades | dtn_core/bundle.c:81-98 | a bundle in its last second overtakes an equal one in custody exactly when that has more than 2.5 s left, and one a priority higher exactly when that has more than 3 s |
| Bundles.AliveUntilDeadline | dtn_core/bundle.c:69-86 | a bundle is alive until generation time plus lifetime, and most urgent from then on |
| Contacts.ConsumeKeepsAccounts | dtn_core/contact.c:45-54 | a send admitted by the feasibility check never oversubscribes the contact, whatever its rate |
| Contacts.ReservedOnce | dtn_core/contact.c:37-49 | a reservation takes usable capacity once: releasing it gives it back, sending what was reserved takes no more, and no release gives more than is reserved |
| Contacts.CapacityOverRuns | dtn_core/contact.c:20-54 | over every run of reservations, releases and checked sends from zero, reserved is never negative, bytes used equal the bytes sent and stay within rate times the length of the window |
| Contacts.DeparturesExact | dtn_core/contact.c:89-100 | the departures of a node are exactly its outgoing contacts, each once, in plan order |
| Contacts.FromNode | dtn_core/contact.c:89-100 | the scanning loop counts all departures and stores the first `outCap` of them |
| Contacts.ContactPlan.Add | dtn_core/contact.c:73-78 | appends while there is room and is ignored on a full plan |
| Contacts.ContactPlan.Get | dtn_core/contact.c:80-87 | finds the first contact of a node pair, or reports that there is none |
| Contacts.ContactPlan.ReserveOn | dtn_core/contact.c:43 | adds to the reservation of one contact in place, all others untouched |
| Contacts.ContactPlan.ReleaseOn | dtn_core/contact.c:44 | takes from it down to zero |
| Contacts.ContactPlan.ConsumeOn | dtn_core/contact.c:45-49 | charges one contact in place and releases its reservation down to zero, all others untouched |
| CgrModel.Exchange | dtn_core/cgr.c:198-212 | a contact usable on a late arrival is usable on an earlier one, and is then received no later with no less capacity to spare |
| CgrModel.PrefixIsBetter | dtn_core/cgr.c:206-219 | along a walk time only advances and confidence only falls |
| CgrModel.Revisit | dtn_core/cgr.c:202-203 | a node already marked was reached by a prefix, earlier and surer, so refusing to revisit loses nothing |
| CgrModel.CoverStep | dtn_core/cgr.c:214-240 | whatever reaches a node at least as well also reaches the next one at least as well over any contact usable later |
| CgrModel.CoverRoute | dtn_core/cgr.c:188-299 | once all seeds and accepted walks are expanded, every feasible route, repeated nodes included, is matched by an accepted walk that arrives no later with no less confidence |
| Timetables.UsableIsLeg | dtn_core/cgr.c:198-212 | a contact is usable on arrival if and only if leaving at once is a leg the bundle can take: contact open, room, received alive, even odds of no bit error |
| Timetables.BerIsEvenOdds | dtn_core/cgr.c:24-36 | for every logarithm the test in log space holds exactly where (1-ber) to the number of bits is at least one half |
| Timetables.LateLeg | dtn_core/contact.c:56-69 | leaving later than at once is never received earlier |
| Timetables.FeasibleIffTimetable | dtn_core/cgr.c:165-212 | a route is feasible if and only if some timetable takes its contacts, waiting wherever it likes; the simulated arrival is the earliest of all of them |
| CgrFrontier.Offer | dtn_core/cgr.c:231-259 | an offer is dropped exactly when dominated, otherwise it replaces exactly what it dominates |
| CgrFrontier.FrontierIsParetoSet | dtn_core/cgr.c:231-250 | offering signatures one by one to an unbounded frontier leaves an antichain that covers every offer and holds exactly the offers nothing else dominates |
| CgrTheorems.EntryIsParetoSet | dtn_core/cgr.c:221-260 | in a finished search the frontier of each node holds exactly the signatures ever offered there that no other offer dominates |
| CgrTheorems.EntryIsFrontier | dtn_core/cgr.c:221-260 | in whatever order the offers came, that is what offering them one by one leaves |
| CgrFrontier.InsertKeepsCover | dtn_core/cgr.c:241-250 | what was covered before an insertion stays covered |
| CgrBeam.Push | dtn_core/cgr.c:64-81 | the beam keeps the cheapest `cap` of all routes ever pushed, or all of them if fewer |
| CgrBeam.CheapestOfAll | dtn_core/cgr.c:302-309 | the cheapest route kept is the cheapest ever pushed: eviction never loses the optimum |
| CgrBeam.Cheapest | dtn_core/cgr.c:304-308 | picks the first route of least cost |
| CgrSearch.VisitedContains | dtn_core/cgr.c:96-101 | membership in the visited list |
| CgrSearch.Admits | dtn_core/cgr.c:198-212 | the chain of early exits accepts a contact exactly when it is usable at that arrival time |
| CgrSearch.ComputeCost | dtn_core/cgr.c:103-125 | the loops compute the cost of the forward-simulated route: arrival delay, confidence product, smallest margin |
| CgrWeights.CostInPlainTerms | dtn_core/cgr.c:103-125 | the cost of a walk is the first weight times its delay, less the second times the logarithm of its odds floored at 10^-12, less the third times its least spare capacity |
| CgrWeights.CostDifferences | dtn_core/cgr.c:103-125 | walks alike in two of arrival, odds and margin differ in cost by the weight of the third times its difference |
| CgrSearch.RecordHops | dtn_core/cgr.c:264-271 | records the first ten hops of the walk on the stack and the new contact |
| CgrSearch.OfferAt | dtn_core/cgr.c:221-260 | finds or creates the node's frontier; a signature is pruned exactly when covered there, otherwise covered afterwards; a refused slot means nine nodes reached, a ninth entry nine incomparable signatures |
| CgrSearch.PrunedIsHandled | dtn_core/cgr.c:231-240 | a pruned contact is matched by an accepted walk whose signature at its receiver is as good in all three parts |
| CgrSearch.TryContact | dtn_core/cgr.c:197-294 | one expansion step accepts at most the current walk extended by this contact and leaves the contact matched or ineligible; a contact whose signature is already covered is passed over |
| CgrSearch.AdvanceTop | dtn_core/cgr.c:192-298 | the inner loop stops at the next child, or exhausts the frame with every departure handled |
| CgrSearch.ExpandTop | dtn_core/cgr.c:188-299 | every turn of the stack machine keeps the search invariant and strictly decreases the work left, although a push does not advance the frame's index |
| CgrSearch.SearchFrom | dtn_core/cgr.c:188-299 | the stack machine terminates and leaves everything reachable from the seed explored |
| CgrSearch.Search | dtn_core/cgr.c:127-310 | the search tries every usable seed in plan order and returns the cheapest accepted candidate, or none when no accepted walk reaches the destination, and only if the final table holds all accepted walks within its bounds; a stop comes with nine incomparable walks to a node or nine nodes reached |
| CgrTheorems.WalksAreShort | dtn_core/cgr.c:190-203 | accepted walks have at most one hop more than there are receivers, so a plan of eight receivers never loses a hop |
| CgrTheorems.EveryRouteMatched | dtn_core/cgr.c:149-300 | completeness: every feasible route is matched by an accepted walk to the destination, no later and no less confident |
| CgrTheorems.BestIsOptimal | dtn_core/cgr.c:302-309 | with no weight on the margin, the route picked costs no more than any feasible route |
| CgrTheorems.BestIsSound | dtn_core/cgr.c:262-275 | the route picked is a feasible chain whose nodes from the second hop on are distinct and not the source, with its true arrival time and cost |
| CgrTheorems.BestIsNearOptimal | dtn_core/cgr.c:302-309 | with any non-negative weights, the default ones included, the route picked costs no more than any feasible route and the worth of that route's margin |
| CgrTheorems.SelectionCorrect | dtn_core/cgr.c:127-310 | soundness, completeness (none reported if and only if none exists) and optimality of any answer |
| CgrTheorems.AtHomeNeedsLoop | dtn_core/cgr.c:161-182 | a bundle already where it is going is routed if and only if a usable contact leads from its node back to it |
| CgrWeights.RecordedSimple | dtn_core/cgr.c:161-203 | from the second hop on the route found meets no node twice and never the one it starts from |
| CgrWeights.CheapestHasLeastOutlay | dtn_core/cgr.c:302-309 | without a margin weight no timetable of the bundle is better, delay and odds weighed as configured |
| CgrWeights.DelayAloneMeansEarliest | dtn_core/cgr.c:103-125 | when only delay weighs, no timetable arrives earlier than the route picked |
| CgrWeights.OddsAloneMeanSurest | dtn_core/cgr.c:103-125 | when only confidence weighs, no timetable has better odds, down to the floor |
| CgrSelect.AnsweredInTime | dtn_core/cgr.c:127-310 | what is found is received while the bundle is alive, within the hop limit, and is a timetable of it; in the regime nothing is found only where there is no timetable |
| CgrSelect.FoundIffTimetable | dtn_core/cgr.c:127-310 | in the regime an answer is a route if and only if the bundle has a timetable at all |
| CgrSelect.SelectRoute | dtn_core/cgr.c:127-310 | the same for the method a node calls, on its own plan and bundle, and against every timetable: what is found is received alive; a plan of certain contacts within the tables or a tree plan is always answered, with a route if and only if there is a timetable |
| CgrTheorems.SameLastHopComparable | dtn_core/cgr.c:206-219 | two accepted walks over the same last contact with the same confidence are comparable |
| CgrTheorems.NeverCrowded | dtn_core/cgr.c:233-259 | where eight keys per node tell last contact and confidence apart, no ninth frontier entry is ever needed |
| CgrTheorems.CertainPlanAnswers | dtn_core/cgr.c:221-260 | certain contacts, eight into any node, eight receivers: the search always answers |
| CgrLimits.AnsweredIffWithinBounds | dtn_core/cgr.c:221-260 | plans of certain contacts with at most n receivers and k contacts into any node (n, k at least 2) are always answered if and only if n and k are at most eight |
| CgrLimits.NineAlwaysOverflow | dtn_core/cgr.c:241-259 | on a plan of nine certain contacts into one node every answer is the overflow of its frontier |
| CgrLimits.MixedAlwaysOverflows | dtn_core/cgr.c:241-259 | with mixed confidences eight contacts into a node already overflow its frontier, whatever the search answers |
| CgrLimits.StarNeverFits | dtn_core/cgr.c:221-231 | on a plan of nine receivers every answer is the full frontier table |
| CgrTrees.TreePlanAnswers | dtn_core/cgr.c:221-260 | on a tree of nodes with one confidence per pair, where contacts into a node times nodes behind a first hop stay within eight, the search always answers |
| CgrTrees.ShippedPlanAnswers | config/contact_plan.json:1-23 | on the repository's plan every search from one of its nodes is answered, whatever its contacts have carried |
| CgrTrees.ShippedPlanRoutes | config/contact_plan.json:1-23 | there a route is reported missing exactly when there is none, and what is found is feasible and cheapest up to what the margin is worth |
| CgrMargin.OptimalIffMarginFree | dtn_core/cgr.c:103-125 | for non-negative delay and confidence weights, whatever the search answers is a cheapest route on every plan if and only if the margin weight is zero |
| CgrMargin.TrapMisleads | dtn_core/cgr.c:214-240 | on a plan of three contacts every answer is the dearer of the two routes |
| Crc32.Update | dtn_core/bundle.c:27-37 | the nested loops compute the specified checksum, mask trick included |
| Crc32.CheckValue | dtn_core/bundle.c:27-37 | the checksum of the digits 1 to 9 is the published check value of the IEEE 802.3 polynomial |
| Crc32.AbsorbAllInjective | dtn_core/bundle.c:31-35 | different registers stay different whatever bytes follow |
| Crc32.AbsorbPacked | dtn_core/bundle.c:31-35 | absorbing up to four bytes is shifting their packed word through at once |
| Crc32.BurstChangesCrc | dtn_core/bundle.c:28-37 | messages that differ only inside a window of four bytes have different checksums |
| Codec.DecodeOfEncode | dtn_core/bundle.c:100-167 | decoding an encoded bundle gives back every wire field, size 45 plus payload length, runtime fields reset |
| Codec.EncodeOfDecode | dtn_core/bundle.c:128-167 | an accepted frame re-encodes to exactly its bytes, its size field is its length, and the fields that do not travel start reset |
| Codec.FrameInjective | dtn_core/bundle.c:100-126 | one frame, one bundle |
| Codec.BurstRejected | dtn_core/bundle.c:128-157 | a burst of up to four bytes inside the body or inside the checksum of a valid frame is rejected |
| Codec.ByteChangeRejected | dtn_core/bundle.c:128-157 | changing any single byte of a valid frame makes it invalid |
| Codec.U64RoundTrip | dtn_core/bundle.c:44-60 | big-endian 64-bit fields survive both directions |
| Wire.FrameLayout | dtn_core/bundle.c:100-126 | where every field of a frame lies: "DT", version 1, names, control fields, payload, checksum of all before it |
| Wire.U16BigEndian | dtn_core/bundle.c:40 | two-byte fields keep the order of numbers byte by byte: most significant byte first |
| Wire.U64IsTwoWords | dtn_core/bundle.c:41-46 | a long goes out as its upper word and then its lower word |
| Wire.WordSample | dtn_core/bundle.c:41-43 | the word 0x01020304 goes out as 1, 2, 3, 4 |
| Wire.OneHour | node/forwarding.c:46-47 | read as IEEE 754 binary32, the lifetime of generated bundles is 3600 s |
| Codec.Serialize | dtn_core/bundle.c:100-126 | writes exactly the frame at the start of the buffer and nothing else, or refuses an oversized payload or short buffer leaving the buffer alone |
| Codec.Deserialize | dtn_core/bundle.c:128-167 | the sequence of checks and field reads computes the decoder function |
| Bursts.ChecksumDelta | dtn_core/bundle.c:28-37 | how a change in the last bytes covered changes the checksum depends on the changed bits alone |
| Bursts.SilentChange | dtn_core/bundle.c:123-124 | only one change in the last two bytes covered leaves the low half of the checksum alone; none in one or three bytes does |
| Bursts.ShortBurstNoticed | dtn_core/bundle.c:128-157 | a burst of up to four bytes anywhere in a valid frame is rejected if and only if it is not the one pattern across the edge of body and checksum |
| Bursts.ThreeBytesNoticed | dtn_core/bundle.c:128-157 | a burst of up to three bytes anywhere in a valid frame is rejected |
| Queues.VictimIsLowest | dtn_core/queue.c:33-47 | the victim is the earliest bundle of the lowest class present, strictly below the newcomer; none exactly when no class is lower |
| Queues.AdmitEffect | dtn_core/queue.c:49-77 | an admission evicts at most that victim, admits exactly when its code is not -1, loses nothing else, and keeps the byte and slot bounds |
| Queues.CommandsStay | dtn_core/queue.c:49-77 | over any run of admissions the bounds hold, and a COMMAND bundle is never evicted unless a class byte of 4 to 127 arrives |
| Queues.CommandOustedIffOutranked | dtn_core/queue.c:33-77 | a newcomer can evict a COMMAND bundle from some queue if and only if its class byte is 4 to 127 |
| Queues.LosslessIffRoom | dtn_core/queue.c:49-77 | the newcomer is in and nothing is lost if and only if fewer than 16 bundles are queued and its bytes are free |
| Queues.EvictsIffPressed | dtn_core/queue.c:49-77 | a bundle is pushed out if and only if a slot is free, the newcomer's bytes are not, at most a tenth of the bytes is free and some class is lower; the newcomer then gets in exactly if it fits |
| Queues.NewcomerWaits | dtn_core/queue.c:52-55 | a newcomer is served after every queued bundle it does not outrank |
| Queues.DrainOrder | dtn_core/queue.c:91-123 | repeated pops at one time serve every bundle once, in non-increasing rank |
| Queues.ServedByDeadline | dtn_core/queue.c:109-123 | the bundle served expires no later than any equal one, or within a second |
| Queues.DrainByDeadline | dtn_core/queue.c:109-123 | repeated pops serve equals by deadline |
| Queues.NodeQueue.QueueLoad | dtn_core/queue.c:16-21 | the accumulator loop sums the queued sizes |
| Queues.NodeQueue.FindVictim | dtn_core/queue.c:33-47 | the scan computes the victim function |
| Queues.NodeQueue.Enqueue | dtn_core/queue.c:49-77 | the in-place admission computes the admission function and its code |
| Queues.NodeQueue.PeekNext | dtn_core/queue.c:97-107 | index of the first bundle of highest rank |
| Queues.NodeQueue.PopNext | dtn_core/queue.c:109-123 | removes the first bundle of highest rank by swapping the last one in; among equals, the one with the least time left |
| Queues.NodeQueue.Dequeue | dtn_core/queue.c:79-89 | removes the first bundle with the identifier, or nothing when there is none |
| Custodies.TransferKeepsTable | dtn_core/custody.c:29-50 | one record per bundle and at most 32 are kept; the new record is in exactly when there is room; no other record changes |
| Custodies.ReleaseKeepsTable | dtn_core/custody.c:52-62 | release removes exactly the bundle's record |
| Custodies.SweepExact | node/forwarding.c:157-169 | the sweep that removes while it iterates leaves exactly the records not timed out, each as often as before |
| Custodies.CustodyManager.CanAccept | dtn_core/custody.c:12-27 | accepts exactly live bundles that fit, under an accepting policy, of which this node holds no record |
| Custodies.CustodyManager.Transfer | dtn_core/custody.c:29-50 | updates or appends the record in place and sets the custodian only if recorded |
| Custodies.CustodyManager.Release | dtn_core/custody.c:52-62 | swap-removes the first record of the bundle |
| Custodies.CustodyManager.IsTimedOut | dtn_core/custody.c:64-71 | whether the bundle's first record has run out |
| Custodies.CustodyManager.Sweep | node/forwarding.c:157-169 | the loop terminates and computes the sweep function |
| NodeModel.UniqueIffBelowRange | node/forwarding.c:37-39 | identifiers minted with counts below c are unique across all nodes if and only if c is at most 2^32 |
| NodeModel.IdParts | node/forwarding.c:37-39 | the upper half of an identifier is the node, the lower half its count |
| NodeModel.GeneratesAsAsked | node/forwarding.c:35-54 | the bundle generated carries the message, clipped to 160 bytes, to the destination asked for, its priority equal to its class; with room it is queued unchanged |
| NodeModel.GenerateKeeps | node/forwarding.c:31-60 | generating keeps the node invariant: bounds, encodable bundles of true size located here, custody table, contact accounts |
| NodeModel.ReceiveKeeps | node/forwarding.c:62-104 | handling any frame keeps it |
| NodeModel.RequeueAppends | node/forwarding.c:118-150 | putting a popped bundle back always succeeds and evicts nothing |
| NodeModel.TickConserves | node/forwarding.c:107-179 | a tick keeps the queue's bundles or removes exactly one, which had expired or was sent alive in a frame that decodes to it and has its length |
| NodeModel.TickKeeps | node/forwarding.c:107-179 | a tick keeps the node invariant |
| NodeModel.SendsOverOwn | node/forwarding.c:118-139 | what a node sends leaves over a contact of its own |
| NodeModel.SweepMembers | node/forwarding.c:157-169 | a record survives the sweep if and only if its time is not up |
| Nodes.NodeState.GenerateBundle | node/forwarding.c:31-60 | the new state is the generation function's; with room the queue ends with the bundle asked for, message and all; returns its identifier, or 0 when the queue refuses |
| Nodes.NodeState.HandleReceivedFrame | node/forwarding.c:62-104 | the new state is the reception function's, -1 exactly on a bad frame; a bundle for this node, and no other, is counted as delivered and its custody record is gone |
| Nodes.NodeState.Transmit | node/forwarding.c:125-152 | sent exactly when the contact is open with room, the frame fits and the radio takes it; then the contact is charged, otherwise the bundle goes back |
| Nodes.NodeState.TrySendOne | node/forwarding.c:107-153 | serves the highest-ranked bundle: dropped if expired, sent over the first hop of a route the search answers with, or put back for a stated reason that really holds |
| Nodes.NodeState.Tick | node/forwarding.c:155-179 | sweep first, then one attempt; always completes on a plan the search always answers |
| Network.CustodyAdmits | node/forwarding.c:86-95 | taking custody displaces no queued bundle, and queues the taken one as the admission says |
| Network.StepBalance | node/forwarding.c:31-153 | every step balances the queue against what it logs as entered and left |
| Network.StepConserves | node/forwarding.c:31-153 | every step of any node keeps every node's balance |
| Provenance.IntactRejectedOrBlind | node/forwarding.c:66-70 | under any damage to at most four consecutive bytes, a frame arrives as it was sent, is rejected, or was hit in the checksum's blind spot |
| Provenance.IntactOrRejected | node/forwarding.c:66-70 | with the blind spot excluded, it arrives as it was sent or is rejected |
| Provenance.UniqueIds | node/forwarding.c:37-39 | no two generations anywhere share an identifier |
| Provenance.StepTraced | node/forwarding.c:62-104 | every step keeps every queued, airborne and logged bundle traceable to a generation |
| Provenance.OneOrigin | node/forwarding.c:31-104 | over every run, a bundle found anywhere agrees with exactly one generation on identifier, endpoints, class, priority, times and payload |
| Provenance.RunConserves | node/forwarding.c:31-153 | over every run, what entered a node's queue is what was sent, expired or evicted plus what is still queued |
| Provenance.CommandsSentOrAged | dtn_core/queue.c:33-77 | over every run a COMMAND bundle leaves a queue only by being sent or by expiring |
| Airtime.StepPlan | node/forwarding.c:125-141 | a step charges contacts only by sending, one contact, by the frame's length |
| Airtime.RunCapacity | node/forwarding.c:125-141 | over every run a contact's byte counter is the total length of the frames sent over it and never exceeds its capacity |
| Airtime.SendsFromHere | node/forwarding.c:118-139 | over every run a node sends only over contacts that leave from it |
| Airtime.OthersUncharged | node/forwarding.c:125-141 | a contact that leaves from another node is never charged |
| Flooding.TakenFacts | dtn_core/custody.c:12-50 | an acceptance means a live bundle for another node, not held here, recorded if there is room |
| Flooding.GuardStays | dtn_core/custody.c:52-71 | an acceptance blocks the next one until 1800 s have passed or the bundle has expired, through every kind of step |
| Flooding.AcceptedAtMostTwice | dtn_core/custody.c:12-50 | over every run whose custody tables have room, acceptances of one bundle at one node are 1800 s apart and at most two |
| Flooding.FloodingBound | node/forwarding.c:62-169 | over every such run the transmissions of one bundle number at most one plus two for every node other than its destination |
| Flooding.FloodingBoundByNodes | node/forwarding.c:62-169 | that is at most 2(n-1)+1 in a network of n nodes that contains the destination |
| Standing.FewBundlesRoomy | dtn_core/custody.c:32-50 | a run with at most 32 generation requests never takes custody without recording it |
| Standing.FloodingBoundFewBundles | node/forwarding.c:62-169 | so in such a run the flooding bound holds |
| Standing.AcceptedAgainIffUnrecorded | dtn_core/custody.c:12-50 | right after an acceptance the same frame is accepted again if and only if the table had no room to record it and the queue still has room |
| Standing.RunBacked | dtn_core/custody.c:29-50 | over every run each custody record is that of an acceptance in the log, with its time |
| Standing.QueuedIffEnteredMore | node/forwarding.c:157-169 | over every run a bundle is queued at a node if and only if it entered that queue more often than it left it, by the log |
| Episodes.FullTableTakesTwice | dtn_core/custody.c:42-50 | a node with a full table accepts one frame twice at one time |
| Episodes.RecordOutlivesBundle | node/forwarding.c:157-166 | a run after which a node holds the custody record of a bundle that no node has queued |
| Deliveries.BadFrameIgnored | node/forwarding.c:66-70 | a frame that does not parse changes no node |
| Deliveries.DeliveredAtDestination | node/forwarding.c:75-84 | a bundle heard at its destination is logged and counted as delivered and no record of it is left; nothing else changes |
| Deliveries.CustodyOnTheseTerms | node/forwarding.c:86-102 | any other bundle is taken if and only if it is alive, fits, is not recorded here and the policy allows it; then it is recorded for 1800 s below 32 records and queued below 16 bundles, with this node as custodian only if recorded |
| Deliveries.ServedFirst | node/forwarding.c:110 | a tick serves a bundle no queued one outranks, and no equal one expires before |
| Deliveries.RecordsAfterTick | node/forwarding.c:111-169 | after a tick exactly the records not timed out remain, less that of a bundle found expired |
| Deliveries.TickOutcome | node/forwarding.c:107-153 | a bundle is found expired exactly past its deadline; it is sent only over an open contact of this node with room for it, in a frame that says just that bundle, and only that contact is charged; else it stays queued |
| Deliveries.SentOnTimetable | node/forwarding.c:118-139 | what is sent leaves over the first leg of a timetable of it |
| Deliveries.HeldOnlyWithoutTimetable | node/forwarding.c:118-124 | in the regime of the search a bundle is held back for want of a route only if it has no timetable |
| Deliveries.GeneratedOutcome | node/forwarding.c:31-59 | generating uses up one count and, with room, queues and logs exactly the bundle asked for |
| Deliveries.DeliveredAsSent | node/forwarding.c:31-84 | end to end over every run: what is delivered was asked for by an earlier request, at the node it names, for the node that delivers it, with that message, class, priority and time |
| Deliveries.RunCounters | node/forwarding.c:77-140 | over every run a node counts as delivered and transmitted exactly what the log says |
| Deliveries.RunCustodial | dtn_core/custody.c:29-50 | over every run whose tables have room a queued bundle names the node it is queued at as custodian |

## Left out

- Radio drivers, SPI and GPIO access: sending succeeds or fails freely, receiving is a frame arriving.
- Event loops, command line and tasks of the two node programs: every node call is an atomic step.
- Time synchronisation: callers pass a time that already contains the offset, so repeated syncs do not align clocks as documented; a shared non-decreasing clock is assumed.
- The JSON contact-plan loader, a scanner without a grammar, and its file access.
- The disruption model, which the forwarding code does not call, and tracing, replaced by the run's log.
- Floating-point rounding, infinities and NaN: arithmetic is over reals; the test for a non-finite margin (`dtn_core/cgr.c:123`) never fires there.
- Reboots: the identifier counter is a field of the node that is never reset.
- What happens after a ninth frontier entry or a full frontier table: the search stops with an outcome instead of writing out of bounds, forgetting an entry or looping.
- Optimality of the K-best list beyond its cheapest entry, which the program does not return.
- `contact_plan_get` in the reception path: its result is passed to the custody transfer, which ignores it.
- Partial results of a failed decode: the program may have filled some fields of its output; here a failed decode returns nothing.
- Negative hop or route limits: the hop limit is a natural number and the beam takes at least one route, as the default configuration guarantees.
- CgrMargin.OptimalIffMarginFree: weights on delay and confidence are taken non-negative, as the configuration documents them.
- Flooding.FloodingBound: assumes every acceptance found room for its record; `FewBundlesRoomy` gives a condition on the requests alone, and `AcceptedAgainIffUnrecorded` says what happens otherwise.
- Bursts.ShortBurstNoticed: says nothing about damage to more than four consecutive bytes, which a 32-bit checksum cannot exclude.
- `queue_get`, `custody_get` and `queue_can_accept`: the first two hand out pointers that no modelled code follows, the third is the comparison inside `Queues.Admit`.
- CgrLimits.AnsweredIffWithinBounds: the exact bounds are for plans of certain contacts; for mixed confidences tree plans are covered and a failing plan is given, but no exact condition on a single plan.
- Wire.WordSample: shows the byte order of a word on one value with four different bytes; `Codec.U32RoundTrip` says that no two words share their bytes.
- Deliveries.DeliveredAsSent: says what may be delivered, not that anything is; the channel may lose every frame.
- Provenance.IntactOrRejected: leaves out the one damage pattern the checksum does not see, as `IntactRejectedOrBlind` says.
