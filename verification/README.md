# eBUS local worker, link and protocol core: a verified model

This project models the state machines and bounded protocols of an eBUS gateway library and proves
what they promise. It covers the shared-memory link between a host and its local worker (AA24), the
plan registry, pool and worker view (AA23), the responder built from both (AA26), the bit engine
(AA25), the driver lifecycle, the bus retry loop and request queue, the telegram automaton with the
escape decoder in front of it, and the wire codec with its CRC.

`dafny verify dfyconfig.toml` checks everything. No file depends on anything outside this directory.

## How it is organised

- **AA24 link.** `LinkLedger`, `Link` and `LinkSafety` interleave host and worker, one load, fill,
  publish or release at a time, over FIFO lanes. `LinkProgress` says what each call achieves and when,
  `LinkTimes` puts capture times on the records. `Envelope`, `Layout`, `LayoutInit`, `Lanes` and
  `LaneRuns` go down to the bytes: a mapping written and accepted, slots, and index words. `HostLedger` and `LaneView` are the
  stateful forms, with their loops and arrays. A release-published index is one atomic step.
- **AA23 plans.** `Registry` and `WorkerView` say on values what each operation does. `RegistrySafety`
  and `PlanSafety` keep one invariant over registry, pool, every worker's view and the
  acknowledgements in flight, in every interleaving. Notices may arrive late, twice, out of order or
  forged; an acknowledgement must have been made by a view. `PlanTheorems` and `Withdrawals` draw the
  conclusions. `PlanEffects` and `ViewEffects` say what each operation does to every slot and view and
  exactly when, `PlanReasons` that no reason is ever weakened, and `PlanLife` follows one plan from its
  claim to the reuse of its storage. `PlanObjects` and `ViewObjects` are the objects with their fields and loops, proved
  against the functions. `Overlap` is the in-place heapsort that finds ambiguous entries.
- **AA26 responder.** `Responder` is a class over the view; it carries the world it lives in as ghost
  state, so that the host may act between any two events, and each event meets any reachable state of
  the AA24 link after its drain.
- **AA25 engine.** `Ticks` holds the rational schedules and the sampler, `EngineState` the invariants,
  `Engine` the class, `EngineEffects` the relations between the states before and after its methods.
  Ports are values: tick and level are arguments, the event sink is an arbitrary
  function, edges are recorded.
- **Driver runtime.** `Driver` makes every critical section and every wait one step of any number of
  threads; timeouts, factory outcomes and adapters are free. `DriverSafety` proves single ownership,
  `DriverFence` says when the retirement fence is left up, `DriverProgress` what start, stop, replacement
  and calls achieve and how a stop's answer follows from its drain.
- **Retry and queue.** `Retry` runs the loop against an adversary. `QueueSpec` states fairness,
  `QueueHeap` is the heap of pointers with ageing and promotion.
- **Receive path.** `TelegramFsm`, `TelegramRuns` and `TelegramBounds` show that the automaton accepts
  exactly the telegrams of a grammar, `PassiveTracking` the same from passive entry. `EscapeDecoder` and
  `ReceivePath` put the decoder in front.
- **Codec.** `Crc` and `Wire` relate table, bitwise and streaming forms and all encoders.

Integers are unbounded; where a 64-bit width matters it is written out.

## What turned out not to hold

- A control-lane record with a payload is accepted by the AA24 writer and refused by its reader.
  `Lanes.PeekReturnsWritten` gives the exact condition, `Lanes.ControlPayloadStaysUnread` the refusal of
  every such record and `Lanes.ControlPayloadAccepted` that they exist. No writer in the source makes one.
- One clock shared by both ends does not keep the AA24 host open: a poll whose reading was taken before
  the record it meets was captured fences it (`LinkTimes.EarlyReadingFences`). `LinkTimes.RegressedExactly`
  gives the exact condition; when every reading is no earlier than the captures before it,
  `LinkTimes.TimelyNeverFencesClock` holds over all runs.
- The AA25 sample deadline wraps at the end of the 64-bit counter. `Ticks.Sampler.Poll` shows that the
  sampler stays sound if and only if the next exact deadline still fits, and that a sampler past that
  point counts missed samples backwards. `Ticks.WrappedIsPast` says where the wrapped deadline lies;
  `Ticks.LastTickWraps` shows that it happens for every anchor but zero.
- `DriverRuntime.Replace` can return with its retirement fence still raised. `DriverFence.StuckExactly`
  says exactly when: its reservation meets a generation or a construction that came in meanwhile. In the
  first case `Replace` even reports success. A start is then refused, also where its comment promises
  the current generation, until a stop or another replacement; no safety property suffers.
- The comment on `startLocked` says that `Start` holds the operation mutex; the code does not take it.
  The model follows the code: exclusion of constructions rests on the one-entry construction table.

## Model

| member | source | states |
|---|---|---|
| `LinkSafety.NoFalseDiscontinuity` | localworker/aa24_ipc.go:2056-2140 | in no interleaving of host and worker steps does control overtaking data raise a discontinuity fence |
| `LinkSafety.AcceptsInOrder` | localworker/aa24_ipc.go:2100-2252 | a data record is accepted only by an open host, in ordinal order with every smaller ordinal read, and no other record carries its ordinal |
| `LinkSafety.WorkerFenceIsFinal` | localworker/aa24_ipc.go:1098-1132 | in every reachable state a fenced worker keeps its fence and writes no further data record, whatever step follows |
| `LinkSafety.GapAlwaysFits` | localworker/aa24_ipc.go:1107-1162 | a local cause puts the gap on its control lane at once, because ordinary records leave one slot free; a stream carries at most one gap |
| `LinkSafety.StopAlwaysFits` | localworker/aa24_ipc.go:2254-2296 | a requested stop is on the host control lane at once in every reachable state |
| `LinkSafety.StopAtMostOnce` | localworker/aa24_ipc.go:2254-2271 | a stream carries at most one stop |
| `LinkSafety.AdmissionsHonourControl` | localworker/aa24_ipc.go:1191-1242 | every command and output symbol ever admitted: no stop and no revocation of its plan was on the lane when its drain began |
| `LinkSafety.TokensNeverReused` | localworker/aa24_ipc.go:2018-2051 | no owner token is admitted twice, even across successor mappings |
| `LinkSafety.StepSound` | localworker/aa24_ipc.go:1337-1534 | every host and every worker step keeps the invariant over lanes, ledger, plans, fences and tokens |
| `LinkSafety.HandleRevokeSound` | localworker/aa24_ipc.go:1273-1334 | handling a revocation keeps the invariant: the plan is marked or retired before any later admission |
| `LinkSafety.HandlePublishSound` | localworker/aa24_ipc.go:1273-1334 | handling a publication adopts only a newer, unexpired plan that no earlier record on the lane revoked |
| `LinkSafety.SuccessorSound` | localworker/aa24_ipc.go:2348-2378 | attaching a successor keeps plan and token floors at the highest of both ends |
| `LinkSafety.FencesAreFinal` | localworker/aa24_ipc.go:1098-1132 | over every run of one mapping a fenced worker keeps its fence and writes no data, and a fenced host never opens again or takes another data record |
| `LinkProgress.TimelyDataTaken` | localworker/aa24_ipc.go:2217-2237 | an open host takes the data record it meets exactly when its capture time did not regress: the ordinal joins the accepted ones, the record is released and the host stays open; a regressed one fences the clock and is not accepted |
| `LinkProgress.OtherDataPolls` | localworker/aa24_ipc.go:2127-2140 | a fenced host reads data on without accepting it, and with no data in sight nothing is read |
| `LinkProgress.TimelyAcknowledgement` | localworker/aa24_ipc.go:2194-2215 | a timely acknowledgement leaves an open host open and takes exactly the plan being revoked under its reference off the list, every other plan kept in order |
| `LinkProgress.RegressedAcknowledgement` | localworker/aa24_ipc.go:2190-2193 | a regressed acknowledgement fences an open host on the clock and drops no plan |
| `LinkProgress.GapFences` | localworker/aa24_ipc.go:2186-2189 | a gap fences the host whatever its capture time and whatever fence it had |
| `LinkProgress.ClockFenceExactly` | localworker/aa24_ipc.go:2170-2226 | in every reachable state a step raises the clock fence if and only if it reports a clock fault, or meets a regressed acknowledgement or data record |
| `LinkProgress.AllDelivered` | localworker/aa24_ipc.go:2100-2140 | as many timely polling rounds as worker records are unread deliver all of them: every data record accepted in order, nothing skipped, and the host still open |
| `LinkProgress.OctetPosted` | localworker/aa24_ipc.go:1354-1428 | an open worker posts each octet under the next ordinal, or closes and names it by the one gap when the lane is full; any other call changes nothing |
| `LinkProgress.CompletionPosted` | localworker/aa24_ipc.go:1509-1537 | the active command completes once: with a record while it lives, silently once lapsed |
| `LinkProgress.PublicationHandled` | localworker/aa24_ipc.go:1290-1336 | a publication is adopted if and only if the worker is open with room and the plan is newer than all before and not expired; otherwise it is remembered as refused, or fences when there is no room for that |
| `LinkProgress.StopHandled` | localworker/aa24_ipc.go:1278-1289 | a stop read by the worker fences it, if nothing else had, and drops its active command |
| `LinkProgress.CommandTakenExactly` | localworker/aa24_ipc.go:1430-1472 | the oldest queued command is taken exactly when no live one is active, and becomes active exactly when its token is new, its plan adopted and not revoked and its deadlines ahead; a refused one is consumed all the same |
| `LinkProgress.SymbolAdmittedExactly` | localworker/aa24_ipc.go:1488-1507 | an output symbol is admitted if and only if it is for the active live command of a plan adopted and not revoked |
| `LinkProgress.RetirementAcknowledged` | localworker/aa24_ipc.go:1539-1598 | with room on the lane, a retirement acknowledgement leaves exactly for a plan the worker holds as revoked, and that plan is forgotten |
| `LinkProgress.PublishedExactly` | localworker/aa24_ipc.go:1882-1909 | a plan is published exactly by an open host, newer than all before, not expired, with room in the table; a full lane fences instead |
| `LinkProgress.SentExactly` | localworker/aa24_ipc.go:2018-2054 | a command is queued exactly under a listed plan not being revoked, with a new token, live, and room for it |
| `LinkProgress.RevokedExactly` | localworker/aa24_ipc.go:1911-1951 | a revocation is queued exactly once for a listed plan, all other plans untouched; a full lane fences instead |
| `LinkProgress.PlanReachesWorker` | localworker/aa24_ipc.go:1882-1909 | a plan published between settled ends is adopted by the worker's next call |
| `LinkProgress.CommandIsServed` | localworker/aa24_ipc.go:1430-1507 | a command sent under an adopted plan becomes active at the next call, and every symbol asked for while it lives is admitted |
| `LinkProgress.RevocationCompletes` | localworker/aa24_ipc.go:1539-2215 | withdrawal comes full circle: revoked, dropped and acknowledged by the worker, off the host's list, both ends open and every other plan untouched |
| `LinkTimes.TimelyNeverFencesClock` | localworker/aa24_ipc.go:2170-2226 | over every run in which each reading, on either side, is taken no earlier than the captures before it, and no clock fault is reported, the host never fences on the clock |
| `LinkTimes.RegressedExactly` | localworker/aa24_ipc.go:2170-2226 | an open host fences on the clock if and only if the record was captured after its reading or before the last one taken from the lane, and otherwise takes it and remembers its time |
| `LinkTimes.EarlyReadingFences` | localworker/aa24_ipc.go:2170-2176 | an instance: a poll whose reading was taken before the record it meets was captured fences the host, although no clock went back |
| `LinkLedger.AccountBoundary` | localworker/aa24_ipc.go:2056-2088 | accounting the boundary ordinal moves the boundary over exactly the ordinals already explained, and the ledger stays balanced with the lanes |
| `LinkLedger.AccountEarly` | localworker/aa24_ipc.go:2056-2088 | an early control ordinal becomes explained, once, and the ledger stays balanced |
| `LinkLedger.BoundaryIsData` | localworker/aa24_ipc.go:2056-2088 | while anything is explained early, the boundary is the ordinal of the oldest unread data record |
| `LinkLedger.AdvanceMeets` | localworker/aa24_ipc.go:2072-2086 | advancing passes exactly the explained ordinals that the boundary meets and keeps the rest |
| `HostLedger.Books.AccountSequence` | localworker/aa24_ipc.go:2056-2088 | the nested scans compute the 64-bit ledger function of the old state, the last ordinal included |
| `HostLedger.AccountAgrees` | localworker/aa24_ipc.go:2056-2088 | below the last 64-bit ordinal the host's ledger is the one the interleavings are proved with |
| `Layout.ValidateMapping` | localworker/aa24_ipc.go:355-470 | accepts a mapping exactly when header, descriptors, sizes, alignment and pairwise disjointness are regular, and then returns the layout they describe |
| `Layout.ValidateHeader` | localworker/aa24_ipc.go:355-410 | accepts exactly the headers that match the expectation |
| `Layout.ValidateDescriptor` | localworker/aa24_ipc.go:414-448 | accepts exactly the descriptors whose lane sizes, offsets and indices are in bounds |
| `Layout.ValidateDescriptors` | localworker/aa24_ipc.go:411-450 | collects one lane of each kind, or fails because a kind repeats or a descriptor is bad |
| `Layout.AllDisjoint` | localworker/aa24_ipc.go:451-463 | true exactly when no two spans share a byte |
| `Layout.AcceptedIsSound` | localworker/aa24_ipc.go:355-470 | in an accepted layout every lane lies inside the mapping and all slot areas and index words are apart |
| `LayoutInit.ImageIsRegular` | localworker/aa24_ipc.go:291-353 | every mapping the initializer writes is accepted by the validator for the identity it was written for |
| `LayoutInit.InitMapping` | localworker/aa24_ipc.go:291-353 | writes a mapping into the caller's memory exactly when the request fits it, with the lanes as configured, and the validator accepts it; a refusal leaves the memory untouched |
| `LayoutInit.CheckRequest` | localworker/aa24_ipc.go:291-327 | the initializer's checks pass exactly for a request that fits |
| `Envelope.EnvelopeRoundTrip` | localworker/aa24_ipc.go:696-776 | decoding an encoded slot gives back every field and the payload |
| `Lanes.PeekReturnsWritten` | localworker/aa24_ipc.go:824-932 | a written record is read back field for field if and only if it fits the reader's buffer and a control record has no payload |
| `Lanes.ControlPayloadStaysUnread` | localworker/aa24_ipc.go:904-906 | every control record the writer accepts with a payload is refused as malformed by every reader, whatever its buffer |
| `Lanes.ControlPayloadAccepted` | localworker/aa24_ipc.go:635-687 | such records exist: a stop with one byte of payload passes the writer of any control lane with room for it |
| `LaneRuns.LaneIsBoundedFifo` | localworker/aa24_ipc.go:787-932 | over any accepted mapping and in every interleaving, records read are a prefix of records written, at most `capacity` are in flight, and every unread record is whole in its slot |
| `LaneRuns.StepSparesLane` | localworker/aa24_ipc.go:787-932 | a step on one lane changes no slot byte and no index word of another lane |
| `LaneRuns.PeekFindsOldest` | localworker/aa24_ipc.go:888-932 | a reader finds exactly the oldest unread record |
| `LaneRuns.StepKeeps` | localworker/aa24_ipc.go:807-885 | every fill, publish, peek and release keeps indices, unread slots and the read prefix of all four lanes |
| `LaneView.Lane.Indices` | localworker/aa24_ipc.go:787-805 | accepts loaded indices exactly when they agree with each other and with what this side knows |
| `LaneView.Lane.Write` | localworker/aa24_ipc.go:813-862 | writes exactly when shape, room beyond the reserve and index sanity hold; then fills one owned slot and publishes its index, and otherwise changes no byte |
| `LaneView.Lane.Peek` | localworker/aa24_ipc.go:888-932 | returns what the slot at the consumer index decodes to, without changing memory |
| `LaneView.Lane.Release` | localworker/aa24_ipc.go:874-886 | moves the consumer index word by one and no other byte |
| `PlanTheorems.SymbolIsPrepared` | localworker/aa23_plans.go:1874-1892 | in every reachable state a response byte is the byte at that offset of the reply prepared under the pin's exact identity, all frozen deadlines lie in the future, and the worker observed no revocation of the slot but supersessions |
| `PlanTheorems.MatchIsTheOnlyOne` | localworker/aa23_plans.go:1830-1858 | a match is the one entry of the pinned plan that answers the request; no match means no entry does |
| `PlanTheorems.LengthIsPrepared` | localworker/aa23_plans.go:1861-1870 | the reported length is that of the prepared reply |
| `PlanTheorems.AckFreesUnreached` | localworker/aa23_plans.go:1547-1564 | the host gives up a slot on an acknowledgement only when no worker can select or read it |
| `PlanTheorems.AddressHasOneOwner` | localworker/aa23_plans.go:1473-1524 | at every reachable state an address has at most one published slot and all its held slots carry the key of its record |
| `PlanTheorems.FreedAddressIsEmpty` | localworker/aa23_plans.go:938-961 | a step that frees an address leaves none of its plans with a worker |
| `PlanTheorems.KeyAdmittedOnce` | localworker/aa23_plans.go:839-905 | no registration key is admitted twice in any run |
| `PlanTheorems.PairAdmittedOnce` | localworker/aa23_plans.go:1392-1430 | no (worker, plan) pair is admitted twice in any run |
| `PlanTheorems.PlansStay` | localworker/aa23_plans.go:1392-1430 | a prepared plan is never prepared differently under the same identity |
| `PlanTheorems.StoredEntry` | localworker/aa23_plans.go:1433-1454 | a copied entry points at exactly its own request and reply in the slot's bytes |
| `PlanLife.ClaimedExactly` | localworker/aa23_plans.go:839-905 | a claim is admitted if and only if its conditions hold, as claimed; a refused one changes nothing |
| `PlanLife.WrittenExactly` | localworker/aa23_plans.go:1392-1431 | a plan is written if and only if its conditions hold; otherwise nothing changes |
| `PlanLife.RenewedExactly` | localworker/aa23_plans.go:1088-1108 | a lease is renewed exactly while it runs, to an end not earlier and within the limit, and nothing else changes |
| `PlanLife.PlanIsShown` | localworker/aa23_plans.go:1392-1524 | written and shown at one reading: the first free slot publishes the plan with its frozen deadlines, the replaced one is superseded, nothing else moves |
| `PlanLife.PlanIsPinned` | localworker/aa23_plans.go:1623-1773 | a worker offered a newer plan adopts it and pins it for the next transaction |
| `PlanLife.ReplyIsServed` | localworker/aa23_plans.go:1830-1892 | until a revocation is observed, every timely reading matches the one entry that answers and gives out its reply byte by byte; no match means no entry answers |
| `PlanLife.WithdrawalStopsService` | localworker/aa23_plans.go:972-1812 | once the withdrawal is observed the pin gives out nothing more, and nothing is acknowledged yet |
| `PlanLife.WithdrawnSlotReturns` | localworker/aa23_plans.go:489-1908 | released, acknowledged and recycled, the slot is free under the next incarnation, and the address with the last plan of an ended registration; no other slot moves |
| `PlanEffects.RetirementStores` | localworker/aa23_plans.go:747-780 | a chosen published plan becomes retained for the given reason with identity, incarnation, deadlines, content and pin unchanged; a retained one keeps the stronger reason; one being written is dropped under the next incarnation, or goes out of service; all other slots are untouched |
| `PlanEffects.ClockFaultRevokes` | localworker/aa23_plans.go:737-745 | a clock fault leaves every plan revoked |
| `PlanEffects.ConflictRevokes` | localworker/aa23_plans.go:1068-1075 | a conflict leaves the plans of its address revoked, and no others touched |
| `PlanEffects.UnregisterRevokes` | localworker/aa23_plans.go:972-983 | unregistering leaves the plans of its key revoked, and no others touched |
| `PlanEffects.BindRevokes` | localworker/aa23_plans.go:1156-1181 | binding a newer worker or stream leaves every plan revoked; any other binding does nothing |
| `PlanEffects.AdvanceRevokes` | localworker/aa23_plans.go:1111-1134 | a newer source under a live lease leaves the key's plans revoked and stores the source; any other changes nothing |
| `PlanEffects.SweepRetires` | localworker/aa23_plans.go:985-1014 | a sweep retires the plans of exactly the active records it covers, for its reason |
| `PlanEffects.DisconnectRevokes` | localworker/aa23_plans.go:985-1004 | a disconnect leaves the plans of the subscriber's active registrations revoked, and no others touched |
| `PlanEffects.ExpiryExpires` | localworker/aa23_plans.go:1136-1154 | expiry takes exactly the published plans past a deadline and the plans under a lapsed lease, as expired |
| `PlanEffects.PublishedExactly` | localworker/aa23_plans.go:1473-1524 | a publication succeeds if and only if the plan is written, current in worker, stream, source and registration, without conflict, in time and newer than any shown for its key |
| `PlanEffects.PublicationSupersedes` | localworker/aa23_plans.go:1473-1524 | a publication shows its slot, leaves the plan it replaces superseded, and touches nothing else |
| `PlanEffects.StalePublicationDrops` | localworker/aa23_plans.go:1478-1500 | a plan found stale at publication is dropped; a publication refused for any other cause changes no slot |
| `PlanEffects.TerminationStores` | localworker/aa23_plans.go:1183-1209 | termination lets out exactly the worker's shown plans, and drops what was being written for it |
| `PlanEffects.AcknowledgementLetsOut` | localworker/aa23_plans.go:1547-1575 | an acknowledgement lets its slot out if and only if the slot is retained under that identity and incarnation and unpinned; the record goes with the last plan of an ended registration |
| `PlanReasons.OperationKeepsReason` | localworker/aa23_plans.go:759-780 | no host operation weakens the reason of a withdrawn plan or changes anything else of it |
| `PlanReasons.ReasonsOnlyStrengthen` | localworker/aa23_plans.go:759-1908 | over every run of host and workers a withdrawn slot goes on, within its incarnation, to a reason at least as strong or to reclaimable, and only from there to the next incarnation |
| `PlanReasons.RevokedStaysRevoked` | localworker/aa23_plans.go:759-780 | in no run is a revoked plan shown again as merely superseded or expired |
| `ViewEffects.AdoptedExactly` | localworker/aa23_plans.go:1623-1668 | a plan is adopted if and only if it is published under the notice, for this worker and stream, in time and newer; the replaced one is noted superseded, and acknowledged at once exactly when not pinned |
| `ViewEffects.WithdrawalHeededExactly` | localworker/aa23_plans.go:1670-1702 | a withdrawal notice is heeded if and only if it is true: the plan stops being current, its note says what the notice says, and it is acknowledged at once exactly when not pinned |
| `ViewEffects.SelectedExactly` | localworker/aa23_plans.go:1738-1773 | selection pins the current plan if and only if the ordinal is new, nothing is pinned and the slot still holds the plan in time; the ordinal is used up whenever the clock takes the reading |
| `ViewEffects.AdvancedExactly` | localworker/aa23_plans.go:1704-1733 | a newer stream drops pin, current plans and ordinal and unpins the slot; an older one is ignored |
| `ViewEffects.ReleasedExactly` | localworker/aa23_plans.go:1894-1908 | release with the pin's key unpins, and acknowledges if and only if a retirement was noted; another key changes nothing |
| `ViewEffects.NotedIsAcknowledged` | localworker/aa23_plans.go:1894-1908 | whatever happens in between, a retirement noted while a transaction holds the slot is acknowledged when the transaction lets it go |
| `ViewEffects.PinLiveExactly` | localworker/aa23_plans.go:1780-1812 | in every reachable state a pin answers if and only if it is the one claimed, the clock takes the reading, no revocation was observed and all frozen deadlines lie ahead |
| `ViewEffects.ReplyServedExactly` | localworker/aa23_plans.go:1874-1892 | a live pin gives out each byte of each prepared reply, and nothing beyond |
| `PlanSafety.StepSound` | localworker/aa23_plans.go:1589-1908 | every host step and every worker step keeps the joint invariant of registry, pool, views and acknowledgements in flight |
| `PlanSafety.AcknowledgedIsUnreached` | localworker/aa23_plans.go:1547-1564 | an acknowledgement the host accepts names a slot outside every view's reach |
| `PlanSafety.AdoptKeeps` | localworker/aa23_plans.go:1623-1664 | adoption installs a published plan and acknowledges the one it replaces only if that one is retained, off selection and unpinned |
| `PlanSafety.ObserveKeeps` | localworker/aa23_plans.go:1670-1698 | an observed revocation takes the slot off selection and is remembered for its incarnation |
| `PlanSafety.ReleaseKeeps` | localworker/aa23_plans.go:1894-1908 | a released pin acknowledges a noted retirement, and then nothing reaches the slot |
| `PlanSafety.SelectKeeps` | localworker/aa23_plans.go:1738-1772 | selection pins only a held slot of this worker and reaches nothing else new |
| `PlanSafety.AdvanceKeeps` | localworker/aa23_plans.go:1704-1728 | a stream advance drops the pin and every selection |
| `RegistrySafety.ApplySound` | localworker/aa23_plans.go:807-1154 | every registry operation keeps the table, key, plan and slot invariants, and no held slot loses bytes, identity or deadlines |
| `RegistrySafety.RegisterSound` | localworker/aa23_plans.go:839-905 | a successful registration adds a key that was never admitted before |
| `RegistrySafety.PrepareSound` | localworker/aa23_plans.go:1392-1430 | a successful preparation uses a (worker, plan) pair and an identity never used before, and fills a slot that carries the candidate |
| `RegistrySafety.MakeCurrentKeeps` | localworker/aa23_plans.go:1473-1524 | making a plan current retires its predecessor first, so one plan per address is published |
| `RegistrySafety.TerminateSound` | localworker/aa23_plans.go:1183-1208 | termination lets out only slots of the worker that ended |
| `RegistrySafety.AckLetsOut` | localworker/aa23_plans.go:1547-1564 | an accepted acknowledgement lets out exactly the slot it names |
| `Withdrawals.RetiredPointwise` | localworker/aa23_plans.go:747-779 | the loop over the pool acts on each slot alone; what it stores in a chosen one is stated by PlanEffects.RetirementStores |
| `Withdrawals.ClockFaultWithholdsAll` | localworker/aa23_plans.go:737-745 | a clock fault withholds every plan |
| `Withdrawals.ConflictWithholdsAddress` | localworker/aa23_plans.go:1068-1075 | a physical conflict withholds every plan of its address and no other slot |
| `Withdrawals.SourceAdvanceWithholdsKey` | localworker/aa23_plans.go:1111-1133 | a newer source generation withholds every plan of the key |
| `Withdrawals.BindWithholdsAll` | localworker/aa23_plans.go:1156-1181 | binding a new worker or stream withholds every plan |
| `Withdrawals.UnregisterEnds` | localworker/aa23_plans.go:972-983 | an unregistered key is gone or inactive and none of its plans is selectable |
| `Withdrawals.DisconnectEnds` | localworker/aa23_plans.go:985-1004 | after a disconnect no registration of the subscriber is active |
| `Withdrawals.ResetEndsAll` | localworker/aa23_plans.go:1006-1014 | after a reset no registration is active |
| `Withdrawals.ExpiryLeavesNoLapsedLease` | localworker/aa23_plans.go:1136-1154 | after expiry no active registration has a lapsed lease |
| `Withdrawals.TerminationFreesWorker` | localworker/aa23_plans.go:1183-1208 | no published or retained slot of a terminated worker remains |
| `Withdrawals.PublicationShows` | localworker/aa23_plans.go:1473-1524 | a publication shows exactly the slot it names, valid now, for an active registration without conflict and the bound worker, under a newer plan than any shown for its key before, and alone on its address |
| `Withdrawals.PreparationFreezes` | localworker/aa23_plans.go:1392-1430 | a preparation fills the first free slot and freezes the plan's deadline and both leases, all still ahead, leaving every other slot |
| `Withdrawals.RegistrationTakesFreeAddress` | localworker/aa23_plans.go:839-905 | a registration takes a free target address for a newer epoch of an open subscriber, exactly as claimed |
| `PlanObjects.ValidateEntry` | localworker/aa23_plans.go:1243-1275 | accepts exactly the entries that meet every rule, their reply being the image of the encoder |
| `PlanObjects.ValidateCandidate` | localworker/aa23_plans.go:1211-1241 | accepts exactly the candidates whose identity, policy, entries, total size and non-overlap are all in order |
| `PlanObjects.CopyEntries` | localworker/aa23_plans.go:1433-1454 | the copy loop stores the entries one after the other and leaves the rest of the slot's bytes |
| `PlanObjects.PlanRegistry.RetireWhere` | localworker/aa23_plans.go:747-757 | the loop over slots and records computes the retirement whose stored reasons PlanEffects.RetirementStores states field by field |
| `PlanObjects.PlanRegistry.Settle` | localworker/aa23_plans.go:938-961 | the scan frees the address exactly when the key is retiring and no slot of it is held |
| `PlanObjects.PlanRegistry.SweepRecords` | localworker/aa23_plans.go:985-1014 | the loop over addresses retires exactly the swept records |
| `PlanObjects.PlanRegistry.Register` | localworker/aa23_plans.go:839-905 | observes the clock, then admits an admissible claim and changes nothing otherwise |
| `PlanObjects.PlanRegistry.BindWorker` | localworker/aa23_plans.go:1156-1181 | retires everything, restarts plan numbers only for a new worker |
| `PlanObjects.PlanRegistry.ObserveTerminated` | localworker/aa23_plans.go:1183-1208 | the loop reclaims every held slot of the worker and settles each key |
| `PlanObjects.PlanRegistry.PreparePlan` | localworker/aa23_plans.go:1392-1430 | succeeds exactly when the preparation rules hold and a slot is free, and returns the slot that now carries the plan |
| `PlanObjects.PlanRegistry.PublishPrepared` | localworker/aa23_plans.go:1473-1524 | publishes, or discards a candidate gone stale, exactly as the publication function of the old state says |
| `PlanObjects.PlanRegistry.ObserveAcknowledgement` | localworker/aa23_plans.go:1547-1564 | accepts exactly the acknowledgement of a retained, unpinned slot of the same incarnation and identity |
| `ViewObjects.PlanView.AdoptPlan` | localworker/aa23_plans.go:1623-1664 | new view and acknowledgement are those of adoption on the old view |
| `ViewObjects.PlanView.Revoke` | localworker/aa23_plans.go:1670-1698 | new view and acknowledgement are those of the observed revocation |
| `ViewObjects.PlanView.SelectProvisional` | localworker/aa23_plans.go:1738-1772 | pins the current plan or refuses, and consumes the ordinal either way |
| `ViewObjects.PlanView.Validate` | localworker/aa23_plans.go:1780-1811 | true exactly for a live pin, and observes the clock whatever it decides |
| `ViewObjects.PlanView.Match` | localworker/aa23_plans.go:1830-1858 | the bounded scan returns the first stored entry that selects the query, under a live pin only |
| `ViewObjects.PlanView.ResponseSymbol` | localworker/aa23_plans.go:1874-1892 | returns a byte only under a live pin, in phase and in bounds |
| `ViewObjects.PlanView.Release` | localworker/aa23_plans.go:1894-1908 | drops the pin and yields the acknowledgement of a noted retirement |
| `Overlap.PlanOverlaps` | localworker/aa23_plans.go:1315-1340 | reports overlap if and only if some pair of entries overlaps |
| `Overlap.HeapSort` | localworker/aa23_plans.go:1315-1330 | sorts the index array in place: a permutation of the entries in order |
| `Overlap.SiftDown` | localworker/aa23_plans.go:1295-1312 | restores the heap below one root and only rearranges that range |
| `Overlap.OverlapMeansShared` | localworker/aa23_plans.go:1343-1352 | two entries overlap exactly when some request selects both |
| `ResponderState.UsableMeansCleared` | localworker/aa26_responder.go:859-872 | in every reachable state of the link, an open worker with a usable plan after its drain means no stop and no revocation of that plan was on the lane when the drain began |
| `Responder.Responder.EmittedIsPrefix` | localworker/aa26_responder.go:766-840 | symbols on the wire are a prefix of the ACK and the chosen entry's prepared reply, all echoed but at most the last, after a request whose CRC was right |
| `Responder.Responder.ActiveIsPinned` | localworker/aa26_responder.go:630-668 | a transaction is active exactly when the view holds its pin, and never beside an initiator hold |
| `Responder.Responder.Decide` | localworker/aa26_responder.go:766-786 | the ACK leaves if and only if the CRC is the request's, an entry answers, authority is full, the deadline fits and the port takes it; then one symbol is sent and awaited; anything else ends the transaction in silence for the first of these that fails |
| `Responder.Responder.Echo` | localworker/aa26_responder.go:790-826 | a wrong or early symbol is a collision; the exact one finishes the reply, or lets out the next byte exactly under full authority |
| `Responder.Responder.PutSymbol` | localworker/aa26_responder.go:828-838 | the reply's next byte is put out and awaited, nothing else changes |
| `Responder.Responder.Prepare` | localworker/aa26_responder.go:737-762 | the transaction survives if and only if the pin check finds no fault, prepared if and only if an entry of the pinned plan answers the request read |
| `Responder.Responder.SelectPlan` | localworker/aa26_responder.go:630-668 | selected if and only if armed, without a live own command, with the plan bound, clear on the link, current in the view, held and in time; then the bound plan is pinned under the ordinal |
| `Responder.Responder.ObserveTarget` | localworker/aa26_responder.go:612-627 | a target's address with a plan to answer it selects that plan and reads on; any other skips the frame; the running CRC is kept |
| `Responder.Responder.ObserveRequest` | localworker/aa26_responder.go:671-700 | every raw symbol is summed; half an escape waits, a broken one ends the transaction, a completed byte is delivered or decided on |
| `Responder.Responder.RawSymbol` | localworker/aa26_responder.go:532-579 | each symbol is handled exactly as its stage says, unless the clock went back or the sequence is used up; at most one response symbol leaves, and none after a stop or a revocation of its plan that was on the link's lane when the event's drain began |
| `Responder.Responder.Poll` | localworker/aa26_responder.go:473-501 | a lapsed hold goes; the transaction ends if and only if an echo is missing, the bus is idle or authority is lost, and otherwise goes on untouched |
| `Responder.Responder.Close` | localworker/aa26_responder.go:894-928 | closing releases the pin and every field of the transaction, acknowledges a retirement noted meanwhile, and a clock fault disarms |
| `Responder.Responder.CheckAuthority` | localworker/aa26_responder.go:842-857 | the answer is the first objection of disarming, the serviced link and the pin check, and there is none if and only if the output is authorized |
| `Responder.Responder.StartInitiator` | localworker/aa26_responder.go:435-458 | a command takes the wire if and only if nothing holds it and it is the live one the link admits, from an initiator's address, on a port that takes it; no stop or revocation of its plan was on the lane when the drain began |
| `Responder.Responder.EndInitiator` | localworker/aa26_responder.go:461-468 | releases exactly the hold of this command |
| `Responder.Responder.AdoptPlan` | localworker/aa26_responder.go:353-380 | a plan is bound if and only if publication and link reference agree in every field and the view adopts it |
| `Responder.Responder.Revoke` | localworker/aa26_responder.go:384-403 | a true notice other than a supersession ends the transaction selected under it and unbinds the plan; any other leaves the transaction |
| `Responder.Responder.AdvanceTo` | localworker/aa26_responder.go:408-431 | a newer stream closes, unbinds, re-arms and starts the ordinals anew; a refused one changes nothing |
| `Responder.Responder.WorldMoves` | localworker/aa26_responder.go:842-857 | whatever the host and other workers do between two events, the transaction's plan, reply and output keep their meaning |
| `Responder.Responder.TakeSymbol` | localworker/aa26_responder.go:532-579 | what each raw symbol leads to, by the echo awaited, by SYN, and else by the stage of the frame |
| `Responder.Responder.LetOut` | localworker/aa26_responder.go:810-840 | the reply's next byte leaves exactly under full authority with a deadline that fits and a port that takes it; anything else ends the transaction for that reason |
| `Responder.Responder.ObserveSource` | localworker/aa26_responder.go:596-610 | an initiator's address opens a request under the next ordinal, any other symbol skips the frame, an exhausted ordinal disarms |
| `Responder.Responder.ObserveLogical` | localworker/aa26_responder.go:702-733 | each logical byte goes to its field and the next field follows; a length over 16 ends the transaction; the last byte prepares |
| `Responder.Responder.FramingFault` | localworker/aa26_responder.go:515-518 | a framing fault closes the transaction and waits for a SYN |
| `Ticks.DeadlineExact` | localworker/aa25_engine.go:248-265 | a deadline is the first whole tick at or after the exact instant whenever that tick exists |
| `Ticks.DeadlineWraps` | localworker/aa25_engine.go:248-265 | past the end of the counter a deadline is never the exact one |
| `Ticks.SaturatesIffOverflow` | localworker/aa25_engine.go:250-256 | saturation happens exactly when the quotient overflows |
| `Ticks.IndexIsGreatest` | localworker/aa25_engine.go:509-540 | the sample index is the greatest one whose rounded-up deadline is at or before now |
| `Ticks.DeadlinesIncrease` | localworker/aa25_engine.go:538-540 | sample deadlines strictly increase |
| `Ticks.Sampler.Poll` | localworker/aa25_engine.go:509-536 | observations plus missed samples equal the next index; the sampler stays sound if and only if the next exact deadline still fits the counter; an index taken twice reports a gap of 2^64 - 1 and lowers the missed count by one modulo 2^64 |
| `Ticks.LastTickWraps` | localworker/aa25_engine.go:538-540 | at the nominal rate and the last tick, for every anchor but zero, the index is now minus anchor, the next exact deadline does not fit and the computed one is zero |
| `Ticks.ReserveExact` | localworker/aa25_engine.go:414-421 | the reserve is representable exactly when the true sum fits, and then it is that sum |
| `Ticks.AdmittedNeverWraps` | localworker/aa25_engine.go:851-880 | every TX, late and echo deadline of an admitted schedule is exact and fits the counter |
| `Ticks.BoundariesIncrease` | localworker/aa25_engine.go:873-876 | bit boundaries of one response strictly increase |
| `Ticks.Sampler.constructor` | localworker/aa25_engine.go:375-407 | the schedule starts sound at the construction tick |
| `Ticks.WrappedIsPast` | localworker/aa25_engine.go:509-540 | when the next exact deadline does not fit, the computed one lies before now, for every rate and every anchor but zero |
| `Ticks.WrappedDeadline` | localworker/aa25_engine.go:248-265 | past the end a deadline is the exact one minus 2^64, or one before the anchor once the quotient saturates |
| `EngineState.MatchedSymbol` | localworker/aa25_engine.go:634-646 | eight bits that match the intended symbol are that symbol, so a completed echo is exact |
| `EngineState.MadeIsReady` | localworker/aa25_engine.go:194-212 | every prepared response starts with the ACK, fits the wire buffer and contains no SYN |
| `EngineState.FieldRead` | localworker/aa25_engine.go:772-824 | each logical byte of a request fills the next field, so the fields are the bytes in order |
| `EngineEffects.IdleWaits` | localworker/aa25_engine.go:542-569 | outside an exchange a sample can at most admit a response, never start it |
| `Engine.Engine.Step` | localworker/aa25_engine.go:488-507 | every step keeps the invariant; in quiet running a step with no sample due is one pass over the transmission, and out of an exchange a step is exactly the sample it takes |
| `Engine.Engine.LineLowOnlyWhileActive` | localworker/aa25_engine.go:894-934 | the line is low only in an active response, where it carries the pinned symbol's bit; edges alternate from high |
| `Engine.Engine.PassiveWritesNothing` | localworker/aa25_engine.go:437-446 | an engine never offered a response has written no edge |
| `Engine.Engine.SentAtMostTwice` | localworker/aa25_engine.go:962-987 | one admission goes on the wire at most twice, the second time only as a retransmission |
| `Engine.Engine.DeadlinesExact` | localworker/aa25_engine.go:873-880 | while waiting or active, every deadline compared with is exact |
| `Engine.Engine.AbortTx` | localworker/aa25_engine.go:1004-1016 | ends idle with the line high, with exactly one release if it was low |
| `Engine.Engine.FailResponse` | localworker/aa25_engine.go:1020-1041 | ends exchange, reception and admission with at most one release edge |
| `Engine.Engine.CompleteTx` | localworker/aa25_engine.go:938-948 | completion after the last driven and echoed symbol leaves the line high |
| `Engine.Engine.HandleFinalAck` | localworker/aa25_engine.go:962-987 | the exchange ends with the final symbol, except that the first NACK in time and not cancelled resends once on a schedule from its own start, if and only if that fits |
| `Engine.Engine.AdmitResponse` | localworker/aa25_engine.go:841-869 | a pinned response is scheduled if and only if its shape is the request's and its schedule fits, from the start of the last character |
| `Engine.Engine.TakeCrc` | localworker/aa25_engine.go:825-833 | the response waits if and only if the CRC received is that of the request, the pin stands, the shape matches and the schedule fits |
| `Engine.Engine.CompleteSymbol` | localworker/aa25_engine.go:669-690 | the symbol is the majority vote of the samples heard, as an echo exactly the symbol sent; it feeds the frame, counts as an echo, or settles the exchange |
| `Engine.Engine.PutBit` | localworker/aa25_engine.go:917-930 | the next bit goes on the line with an edge exactly on change |
| `Engine.Engine.BeginCharacter` | localworker/aa25_engine.go:571-600 | a falling edge starts a character, except that one while waiting or one that echoes nothing ends the exchange; a fully echoed response is complete first |
| `Engine.Engine.OfferPrepared` | localworker/aa25_engine.go:437-459 | an offer is queued if and only if it was prepared and there is room, and counts as offered |
| `Engine.Engine.constructor` | localworker/aa25_engine.go:375-408 | an engine starts passive, with the invariant and no edge written |
| `Engine.NewEngine` | localworker/aa25_engine.go:375-408 | an engine exists exactly for an acceptable configuration, and starts passive |
| `Engine.Engine.DecideBit` | localworker/aa25_engine.go:618-655 | each decided bit is the majority of its central samples; a high start, a mismatched echo or a low stop fails, any other goes on |
| `Engine.Engine.ApplyLoss` | localworker/aa25_engine.go:1095-1112 | a refused event fails reception and admission once per loss; without one nothing changes |
| `Engine.Engine.StepHousekeeping` | localworker/aa25_engine.go:1043-1080 | a response replaces the stock if and only if it is newer and no loss is open; a withdrawal clears the stock, ends an exchange not on the line and bars its retransmission |
| `Engine.Engine.TakeTarget` | localworker/aa25_engine.go:775-809 | a pin is made if and only if the target is this engine's own address, unescaped, from an initiator, with a response in stock, and it pins that response |
| `Engine.Engine.AnswersOwnRequests` | localworker/aa25_engine.go:784-871 | every exchange answers a whole request an initiator sent to this address, its CRC right, of exactly the PB, SB and NN the response was offered for; every reservation is for such a request as far as it was read |
| `Engine.Engine.DeliverLogical` | localworker/aa25_engine.go:758-833 | each logical byte does exactly this: its field, the pin at the target, the admission at the CRC, or the frame dropped |
| `Engine.Engine.FeedFrame` | localworker/aa25_engine.go:694-742 | a raw symbol opens a frame, waits for its pair, drops a broken escape with any exchange, or is delivered |
| `Engine.Engine.ObserveCharacter` | localworker/aa25_engine.go:602-655 | the third central sample of each bit decides it by majority, and what each decision leads to |
| `Engine.Engine.Observe` | localworker/aa25_engine.go:542-569 | what one level does in each receiver state |
| `Engine.Engine.StepRx` | localworker/aa25_engine.go:509-536 | a sample in time is observed, a missed one fails whatever was going on, and with none due nothing changes |
| `Engine.Engine.StepActive` | localworker/aa25_engine.go:909-936 | a missing echo ends the response, the next bit is driven exactly when due and not too late, and a fully echoed one awaits the final symbol |
| `Engine.Engine.StepTx` | localworker/aa25_engine.go:894-936 | an admitted response starts exactly once the last stop bit is over and its first boundary is due; the wait for the final symbol is bounded |
| `DriverSafety.FactoryRunsAlone` | transport/driver_runtime.go:225-377 | whenever a factory runs, every transport ever built is closed, no generation is current and no other factory runs |
| `DriverSafety.CloseRequestIsQuiet` | transport/driver_runtime.go:471-555 | a close request reaches an admitted generation only when no callback runs on it and none can start |
| `DriverSafety.WithdrawnForGood` | transport/driver_runtime.go:471-500 | a withdrawn generation never accepts again in any continuation |
| `DriverSafety.DrainedClosesOnce` | transport/driver_runtime.go:471-497 | the drained channel is closed at most once, exactly when a withdrawn generation has nothing in flight |
| `DriverSafety.QuarantineIsPermanent` | transport/driver_runtime.go:583-590 | in quarantine no run starts a factory, admits a generation or starts a callback |
| `DriverSafety.StepSound` | transport/driver_runtime.go:225-710 | every critical section and wait of Start, Stop, Replace, Admit, Invoke and Release keeps single ownership and the counts |
| `DriverSafety.FactoryHasAllClosed` | transport/driver_runtime.go:277-333 | a construction that answers for no transport yet means every transport is closed |
| `DriverSafety.IdleIsClosed` | transport/driver_runtime.go:335-377 | outside quarantine and retirement, with no construction and no generation, every transport is closed |
| `DriverSafety.DrainedIsQuiet` | transport/driver_runtime.go:633-710 | a drained generation has no lease left, so no callback runs on it |
| `DriverSafety.PublishKeeps` | transport/driver_runtime.go:437-459 | admitting a construction hands its transport to the new generation, the only open one |
| `DriverSafety.WithdrawKeeps` | transport/driver_runtime.go:471-497 | withdrawal hands the open transport from the generation to the stopping thread behind the fence |
| `DriverProgress.StopAnswersDrain` | transport/driver_runtime.go:471-525 | over every run, outside quarantine, a stop or replacement is about to succeed if and only if its own generation drained in time or there was none, and to report its timeout if and only if that drain was overdue |
| `DriverProgress.ReplacementFollowsDrain` | transport/driver_runtime.go:236-275 | a replacement whose drain ended in time goes on to build when nothing took its place, an overdue one gives up with the fence lowered, and a stop returns with the fence down and the lock free |
| `DriverProgress.StartCompletes` | transport/driver_runtime.go:225-333 | a start of an idle runtime builds the next generation, open for calls |
| `DriverProgress.StopCompletes` | transport/driver_runtime.go:268-275 | a stop of a generation at rest succeeds: its transport closed, nothing current, fence down, lock free, and a start admissible again |
| `DriverProgress.ReplacementCompletes` | transport/driver_runtime.go:236-264 | a replacement of a generation at rest closes the old transport and builds the next generation, with the fence down again |
| `DriverProgress.CallsExactly` | transport/driver_runtime.go:633-663 | an admission's call goes through if and only if its generation is still the effective one |
| `DriverProgress.CallCompletes` | transport/driver_runtime.go:604-710 | a call of an effective generation runs once, and afterwards the generation is as before |
| `DriverFence.StuckExactly` | transport/driver_runtime.go:225-393 | in every run the fence is left up with nobody to lower it exactly by the return of a replacement that found the fence up and a generation or a construction in its place |
| `DriverFence.ReplaceReturnsFenced` | transport/driver_runtime.go:236-264 | a replacement returns with the fence up if and only if the fence is up and a generation or a construction is in its place |
| `DriverFence.StuckRefusesStart` | transport/driver_runtime.go:335-361 | behind a standing fence every start is refused, also one that should find the current generation, and no pending construction may run its factory |
| `DriverFence.StuckUntilLocked` | transport/driver_runtime.go:335-393 | the fence stays up and starts stay refused until a stop or a replacement gets the operation lock, or quarantine |
| `DriverFence.StopLowersFence` | transport/driver_runtime.go:471-525 | a stop that returns outside quarantine has lowered the fence; its answer is stated by DriverProgress.StopAnswersDrain |
| `DriverFence.ReplacementLowersFence` | transport/driver_runtime.go:379-459 | a replacement that got its reservation lowers the fence whether it is admitted or given up |
| `DriverFence.FenceLeftByConstruction` | transport/driver_runtime.go:236-264 | an instance: a start registered after the replacement looked makes its reservation unavailable |
| `DriverFence.FenceLeftByGeneration` | transport/driver_runtime.go:236-264 | an instance: a generation admitted meanwhile makes the replacement report success with the fence up |
| `Retry.SendWithRetries` | protocol/bus.go:356-489 | attempts follow each other exactly as each one leads on and the result is the last one's; without a deadline at most (R + 1) * (T + N + 1) of them whatever the errors, and exactly that many against the worst; every nonzero token completed exactly once before the next attempt or the return |
| `Retry.RunAttempt` | protocol/bus.go:371-488 | an attempt ends or leads to another exactly as its error class, budgets, cuts and reconnection say, with the counters that costs; every token settled |
| `Retry.RetryAccounts` | protocol/bus.go:588-625 | a retry never follows a host error and, without a deadline, always spends budget |
| `Retry.ReconnectAccounts` | protocol/bus.go:496-533 | a reconnect opens at most one new session's worth of attempts |
| `Retry.SettledBalances` | protocol/bus.go:574-586 | in a settled log each nonzero token is completed as often as it was obtained |
| `Retry.TryReconnect` | protocol/bus.go:496-533 | reconnects if and only if the class and the budget allow it and it is not cut short; a successful one gives back the retry budgets, a failed one does not |
| `Retry.Recover` | protocol/bus.go:446-464 | the token of a collision pause is completed on every way out: abandoned when cut short, retried otherwise |
| `Retry.WorstEnvIsWorst` | protocol/bus.go:588-625 | the adversary that meets the bound exists for every configuration |
| `Retry.RetryByClass` | protocol/bus.go:588-625 | when a retry follows, class by class, and what it costs: collisions under a deadline always, timeouts and host errors never, the rest within their budget |
| `QueueSpec.SameSourceInOrder` | protocol/queue.go:39-102 | requests of one source, or two transport operations, leave in the order in which they were pushed |
| `QueueSpec.ServedInTime` | protocol/queue.go:81-102 | an item pushed behind n others leaves within 8 + n pops whatever is pushed later |
| `QueueSpec.RequestsConserved` | protocol/queue.go:67-102 | nothing enters or leaves except by its own push and its own pop |
| `QueueSpec.ServesFirst` | protocol/queue.go:39-102 | in every run each pop serves the request that leaves before all others waiting: starved ones first, then the lower source with a transport operation as 0x80, then first come first served |
| `QueueSpec.LowerSourceFirst` | protocol/queue.go:39-102 | a lower source is served before a higher one that is not starved, whichever came first |
| `QueueSpec.OneLeavesFirst` | protocol/queue.go:39-45 | of two waiting requests exactly one leaves first |
| `QueueHeap.PriorityQueue.Push` | protocol/queue.go:67-79 | heap order and index agreement are kept, and exactly one new item enters |
| `QueueHeap.PriorityQueue.Pop` | protocol/queue.go:81-102 | the first item after ageing and promotion leaves, and heap order, index agreement and the other requests are kept |
| `QueueHeap.PriorityQueue.Fix` | protocol/queue.go:96-99 | repairs the heap after a promotion without changing the items |
| `QueueHeap.PriorityQueue.Down` | protocol/queue.go:39-50 | sifts within a prefix: a heap if it moved, unchanged otherwise |
| `QueueHeap.PriorityQueue.Up` | protocol/queue.go:39-50 | sifts up to a heap over the same items |
| `TelegramRuns.LegalTelegramPasses` | protocol/telegram_fsm/fsm.go:383-801 | any legal telegram with raw SYNs injected before its last symbol is forwarded exactly, without a fault, and leaves the machine cleared |
| `TelegramRuns.InjectionsInvisible` | protocol/telegram_fsm/fsm.go:505-801 | injections in filtering phases change neither state nor output |
| `TelegramRuns.TakesFrame` | protocol/telegram_fsm/fsm.go:505-605 | a frame moves the machine to the acknowledgement phase, or to the terminator for a broadcast, knowing its destination and length |
| `TelegramRuns.TakesReply` | protocol/telegram_fsm/fsm.go:683-731 | a reply moves the machine to its acknowledgement |
| `TelegramBounds.CompletedIsLegal` | protocol/telegram_fsm/fsm.go:383-801 | whatever the input, a run that returns to idle forwarded a legal telegram and its terminator and dropped only raw SYNs |
| `TelegramBounds.EndsWithin85` | protocol/telegram_fsm/fsm.go:505-801 | every input is over within 85 symbols that were not dropped |
| `TelegramBounds.BoundIsTight` | protocol/telegram_fsm/fsm.go:505-801 | the longest legal telegram takes exactly 85 symbols |
| `TelegramBounds.BudgetShrinks` | protocol/telegram_fsm/fsm.go:505-801 | each symbol not dropped uses up budget in every phase |
| `PassiveTracking.TrackedTelegramPasses` | protocol/telegram_fsm/fsm.go:480-489 | from passive entry behind its first symbol any legal telegram, with raw SYNs injected before its last symbol, passes exactly; callers see the composite state throughout and idle at the end |
| `PassiveTracking.TrackedIsLegal` | protocol/telegram_fsm/fsm.go:480-489 | whatever follows a foreign first symbol, a tracked run that returns to idle was a legal telegram |
| `PassiveTracking.TrackedEndsWithin84` | protocol/telegram_fsm/fsm.go:480-801 | every tracked input is over within 84 symbols that were not dropped |
| `PassiveTracking.RunsAlike` | protocol/telegram_fsm/fsm.go:359-364 | until it is cleared, a passive run is the active one with the flag set: same states, same output, same faults |
| `TelegramFsm.Machine.Feed` | protocol/telegram_fsm/fsm.go:409-446 | the handlers do exactly what the step function says of the old state |
| `EscapeDecoder.EscapedBytesDecode` | transport/ebus_escape.go:173-283 | escaped bytes, with up to eight SYNs injected into each pair in time, decode to the original with correct flags and no event |
| `EscapeDecoder.ProperDecodes` | transport/ebus_escape.go:173-283 | every stream of proper items decodes to exactly its meaning |
| `EscapeDecoder.QuietIsProper` | transport/ebus_escape.go:173-283 | only such streams decode without an event |
| `EscapeDecoder.FaultLeavesNormal` | transport/ebus_escape.go:197-283 | after a recovery or an exhausted budget the decoder is normal; a timeout reprocesses the byte as in the normal state; every event reports the absorbed count and how long the pair was open |
| `EscapeDecoder.Decoder.Feed` | transport/ebus_escape.go:173-283 | the stateful decoder is the step function on its old state |
| `EscapeDecoder.Decoder.Reset` | transport/ebus_escape.go:364-368 | back to the normal state |
| `ReceivePath.WireTelegramPasses` | transport/ebus_escape.go:173-283 | decoder and automaton together: a legal telegram on the wire, with SYNs injected between symbols and inside pairs, reaches the observers unchanged |
| `Wire.ValidateEncodedResponse` | localworker/aa23_plans.go:635-673 | accepts exactly the image of the encoder |
| `Wire.EncodeResponse` | localworker/aa23_plans.go:619-630 | appends the same wire form as every other encoder, or nothing when the data is too long |
| `Wire.EncodeSlaveResponse` | protocol/slave_encode.go:27-37 | the escaped segment with its CRC, refused exactly when the data is too long |
| `Wire.EscapeBytes` | protocol/slave_encode.go:10-23 | the escape of every byte in order |
| `Wire.PrepareResponse` | localworker/aa25_engine.go:194-235 | the AA25 loop into its fixed buffer writes the ACK followed by the same wire form as the other encoders, and the buffer always suffices |
| `Wire.LogicalCrcTable` | protocol/protocol.go:89-104 | the CRC over logical bytes with wire expansion is the CRC of the escaped bytes |
| `Wire.LogicalCrcBitwise` | localworker/aa23_plans.go:585-605 | the bitwise update with expansion agrees with the CRC of the escaped byte |
| `Wire.UnescapeEscape` | protocol/slave_encode.go:10-23 | unescaping undoes escaping |
| `Wire.EscapeUnescape` | protocol/slave_encode.go:10-23 | escaping undoes unescaping wherever that succeeds |
| `Wire.ResponseInjective` | localworker/aa23_plans.go:619-630 | different data have different wire forms |
| `Wire.WireBuffer.AppendLogical` | localworker/aa25_engine.go:220-235 | writes the escaped form into the buffer and returns the CRC over that form |
| `Crc.Update` | internal/crc/crc.go:4-27 | the table lookup is one polynomial step |
| `Crc.BitwiseStep` | localworker/aa25_engine.go:237-246 | the bitwise loop is the same step |
| `Crc.Sum` | internal/crc/crc.go:29-35 | the sum is the run of steps over the data |
| `Crc.SingleSymbolErrorDetected` | internal/crc/crc.go:24-35 | changing one symbol of a wire string always changes its CRC |

## Left out

- AA24 host lingering, horizons and the cancelled-command tables: not needed for the properties above.
- AA24 clock guards and service deadlines: a fault may close either end at any step; when one is due is not modelled.
- AA24 ordinal exhaustion: in the interleavings ordinals are unbounded; only the host ledger has the case of the last 64-bit ordinal.
- AA24 retry list of retired plans: nothing in the source ever appends to it.
- Memory ordering, unsafe pointers and endianness of the mapping: a published index is one atomic step, words are little-endian bytes.
- AA23 master addresses, census functions and pending-notice listings: they only read, or keep a separate table.
- The AA23 registration table is a map by address; its reuse of array positions is not modelled.
- AA25 event contents, dissent and edge-phase diagnostics, and lateness statistics: whether the sink accepts an event is modelled, what it says is not.
- AA26 observer ring, sequence numbers in events and statistics: diagnostics without effect on the wire; the reason of each close is kept as ghost state.
- AA26 and its link: each event is given a reachable state of the link just drained for it; the two are not stepped together.
- AA25 earliest-deadline query for polling callers: it only reads.
- Driver contexts and revision numbers: cancellation is a flag of the construction; that waits end is left to the environment, so completion is shown for runs in which none runs out.
- AA24 worker and host, and the driver runtime: modelled on values, one step per critical section, because the claims are about interleavings; updates in place are captured for lanes and ledger only.
- In the driver a lock release together with the return of its owner is one step.
- Bus transactions, echo classification, observers and wall-clock waits: an attempt's outcome is an input.
- QueueHeap.PriorityQueue.Push: does not model wrap-around of the 64-bit push number.
- Telegram automaton: initiator-initiator telegrams are not part of the grammar, as the source does not support them; entering arbitration from a state with spent retransmissions is covered by the step function only.
- Sockets, serial and network transports, GPIO, memory mapping, profiles, command-line tools, data-type codecs and address tables.
