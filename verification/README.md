# A model of the observable raft cluster, with proofs

The repository wraps a consensus library and shows a cluster to people: every node runs an event hub that
streams what happens over Server-Sent Events, a transport that announces RPCs while relaying them, a
replicated key-value state machine, and a manager that spawns further nodes. This project models that
surrounding code in Dafny and proves what it promises.

`dafny verify dfyconfig.toml` checks everything.

## How the model is built

Concurrent code is modelled twice.

- **Step-level machines** (`HubMachine`, `CoalescerMachine`, `RelayMachine`, `ActivationMachine`, `Terms`, `Replicas`) are states
  and steps. A step is what a goroutine does between two points where others can get in: taking a lock,
  giving it back, one channel operation. Any number of goroutines interleave freely. `IsRun` is a
  sequence of enabled steps from the initial state; theorems hold in every state of every run. The
  invariants are split by the components they speak of, so that a step owes proofs only for those it changes.
- **Objects** (`HubObject`, `HeartbeatObject`, `RelayObject`, `Windows`, `Fsm`, `Membership`, `Activation`,
  `Spawning`) are classes whose methods update fields, arrays and maps in place as the code does, one call
  at a time, each with its whole effect as contract.

The two are tied together. `HubAlone.BroadcastAlone` shows that the machine's steps of one undisturbed
broadcast amount to the contract of `HubObject.Hub.BroadcastDirect`; `CoalescerAlone` does the same for a flush and an
accumulation; `RelayObject.EventTransport` is proved
against turns composed of the relay machine's own steps, and the state it leaves is one that machine reaches;
`HBAccum.Add` is proved against the fold `Absorb` that the coalescer machine takes, `Activation.Poller` against
the undisturbed callback of `ActivationMachine`, `KVStoreFSM.Apply` against the same `Execute` as the replicas.
Definitions such as `LastN`, `Cached`, `Offered` and `EventID` are shared. `ClientStream` joins the hub machine
to the SSE framing: what a browser reads, in every reachable state of the hub.

Fields that only record what happened (the append log, attempts, settled calls, cuts of the heartbeat stream)
do not exist in the code. In the machines they are marked as bookkeeping, in the objects they are ghost.

| area | modules, one a file |
|---|---|
| event hub and SSE handover | `HubMachine`, `HubInvariant`, `HubSteps`, `HubTheorems`, `HubOrder`, `HubAlone`, `HubOvertaking`, `HubObject`, `Windows`, `Events` |
| heartbeat coalescer | `Heartbeat`, `CoalescerMachine`, `CoalescerAlone`, `HeartbeatObject`, `Sorting` |
| transport relay | `RelayMachine`, `RelayInvariant`, `RelaySteps`, `RelayTheorems`, `RelayAnnouncements`, `RelayTerms`, `RelayObject` |
| term tracker | `Terms` |
| state machine and its replicas | `Fsm`, `Replicas` |
| membership view | `Membership` |
| polling for subscribers | `ActivationMachine`, `Activation` |
| SSE framing, end to end | `Sse`, `ClientStream` |
| spawning | `Spawning` |
| shared | `Basics`, `Decimal` |

## What is assumed

- `sync.Mutex` and `sync.RWMutex` exclude as documented, plain fields are read and written one step at a time; a buffered channel is a queue of at most 64 with a closed flag.
- Raft is an environment. It answers each RPC it received at most once, applies committed entries in order,
  and restores only files that a Persist completed, continuing behind them.
- The JSON codec is abstract. `Fsm.Good` is all that is asked of it: decoded strings are valid, and maps of
  valid strings round-trip. For the SSE stream, `marshal` is any function; the round trip asks that its
  output has no raw line break.
- The clock, peer names resolved from addresses, free ports, and the success of log files, process starts
  and snapshot sinks are arbitrary inputs.

## Where the obvious claim is false

Each of these is settled by a lemma that builds a concrete run of the model, and by the exact condition under
which the claim does hold.

- A granted pre-vote is not announced by the voter, although `emitVoteResult` has a case for it: the type
  assertion accepts only `RequestVoteResponse` (`GrantedPreVoteIsSilent`; exactly when: `ResultAnnouncedIff`).
- A client's channel and the history can disagree on the order of broadcasts that overlap
  (`OverlappingCanSwap`; exactly when a send lets an older event fall behind: `SendCanOvertakeIff`).
  Broadcasts that do not overlap, and those of one goroutine, keep their order (`NonOverlappingInOrder`,
  `LiveDelivery`).
- Term announcements can reach the hub in another order than the terms were claimed
  (`AnnouncementsCanOvertake`; exactly when they do not: `InClaimOrderIff`); as a collection they are exact
  (`TermsAnnouncedOnce`).
- Activate and deactivate callbacks are goroutines whose only atomic step is the swap of the flag. Overlapping,
  they can leave a loop running for nobody even when they swap in the order of the decisions
  (`OverlapKeepsPolling`), and can close a channel twice or nil, which panics (`OverlapPanics`,
  `OverlapClosesNil`). Letting one win its
  swap is safe exactly when no other is in the middle (`SafeIffQuiet`, `GuardedRunsAreRight`). Without such
  overlaps, swapping in the wrong order still leaves the poller on for nobody
  (`SwappedCallbacksKeepPolling`; exactly when not: `PollingRightIff`).
- Joined and removed announcements need not alternate once raft's peer observations mix in
  (`ObservedPeerJoinsTwice`; exactly when they do: `AlternatesIffObservationsAreNews`).
- The state machine's history does not follow its data through a snapshot: `Restore` replaces the data only
  (`RestoredReplicaHasNoHistory`; exactly when it does: `HistoryFitsIff`).
- A fresh node name is not always to be had: with 500 names taken the clock decides, and may repeat one
  (`ClockRepeatsName`; exactly when not: the contract of `Manager.NextAvailableNodeID`).

## Model

Paths are relative to the root of the repository.

| member | source | states |
|---|---|---|
| `HubSteps.StepKept` | internal/events/hub.go:132-276 | one step of any broadcaster, subscriber, SSE handler or unsubscribe call, taken between two lock operations, keeps the whole invariant: critical sections hold their lock, registered channels are exactly the open ones, channels lose nothing but counted drops, each settled call has been tried on exactly the clients it settled on and already visited |
| `HubSteps.RunKept` | internal/events/hub.go:132-276 | the invariant holds in every state of every interleaving, for any number of goroutines |
| `HubTheorems.NoPanic` | internal/events/hub.go:145-158 | no run sends on a closed channel or closes one twice, however often unsubscribe is called: every send and close that can come next meets an open channel |
| `HubTheorems.FinishedIsLogged` | internal/events/hub.go:252-263 | when a broadcast has returned, its event has been appended to the log of all events |
| `HubTheorems.NoGap` | internal/api/handler.go:180-213 | for an event of any type but state snapshot and heartbeats whose broadcast is over: a subscribed client that has its history copy was tried with it, or has it in the copy, or 50 newer such events had followed by the copy; what was appended after the copy was tried; membership in the copy is exactly "fewer than 50 newer"; what was never tried had been settled before the client joined |
| `HubTheorems.NoGapInBatches` | internal/api/handler.go:193-196 | the same handover for heartbeat batches, which are copied later and kept ten at a time: tried, or in the copy, or ten newer ones had followed; one never tried had been settled before the client joined |
| `HubTheorems.LiveDelivery` | internal/events/hub.go:268-275 | for each channel: at most 64 buffered, received then buffered is what was enqueued, enqueued plus dropped is tried, a drop happens exactly when 64 were held, one goroutine's events keep its order and no broadcast is tried twice |
| `HubTheorems.AttemptedExactly` | internal/events/hub.go:261-275 | once a broadcast has returned it has been tried on precisely the clients that were registered when it took the second read lock (or saw nobody) |
| `HubTheorems.AtMostTwice` | internal/api/handler.go:189-213 | a client sees a broadcast at most once replayed and at most once live |
| `HubTheorems.WindowHolds` | internal/events/hub.go:235-240 | an entry of an ordered log is in the trimmed cache if and only if fewer than the limit of newer entries of its kind follow |
| `HubTheorems.HistoryIsWindow` | internal/events/hub.go:252-259 | in every state the history is the last 50 appends of all types but state snapshot and heartbeats, the batch history the last 10 heartbeat batches, in lock order; neither ever holds a state snapshot |
| `HubTheorems.NoSnapshotReplayed` | internal/api/handler.go:190-195 | no replay holds a state snapshot, and heartbeats come in the second replay only |
| `HubTheorems.MintedIDsDiffer` | internal/events/hub.go:248-250 | two broadcasts given an ID by the hub have different IDs, whatever the clock readings |
| `HubTheorems.EdgesAlternate` | internal/events/hub.go:135-157 | activate and deactivate decisions alternate from activate on, and the last one is activate exactly when somebody is subscribed |
| `HubOrder.NonOverlappingInOrder` | internal/events/hub.go:244-276 | if one broadcast has returned before another is appended, it comes first in the append log and on every channel both reach, whatever goroutines made them |
| `HubOrder.StepGrows` | internal/events/hub.go:244-276 | no step takes back an append, an attempt or a settled call |
| `HubAlone.BroadcastAlone` | internal/events/hub.go:244-276 | a broadcast that nobody disturbs, run through the machine's own steps with the channels in any order, has the effect that `HubObject.Hub.BroadcastDirect` promises: next number if it needs an ID, the one cache of its kind, one offer to every client, nothing else |
| `HubAlone.SendsAlone` | internal/events/hub.go:268-275 | the delivery loop offers the event once to every channel in its list, in any order of visiting |
| `HubAlone.OverlappingCanSwap` | internal/events/hub.go:252-275 | a reachable state in which the history holds two overlapping broadcasts in one order and a client's channel in the other |
| `HubOvertaking.SendCanOvertakeIff` | internal/events/hub.go:252-275 | a send can be followed, in some continuation, by an older logged event on the same channel if and only if one is in flight past its append and not past its send there |
| `HubOvertaking.ReachesChannel` | internal/events/hub.go:261-275 | a broadcast past its append can always be taken on to a subscribed channel while nobody holds the write lock |
| `Events.EventIDInjective` | internal/events/hub.go:249 | IDs of different sequence numbers differ even when clock readings coincide or are negative |
| `Events.EventIDReads` | internal/events/hub.go:249 | an ID is "evt-", the clock reading in decimal, a dash and the sequence number in decimal |
| `Decimal.PrintReadsBack` | internal/events/hub.go:249 | a printed number has the number as positional value, and no leading zero |
| `HubObject.Hub.constructor` | internal/events/hub.go:51-63 | a new hub has no clients, two empty histories and sequence zero |
| `HubObject.Hub.Subscribe` | internal/events/hub.go:132-142 | adds one new empty open channel; activates exactly if nobody was subscribed |
| `HubObject.Hub.Unsubscribe` | internal/events/hub.go:144-158 | removes and closes the channel if it is registered, otherwise changes nothing; deactivates exactly if it was the last |
| `HubObject.Hub.IsActive` | internal/events/hub.go:164-168 | true exactly if somebody is subscribed |
| `HubObject.Hub.GetHistory` | internal/events/hub.go:178-182 | a fresh copy with the contents of the lifecycle history |
| `HubObject.Hub.GetHeartbeatHistory` | internal/events/hub.go:185-189 | a fresh copy with the contents of the batch history |
| `HubObject.Hub.BroadcastDirect` | internal/events/hub.go:244-276 | the event gets an ID only if it has none; by its type it enters the history of 50, the batches of 10, or neither; every client's channel takes it or, at 64, drops it |
| `HubObject.Hub.Record` | internal/events/hub.go:252-259 | a state snapshot changes nothing, a heartbeat batch the batch history only, anything else the history only |
| `HubObject.Hub.Deliver` | internal/events/hub.go:268-275 | each registered channel is offered the event once, in any order of the map |
| `HubObject.Channel.TrySend` | internal/events/hub.go:269-274 | never blocks: enqueues at the end below 64, otherwise leaves the channel as it is |
| `Windows.Window.Append` | internal/events/hub.go:255 | Go's append on a re-sliced view, in place or reallocated: the contents are the old ones and the new element |
| `Windows.Window.Trim` | internal/events/hub.go:235-240 | re-slicing leaves the newest elements, at most the limit |
| `Windows.Window.Push` | internal/events/hub.go:252-258 | append and trim keep the view equal to the last elements of everything ever pushed |
| `Windows.Window.DropThenPush` | internal/fsm/fsm.go:138-141 | dropping the first at the limit and then appending gives the same window |
| `Windows.Window.Clone` | internal/events/hub.go:181 | a copy with a backing array of its own |
| `Windows.CloneThenPushAll` | internal/events/hub.go:178-182 | a clone handed out keeps its contents under any number of later pushes, in place or not |
| `Basics.LastNHolds` | internal/events/hub.go:235-240 | an element without a newer copy is in the window if and only if fewer than the limit are newer |
| `Heartbeat.AbsorbSummary` | internal/events/hub.go:205-232 | folding one heartbeat in is summarising the longer stretch: its length, set of peers, newest well-typed term and commit, newest node |
| `Heartbeat.SummaryIs` | internal/events/hub.go:215-231 | a summary counts the heartbeats, has term, commit and node of the newest that carries one, each on its own, and exactly the peers named |
| `Heartbeat.LastSomeIsNewest` | internal/events/hub.go:226-231 | the term and commit of a batch are those of the newest heartbeat that carries one of the right type, zero if none does |
| `Heartbeat.AcceptKept` | internal/events/hub.go:210-231 | an accepted heartbeat keeps, for its direction, the ownership of cells, the partition of the stream and the sum |
| `Heartbeat.SwapOutKept` | internal/events/hub.go:74-84 | swapping the accumulator out cuts the stream there and keeps all of it |
| `Heartbeat.RenderKept` | internal/events/hub.go:86-91 | rendering a swapped-out cell without the lock moves its count from in flight to the batches and keeps all of it |
| `Heartbeat.DiscardedIsFresh` | internal/events/hub.go:86-91 | an accumulator dropped for its zero count is as new and stands for an empty stretch |
| `CoalescerMachine.StepKept` | internal/events/hub.go:74-92 | every step of accumulating goroutines (lock, load the pointer, write) and of any number of overlapping flushes (lock, swap, read without the lock) keeps conservation, single ownership and the lock discipline |
| `CoalescerMachine.HeartbeatsConserved` | internal/events/hub.go:74-92 | at every state, per direction: accepted equals batched plus in flight plus current; the stretches tile the stream; every batch is the summary of its own stretch and no stretch is batched twice |
| `CoalescerMachine.QuietConserved` | internal/events/hub.go:74-92 | with no flush under way, accepted equals batched plus current |
| `CoalescerMachine.NeverRewritten` | internal/events/hub.go:82-91 | a swapped-out accumulator is the same at every later state, although writers go through a pointer loaded earlier |
| `CoalescerMachine.WriterIsAlone` | internal/events/hub.go:210-231 | a goroutine about to write holds hbMu, its pointer is still the one the hub has, and no flush reads that accumulator |
| `CoalescerAlone.FlushAlone` | internal/events/hub.go:74-92 | an undisturbed flush of the machine does nothing if neither direction counted anything, otherwise renews both accumulators and renders one batch of all that each non-empty one held, as the object promises |
| `CoalescerAlone.AddAlone` | internal/events/hub.go:205-232 | an undisturbed accumulation folds the heartbeat into the accumulator of its direction and touches nothing else |
| `HeartbeatObject.HBAccum.Add` | internal/events/hub.go:215-231 | the field updates, each under its own condition, are the fold of one heartbeat |
| `HeartbeatObject.HBAccum.Batch` | internal/events/hub.go:95-130 | the batch carries count, node, term and commit, and lists the peers strictly sorted, whatever the map order |
| `HeartbeatObject.DescribesOne` | internal/events/hub.go:95-100 | two renderings of one accumulator are equal |
| `HeartbeatObject.Coalescer.Accumulate` | internal/events/hub.go:193-232 | only the accumulator of the event's direction changes, and none without data |
| `HeartbeatObject.Coalescer.Swap` | internal/events/hub.go:74-84 | both accumulators change hands if either counted something, otherwise neither |
| `HeartbeatObject.Coalescer.FlushOnce` | internal/events/hub.go:74-92 | one batch for each direction that counted something, sent before received, describing that accumulator completely; both start anew |
| `HeartbeatObject.SwapThenAccumulate` | internal/events/hub.go:74-92 | heartbeats of either direction after the swap leave what was swapped out alone, and each new accumulator summarises those of its direction |
| `Sorting.SortedListing` | internal/events/hub.go:96-100 | collecting a set in any order and sorting gives the one strictly sorted listing of it |
| `Sorting.SortedUnique` | internal/events/hub.go:96-100 | a set has one strictly sorted listing |
| `Sorting.LessIsLexicographic` | internal/events/hub.go:100 | the order is ascending: a proper prefix first, else the smaller character at the first difference |
| `RelaySteps.StepKept` | internal/raftnode/transport_observer.go:312-448 | every step of the forwarder, the vote goroutines, raft, the heartbeat path and other term observers keeps the relay's invariant, with any number of RPCs in flight |
| `RelayTheorems.RefinesPlainChannel` | internal/raftnode/transport_observer.go:312-374 | what raft has received is a prefix of the inner sequence with the same commands, readers and order, unchanged where it is no vote; the wrapped channel is closed only after the inner one is closed and used up |
| `RelayTheorems.ResponsesReachTheirRpc` | internal/raftnode/transport_observer.go:432-448 | everything written to an original channel is raft's unchanged answer to that RPC, on its own channel, at most once; it has been written exactly when raft has answered and, for a vote, its goroutine is through |
| `RelayTheorems.EveryRpcAnsweredOnce` | internal/raftnode/transport_observer.go:432-448 | when the relay has closed, raft has answered and the goroutines are through, every incoming RPC has its one answer |
| `RelayTheorems.RequestAnnouncedFirst` | internal/raftnode/transport_observer.go:378-415 | raft cannot receive a vote or pre-vote request before the hub has logged it with its term and round |
| `RelayTheorems.ResultAnnouncedFirst` | internal/raftnode/transport_observer.go:432-448 | a successful vote response reaches the original channel only after the hub has logged its decision, term and round, for the candidate whose request was announced |
| `RelayTheorems.ResultAnnouncedIff` | internal/raftnode/transport_observer.go:435-441 | a vote answer is announced, once, if and only if it is free of error and of type RequestVoteResponse |
| `RelayTheorems.GrantedPreVoteIsSilent` | internal/raftnode/transport_observer.go:432-448 | a run in which a granted pre-vote for a new term is relayed and never announced, since raft answers it with its own response type |
| `RelayTheorems.TermNeverLags` | internal/raftnode/transport_observer.go:265-287 | the tracked term is at least the term of every vote, pre-vote, snapshot and append that raft has received, by the consumer or by the heartbeat handler |
| `RelayTerms.TermsAreThoseCarried` | internal/raftnode/transport_observer.go:312-374 | in every state the tracked term is the highest that forwarder, heartbeat path or another observer has noted; the term changes the forwarder announces are exactly the term fields of its RPCs that were higher than all noted before, each once and climbing |
| `RelayTerms.StepKept` | internal/raftnode/node.go:238-258 | every step keeps this account of the terms noted, claimed and announced |
| `RelayAnnouncements.IncomingAnnounced` | internal/raftnode/transport_observer.go:312-374 | incoming RPCs are announced in order of arrival, none twice, each as what it is; a received RPC was announced before, if and only if it is neither an empty append nor an unknown command |
| `RelayAnnouncements.StepKept` | internal/raftnode/transport_observer.go:312-374 | every step keeps the order, uniqueness and meaning of the announcements |
| `RelayObject.TurnIs` | internal/raftnode/transport_observer.go:312-374 | one turn of the loop, composed of the machine's own steps, is one receive, one claim of the term, its announcements and one send |
| `RelayObject.TurnsWrap` | internal/raftnode/transport_observer.go:312-374 | undisturbed turns hand raft the RPCs in order, rewired exactly where they are votes |
| `RelayObject.TurnsReach` | internal/raftnode/transport_observer.go:312-374 | every state the undisturbed loop passes through is reached by a run of the machine, so its theorems hold there |
| `RelayObject.EventTransport.NoteTerm` | internal/raftnode/node.go:238-258 | the term rises to the maximum and is announced exactly if it rose |
| `RelayObject.EventTransport.AnnounceIncoming` | internal/raftnode/transport_observer.go:313-371 | per command type: the term field claimed if the kind has one and it is higher, announced then, and the events appended after it |
| `RelayObject.EventTransport.ForwardOne` | internal/raftnode/transport_observer.go:312-374 | one turn over the fields is the machine's turn |
| `RelayObject.EventTransport.ForwardWithVoteCapture` | internal/raftnode/transport_observer.go:432-448 | starts one goroutine with the original channel and sends the RPC on with a private one |
| `RelayObject.EventTransport.ForwardConsumer` | internal/raftnode/transport_observer.go:312-374 | the loop leaves a state that runs of the machine reach, after as many turns as RPCs, with every RPC handed over in order and the channel closed |
| `Terms.TermTracker.Note` | internal/raftnode/node.go:238-250 | lastTerm stays the maximum observed; the call claims its term exactly if it is a record high |
| `Terms.TermsAnnouncedOnce` | internal/raftnode/node.go:238-258 | for concurrent callers: lastTerm is the maximum observed, claims in lock order are the record highs and climb, none is announced twice, and once no call is under way the announcements are a permutation of the record highs |
| `Terms.AnnouncementsCanOvertake` | internal/raftnode/node.go:248-257 | a run in which a higher term reaches the hub before a lower one claimed earlier, since the lock is released in between |
| `Terms.InClaimOrderIff` | internal/raftnode/node.go:243-257 | at every moment of every run the announcements are a prefix of the claims, and so in their order, if and only if each was made by the caller with the least term still to announce |
| `Terms.RecordsClimb` | internal/raftnode/node.go:243-249 | record highs climb strictly and end in the maximum |
| `Fsm.ExecuteFolds` | internal/fsm/fsm.go:112-149 | applying the next entry to the fold of a log gives the fold of the longer log, error entries included, and never writes to a nil map |
| `Fsm.FoldIsLastWrite` | internal/fsm/fsm.go:121-128 | the fold maps a key to what the newest valid command on it says |
| `Fsm.FoldWrites` | internal/fsm/fsm.go:19-20 | in the words of the wire format: "SET" makes the key hold the value, "DELETE" removes it, both leave other keys alone, and anything else changes nothing |
| `Fsm.FoldValid` | internal/fsm/fsm.go:116-128 | every key and value in the data is a string the decoder produced |
| `Fsm.KVStoreFSM.Apply` | internal/fsm/fsm.go:112-149 | a command "SET" writes its value under its key, "DELETE" removes the key, and the history of 100 takes an entry; one that does not decode or names another operation changes nothing and fails; one callback goroutine a registered listener, in order |
| `Fsm.KVStoreFSM.Snapshot` | internal/fsm/fsm.go:200-204 | a clone of the data, nil if that is nil |
| `Fsm.KVStoreFSM.Restore` | internal/fsm/fsm.go:207-223 | on success the data is what the bytes decode to and the callback, if one is registered, gets its size; on failure nothing changes and nobody is notified; the history never changes |
| `Fsm.KVSnapshot.Persist` | internal/fsm/fsm.go:231-241 | the file is the encoding of the clone, or nothing if writing or closing fails |
| `Fsm.CloneMap` | internal/fsm/fsm.go:203 | a map of its own with the same entries, nil for nil |
| `Fsm.PersistLate` | internal/fsm/fsm.go:200-241 | a snapshot persisted after any number of later applies writes the state it was taken at |
| `Replicas.StepKept` | internal/fsm/fsm.go:112-241 | commits, applies, snapshots, late and failed persists, crashes and restores keep every replica and file exact |
| `Replicas.DataIsFold` | internal/fsm/fsm.go:112-241 | in every run a replica's data is the fold of the committed entries up to where it stands, is never nil, and Apply never panics |
| `Replicas.ReplicasAgree` | internal/fsm/fsm.go:112-241 | two replicas at the same index hold the same data, even at different moments |
| `Replicas.FilesAreExact` | internal/fsm/fsm.go:200-241 | every persisted snapshot decodes to the fold up to the entry it was taken at |
| `Replicas.HistoryIsWindow` | internal/fsm/fsm.go:138-141 | the history is the newest hundred successful commands of the stretches of the committed log applied since the process started, the last of which ends where the replica stands; a restore leaves it alone |
| `Replicas.SuccessesAreCommands` | internal/fsm/fsm.go:121-136 | the successful commands of a log are one record, with index, term and command, for each entry that decodes to a SET or a DELETE, in log order |
| `Replicas.HistoryFollowsLog` | internal/fsm/fsm.go:112-149 | from a start on, while it has not restored, a replica's history is the window of the very log whose fold is its data |
| `Replicas.HistoryFitsIff` | internal/fsm/fsm.go:207-223 | in any run over a log of distinct indices, a replica's history is at every moment the window of the log its data stands for, if and only if every restore jumped over no successful command, forward or back |
| `Replicas.SameWindowIff` | internal/fsm/fsm.go:138-141 | two prefixes of a log of distinct indices have the same window if and only if nothing succeeds between their ends |
| `Replicas.RestoredReplicaHasNoHistory` | internal/fsm/fsm.go:207-223 | a run in which a restarted replica restores the data of an entry and has no history of it |
| `Membership.PeerView.Diff` | internal/raftnode/observer.go:268-291 | announces exactly the two set differences, each peer once, in any map order, and never the removal of this node; the known peers become the configuration and this node if it was known; addresses of peers that stay do not change |
| `Membership.PeerView.JoinMissing` | internal/raftnode/observer.go:275-280 | exactly the unknown peers of the configuration are added and listed |
| `Membership.PeerView.RemoveStale` | internal/raftnode/observer.go:281-286 | exactly the known peers outside the configuration, but for this node, are deleted and listed |
| `Membership.PeerView.Observe` | internal/raftnode/observer.go:63-73 | a peer observation overwrites or deletes one entry |
| `Membership.PeerView.NodeIDFor` | internal/raftnode/node.go:224-233 | some known peer with the address, or the address itself if there is none |
| `Membership.CurrentOf` | internal/raftnode/observer.go:268-271 | the map of the configuration's servers |
| `Membership.BroadcastDiff` | internal/raftnode/observer.go:290-295 | after a diff, all who joined are announced in their order, then all who were removed |
| `Membership.ChangeReplays` | internal/raftnode/observer.go:63-80 | one change moves the known peers exactly as its announcements move a listener |
| `Membership.ViewIsReplay` | internal/raftnode/observer.go:268-295 | at every moment, replaying all announcements over this node alone gives the known peers |
| `Membership.EffectiveIffAlternates` | internal/raftnode/observer.go:274-287 | announcements each say something new if and only if they alternate per peer, beginning with a join for all but those present from the start |
| `Membership.EffectiveIffObservationsAreNews` | internal/raftnode/observer.go:63-80 | the announcements of a run are all news if and only if every peer observation removed a known peer or brought an unknown one |
| `Membership.AlternatesIffObservationsAreNews` | internal/raftnode/observer.go:63-80 | at every moment of every run joins and removals have alternated per peer if and only if every peer observation so far removed a known peer or brought an unknown one |
| `Membership.DiffsAlternate` | internal/raftnode/observer.go:274-295 | in runs without peer observations they always alternate |
| `Membership.DiffsSpareSelf` | internal/raftnode/observer.go:281-286 | without peer observations this node stays known and is never announced |
| `Membership.ObservedPeerJoinsTwice` | internal/raftnode/observer.go:63-80 | a run in which one peer is announced as joined twice, by the diff and by an observation |
| `Activation.Poller.OnActivated` | internal/raftnode/observer.go:178-195 | undisturbed, the fields change as the machine's activation does: a fresh channel and one loop on it, if none ran |
| `Activation.Poller.OnDeactivated` | internal/raftnode/observer.go:198-208 | undisturbed, the fields change as the machine's deactivation does: the current channel, until then open, is closed, if a loop ran |
| `ActivationMachine.CallbackAlone` | internal/raftnode/observer.go:178-208 | a callback that runs from its swap to its end while nobody else moves has the effect the object promises |
| `ActivationMachine.StepKept` | internal/raftnode/observer.go:178-208 | swap, assign, launch, check, close and clear each keep the fields consistent with where the one callback in the middle is |
| `ActivationMachine.GuardedRunsAreRight` | internal/raftnode/observer.go:178-208 | in every run where no callback wins its swap while another is between its own swap and its end: nothing panics, no channel is closed twice, and whenever nobody is in the middle exactly one loop runs, on the channel held, if the last swap was an activation, and none otherwise |
| `ActivationMachine.SafeIffQuiet` | internal/raftnode/observer.go:178-208 | letting a callback win its swap is safe, whatever the callbacks past their swaps do next, if and only if nobody is in the middle |
| `ActivationMachine.PollingRightIff` | internal/events/hub.go:140-157 | after such a run over all that a reachable hub decided, a loop runs exactly while somebody is subscribed, if and only if the last swap is of the kind decided last |
| `ActivationMachine.PollingFollowsClients` | internal/events/hub.go:140-157 | with the swaps in the order of the decisions, it does |
| `ActivationMachine.SwappedCallbacksKeepPolling` | internal/events/hub.go:140-157 | a hub that has seen one client come and go, and a run of its two callbacks, swapping in the wrong order, that leaves a loop running for nobody |
| `ActivationMachine.OverlapKeepsPolling` | internal/raftnode/observer.go:178-208 | a run in which the callbacks swap in the right order but overlap, and a loop is left that the cleared flag denies |
| `ActivationMachine.OverlapPanics` | internal/raftnode/observer.go:198-208 | a run in which two overlapping deactivations come to close one channel |
| `ActivationMachine.OverlapClosesNil` | internal/raftnode/observer.go:204-206 | a run in which one of them comes to close nil |
| `Sse.FramesRoundTrip` | internal/api/handler.go:156-165 | reading the frames of any clean events by the WHATWG rules gives back types, data and last event IDs in order; an event without ID leaves the last ID alone; one that does not marshal leaves no trace |
| `Sse.LastMessageCarriesNewestID` | internal/api/handler.go:161-163 | the last message read carries the newest non-empty ID written |
| `Sse.LinesOfFrame` | internal/api/handler.go:156-165 | a frame followed by anything splits into its own lines and the lines of the rest |
| `Sse.ReadFrame` | internal/api/handler.go:156-165 | read from empty buffers, a frame dispatches exactly its event and leaves the buffers empty |
| `Sse.WriteSSE` | internal/api/handler.go:156-165 | appends the ID line if there is an ID, the event line with a name that reads back as the type, the data line and an empty line; nothing if the event does not marshal |
| `Sse.Stream` | internal/api/handler.go:186-213 | the stream is the frames of a state snapshot, both histories, the sync mark and the live events in that order |
| `Sse.StreamRoundTrip` | internal/api/handler.go:186-213 | the whole stream reads back as sent, for any events whose IDs and JSON have no line break and whose IDs have no NUL |
| `Sse.StreamReadsEvents` | internal/api/handler.go:156-213 | a client reads one message for every event that marshals, in order, with the event's type, its JSON, and the newest ID written by then |
| `ClientStream.EventIDIsClean` | internal/events/hub.go:249 | an ID made by the hub has no line break and no NUL, whatever the clock reads |
| `ClientStream.StepKept` | internal/events/hub.go:244-276 | every step of the hub keeps: what is past its append, and what was tried on a channel, stands in the append log as it is |
| `ClientStream.SentWasLogged` | internal/api/handler.go:189-213 | replays, received and waiting events of a client all stand in the append log as they are |
| `ClientStream.ClientReadsBack` | internal/api/handler.go:186-213 | in every reachable state a client that reads its stream by the standard gets, for every event of the state, both replays, the sync mark and all it received that marshals, in that order, one message that decodes to the broadcast type, carries its JSON, and has the newest ID written by then |
| `ClientStream.NothingLost` | internal/api/handler.go:180-213 | a finished lifecycle event has been read by a subscribed client past its replay, or waits in its channel, or was dropped there at 64 waiting, or had been pushed out of the history by 50 newer ones before the copy |
| `Sse.TypeNamesAreClean` | internal/events/types.go:8-35 | every event type name is one non-empty line that a client reads back as the type |
| `Spawning.NodeIDInjective` | internal/processmgr/manager.go:88 | different numbers give different names |
| `Spawning.NodeIDReads` | internal/processmgr/manager.go:88 | a name is "node-" and the number in decimal |
| `Spawning.IDsUpToCount` | internal/processmgr/manager.go:87-91 | there are as many candidate names as numbers |
| `Spawning.SomeIDIsFree` | internal/processmgr/manager.go:87-92 | a free number exists if and only if fewer than 500 of the candidate names are in use |
| `Spawning.FindFreePort` | internal/processmgr/manager.go:61-71 | the lowest free port of the 2000 from the start, an error exactly if none is free |
| `Spawning.Manager.NextAvailableNodeID` | internal/processmgr/manager.go:74-93 | "node-" and in decimal the lowest number from 1 to 500 not in use by this node, the peers or the children, or the clock modulo 10000 if all 500 are; the name is unused if and only if fewer than 500 are taken or the clock name happens to be unused |
| `Spawning.ClockRepeatsName` | internal/processmgr/manager.go:92 | with all 500 names in use and an unlucky clock, the name handed out is one in use |
| `Spawning.Manager.SpawnNode` | internal/processmgr/manager.go:96-169 | lowest free raft port from nextPort, which moves past it even if the rest fails; HTTP port a thousand higher or from 8004; a child is recorded exactly if ports, log file and start all succeed |
| `Spawning.SpawnOne` | internal/api/handler.go:424-433 | one turn of the batch loop, with whatever name: it is in use from then on whether or not the spawn succeeds, and new if fewer than 500 were taken |
| `Spawning.SpawnBatch` | internal/api/handler.go:403-443 | as many names as requested, one below 1 and 50 above 50; the raft ports taken climb strictly and what was spawned is recorded in order; if names in use and batch fit into 500, all its names are distinct, new and numbered, and every spawned process is the child under its name |
| `Spawning.RecordedUnderName` | internal/processmgr/manager.go:164 | recorded under distinct names, every spawned process is the child of its name and no other child changes |

## Left out

- Fsm.KVStoreFSM.Apply: its precondition excludes a SET on nil data, where the code panics; `Replicas.DataIsFold` proves that no run gets there.
- Events.EventIDInjective: does not model the wrap of the 64-bit sequence counter; terms, indices and counts are unbounded as well.
- HubTheorems.AtMostTwice: counts replays and receives; that a client keeps reading, and any other liveness, is not stated.
- ActivationMachine.GuardedRunsAreRight: a loop also ends when the node stops; the snapshot broadcast between assignment and launch touches none of the fields and is not a step. Data races on `pollCancel` are modelled as interleaved reads and writes.
- Membership.ViewIsReplay: follows the order in which the lock is taken; broadcasts happen after it is released and can reach the hub in another order.
- RelayTheorems.TermNeverLags: an RPC of another type on the heartbeat handler carries no term and passes through; it is not modelled.
- Spawning.SpawnBatch: one batch at a time; two batches can be given the same name between its choice and the spawn. HTTP ports are not claimed distinct, since children bind later.
- HubObject.Hub.BroadcastDirect: one call at a time; interleavings are the machine's.
- Consensus itself (elections, log matching, commit), BoltDB and TCP: the code is not in the repository.
- Outgoing RPC wrappers, the append pipeline with `watchFuture`, and the snapshot store wrapper: they announce before or after one inner call, or relay one channel without rewiring it.
- `StoreConfiguration` and its callbacks, `Get` and `GetAll`: copies of what is modelled for `Apply` and `Snapshot`.
- `GetState` and `votedForFromStore`: they read several sources one after another and promise no consistent view.
- Peer health values, `RegisterPeerHTTP` and the inference of HTTP addresses from raft addresses.
- Message texts, timestamps and the contents of event payloads beyond what a property speaks of; tickers, so flushes and checks happen at arbitrary steps.
- HTTP routing, CORS, proxying to the leader, the join retry loop, the embedded UI, flags and signals.
- Stopping processes, and the readers-writer lock's preference for waiting writers.
