# VX6 in Dafny

A model of three parts of VX6, a peer-to-peer overlay, and proofs about them:

- **onion circuits**: a client telescopes a circuit through up to five relays, seals every message once
  per hop under a counter nonce, and each relay peels one layer and consumes or forwards the rest;
- **the DHT**: the routing table with its two bucket indexes, pending list and offline map over shared
  entries; the walks that look nodes and values up; the collector that weighs the answers; the store in
  which the last version wins; the persisted peers;
- **supporting state**: the liveness rate limits and packets, the registry of endpoint records and the
  owner that numbers its own records.

`dafny verify dfyconfig.toml` checks everything.

## How it is laid out

| files | contents |
|---|---|
| `Wire`, `Ordering`, `Slots` | options, byte strings, sorting, bucket arrays |
| `Cells`, `Layers`, `Relays`, `Client` | cells and envelopes, layered sealing, one relay, the client end (classes `CircuitKeys`, `RelayCircuit`, `ClientCircuit`) |
| `RelayRuns` | a relay's whole life: what its history says about the next command |
| `Channel`, `Fifo`, `Delivery`, `Dialling`, `OutOfStep` | a whole circuit as a step machine over queues, what every run keeps, delivery, dialling, what happens once counters disagree |
| `Coordinates`, `Records`, `Routing`, `RoutingInv`, `RoutingRuns`, `RoutingHistory`, `ProbeTurns`, `Restarts`, `Updates`, `Diaries`, `Evictions`, `Recency` | XOR space, the routing table on values, what every operation and every run keeps, histories, restarts of the node, which record of a peer is kept; what is noted of a peer, who comes and goes, and the order of the buckets, read off the operations |
| `EntryLists`, `RoutingTables`, `Closest`, `Distances` | the routing table as it is kept, shared entry objects included (class `RoutingTable`), and nearest-peer answers |
| `Lookup`, `ValueLookup`, `TwoRecords` | the two iterative walks, and what one peer under two records does to the second |
| `Values`, `Evidence`, `Collector`, `Agreement`, `OrderFree`, `Strengths` | value order, what a set of reports amounts to, the collector (class `LookupCollector`), what arrival order can and cannot change |
| `ValueStore`, `Retention`, `Tiers`, `PeerStores`, `Ledgers` | stored values (class `Store`), which peers are kept, the peer database (class `PeerStore`) and what its rows say |
| `TokenBuckets`, `RateExact`, `Liveness` | rate limits (class `Responder`), exactly which calls are answered, the packet codec |
| `Registries`, `Filings`, `Owners` | endpoint registry (class `Registry`), which records it takes and holds, sequence numbers (class `EndpointRecordState`) |
| `Assumptions` | the laws assumed of ciphers, keys and encodings have a model |

Operations that update fields are classes whose methods equal a function of the old state; what the
source promises is then proved of that function over every run.

## What stands in for the outside

- AES-GCM is a pair of functions that obey `Layers.Ideal` and, where a message meets the wrong counter,
  `Layers.Binding`; X25519, Ed25519, HKDF and the JSON bodies obey `Dialling.Lawful`. SHA-256 is any function
  below 2^256. Nothing is an axiom: the laws are preconditions, and `Assumptions` shows that they can be met,
  by a cipher under which no layer is ever taken for a command (`Assumptions.CipherExists`). The laws do not
  imply that: under another lawful cipher nothing crosses a second hop (`Assumptions.LawsDoNotClear`).
- A create cell may be answered with any bytes, by anybody. That a good signature under a key was made by its
  owner, in one of the sessions it has opened, is a premise (`Dialling.Unforged`). What the client then shares is
  a session of the planned relay (`Dialling.AcceptedMeans`); that the connection leads to that session is a
  second premise where the circuit is carried on (`Dialling.Connected`).
- Whoever answers at an address is a function of the address dialled and the node expected there, and so is
  whether a target can be reached (`Dialling.Peers`); so a circuit is with the planned relays because it was
  they who were dialled.
- Clocks are parameters. File and database writes are flags saying whether they succeed.
- The network is a function from a peer to its reply, a nondeterministic order of arrival, and a deadline
  that may strike before any reply. Signature checks of referrals are verdicts attached to them, so the
  same record may pass once and fail later.
- Sorting in the peer store is any permutation, because the comparison it uses is not transitive.
- A fingerprint of an endpoint record stands for the signed payload itself.

## Where the code differs from the obvious statement

- A data or control cell is recognised by four magic bytes only. A chunk is delivered if and only if no
  inner layer starts with them (`Delivery.DeliveredIffClear`); runs and dials are stated for clear cells.
- A write whose first chunk does not fit a cell with one tag per hop, as a full chunk on six hops, is refused
  after the client's counters have moved (`Client.WriteRefusedIff`). From then on the first relay rejects
  whatever the client sends (`OutOfStep.RefusedWritesLoseCircuit`).
- Backward cells are sealed without a lock and before the write lock is taken, so two senders on one relay can
  seal under one counter, or write in another order than they sealed. Whatever numbers the cells carry, the
  client reads up to the first out of turn, which closes the circuit (`OutOfStep.CellsReadInTurn`). It reads all if
  and only if each is numbered by its place (`OutOfStep.ReadWholeIff`): replies sealed in turn exactly if written
  in that order (`OutOfStep.WrittenInOrderIff`), two under one counter never (`OutOfStep.SharedCounterCloses`).
  Sealing and writing are one step in the runs.
- A client that is told of the end may have bytes queued that it is not given first (`Client.EndMayComeFirst`); it
  has had every byte if and only if none are queued then (`Client.EndIsLastIff`).
- A comment in table.go says that refreshing a candidate must not take a second slot. It does not, but it
  takes one off the counter each time, so the list outgrows its limit by the number of refreshes
  (`RoutingHistory.PendingConserved`, `RoutingHistory.ReachableBounded`), and an empty table gets there
  (`RoutingHistory.OverfullReachable`).
- Pending lists are indexed with -1 for a candidate on self's own point (`Routing.PendingIndexIff`), and two
  different IDs can share a point (`Routing.OwnPoint`). The source panics there
  (`RoutingTables.RoutingTable.AddCandidate`); runs keep off it. The node's own callers pass verified peers only,
  whose IDs are `vx6_` and 64 digits, and two of those never share a point (`Routing.DerivedApart`,
  `RoutingRuns.DerivedPlaceable`).
- Restoring an offline observation over an active peer lists the peer twice, and unpinning a peer can leave
  an offline entry that never answered. Both have their exact conditions (`RoutingRuns.RestoreOneIff`,
  `RoutingRuns.SetPinnedIff`) and happen (`RoutingRuns.RestoreOverActive`, `RoutingRuns.UnpinBreaks`).
- Promotion lets go of the lock halfway, when the peer is known and in no list. Runs interleave the two halves
  with everything else.
- A refresh target for the name index is hashed again, so only ID targets are sure to land in their bucket
  (`Coordinates.TargetLandsInBucket`, `Coordinates.NameTargetIsRehashed`, `Coordinates.NameTargetMisses`).
- A value is found if two sources vouch for it, and sources are told apart by ID. The command line and the SDK
  list a configured peer once as `seed:` and its address and once under its own ID. Such a peer is asked twice, and
  its enveloped value is found on its word alone (`TwoRecords.SeedCountsTwice`, `TwoRecords.OnePeerConfirms`). If no
  two known records share an address, the sources are at different ones (`TwoRecords.VouchersApart`).
- A newer value does not clear the branches counted so far. So whether a value is confirmed depends on the
  order of arrival exactly if it has the sources, the weight and a network beyond loopback, was itself reported
  on fewer than two branches, and its family on two or more (`OrderFree.OrderMattersIff`); three reports suffice
  (`OrderFree.ConfirmationDependsOnOrder`).
- The order of values is cyclic for some mixtures of sequenced and legacy values, and exactly which is
  `Values.CyclicIff`. What is stored in the end is independent of the order of arrival if and only if one value
  beats all others (`ValueStore.ConvergesIff`), which only such a mixture can prevent
  (`ValueStore.TopUnlessStraddled`, `ValueStore.StraddledDiverge`).
- The branch of the collector that reports conflicting unverified values is never taken: candidates are
  keyed by fingerprint and fingerprints break the last tie (`Agreement.LookupCollector.Strongest`).
- Storing a value with an empty inner text updates the value and not its recorded version
  (`ValueStore.Store.StoreValidated`); an unsigned key takes one (`ValueStore.EmptyTextIsStored`).
- Publishing a legacy record under a lower version number replaces the stored one by an older one
  (`Registries.PublishIff`, `Registries.DowngradePublished`, `Registries.DowngradeExists`).
- The per-source rate limit also survives eviction of the oldest source: filling the table costs so many
  common tokens that the oldest bucket is full again by then (`TokenBuckets.EvictedFull`). So exactly which calls
  are answered can be read off their times alone (`RateExact.AnsweredIff`).

## Model

| member | source | states |
|---|---|---|
| `Cells.CellRoundTrip` | internal/onion/cell.go:67-102 | a cell that fits is read back unchanged, and the rest of the stream is left |
| `Cells.StreamRoundTrip` | internal/onion/cell.go:67-102 | any stream of cells is read back cell for cell |
| `Cells.EnvelopeRoundTrip` | internal/onion/cell.go:275-299 | decoding an envelope returns the command and body that were encoded |
| `Layers.OnionLength` | internal/onion/cell.go:239-267 | each layer costs sixteen bytes |
| `Layers.OpenAllOnion` | internal/onion/onion.go:362-394 | opening all layers in hop order undoes sealing them, and moves every counter once |
| `Layers.CircuitKeys.SealForward` | internal/onion/cell.go:239-243 | seals under the forward counter and moves it, wrapping at 2^64 |
| `Layers.CircuitKeys.OpenForward` | internal/onion/cell.go:245-252 | the counter moves exactly when opening succeeds |
| `Layers.CircuitKeys.SealBackward` | internal/onion/cell.go:254-258 | seals under the backward counter and moves it |
| `Layers.CircuitKeys.OpenBackward` | internal/onion/cell.go:260-267 | the counter moves exactly when opening succeeds |
| `Relays.RelayCircuit.HandleRelayCell` | internal/onion/circuit.go:107-177 | peels a layer and acts, forwards, delivers or breaks as the step function says |
| `Relays.RelayCircuit.HandleExtendCommand` | internal/onion/circuit.go:179-226 | an extend request is refused or handed on, with the reply it earns |
| `Relays.RelayCircuit.HandleBeginCommand` | internal/onion/circuit.go:228-249 | a begin request is refused or handed on |
| `Relays.RelayCircuit.ExtendAnswered` | internal/onion/circuit.go:194-226 | what the next relay's answer makes of this one |
| `Relays.RelayCircuit.TargetDialled` | internal/onion/circuit.go:236-249 | the target is kept and reported, or the failure reported |
| `Relays.RelayCircuit.SendBackwardPlain` | internal/onion/circuit.go:312-323 | a reply is sealed once and written towards the client |
| `Relays.RelayCircuit.OutboundEnded` | internal/onion/circuit.go:251-285 | the next hop is gone, and the client is told of the end |
| `Relays.RelayCircuit.TargetEnded` | internal/onion/circuit.go:287-310 | the target is gone, and the client is told of the end |
| `RelayRuns.CellIsCommand` | internal/onion/circuit.go:107-130 | a cell that opens to a command is handled as that command, with the forward counter moved |
| `RelayRuns.HistoryTells` | internal/onion/circuit.go:107-310 | after any history a relay has a target exactly if one was reached and neither ended nor was ended since, and a next hop exactly if one answered and has not gone |
| `RelayRuns.DataGoes` | internal/onion/circuit.go:153-164 | data is handed on, unchanged, exactly while there is a target, else refused with an error |
| `RelayRuns.NothingAfterEnd` | internal/onion/circuit.go:165-173 | after an end no data is delivered until a begin succeeds again |
| `RelayRuns.EndAnswered` | internal/onion/circuit.go:165-173 | an end is answered by an end |
| `RelayRuns.ExtendGoes` | internal/onion/circuit.go:179-226 | the address asked for is dialled, for the node asked for, exactly if the key fits and there is no next hop; else the right error goes back |
| `RelayRuns.BeginGoes` | internal/onion/circuit.go:228-249 | the target asked for is dialled exactly if there is none yet; else the right error goes back |
| `RelayRuns.DialReported` | internal/onion/circuit.go:194-249 | the answer of the next hop, or of the target, is what goes back |
| `Relays.RelayCircuit.WriteInbound` | internal/onion/circuit.go:251-285 | a backward payload gets this relay's layer, the counter moves, and the cell is written only if it fits |
| `Client.SendFits` | internal/onion/onion.go:347-360 | a command is accepted if and only if envelope, body and one tag per hop fit a cell; up to five hops it always is |
| `Client.WriteAllComplete` | internal/onion/onion.go:526-543 | within five hops a write is never refused and sends one cell per chunk |
| `Client.ChunksFull` | internal/onion/onion.go:526-543 | all chunks but the last are 917 bytes, and none is empty |
| `Client.ReplyMeans` | internal/onion/onion.go:569-611 | a reply sealed through all hops is data as sent, closes the circuit if an end or an error, and is else passed over |
| `Client.ChunksFlatten` | internal/onion/onion.go:526-543 | the chunks of a write, put together, are the bytes written |
| `Client.WriteRefusedIff` | internal/onion/onion.go:526-543 | a write is refused if and only if its first chunk does not fit with one tag per hop; then nothing is sent and every counter has moved |
| `Client.ClientCircuit.Wrap` | internal/onion/onion.go:347-356 | the payload is sealed for the last hop first and every forward counter moves once |
| `Client.ClientCircuit.SendRelayCommand` | internal/onion/onion.go:347-360 | sends one onion, or refuses as the step function says |
| `Client.ClientCircuit.Write` | internal/onion/onion.go:526-543 | the loop sends exactly the cells of the chunked write and stops at the first refusal |
| `Client.ClientCircuit.ReceiveCell` | internal/onion/onion.go:569-620 | one turn of the read pump: queues data, ignores, or closes |
| `Client.ClientCircuit.Read` | internal/onion/onion.go:506-524 | hands out the next unread bytes, or tells of the end, even with bodies queued, or waits if there is neither |
| `Client.ReadsConserve` | internal/onion/onion.go:506-524 | over any reads, what was handed out and what is left are the bytes received, in order |
| `Client.EndToldOnce` | internal/onion/onion.go:513-518 | the end is told at most once, and only if it was waiting |
| `Client.EndIsLastIff` | internal/onion/onion.go:506-524 | a reader told of the end has had every byte if and only if no queued body has any |
| `Client.EndMayComeFirst` | internal/onion/onion.go:507-519 | whatever is queued, the end may be told first |
| `Channel.Initially` | internal/onion/onion.go:197-260 | a built circuit satisfies the invariant that ties every cell in flight to every counter |
| `Channel.WriteKeeps` | internal/onion/onion.go:526-543 | a client write keeps the invariant |
| `Channel.PeelKeeps` | internal/onion/circuit.go:107-177 | a relay peeling a forward cell keeps it |
| `Channel.EmitKeeps` | internal/onion/circuit.go:287-323 | the last relay reading from the target keeps it |
| `Channel.PassKeeps` | internal/onion/circuit.go:251-285 | a relay adding its layer to a backward cell keeps it |
| `Channel.ReceiveKeeps` | internal/onion/onion.go:569-620 | the client opening a backward cell keeps it |
| `Fifo.RunIsFifo` | internal/onion/circuit.go:107-177 | in every interleaving nothing fails to open, counters plus queued cells match, every cell fits, and the bytes at each far end are a prefix of those sent |
| `Fifo.TurnRefines` | internal/onion/circuit.go:251-310 | every step of every run is one move of a plain byte pipe in each direction |
| `Delivery.EverythingArrives` | internal/onion/circuit.go:78-105 | from any run the circuit falls quiet after exactly as many steps as there is work, never stuck before, and then all bytes have arrived both ways |
| `Delivery.DeliveredIffClear` | internal/onion/cell.go:287-299 | a data cell reaches the target if and only if no inner layer starts with the magic |
| `Delivery.WriteIsRun` | internal/onion/onion.go:526-543 | the client's write loop is the run that writes its chunks |
| `OutOfStep.CellArrives` | internal/onion/circuit.go:251-285 | through any number of hops, the client understands a cell sealed m ahead as the t-th it gets if and only if m and t agree modulo 2^64 |
| `OutOfStep.CellsReadInTurn` | internal/onion/cell.go:254-258 | whatever counters racing senders have sealed under, cells are read up to the first out of turn, which closes the circuit |
| `OutOfStep.RepliesReadInTurn` | internal/onion/circuit.go:312-337 | so are replies sealed in turn and written in any order |
| `OutOfStep.ReadWholeIff` | internal/onion/circuit.go:312-337 | on a built circuit of any length all cells are read if and only if each is numbered by its place |
| `OutOfStep.WrittenInOrderIff` | internal/onion/circuit.go:312-337 | replies sealed in turn are all read if and only if they are written in that order |
| `OutOfStep.SharedCounterCloses` | internal/onion/cell.go:254-258 | with two cells sealed under one counter not all are read |
| `OutOfStep.FirstRelayIff` | internal/onion/circuit.go:107-123 | the first relay rejects a command, unmoved, if and only if the client's counters are not a multiple of 2^64 ahead |
| `OutOfStep.RefusedWritesLoseCircuit` | internal/onion/onion.go:347-360 | after refused writes the first relay rejects every later command, unmoved, until refusals and commands since make up a multiple of 2^64 |
| `Dialling.AcceptedMeans` | internal/onion/cell.go:178-217 | whoever sent it, an accepted answer gives the client the lanes of a session that the planned key's owner opened for this request |
| `Dialling.HandshakeAgrees` | internal/onion/cell.go:144-217 | the client and the relay its cells come to share both lanes, and that relay is the owner of the planned key |
| `Dialling.OwnAnswer` | internal/onion/cell.go:144-217 | the protocol's own answer is accepted exactly from the owner of the planned key |
| `Dialling.EstablishFirstHop` | internal/onion/onion.go:262-283 | success means the planned relay with agreeing keys and zero counters, whatever was answered; the planned relay keeping to the protocol always succeeds |
| `Dialling.ExtendSound` | internal/onion/onion.go:285-320 | an extension through the hops in place dials the planned address for the planned node and adds the relay with agreeing keys, all counters one exchange later, whatever was answered; an honest reachable relay is always added |
| `Dialling.BeginSound` | internal/onion/onion.go:322-345 | begin succeeds only if the target asked for can be reached, and always if it can and the request fits |
| `Dialling.DialPlannedCircuit` | internal/onion/onion.go:197-260 | success means that at every hop, in plan order, client and the planned relay at the planned address hold the same keys and equal counters, the target asked for is reached and the circuit is ready, whatever bytes relays answered; honest plans always succeed |
| `Coordinates.PointForms` | internal/dht/table.go:1019-1037 | an ID, its key and the key of a name hash with the same digits are one point, and any other text is hashed |
| `Coordinates.BucketRange` | internal/dht/table.go:871-873 | the bucket is -1 exactly for self's own point, and at most 255 |
| `Coordinates.HexRoundTrip` | internal/dht/table.go:997-1036 | an encoded coordinate decodes to itself |
| `Coordinates.TargetLandsInBucket` | internal/dht/table.go:997-1011 | every ID refresh target lies in the bucket it was drawn for |
| `Coordinates.NameTargetIsRehashed` | internal/dht/table.go:1019-1036 | a name refresh target is placed by the hash of its digits |
| `Coordinates.NameTargetMisses` | internal/dht/table.go:1019-1036 | under a constant hash no name target lands in the bucket it was drawn for |
| `Records.NewerOrder` | internal/record/endpoint.go:177-187 | newer is a strict order, and not-newer chains over comparable records |
| `Routing.PendingIndexIff` | internal/dht/table.go:213-261 | the pending list is indexed in range if and only if the candidate is off self's point |
| `Routing.OwnPoint` | internal/dht/table.go:1013-1036 | a usable candidate on self's point exists for every self with an encoded ID |
| `Routing.DerivedApart` | internal/identity/store.go:191-194 | a candidate filed under an identity's ID, other than self's, is off self's point |
| `RoutingInv.NewInv` | internal/dht/table.go:102-104 | an empty table is consistent |
| `RoutingInv.AddNodeKeeps` | internal/dht/table.go:125-167 | adding keeps the table consistent and makes exactly that peer active |
| `RoutingInv.UpdateKnownKeeps` | internal/dht/table.go:171-194 | a record update re-homes the name entry and changes no membership |
| `Updates.NewerIs` | internal/record/endpoint.go:177-187 | newer means a higher version, then a higher sequence number or, for legacy records, a later issue; exactly so for all readable records |
| `Updates.UpdateIff` | internal/dht/table.go:171-194 | an update is taken exactly if it is verified and further on, and then it is what is held |
| `Updates.FurthestHeld` | internal/dht/table.go:171-194 | after any updates of a peer, in any order, the record held is the first or a verified one, and no verified one is further on |
| `RoutingInv.AddLookupCandidateKeeps` | internal/dht/table.go:213-228 | a lookup candidate keeps the table consistent |
| `RoutingInv.AddCandidateKeeps` | internal/dht/table.go:230-261 | a new or refreshed candidate keeps the table consistent |
| `RoutingInv.TakeKeeps` | internal/dht/table.go:305-322 | the first half of a promotion leaves the peer known and unlisted, and all others as they were |
| `RoutingInv.FileKeeps` | internal/dht/table.go:323-326 | however the table has changed since, the second half makes the peer active and the table consistent |
| `RoutingInv.PromoteKeeps` | internal/dht/table.go:305-326 | uninterrupted, promotion moves a pending peer to the active lists |
| `RoutingInv.DiscardKeeps` | internal/dht/table.go:328-334 | discarding leaves no unlisted unpinned peer behind |
| `RoutingInv.NoteFailureKeeps` | internal/dht/table.go:340-352 | a lookup failure removes nobody |
| `RoutingInv.ReserveKeeps` | internal/dht/table.go:356-374 | reserving a probe keeps the table consistent |
| `RoutingInv.LivenessKeeps` | internal/dht/table.go:378-431 | a result keeps the table consistent and expels exactly on the third counted miss |
| `RoutingInv.RecordUseKeeps` | internal/dht/table.go:433-468 | a use keeps the table consistent |
| `RoutingInv.SetFriendKeeps` | internal/dht/table.go:486-495 | friendship changes no membership |
| `RoutingInv.PruneKeeps` | internal/dht/table.go:815-824 | pruning forgets offline peers only |
| `RoutingInv.SetSelfNameHashKeeps` | internal/dht/table.go:106-121 | renaming self refiles every active peer under its name hash |
| `RoutingRuns.StepKeeps` | internal/dht/table.go:106-468 | every operation keeps the table consistent, and what each does to the active set |
| `RoutingRuns.ReachableConsistent` | internal/dht/table.go:263-303 | in every table reachable from a restored start each known peer neither pinned nor halfway through a promotion is in exactly one of active, pending and offline, once and in its slot, and the two indexes agree |
| `RoutingRuns.DerivedPlaceable` | internal/dht/table.go:263-303 | so among peers under identities' IDs restoring never leaves the pending lists |
| `Restarts.RestartsConsistent` | internal/dht/table.go:758-783 | from the first start, through any snapshots, friendships, uses and restarts, the table is consistent and whoever is persisted as offline has answered before or is pinned |
| `RoutingRuns.RestoreOneIff` | internal/dht/table.go:263-303 | restoring an observation keeps the table consistent if and only if it suits where the peer stands before the call: active, waiting or with room, or known while the list is full |
| `RoutingRuns.RestoreOverActive` | internal/dht/table.go:263-303 | restoring an offline observation of an active peer lists it twice |
| `RoutingRuns.SetPinnedIff` | internal/dht/table.go:471-483 | unpinning keeps the table consistent unless the peer is offline and never answered |
| `RoutingRuns.UnpinBreaks` | internal/dht/table.go:471-483 | a peer restored as pinned and offline, then unpinned, breaks consistency |
| `RoutingHistory.LeavesOnlyAfterThree` | internal/dht/table.go:378-431 | on every run a peer leaves the active lists only by a third counted failure, consecutive ones five minutes apart, since it was last added, alive or used |
| `RoutingHistory.PendingConserved` | internal/dht/table.go:928-939 | on every run the pending entries number the counter plus the refreshes so far |
| `RoutingHistory.PendingBounded` | internal/dht/table.go:213-261 | from a table that counts right the list never holds more than 512 plus the refreshes so far |
| `RoutingHistory.RestoreConserved` | internal/dht/table.go:263-303 | restoring leaves one uncounted entry for each observation restored over a waiting peer |
| `RoutingHistory.ReachableBounded` | internal/dht/table.go:213-303 | in every reachable table the list holds at most 512 plus the refreshes, while restoring or later; restoring different peers refreshes none |
| `RoutingHistory.RefreshOverfills` | internal/dht/table.go:241-246 | a full list takes one more entry after a refresh |
| `RoutingHistory.OverfullReachable` | internal/dht/table.go:230-261 | from an empty table a run ends with 513 pending entries |
| `Diaries.DiaryReads` | internal/dht/table.go:125-495 | over any run that keeps a peer known its counters of answers, uses and failures, its times, its next probe, probation and friendship follow from the operations alone |
| `Evictions.LeavesIff` | internal/dht/table.go:378-431 | on every run an active peer leaves if and only if three failed probes count: since its last sign of life, each five minutes or more after the one before |
| `Evictions.ForgottenIff` | internal/dht/table.go:378-431 | exactly when a known peer is forgotten: offline over thirty days and nobody's friend, discarded while waiting, or failing a third time without ever having answered; never if pinned |
| `Evictions.LearnedIff` | internal/dht/table.go:125-261 | exactly when a stranger becomes known: added, or a candidate while fewer than 512 are counted |
| `Evictions.StandingAfter` | internal/dht/table.go:125-431 | exactly who waits and who is offline after each operation |
| `Evictions.NodeAfter` | internal/dht/table.go:125-261 | which record is held of a peer after each operation, and whether it is only a lookup's candidate |
| `Evictions.OfflineClock` | internal/dht/table.go:378-431 | offline since the third failure, if not before, until a success |
| `Evictions.Smoothed` | internal/dht/table.go:433-468 | a round trip moves the estimate an eighth of the way; the first is taken whole |
| `Evictions.ReservableIff` | internal/dht/table.go:356-374 | a probe may go exactly to an active peer whose time has come and, of those, to one probed longest ago |
| `Evictions.ReservedOnTime` | internal/dht/table.go:356-374 | on every run no probe comes before five minutes have passed since the last, or the peer's own delay since its last answer |
| `Evictions.ComesBackIff` | internal/dht/table.go:263-303 | a stranger in a saved observation comes back exactly if it is fresh and there is room, with its record, offline or waiting as it was |
| `Recency.BucketsByRecency` | internal/dht/table.go:886-900 | after any run every bucket lists its peers by how lately they answered or were used |
| `ProbeTurns.ProbeFairness` | internal/dht/table.go:356-374 | while a due peer waits nobody is reserved twice, newcomers do not overtake it, and it waits for at most its rivals at the start |
| `EntryLists.IndexOfEntry` | internal/dht/table.go:981-988 | the first position of an ID, or -1 exactly if it is not listed |
| `EntryLists.InIndex` | internal/dht/table.go:919-926 | whether any list has the ID |
| `EntryLists.InsertIndex` | internal/dht/table.go:886-900 | the entry goes to the front of its clamped slot, moved if it was there |
| `EntryLists.MoveListed` | internal/dht/table.go:972-979 | a listed entry moves to the front, anything else changes nothing |
| `EntryLists.RemoveFromIndex` | internal/dht/table.go:941-950 | the ID leaves every list, and the others keep their order |
| `EntryLists.RemoveFirst` | internal/dht/table.go:928-939 | stopping at the first hit removes as much as searching on |
| `RoutingTables.RoutingTable.constructor` | internal/dht/table.go:102-104 | starts empty and consistent |
| `RoutingTables.RoutingTable.AddNode` | internal/dht/table.go:125-167 | on shared entries, equals the addition on values; every listed entry stays the one the ID map holds |
| `RoutingTables.RoutingTable.UpdateKnownNode` | internal/dht/table.go:171-194 | equals the update on values; entries stay shared |
| `RoutingTables.RoutingTable.AddLookupCandidate` | internal/dht/table.go:213-228 | crashes exactly if a candidate that is to be filed stands on self's own point, where the index is -1; else equals the operation on values |
| `RoutingTables.RoutingTable.AddCandidate` | internal/dht/table.go:230-261 | crashes exactly where a pending list is indexed with -1; else equals the operation on values, the counter's loss included |
| `RoutingTables.RoutingTable.RestoreCandidates` | internal/dht/table.go:263-303 | crashes exactly if some observation in turn indexes a pending list with -1, which none off self's point does; else restores the most recently successful 512 into any table, which stays consistent if each suits it in turn, as sound ones do at start |
| `RoutingTables.HottestAre` | internal/dht/table.go:264-267 | what is restored was persisted, and nothing left out succeeded later |
| `RoutingTables.RoutingTable.TakeCandidate` | internal/dht/table.go:305-322 | equals the first half on values and returns the peer it took, if it was pending |
| `RoutingTables.RoutingTable.FilePromoted` | internal/dht/table.go:323-326 | equals the second half on values, on whatever consistent table it finds |
| `RoutingTables.RoutingTable.PromoteCandidate` | internal/dht/table.go:305-326 | equals the uninterrupted promotion on values |
| `RoutingTables.RoutingTable.DiscardCandidate` | internal/dht/table.go:328-334 | equals the operation on values; the entry is dropped only if nothing lists it |
| `RoutingTables.RoutingTable.NoteFailureAt` | internal/dht/table.go:340-352 | counts the failure and nothing else |
| `RoutingTables.RoutingTable.BeginLivenessProbe` | internal/dht/table.go:356-374 | reserves a due active peer that has waited longest, or finds none due |
| `RoutingTables.RoutingTable.RecordLivenessResult` | internal/dht/table.go:378-431 | equals the operation on values and reports whether the peer was expelled |
| `RoutingTables.RoutingTable.RecordUse` | internal/dht/table.go:433-468 | equals the operation on values |
| `RoutingTables.RoutingTable.SetFriend` | internal/dht/table.go:486-495 | sets the flag of a known peer |
| `RoutingTables.RoutingTable.PruneOffline` | internal/dht/table.go:815-824 | forgets exactly the expired offline peers |
| `RoutingTables.RoutingTable.SetSelfNameHash` | internal/dht/table.go:106-121 | rebuilds the name index from the active peers in ID order |
| `RoutingTables.RoutingTable.ForgetIfUnlisted` | internal/dht/table.go:952-970 | forgets a peer exactly if it is unpinned and nothing lists it |
| `RoutingTables.RoutingTable.ClosestNodes` | internal/dht/table.go:587-630 | the count nearest active peers by distance and ID, sorted, without repeats, everything left out strictly farther |
| `RoutingTables.RoutingTable.ClosestNodesByNameHash` | internal/dht/table.go:508-510 | the same by name hash, over the name index |
| `Closest.ClosestExact` | internal/dht/table.go:587-630 | on every consistent table the answer is exactly the nearest active peers |
| `Closest.ClosestByNameExact` | internal/dht/table.go:508-510 | once self has a name the name index answers for the same peers |
| `Distances.XorCloser` | internal/dht/table.go:1013-1017 | the XOR distance is smaller for the point that agrees with the target at the highest bit where the two differ |
| `Distances.NearestMeans` | internal/dht/table.go:600-630 | in those terms and with ties broken by ID: nearer ones come first, and nobody left out is nearer than anybody chosen |
| `Closest.NearestUnique` | internal/dht/table.go:600-630 | the answer is determined by who is active: two such lists are equal |
| `Lookup.ClosestUnqueried` | internal/dht/dht.go:727-745 | exactly the nearest unasked peers, whatever order the map is walked in |
| `Lookup.Round` | internal/dht/dht.go:635-671 | asks a batch and reads replies in any order, keeping what is known, asked, heard and failed in step |
| `Lookup.AddContacts` | internal/dht/dht.go:1252-1258 | fallback contacts become known and are not matched |
| `Lookup.FindNode` | internal/dht/dht.go:572-701 | no peer asked twice and at most the limit; a name found means all known peers asked, none failed, closed under signed referrals, exactly one matching identity; conflict, not found and incomplete are characterised too, and an uncut walk without failures is incomplete only at a limit |
| `Lookup.ResultNames` | internal/dht/dht.go:676-715 | whatever the outcome, the results are exactly the nodes, one per ID, that bear the name or the ID looked for and whose signature was seen |
| `Lookup.NameOutcome` | internal/dht/dht.go:676-715 | found: the one node returned bears the name and nobody else seen does; not found: nobody seen does; conflict: several do and all are named |
| `Lookup.OneIdentity` | internal/dht/dht.go:703-715 | a lookup by ID can turn up no other identity |
| `Lookup.ReadAll` | internal/dht/dht.go:611-632 | all known asked and none failed: the known peers are closed under referral |
| `Lookup.Confluent` | internal/dht/dht.go:572-701 | complete walks of one network end with the same peers and identities, in whatever order replies come |
| `Values.NewerOrder` | internal/dht/value.go:728-745 | among values of one kind newer is a strict order that only equal fingerprints escape |
| `Values.NewerSays` | internal/dht/value.go:728-745 | the higher version is newer; of one version the later issue, unless both are sequenced; last the fingerprint that is later in the order of strings |
| `Ordering.StringLeIs` | internal/dht/value.go:728-745 | strings compare at the first character that differs, and a prefix comes first |
| `Values.CyclicIff` | internal/dht/value.go:728-745 | exactly when three values are each newer than the next |
| `Values.CycleExists` | internal/dht/value.go:728-745 | such values exist |
| `Collector.TakeSummarises` | internal/dht/value.go:133-151 | one more report of a family keeps the observation equal to what its reports amount to |
| `Collector.TakeRawSummarises` | internal/dht/value.go:153-160 | the same for an unverified value |
| `Agreement.LookupCollector.Observe` | internal/dht/value.go:117-161 | takes the report in, counts an invalid one, and keeps every observation the summary of its reports |
| `Agreement.LookupCollector.IsConfirmed` | internal/dht/value.go:163-171 | true exactly if one family was seen and it is confirmed |
| `Agreement.LookupCollector.Resolve` | internal/dht/value.go:173-257 | conflict for several families, with their texts sorted and counted; found exactly if the only one is confirmed; else the strongest unverified value or nothing |
| `Agreement.LookupCollector.ConflictTexts` | internal/dht/value.go:175-196 | the texts that are not blank, ascending, each as often as families carry it, in any map order |
| `Agreement.LookupCollector.Strongest` | internal/dht/value.go:208-248 | the candidate stronger than every other, in any map order, and never a tie |
| `Agreement.StrongerOrder` | internal/dht/value.go:694-726 | strength is transitive and only equal fingerprints tie |
| `Strengths.StrongerIff` | internal/dht/value.go:694-726 | of sources, weight, providers and networks the first count that differs decides, and last the earlier fingerprint |
| `Strengths.ConfirmedIff` | internal/dht/value.go:316-340 | a verified value is confirmed exactly with two sources, weight four, and two branches unless networks are known and all loopback |
| `Strengths.ResultCounts` | internal/dht/value.go:344-360 | the figures of a verified result count the sources of its family, and the sources, publishers, networks and weight of exactly its value; branches, providers and systems those of the reports that led |
| `Strengths.Weighs` | internal/dht/value.go:408-417 | reports weigh their trust, one more for an envelope and one more for an authority |
| `Strengths.PlainTakesFour` | internal/dht/value.go:316-330 | without envelope, authority or a stored copy it takes four peers' word for a verified value to be found |
| `OrderFree.VerifiedOrderFree` | internal/dht/value.go:117-151 | kept value, sources, exact sources, networks, publishers and weight do not depend on the order of reports |
| `OrderFree.RawOrderFree` | internal/dht/value.go:173-257 | nor does the winner among unverified values |
| `OrderFree.VerifiedFound` | internal/dht/value.go:316-330 | found means one family, the newest value, two or more sources of weight four or more reporting exactly it |
| `OrderFree.OrderMattersIff` | internal/dht/value.go:117-151 | all orders of the reports agree on confirming the newest value if and only if it is not left hanging by its own branches |
| `OrderFree.ConfirmationDependsOnOrder` | internal/dht/value.go:316-330 | the same three reports confirm in one order and not in another |
| `ValueLookup.ReadValue` | internal/dht/dht.go:1192-1220 | one more reply: its value is reported with the peer's address and branch if it is valid, counted if it is not, and its referrals take over the branch |
| `ValueLookup.FindValue` | internal/dht/dht.go:1118-1250 | the reports are exactly the valid answers of the peers read and of the store, each once, and the rejections are counted; no peer is asked twice and at most the limit; the walk stops only when sure, with nobody left, or at a limit; the end is the collector's conclusion qualified by what was left undone |
| `ValueLookup.FoundMeans` | internal/dht/dht.go:1118-1250 | a verified value found was answered exactly so by two peers, or one and the store, with weight four, and nobody read answered a newer one, a higher version or another family |
| `ValueLookup.RawFoundMeans` | internal/dht/dht.go:1118-1250 | an unverified value found was answered, by as many as any other, and nobody read answered a verified one |
| `ValueLookup.NotFoundMeans` | internal/dht/dht.go:1229-1249 | not found means that no answer read and not the store held a valid value and nobody failed; if anybody was asked everybody known was, and short of the limits the contacts too |
| `TwoRecords.VouchersApart` | internal/dht/value.go:316-330 | if no two known records share an address, two voices behind a found value are at different addresses |
| `TwoRecords.OnePeerConfirms` | internal/dht/value.go:316-330 | a peer alone, asked under two records on two branches, has its enveloped value found |
| `TwoRecords.SeedCountsTwice` | internal/cli/app.go:2674-2683 | a configured peer listed as a seed and under its own ID is such a peer |
| `ValueStore.KeepsNewest` | internal/dht/value.go:655-692 | storing a sequence of values leaves a newest of them |
| `ValueStore.KeptVersion` | internal/dht/value.go:655-692 | while a signed value holds its key no signed value lowers the version, and another of its family with a higher version is taken |
| `ValueStore.KeptIff` | internal/dht/value.go:655-692 | exactly when a text replaces the stored one: if valid, unless both are signed and the stored one is still valid; then only another record of its family that outranks it |
| `ValueStore.HighestStored` | internal/dht/value.go:655-692 | of signed values of either kind, however they arrive, what is stored has the highest version of all |
| `ValueStore.Converges` | internal/dht/dht.go:1036-1058 | the same values in any order, with repeats and at any times, leave the same record |
| `ValueStore.ConvergesIff` | internal/dht/value.go:655-692 | for values of either kind, all arrival sequences of the same texts leave the same record if and only if one text beats all others |
| `ValueStore.TopUnlessStraddled` | internal/dht/value.go:728-745 | such a text exists unless a legacy value was issued between two sequenced ones of its version |
| `ValueStore.StraddledDiverge` | internal/dht/value.go:728-745 | three such values alone do not converge |
| `ValueStore.AppendBounded` | internal/dht/dht.go:1594-1606 | the latest six, never the same version twice, and the incoming one among them |
| `ValueStore.Store.StoreValidated` | internal/dht/dht.go:1036-1058 | refused exactly if invalid or of another origin than a valid signed value, which is then a recorded conflict; else the chosen text is stored with its history, the current version describes it exactly unless an empty text is stored, and a signed value does not lower the version of a valid signed one |
| `ValueStore.EmptyTextIsStored` | internal/dht/value.go:646-651 | an unsigned key takes the empty text, which no version then describes |
| `ValueStore.Store.RecordVersion` | internal/dht/dht.go:1566-1583 | the new version becomes current and the displaced one joins the six previous, conflicts and other keys untouched; an unchanged value is noted only if none was |
| `ValueStore.Store.RecordConflict` | internal/dht/dht.go:1585-1592 | the version joins the six latest conflicts; current, previous and other keys stay |
| `Retention.SelectRetention` | internal/dht/peer_store.go:264-332 | the first of the order of preference, tier after tier, without repetitions, up to the limit |
| `Retention.SelectionSound` | internal/dht/peer_store.go:264-332 | at most the limit, nobody twice, nobody invented, everybody if there is room |
| `Retention.FriendsSelected` | internal/dht/peer_store.go:280-284 | no friend is left out while the friends alone fit |
| `Tiers.KeptByTier` | internal/dht/peer_store.go:264-332 | friends, then used, closest, new networks, active, on probation, the rest, each tier in sorted order: what is kept is in this order, and nobody left out comes before anybody kept |
| `Tiers.DiverseCovers` | internal/dht/peer_store.go:264-332 | the peers taken for their networks are active, cover every network of the active peers, and each adds one |
| `PeerStores.MergedFriends` | internal/dht/peer_store.go:133-154 | after merging exactly those are friends whom the store or an observation calls so |
| `PeerStores.MergedUse` | internal/dht/peer_store.go:133-154 | merging forgets no row and no use of one |
| `Ledgers.MergedSays` | internal/dht/peer_store.go:133-154 | after merging a row has the greatest use and the earliest sighting of all its entries |
| `Ledgers.LastObserved` | internal/dht/peer_store.go:133-154 | all else in it is as last observed |
| `Ledgers.EligibleIff` | internal/dht/peer_store.go:161-169 | a row is kept for whoever has an ID and an address and was heard of within thirty days or is a friend or pinned; what is saved is then not too old to be restored |
| `Ledgers.RowSays` | internal/dht/peer_store.go:557-667 | after any uses and marks a row counts all uses and has the first sighting |
| `Ledgers.LastWrite` | internal/dht/peer_store.go:557-667 | the last write's record is held, a use is timed, a mark holds |
| `Ledgers.MarksHold` | internal/dht/peer_store.go:557-667 | however often a peer is used, it is a friend as last marked |
| `PeerStores.PeerStore.SaveSnapshot` | internal/dht/peer_store.go:126-262 | at most 512 rows, indexes exact, the preferred rows kept; while friends with an address are at most 512, exactly those are friends afterwards |
| `PeerStores.PeerStore.SetFriend` | internal/dht/peer_store.go:557-597 | writes the row, keeps both indexes exact and trims to 512 |
| `PeerStores.PeerStore.SetFriendById` | internal/dht/peer_store.go:599-627 | changes one flag of a known row and its index entry |
| `PeerStores.PeerStore.RecordUse` | internal/dht/peer_store.go:631-667 | writes the use, keeps both indexes exact and trims to 512 |
| `PeerStores.PeerStore.Trim` | internal/dht/peer_store.go:376-418 | past the limit exactly 512 rows stay, unchanged, and the indexes lose the others |
| `TokenBuckets.Responder.Allow` | internal/liveness/server.go:105-142 | answers and changes state as one step of the limiter |
| `TokenBuckets.Responder.Evict` | internal/liveness/server.go:120-135 | idle sources go, then the oldest if the table is still full |
| `TokenBuckets.NextKeeps` | internal/liveness/server.go:105-162 | what every call keeps: sound buckets, at most 2048 sources, and few recent sources |
| `TokenBuckets.EvictedFull` | internal/liveness/server.go:120-135 | a source's bucket is full whenever the source is evicted |
| `TokenBuckets.RateBound` | internal/liveness/server.go:105-162 | in any stretch of any run at most 400 + 200 per second are answered, and at most 10 + 5 per second for each source |
| `RateExact.AnsweredIff` | internal/liveness/server.go:105-162 | in every run a call is answered if and only if no stretch that ends with it is short: of 400 common tokens and 200 a second, or of ten and five a second for its source |
| `RateExact.SourceTakenExact` | internal/liveness/server.go:105-162 | a call costs its source a token exactly if it is answered and costs no other source anything, evictions included |
| `RateExact.TokenIff` | internal/liveness/server.go:144-162 | a token is granted exactly if, refilled up to the burst, the bucket holds one |
| `RateExact.TenAfterSilence` | internal/liveness/server.go:105-162 | after two seconds of silence a source's next ten calls are answered while common tokens last |
| `Liveness.DecodeEncode` | internal/liveness/probe.go:202-271 | decoding undoes encoding for exactly the well-formed messages |
| `Liveness.EncodeDecode` | internal/liveness/probe.go:225-271 | every accepted packet is the one encoding of its message |
| `Registries.UpsertKeeps` | internal/discovery/discovery.go:426-437 | names stay a sub-index of nodes across renames: the record is found by node and by its one name, and nobody else's is disturbed |
| `Registries.PublishIff` | internal/discovery/discovery.go:129-152 | publishing moves a record backwards exactly when it is a legacy downgrade |
| `Registries.DowngradePublished` | internal/discovery/discovery.go:129-152 | publishing a version-one record and then its version-zero copy leaves the older one |
| `Registries.DowngradeExists` | internal/discovery/discovery.go:136-139 | two such records that both verify exist |
| `Registries.ImportedKeeps` | internal/discovery/discovery.go:300-351 | after an import every record that verifies is covered by one not older, and nothing moves back |
| `Registries.RunAdvances` | internal/discovery/discovery.go:129-152 | over any run without a downgrade no record is lost or replaced by an older one |
| `Filings.VerifiesIff` | internal/record/endpoint.go:104-174 | a record verifies exactly if it is complete, signed, in date and numbered as its version asks |
| `Filings.TakenIff` | internal/discovery/discovery.go:129-152 | a record is taken exactly if its node is new, it is further on, or on publication it is the same again; then it is filed under its node and its one name, and all else stays |
| `Filings.NothingInvented` | internal/discovery/discovery.go:129-351 | after any run every record held was held before or was offered while complete, signed and in date |
| `Filings.FurthestFiled` | internal/discovery/discovery.go:129-351 | after any run without a downgrade no record offered or held before is further on than the one held of its node |
| `Registries.Registry.UpsertEndpoint` | internal/discovery/discovery.go:426-437 | stores by node and by name, dropping the old name if it was this node's |
| `Registries.Registry.Publish` | internal/discovery/discovery.go:129-152 | stores exactly what verifies and is newer or the same payload, and reports success if it was saved, too |
| `Registries.Registry.Import` | internal/discovery/discovery.go:300-351 | takes the records in order, each if it verifies and is newer; an unsaved change is an error |
| `Registries.Registry.ResolveName` | internal/discovery/discovery.go:215-252 | resolves a name exactly if a single stored identity bears it and still verifies |
| `Owners.EndpointRecordState.Current` | internal/node/node.go:702-754 | the record returned is for the name and address asked and good for over five minutes; a current one that is comes back unchanged, else a new one with the next sequence above the state's, the disk's and all given out before |
| `Owners.Live` | internal/node/node.go:683-754 | through any restarts what was given out only grows, with rising sequence numbers, none given out twice |
| `Owners.LaterTaken` | internal/record/endpoint.go:177-187 | a registry holding an earlier record takes every later one, published or imported |

## Left out

- Dialling.DialPlannedCircuit: stated for dials in which no control cell is mistaken for a command on its way and every answer is genuine: unforged, on a connection that leads to the session it belongs to; what a misdirected command would do is not followed.
- Fifo.RunIsFifo: stated for runs in which no inner layer of a data cell starts with the magic, and with one backward sender per relay.
- RoutingTables.RoutingTable.AddLookupCandidate: what the table holds once the index is out of range is not stated, because the process ends there; the same for `AddCandidate`.
- RoutingTables.RoutingTable.PromoteCandidate: the method runs its halves back to back; what runs do between them is in the runs over `Taking` and `Filing`.
- RoutingTables.RoutingTable.RestoreCandidates: restoring is one step; among observations with equal times any may be the ones kept.
- Client.ClientCircuit.Read: the queue of bodies is unbounded; in the source the read pump waits while sixteen are queued.
- ValueLookup.FindValue: peers have IDs, none of them the one the local store reports under; the routing table files nobody without an ID.
- Agreement.LookupCollector.Observe: observations are values owned by the collector's maps; in the source they are records reached through one map only.
- TokenBuckets.Responder.Allow: times and tokens are real numbers, so floating-point rounding is not modelled; the branch for a bucket without a time is left out, since every bucket is made with one.
- Owners.EndpointRecordState.Current: the owner has a settings file nobody else lowers; without one it starts at zero after each restart.
- PeerStores.PeerStore.Trim: which rows are dropped is up to the sort, of which only permutation is known.
- Filing of transient candidates in the routing table during a walk, failure notes and adaptive parameters: bookkeeping beside the walks.
- Service records, address history and files of the registry: simpler copies of the endpoint case.
- The name, diversity and remaining category indexes of the peer store: rebuilt on each snapshot and not kept exact between snapshots by the source.
- Parsing and validation of values (JSON, RFC 3339, base64): one function from a text to a validated value.
- Refresh scheduling, bootstrap hints, diversity contacts and candidate listings of the routing table: selections over state that is modelled.
- Hidden services, relay governor, stream sessions, IPsec, transports, command line and user interfaces.
