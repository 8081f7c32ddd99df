# A verified model of the saorsa-core lookup, routing and dialing logic

This project models the parts of saorsa-core that decide things: which peers a Kademlia lookup asks and
when it may stop, which of many conflicting reports about a peer wins, who dials a peer and which failures
are remembered, and which addresses and records are published.  Each part is stated as a specification over
values, the imperative code is proved to follow it, and the promises made by the code's documentation are
proved of the specification for every input, every run or every interleaving.

| files | what they model |
|---|---|
| `Keys`, `Ranking` | XOR distance, the closest-first order and the `k` closest peers as functions of a set |
| `LookupState`, `IterativeLookup`, `LookupDriver`, `LookupLedger`, `LookupAnswers` | the lookup state machine, its object, the round loop with its deadline, what becomes of every peer a lookup hears of, and what the adapter's answers decide |
| `Addresses`, `Sorting` | IP scopes, transports, advertised types; stable sorting, filtering and duplicate removal |
| `PeerRecords`, `PeerMerge` | peer records and `merge_from` |
| `ClientRouting`, `CloseGroups` | choosing a winner among reports, refreshed results, witnessed close groups |
| `DialCoordinator`, `DialOutcomes`, `DialFailures`, `DialPlan` | single-flight dialing, what each call returns told from the events, the two-tier failure memory, the bounded dial plan |
| `SignedBundles` | record bundles and the size-limited lookup trailer |
| `RateLimit`, `KeyedBuckets`, `RateDecisions` | the token bucket, buckets kept per key in a bounded cache, and when a call is granted or denied |
| `SelfAddresses`, `SupplementalAddresses` | the self-address set, supplemental registration and published records |

## How the model reads the code

* **Peer ids** are 32-byte keys.  `DistanceInjective` (distance to a fixed target identifies a peer) is what
  makes every "no ties" argument work.
* **The transport adapter** of a lookup is a script: asked about a node, told to query a batch or told of an
  evicted peer at the `n`-th await, it answers `script.eligible(n, node)`, `script.batch(n, request)` or
  `script.evicted(n, peer)`.  On a given run every adapter, however stateful, follows some script, so a
  statement about all scripts is a statement about all adapters.  The deadline is the number of the await at
  which it fires, if any.
* **`ensure_peer_channel`** is a transition system: one event per await or per indivisible stretch between
  awaits, any number of calls, any interleaving, cancellation at every await.
* **Hash maps** hand out their keys in an order nobody controls (`ClientRouting.HashOrder`); results are
  specified without mentioning that order.
* **Time** is a natural number of nanoseconds passed in by the caller and never decreasing; token counts
  are reals.
* **Foreign code** is a parameter: the per-record codec (with encode and decode), the order of addresses by
  their text, and the proof-of-reachability predicate.  `normalize_socket_addr` of the transport crate is
  taken to be the mapping of `canonicalize_ip` (`src/security.rs:29-37`) applied to the IP.

## Where the code and its promises differ

* `merge_from` on unproven records is a join of address-to-tag maps exactly when the receiving record has no
  more tags than addresses.  With a surplus tag there is always a hint whose address ends up with that stray
  tag (`PeerMerge.JoinsIffAligned`, `PeerMerge.SurplusTagMislabels`).
* `report_signature` is documented as independent of insertion order.  It is so exactly when no address text
  is listed with two different tags (`ClientRouting.SignatureOrderFreeIff`); otherwise two responders can
  report the same tagged addresses and not agree (`ClientRouting.SameSetDisagrees`).
* `add_known_result` keeps the lookup invariant exactly when no query to that peer is in flight
  (`LookupState.KnownResultKeepsInvIff`); the runner registers known results before the first round.
  Otherwise that answer can never be recorded and the round never completed, whatever is done short of expiry
  (`LookupState.KnownResultStrands`), and expiry leaves a result whose peer counts as unresponsive
  (`LookupState.ExpiryLeavesMismatch`).
* The round loop returns a state-machine error exactly when it is started with a round already active
  (`LookupDriver.RunSpec`); a run that failed in its adapter leaves such a state behind.
* Self addresses that are wildcards or have port zero are documented as dropped.  A wildcard is listed in the
  self-address set exactly when the relay address is one, which nobody tests, or when the offer that wins the
  IPv4 WAN slot was given in IPv4-mapped form, which passes because the test is made before normalization
  (`SelfAddresses.WildcardListedIff`).  A zero port is listed exactly when it is the relay's
  (`SelfAddresses.ZeroPortListedIff`).  Inputs: `SelfAddresses.MappedWildcardIsListed`,
  `SelfAddresses.WildcardRelayIsListed`.  The node's own lookup entry carries the set as it is
  (`src/dht_network_manager.rs:3121-3138`).  Publication does not go out with a placeholder in it: it succeeds
  exactly when no placeholder gets through and every native address encodes
  (`SupplementalAddresses.PublishesIff`), so one placeholder relay stops all of it, registered endpoints
  included (`SupplementalAddresses.PlaceholderRelayStopsAll`).
* `apply_lookup_report_winners` trusts that reports are filed under the peer they describe.  A result comes
  to describe another peer exactly when it is a hint and the winner of the reports filed under it is a hint on
  another peer (`CloseGroups.RefreshKeepsPeerIff`, `CloseGroups.MisfiledHintDisplaces`); when a misfiled report
  can also cost it a better view of its own peer is stated by `CloseGroups.RefreshedUnrivalledIff`.

## Model

| member | source | states |
|---|---|---|
| `Keys.XorDistance` | src/dht_lookup.rs:795-801 | the loop fills in the byte-wise exclusive or of the two keys |
| `Keys.DistanceInjective` | src/dht_lookup.rs:795-801 | two peers at the same distance from a target are the same peer |
| `Keys.DistanceOrderIsByteOrder` | src/dht_lookup.rs:430-460 | comparing `(distance bytes, id)` pairs lexicographically is comparing the distances as 256-bit numbers |
| `Ranking.NearestKIsNearest` | src/dht_lookup.rs:617-622 | the first `k` peers in distance order are distinct, ascending, and exactly a set of `k` (or all) peers with everything else farther |
| `Ranking.NearestSetUnique` | src/dht_lookup.rs:617-622 | such a set is unique, so "the `k` closest" depends on the set alone |
| `Ranking.AdmitKeepsNearest` | src/dht_lookup.rs:430-460 | admitting one more peer to a full or partial set of closest peers gives the set of closest peers of the larger offer |
| `LookupState.QueueHoldsNearestOffers` | src/dht_lookup.rs:430-460 | after any offers in any order the bounded queue holds exactly the closest contactable peers offered, each in the representation offered last |
| `LookupState.KnownResultKeepsInvIff` | src/dht_lookup.rs:422-427 | registering a known result keeps the invariant if and only if that peer is not in flight |
| `LookupState.KnownResultStrands` | src/dht_lookup.rs:422-427 | after a known result for a peer in flight and any further operations but expiry, every outcome of that peer is refused and the round cannot be completed |
| `LookupState.ExpiryLeavesMismatch` | src/dht_lookup.rs:682-692 | expiry then frees the round but leaves a result whose peer counts as unresponsive |
| `LookupState.CandidateKeepsInv` | src/dht_lookup.rs:430-460 | offering a candidate keeps the invariant: the queue stays within its bound and free of contacted peers |
| `LookupState.InsertionTells` | src/dht_lookup.rs:430-460 | what an offer reports is what it did to the queue: added the peer for nobody or for one other, took a new representation, or changed nothing because the peer was contacted or too far |
| `LookupState.KnownResultTells` | src/dht_lookup.rs:422-427 | a known result is among the results in its earliest representation, counts as answered and leaves the queue; nothing else changes |
| `LookupState.BegunKeepsInv` | src/dht_lookup.rs:463-487 | beginning a round keeps the invariant and fails if and only if a round is active |
| `LookupState.BeginsIff` | src/dht_lookup.rs:463-487 | a round begins if and only if none is active, nothing ended the lookup, rounds are left and the queue is not empty; otherwise the answer names the limit or the empty queue; the round number grows just when it begins |
| `LookupState.TakenKeepsInv` | src/dht_lookup.rs:490-501 | selection keeps the invariant, shrinks the queue, and yields its closest peer, never one contacted before |
| `LookupState.MarkedKeepsInv` | src/dht_lookup.rs:504-526 | querying a selected peer succeeds, keeps the invariant and adds exactly that peer to those in flight |
| `LookupState.RecordedKeepsInv` | src/dht_lookup.rs:529-549 | recording any outcome of a waiting peer succeeds, keeps the invariant and removes exactly that peer from those in flight |
| `LookupState.QueryDecides` | src/dht_lookup.rs:504-549 | a query and its outcome together: the peer is queried once and ends in the state recorded, and only an answer adds a result, in the representation queried |
| `LookupState.CompletedKeepsInv` | src/dht_lookup.rs:560-594 | completing a round with nothing in flight succeeds and keeps the invariant |
| `LookupState.ConvergesIff` | src/dht_lookup.rs:572-584 | a completed round converges if and only if the `count` closest answers are those of the last round and the queue is empty or the result is full and everything queued is farther |
| `LookupState.CompletesIff` | src/dht_lookup.rs:560-594 | the same for each of the four answers (converged, iteration limit, exhausted, carry on), by the result, the last result, the queue and the round number; and the result is remembered for the next round |
| `LookupState.ExpiredKeepsInv` | src/dht_lookup.rs:682-692 | expiry in any reachable state keeps the invariant |
| `LookupState.QueryCap` | src/dht_lookup.rs:504-526 | in every state satisfying the invariant at most `alpha * max_iterations` queries were issued |
| `LookupState.FinishedIsSettled` | src/dht_lookup.rs:560-633 | a round that ends the lookup as converged or exhausted leaves an empty queue, or a full result closer than everything queued |
| `LookupState.SettledIff` | src/dht_lookup.rs:624-633 | that condition holds if and only if no single queued peer would change the result by answering |
| `LookupState.SettledResultIsFinal` | src/dht_lookup.rs:560-633 | then no set of further answers from the queue changes the result |
| `IterativeLookups.IterativeLookup.Create` | src/dht_lookup.rs:355-371 | a lookup is created if and only if no limit is zero, and starts in the invariant |
| `IterativeLookups.IterativeLookup.AddKnownResult` | src/dht_lookup.rs:422-427 | new state: the peer leaves the queue, counts as succeeded, and keeps an earlier representation |
| `IterativeLookups.IterativeLookup.AddCandidate` | src/dht_lookup.rs:430-460 | new queue and the reported insertion, including which peer was evicted |
| `IterativeLookups.IterativeLookup.BeginRound` | src/dht_lookup.rs:463-487 | new state and answer in each of the five cases |
| `IterativeLookups.IterativeLookup.TakeNextCandidate` | src/dht_lookup.rs:490-501 | new queue and the closest uncontacted candidate, or none once alpha were queried |
| `IterativeLookups.IterativeLookup.MarkWaiting` | src/dht_lookup.rs:504-526 | new state, or the misuse reported and the state unchanged |
| `IterativeLookups.IterativeLookup.RecordSuccess` | src/dht_lookup.rs:529-534 | the waiting peer joins the results; otherwise an error and no change |
| `IterativeLookups.IterativeLookup.RecordFailure` | src/dht_lookup.rs:537-541 | the waiting peer is marked failed; otherwise an error and no change |
| `IterativeLookups.IterativeLookup.RecordUnresponsive` | src/dht_lookup.rs:544-549 | the waiting peer is marked unresponsive; otherwise an error and no change |
| `IterativeLookups.IterativeLookup.CompleteRound` | src/dht_lookup.rs:560-594 | new state and answer; in any reachable state each of the four answers is given if and only if its condition on the result, the last result, the queue and the round number holds, and the result is what the next round compares with |
| `IterativeLookups.IterativeLookup.Expire` | src/dht_lookup.rs:682-692 | every peer in flight becomes unresponsive and the lookup is timed out |
| `IterativeLookups.IterativeLookup.Results` | src/dht_lookup.rs:598-606 | the representations of the at most `count` closest successful peers, in order |
| `LookupDriver.SelectBatch` | src/dht_lookup.rs:711-720 | the selection loop follows `Selection` for every script and deadline, terminates, and leaves exactly the batch in flight unless it is stopped |
| `LookupDriver.SelectionClosestFirst` | src/dht_lookup.rs:711-720 | the batch is ascending by distance, closer than everything left queued, queried in that order, and stops only when alpha are queried or the queue is empty |
| `LookupDriver.AdmitCandidates` | src/dht_lookup.rs:754-771 | eligible candidates, and only those, are offered in order, and after each eviction the adapter is told which peer was evicted |
| `LookupDriver.ApplyOutcomes` | src/dht_lookup.rs:743-780 | each outcome must answer an awaited peer once and decides its state; what is left is what is still in flight |
| `LookupDriver.AbandonRest` | src/dht_lookup.rs:782-784 | whatever the iteration order, exactly the unanswered peers become unresponsive |
| `LookupDriver.AskBatch` | src/dht_lookup.rs:729-784 | the adapter is handed the target, the count, the round number and the selected batch; what comes back is recorded and the silent are given up |
| `LookupDriver.QueryRound` | src/dht_lookup.rs:711-784 | one round follows `Round`, keeps the invariant and can leave early only by deadline, adapter failure or unexpected responder |
| `LookupDriver.RunLookupRounds` | src/dht_lookup.rs:696-791 | for every adapter the loop terminates within `max_iterations` rounds, is exactly a chain of rounds, keeps the invariant, never undoes a query, result or termination, and ends as converged or exhausted only when settled; it goes on only past a round after which something could still be gained, converges if and only if nothing could, and without a round names the limit or the empty queue |
| `LookupDriver.RunIterativeLookup` | src/dht_lookup.rs:662-694 | a timed-out lookup is not queried again; if the deadline fires at any await exactly the waiting peers become unresponsive, nothing stays in flight, no round is active and the recorded results are kept |
| `LookupDriver.RunGuarantees` | src/dht_lookup.rs:696-791 | every run stays within `alpha * max_iterations` queries, queries no peer it already knew, and on convergence or exhaustion no further answers from the queue change the result |
| `LookupLedger.GivenUpIsFarthest` | src/dht_lookup.rs:440-458 | a peer is given up by the queue only when the queue is full of strictly closer peers |
| `LookupLedger.AdmissionAccounts` | src/dht_lookup.rs:754-771 | every candidate of an answer ends up contacted, queued, refused, given up, or cut off by an early end |
| `LookupLedger.RunAccounts` | src/dht_lookup.rs:696-791 | over any run, every peer known at the start or named in any answer is contacted, queued, refused by the adapter, given up by the full queue, or cut off; a run that returns a reason cuts nobody off |
| `LookupLedger.NobodyElseIsMissed` | src/dht_lookup.rs:696-791 | a run that converges or exhausts its queue misses a peer it ever heard of only if that peer failed it, is farther than a full result, was refused, or was given up |
| `LookupAnswers.SelectionFollowsVerdicts` | src/dht_lookup.rs:711-720 | a selection asks only candidates the adapter found eligible, and one that leaves the queue without being asked was found ineligible |
| `LookupAnswers.AdmissionFollowsVerdicts` | src/dht_lookup.rs:754-771 | who is queued after an answer was queued before in that representation, or was named in the answer and found eligible; nothing but the queue changes |
| `LookupAnswers.OutcomesDecide` | src/dht_lookup.rs:743-784 | a round that runs to its end leaves every queried peer as its outcome says, or unresponsive for want of one, and every other peer as it was |
| `Addresses.CanonicalScope` | src/address.rs:49-73 | canonical form is idempotent and does not change whether an address is local |
| `Addresses.LanV4Ranges` | src/address.rs:61-66 | local IPv4 addresses, octet by octet |
| `Addresses.LanV6Ranges` | src/address.rs:68-73 | local IPv6 addresses, by their first sixteen bits |
| `Sorting.StableSortSorts` | src/peer_record.rs:273-283 | the sort orders by key and permutes |
| `Sorting.StableSortStable` | src/peer_record.rs:273-283 | entries with equal keys keep their order |
| `PeerRecords.RankOrder` | src/client_routing.rs:302-312 | the numeric rank orders views as the pair (is V2, sequence) does, and is zero just for hints |
| `PeerRecords.PeerRecord.MergeOwnerViews` | src/peer_record.rs:296-315 | the whole view is replaced if and only if the other one ranks strictly higher |
| `PeerRecords.PeerRecord.MergeFrom` | src/peer_record.rs:240-294 | the in-place merge leaves the record `Merged` describes, in every case |
| `PeerMerge.JoinLaws` | src/peer_record.rs:250-294 | joining address-to-tag maps is commutative, associative and idempotent |
| `PeerMerge.MergeIsJoin` | src/peer_record.rs:250-294 | merging hints joins their maps and leaves duplicate-free, equally long lists sorted by priority, with no local address tagged stronger than LAN |
| `PeerMerge.HintsCommute` | src/peer_record.rs:250-294 | merging two well-formed hints in either order gives the same addresses, tags and reliability |
| `PeerMerge.HintsAssociate` | src/peer_record.rs:250-294 | grouping of hint merges does not matter |
| `PeerMerge.HintsIdempotent` | src/peer_record.rs:250-294 | merging a hint with itself adds nothing |
| `PeerMerge.HintsBlend` | src/peer_record.rs:250-294 | merging any list of hints onto a well-formed one gives every address any of them lists, with the strongest tag any gives it, and the greatest reliability |
| `PeerMerge.HintOrderIndependent` | src/peer_record.rs:250-294 | so every order and any repetition of hint merges gives the same tags and reliability |
| `PeerMerge.SurplusTagMislabels` | src/peer_record.rs:252-271 | every record with a surplus tag has a hint it mislabels |
| `PeerMerge.JoinsIffAligned` | src/peer_record.rs:252-271 | a record joins with every hint if and only if it has no surplus tag |
| `PeerMerge.MergeKeepsBest` | src/peer_record.rs:240-315 | merging any list of one peer's views with a proven one among them yields exactly one of the views, of greatest rank |
| `PeerMerge.MergeOrderIndependent` | src/peer_record.rs:240-315 | if views of equal rank are equal, every order of merging gives the same record |
| `PeerMerge.MayReplaceMergeIff` | src/client_routing.rs:302-319 | a view may replace the merge of any views if and only if it may replace each of them, and one that may not is ignored by a further merge |
| `ClientRouting.HashOrder` | src/client_routing.rs:79-89 | a hash map lists each key once, in some order |
| `ClientRouting.BestTierIs` | src/client_routing.rs:32-37 | the best tier is 255 if and only if nothing is listed, and otherwise the priority of some listed address and at most that of each |
| `ClientRouting.SortIsByDistance` | src/client_routing.rs:77-90 | whatever that order, sorting lists responders by distance; the tier tie-break never decides |
| `ClientRouting.OwnerWinner` | src/client_routing.rs:92-104 | a proven report is found if and only if there is one; it has the greatest rank and the closest responder among those |
| `ClientRouting.MergeReports` | src/client_routing.rs:105-109 | the merge loop that follows rule 1 changes nothing |
| `ClientRouting.Quorum` | src/client_routing.rs:118-142 | a bucket of two agreeing responders is found exactly when two of the closest agree |
| `ClientRouting.HintWinner` | src/client_routing.rs:118-147 | without proven and self reports: the closest responder, unless the second and third closest agree against it |
| `ClientRouting.ComputeWinner` | src/client_routing.rs:72-147 | there is a winner if and only if there is a report, it satisfies the rules in their order (proven, self-report, quorum, closest), and its record is its own report |
| `ClientRouting.WinnerUnique` | src/client_routing.rs:72-147 | the rules determine one winner, so map order cannot matter |
| `ClientRouting.ConsensusWins` | src/client_routing.rs:118-142 | without proven or self reports, two agreeing responders among the three closest decide the addresses wherever the third stands |
| `ClientRouting.OneQuorumAtMost` | src/client_routing.rs:118-142 | two different signatures cannot both reach the threshold |
| `ClientRouting.ClosestWinsOtherwise` | src/client_routing.rs:144-147 | without agreement the closest responder wins |
| `ClientRouting.WinnerHasTopRank` | src/client_routing.rs:92-116 | no report outranks the winner |
| `ClientRouting.SignatureOrderFreeIff` | src/client_routing.rs:40-52 | the signature of a record ignores the order of its list, over all records with the same tagged addresses, if and only if no address text has two tags |
| `ClientRouting.AgreeingListsTheSame` | src/client_routing.rs:40-52 | responders that agree list the same tagged addresses, each as often |
| `ClientRouting.SameSetDisagrees` | src/client_routing.rs:40-52 | two records that list the same address with the same two tags in different order do not agree |
| `CloseGroups.Refresh` | src/client_routing.rs:174-184 | whatever is filed where, the node becomes the merge with the winner of its reports, or that winner if both are hints; it keeps its peer if and only if no misfiled hint displaces it, and with reports filed properly it is the best of everything known |
| `CloseGroups.RefreshKeepsPeerIff` | src/client_routing.rs:174-184 | a node keeps the peer it describes if and only if it and the winner of its reports are not both hints on different peers |
| `CloseGroups.MisfiledHintDisplaces` | src/client_routing.rs:181-183 | an input on which the result describes another peer |
| `CloseGroups.RefreshedUnrivalledIff` | src/client_routing.rs:174-184 | a refreshed node describes its peer and is outranked by no report on it if and only if the winner describes that peer, or is ignored and the node was outranked by none |
| `CloseGroups.PeersKeptIff` | src/client_routing.rs:174-184 | all nodes keep their peers if and only if none is displaced |
| `CloseGroups.KeepBetter` | src/client_routing.rs:186-193 | the later record replaces the earlier one if and only if it ranks higher, or both are hints and it has the better tier, the tier being what `ClientRouting.BestTierIs` says |
| `CloseGroups.ApplyLookupReportWinners` | src/client_routing.rs:166-204 | for any reports the result lists the `count` closest peers of the refreshed nodes in ascending order, each by the first of its refreshed records that no other supersedes by rank or, among hints, by tier: no copy of a listed hint lists an address of a better tier than the best one listed; with reports filed properly these are the closest peers of the input, each by a view that no copy and no report outranks |
| `CloseGroups.TopHintIsBestTiered` | src/client_routing.rs:149-155 | the record kept for a peer of which only hints are known lists an address at least as good as any address of any copy |
| `CloseGroups.ResultDetermined` | src/client_routing.rs:166-204 | the result is determined by the input, so neither map order nor several hint copies of a peer leave a choice |
| `CloseGroups.GatheredKeepsBest` | src/client_routing.rs:206-215 | gathering keeps one record per peer, and if proven one of the records, outranked by none |
| `CloseGroups.GatheredOrderIndependent` | src/client_routing.rs:206-215 | gathering well-formed hints in any order and with any repetition keeps the same tags and reliability for each peer |
| `CloseGroups.SortDedupWitnessed` | src/client_routing.rs:225-239 | the closest peers of the gathered records, in order |
| `CloseGroups.SelfInclusiveView` | src/client_routing.rs:242-262 | the closest peers of the answer plus the responder when known |
| `CloseGroups.BuildWitnessedCloseGroup` | src/client_routing.rs:265-300 | the closest initial peers, each by a record nothing in the list outranks, and one view for every answer, closest responder first; each view lists exactly the `view_count` closest of the peers its responder reported, plus the responder if it is among the `count` closest initial peers or described by any answer, and shows it by a record that none of those outranks |
| `CloseGroups.TranscriptKnows` | src/client_routing.rs:273-283 | a responder is known if and only if it is among the `count` closest of the initial peers or some answer describes it |
| `CloseGroups.KnownByBest` | src/client_routing.rs:273-283 | it is known by a record that no record of it in the truncated initial list or in any answer outranks, and by one of those if that is proven |
| `CloseGroups.ViewListsClosest` | src/client_routing.rs:242-300 | each view lists exactly the `view_count` closest of the peers its responder reported plus the responder if known as above, each by a record no record in the answer outranks, and the responder by one that no record of it anywhere outranks |
| `CloseGroups.MissingResponder` | src/client_routing.rs:242-262 | a known responder is missing from its view only if `view_count` closer peers were reported |
| `CloseGroups.GroupIsOrdered` | src/client_routing.rs:284-300 | the group holds exactly the views of the answers, ordered by responder distance |
| `DialCoordinator.StepKeepsInv` | src/dht_network_manager.rs:3959-4179 | every step of every call, cancellation included, keeps the coordinator's invariant: who holds which slot, sender and channel, what was broadcast, and what was charged |
| `DialCoordinator.RunKeepsInv` | src/dht_network_manager.rs:3959-4179 | so it holds after every interleaving |
| `DialCoordinator.AtMostOneDial` | src/dht_network_manager.rs:3986-4023 | at any moment at most one call dials a given peer |
| `DialCoordinator.SlotIffDialing` | src/dht_network_manager.rs:4030-4077 | a peer's slot is taken if and only if a live call is dialing it, so cancellation and completion always free it |
| `DialCoordinator.JoinerHearsOwner` | src/dht_network_manager.rs:3986-4004 | a joiner that returned got the outcome that another call, dialing the same peer, returned, or that call was cancelled |
| `DialCoordinator.NoLostWakeup` | src/dht_network_manager.rs:4030-4082 | a waiting joiner can receive now, or the owner of its channel still holds the sender |
| `DialCoordinator.PenaltiesOncePerDial` | src/dht_network_manager.rs:4088-4179 | an owner charges one trust penalty just for the outcomes that call for it; every call that returns anything else than its own dial, a joiner included, and every cancelled one charges none |
| `DialCoordinator.CallsAreShort` | src/dht_network_manager.rs:3959-4179 | a call takes at most six steps |
| `DialCoordinator.StuckMeansDone` | src/dht_network_manager.rs:3959-4179 | when no call can step, every call has finished and no slot is taken: there is no deadlock |
| `DialOutcomes.OwnerReturnsItsOutcome` | src/dht_network_manager.rs:4048-4179 | over every run, by its events alone: a call that dialed returns connected if and only if its own identity exchange matched, a mismatch with another peer if and only if it met that peer, an identity failure if and only if the exchange failed so, and a dial failure if and only if its dial did not connect; it dialed because it found the slot free and dials to the peer not suppressed |
| `DialOutcomes.JoinerReturnsThatOutcome` | src/dht_network_manager.rs:3986-4004 | a joiner returns the outcome of the other call's dial in the same sense, ends no dial of its own, and joined because it found that dial in the slot |
| `DialOutcomes.UndialedAnswers` | src/dht_network_manager.rs:3965-4020 | a call returns already connected if and only if its fast path said so, and suppressed if and only if it found the slot free while dials to the peer were suppressed |
| `DialOutcomes.RunTold` | src/dht_network_manager.rs:3959-4179 | the phase of every call in every run fits the report of its own events |
| `DialOutcomes.SpawnedFor` | src/dht_network_manager.rs:3959-3963 | a call is made once and is about the peer it was made for |
| `DialFailures.DeadSession` | src/dht_network_manager.rs:938-952 | the sessions held against an IP are those whose last relay failure is fresh and not followed by a success at that IP |
| `DialFailures.DeadSessionIff` | src/dht_network_manager.rs:938-987 | the same by events: some relay failure of the session is recent, the last one, and nothing at its IP has succeeded since |
| `DialFailures.PlainDialIff` | src/dht_network_manager.rs:902-911 | a dial that is not through a relay counts as failed if and only if the last event at its socket is a failure within thirty minutes |
| `DialFailures.RelayDialIff` | src/dht_network_manager.rs:902-927 | a relay dial also does if and only if four sessions at its IP are dead and this peer did not republish this socket within two minutes |
| `DialFailures.PruningIsInvisible` | src/dht_network_manager.rs:938-952 | lazily dropping expired sessions loses no session that counts |
| `DialFailures.DialFailureCache.IsFailedForDial` | src/dht_network_manager.rs:902-911 | the answer is a function of the event history and the time; reading changes no later answer |
| `DialFailures.DialFailureCache.PerAddrFailed` | src/dht_network_manager.rs:861-873 | the per-address answer is the freshness of the last failure since a success or republication |
| `DialFailures.DialFailureCache.IpIsSuppressed` | src/dht_network_manager.rs:938-952 | the IP answer is whether four distinct sessions are dead |
| `DialFailures.DialFailureCache.HasFreshExemption` | src/dht_network_manager.rs:915-927 | the exemption answer is the freshness of this peer's last republication of this socket |
| `DialFailures.DialFailureCache.RecordFailure` | src/dht_network_manager.rs:958-987 | the history grows by the failure and the maps keep following it |
| `DialFailures.DialFailureCache.Clear` | src/dht_network_manager.rs:998-1002 | the history grows by the success and the maps keep following it |
| `DialFailures.DialFailureCache.NoteRepublished` | src/dht_network_manager.rs:1017-1023 | the history grows by the republication and the maps keep following it |
| `DialFailures.ClearForPublished` | src/dht_network_manager.rs:1035-1062 | an applied publication notes exactly the sockets `NewSockets` lists, in order, and counts them; an unapplied one changes nothing |
| `DialFailures.NewSocketsAre` | src/dht_network_manager.rs:1049-1060 | those are the sockets of the native addresses not published before, in order |
| `DialFailures.PublicationClears` | src/dht_network_manager.rs:1035-1062 | for every socket: a newly published one loses its failure and exempts its publisher, and nobody else, from now; one published before keeps its failure and exemptions; no dead session revives |
| `DialFailures.RepublishIsLocal` | src/dht_network_manager.rs:1017-1023 | republishing a socket changes no answer for another socket |
| `DialFailures.RepublishHelpsOnlyThePublisher` | src/dht_network_manager.rs:902-927 | for other peers the socket stays under its IP's suppression |
| `DialFailures.RepublishFreesThePublisher` | src/dht_network_manager.rs:902-927 | for the publisher it is blocked again only once the exemption lapses, if the IP is suppressed |
| `DialFailures.RelayFailureCountsOnce` | src/dht_network_manager.rs:958-987 | a relay failure adds its socket to the IP's dead sessions, once |
| `DialFailures.OtherFailuresDoNotSuppress` | src/dht_network_manager.rs:958-987 | failures of other kinds never change an IP's suppression |
| `DialFailures.SuccessLiftsSuppression` | src/dht_network_manager.rs:998-1002 | a success anywhere at an IP lifts its suppression at every later moment, and leaves only other sockets' own failures |
| `DialFailures.TimeForgives` | src/dht_network_manager.rs:938-952 | without new events dead sessions only shrink |
| `DialFailures.TurnsBackIff` | src/dht_network_manager.rs:902-927 | without new events an answer turns from free to failed if and only if a live exemption of that peer for that relay socket lapses while the IP is still suppressed |
| `DialFailures.MappedFormsAgree` | src/dht_network_manager.rs:855-858 | an IPv4-mapped socket and its plain form get the same answer |
| `DialPlan.SelectDialCandidates` | src/dht_network_manager.rs:4609-4689 | the plan holds exactly the first usable relay not behind our own WAN, the best WAN address of each family by tier and then position, and, if the peer shares our WAN or nothing else is dialable, the best LAN address of each family by match and then position; each once, LAN first by match, then the relay, then WAN by position |
| `DialPlan.PlanHoldsTheBest` | src/dht_network_manager.rs:4619-4689 | an address is planned if and only if it is one of these, stated of the advertised tags, families and addresses alone |
| `DialPlan.PlanInOrder` | src/dht_network_manager.rs:4669-4689 | planned addresses are in that order |
| `DialPlan.LanScoreTells` | src/dht_network_manager.rs:411-430 | the match score: 0 for an address of ours or an allowed loopback, 1 for one in the prefix of ours, 3 for a local one elsewhere, 4 for no match, each if and only if |
| `DialPlan.BestUnique` | src/dht_network_manager.rs:4619-4667 | the best candidate of a slot (first usable relay, earliest best WAN tier, least LAN score then position) is unique |
| `DialPlan.PlanShape` | src/dht_network_manager.rs:4669-4689 | at most five dialable entries; LAN entries appear if and only if there are any and the peer shares our WAN or nothing else exists, and then first; the plan is empty just when nothing is dialable |
| `DialPlan.PlanOrder` | src/dht_network_manager.rs:4669-4689 | no address is planned twice and only LAN entries precede the relay |
| `SignedBundles.EncodeRecordBundle` | src/signed_address.rs:266-279 | the encoder returns the frames in order, or the first fault |
| `SignedBundles.BundleConcat` | src/signed_address.rs:266-279 | bundling turns concatenation into concatenation, success included |
| `SignedBundles.DecodeRecordBundle` | src/signed_address.rs:281-298 | the decoding loop computes `Unbundle` |
| `SignedBundles.BundleRoundTrip` | src/signed_address.rs:266-298 | every list of sound records within the limit is decoded back exactly |
| `SignedBundles.AcceptedIsWellFormed` | src/signed_address.rs:281-298 | whatever is accepted is a list of frames covering every byte, each decoding to its record, within the limit |
| `SignedBundles.AcceptedIff` | src/signed_address.rs:281-298 | bytes are decoded to given records if and only if they are frames decoding to those records, covering every byte, within the limit |
| `SignedBundles.AppendLookupExtension` | src/dht_network_manager.rs:5422-5441 | the message stays a prefix, a message within 64 KiB stays within it, and what is appended is the greedy in-order bundle; it fails if and only if a considered record does not encode |
| `SignedBundles.TrailerRoundTrip` | src/dht_network_manager.rs:5386-5441 | the receiver reads back exactly the records that fitted |
| `SignedBundles.FittingIsGreedy` | src/dht_network_manager.rs:5430-5438 | a record is sent if and only if its frame still fits beside the frames sent before it |
| `SignedBundles.TrailerCarries` | src/dht_network_manager.rs:5386-5441 | the receiver reads back, of the first 256 records, exactly those whose frames still fit into 64 KiB behind the answer, the eight-byte marker and the frames before them |
| `SignedBundles.AllFitting` | src/dht_network_manager.rs:5422-5441 | if all records fit together, all are sent |
| `RateLimit.Bucket.TryConsume` | src/rate_limit.rs:37-55 | new bucket and answer of one call, for every configuration, a zero-length window included; with a quota and a burst of at least one, a call more than a window after the last is granted |
| `RateLimit.RunKeepsOk` | src/rate_limit.rs:26-56 | over every run tokens stay between zero and the burst, and the window count within its quota |
| `RateLimit.GrantsWithinRate` | src/rate_limit.rs:37-55 | any stretch of calls grants at most the burst plus its length times `max_requests / window` |
| `RateLimit.GrantsWithinTwoQuotas` | src/rate_limit.rs:37-55 | calls spanning no more than a window grant at most twice `max_requests` |
| `RateLimit.Engine.TryConsumeKey` | src/rate_limit.rs:89-100 | answer and new keyed state, with the least recently used key evicted at capacity; with a quota and a burst of at least one, a key without a bucket is granted, and so is one not called for more than a window |
| `KeyedBuckets.CalledKeepsTidy` | src/rate_limit.rs:89-100 | every call keeps the cache within its limit and its keys listed once each |
| `KeyedBuckets.KeyedIsAlone` | src/rate_limit.rs:89-100 | while a key is not evicted its bucket and grants are what its own calls alone would give, from the call that makes the bucket on |
| `RateLimit.KeyedWithinBounds` | src/rate_limit.rs:66-100 | in any run of the engine, over any stretch that does not evict a key and with the creating call counted, its grants are at most the burst plus the length times the rate, and at most twice `max_requests` within a window |
| `RateDecisions.WindowRestartsIff` | src/rate_limit.rs:39-42 | a call starts a new window if and only if more than `window` has passed since the current one started |
| `RateDecisions.WindowCounts` | src/rate_limit.rs:39-51 | over every run the counter is the number of grants to the calls since the window started, all of them within a window length of its start |
| `RateDecisions.DeniedIff` | src/rate_limit.rs:37-55 | over every run a call is denied if and only if its window has granted `max_requests` already, or one grant more would put some stretch of calls ending with it over the burst plus its length times the rate |
| `RateDecisions.DeniedIffUnwindowed` | src/rate_limit.rs:43-51 | without a window length a call is denied if and only if its window has granted `max_requests` already or the burst is zero |
| `RateDecisions.IdleIsGranted` | src/rate_limit.rs:37-55 | with a quota and a burst of at least one the first call is granted, and so is any call more than a window after the one before |
| `RateDecisions.KeyedIdleIsGranted` | src/rate_limit.rs:89-100 | the same of the calls for each key in any run of the engine, evictions or not |
| `RateDecisions.KeyedDecidesAlone` | src/rate_limit.rs:89-100 | while its key is not evicted each keyed call is decided as the last call of a run of the key's own bucket, so the exact condition above applies to it |
| `KeyedBuckets.EvictsLeastRecent` | src/rate_limit.rs:89-100 | in any run a call evicts a key if and only if it is for a key without a bucket, the cache is full, and every other key in it was called more recently |
| `SelfAddresses.SelfAddressSet.RecordNonRelayChoice` | src/self_address.rs:172-206 | only the slot of the address's scope and family changes, by the tier rule |
| `SelfAddresses.SelfAddressSet.RecordSelfAddress` | src/self_address.rs:244-294 | one input keeps every slot on the offer it should hold and the slots numbered by first offer |
| `SelfAddresses.RecordedHolds` | src/self_address.rs:186-206 | the replacement rule keeps the best tier, its last observed offer, or else its first listen offer |
| `SelfAddresses.BuildSelfAddressSet` | src/self_address.rs:54-106 | every slot holds exactly the offer it should over all observed and then all dialable listen addresses |
| `SelfAddresses.SelfAddressSet.IntoTypedVec` | src/self_address.rs:118-126 | the relay entry followed by the ranked choices |
| `SelfAddresses.RankedOrder` | src/self_address.rs:208-218 | every filled slot once, better tiers first, and within a tier the slot offered something first |
| `SelfAddresses.ListedAddresses` | src/self_address.rs:54-126 | at most five distinct addresses, relay first, then the chosen offers in that order, each tagged by what is known of it, with wildcards and zero ports exactly as stated below |
| `SelfAddresses.ListedTags` | src/self_address.rs:54-126 | every listed address is tagged relay, LAN, direct or unverified if and only if it is the relay's, else local, else proven, else not proven |
| `SelfAddresses.OffersAre` | src/self_address.rs:253-273 | what is offered to the slots: every input with a port that is no wildcard as given and not the relay's, normalized, in order |
| `SelfAddresses.DialableAre` | src/self_address.rs:88-104 | of the listen addresses, the native ones, in order |
| `SelfAddresses.WildcardListedIff` | src/self_address.rs:66-73 | a wildcard is in the self-address set if and only if the relay is one, as written or mapped, or the offer chosen for the IPv4 WAN slot was given as the mapped wildcard |
| `SelfAddresses.ZeroPortListedIff` | src/self_address.rs:253-261 | a zero port is in the self-address set if and only if the relay has it |
| `SelfAddresses.MappedWildcardIsListed` | src/self_address.rs:253-261 | an observed address on which the documented rule fails |
| `SelfAddresses.WildcardRelayIsListed` | src/self_address.rs:66-73 | a relay address on which it fails, for the address and for the port |
| `SupplementalAddresses.RegisterSupplemental` | src/dht_network_manager.rs:3156-3191 | the first eleven distinct fit endpoints are accepted in order, and the rejected list is exactly the inputs turned down, in order, each with the reason it met |
| `SupplementalAddresses.FitIff` | src/dht_network_manager.rs:3163-3182 | an endpoint can be registered if and only if it is a WebRTC address with a port that is no wildcard, is nobody else's, and encodes within 2 KiB under this node's name |
| `SupplementalAddresses.EveryInputReported` | src/dht_network_manager.rs:3154-3191 | nothing is lost or made up: the accepted endpoints are the admitted inputs under this node's name, and admitted and rejected inputs together are the inputs, each as often as given |
| `SupplementalAddresses.ReasonsHold` | src/dht_network_manager.rs:3163-3182 | every reason given still holds of what is accepted in the end |
| `SupplementalAddresses.CompleteRecords` | src/dht_network_manager.rs:3208-3258 | all distinct records in order, or the fault met first; every record describes an entry and every entry is described |
| `SupplementalAddresses.RecordTells` | src/dht_network_manager.rs:3218-3250 | an entry has a given record if and only if it is nobody else's, storable, over QUIC or WebRTC, and the record says which, holds the encoding (bound to this node over WebRTC) and the entry's own tag, or unverified over WebRTC |
| `SupplementalAddresses.RecordsFit` | src/dht_network_manager.rs:95-98 | five native addresses and the accepted endpoints never need a seventeenth record |
| `SupplementalAddresses.PublishOwn` | src/dht_network_manager.rs:3156-3258 | the records of the inputs' own address set and of the registered endpoints; the record limit is never hit, and it succeeds if and only if no placeholder gets through and every native address encodes within bounds |
| `SupplementalAddresses.PublishesIff` | src/dht_network_manager.rs:3208-3258 | the same of any completed publication; registered endpoints never make it fail |
| `SupplementalAddresses.InputsDecide` | src/dht_network_manager.rs:3208-3258 | with a codec that encodes every native address, publication succeeds if and only if the inputs let no placeholder through |
| `SupplementalAddresses.PlaceholderRelayStopsAll` | src/dht_network_manager.rs:3208-3258 | with relay `0.0.0.0:0` nothing is published, whatever else the node knows and whatever is registered, and the fault is that of the relay |

## Left out

- Transport, QUIC, task spawning, event broadcasting, logging and traffic counters: input and output plumbing.
- Signatures, BLAKE3 peer ids, Postcard bytes and address parsing: foreign code, kept as parameters.
- The routing table, the stored publication-sequence rules, the trust engine and the reachability driver.
- `collect_after_first_with_grace`, which belongs to one adapter, and hexadecimal formatting.
- The identity-failure cache: one map with one time limit, the per-address tier of `DialFailures` without the rest.
- LookupDriver.RunLookupRounds: an adapter whose future never completes is the caller's concern; every await is answered or cut off by the deadline.
- PeerRecords.PeerRecord.MergeFrom: reliability is an exact real, not an `f64` that may be NaN.
- DialCoordinator.PenaltiesOncePerDial: a penalty and the await that ends the failed step are one event; cancellation inside the trust engine's own write is not modelled.
- DialFailures.DialFailureCache.IsFailedForDial: each method is one indivisible step at one instant; races inside the concurrent maps are not modelled.
- DialFailures.ClearForPublished: all sockets of one publication are noted at the same instant.
- RateLimit.Bucket.TryConsume: exact reals instead of floating point; the mutex around the global bucket and its poisoning are not modelled.
- RateLimit.GrantsWithinRate: needs a window longer than zero, without which there is no rate to bound by.
- RateLimit.KeyedWithinBounds: says nothing across an eviction, after which the key starts with a full bucket.
- SelfAddresses.BuildSelfAddressSet: the proof predicate is pure, and the candidate counter does not saturate.
- SupplementalAddresses.RegisterSupplemental: the registration lock and the republication that follows are not modelled.
