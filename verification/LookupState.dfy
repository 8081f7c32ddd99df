/** The Kademlia lookup state machine as values: its state, what each operation
    does to it, and the invariant that every operation keeps. */
module LookupState {
  import opened Keys
  import opened Ranking
  import opened Wrappers

  datatype Node<V> = Node(peer: Key, view: V)

  datatype Config = Config(count: nat, alpha: nat, maxIterations: nat, maxCandidates: nat) {
    predicate Valid() { alpha > 0 && maxIterations > 0 && maxCandidates > 0 }
  }

  datatype PeerState = Waiting | Succeeded | Failed | Unresponsive

  datatype Termination = Converged | Exhausted | IterationLimit | TimedOut

  datatype Progress = Continue | Finished(reason: Termination)

  datatype Insertion = Inserted(evicted: Option<Key>) | Replaced | AlreadyContacted | TooFar

  datatype Misuse = RoundAlreadyActive | NoActiveRound | AlphaReached | PeerHasState | QueriesStillWaiting

  datatype LookupError = InvalidConfig | InvalidState(misuse: Misuse) | PeerNotWaiting(peer: Key)

  /** `candidates` is the source's ordered map: its `(distance, id)` keys are
      determined by the id, and its order is `Distance`. */
  datatype Lookup<V> = Lookup(
    target: Key,
    config: Config,
    candidates: map<Key, V>,
    peerStates: map<Key, PeerState>,
    queryOrder: seq<Key>,
    inFlight: map<Key, V>,
    successful: map<Key, V>,
    previousTopK: seq<Key>,
    iterations: nat,
    roundActive: bool,
    roundQueries: nat,
    termination: Option<Termination>)

  // ---------- the bounded closest-first queue ----------

  function Offer<V>(target: Key, capacity: nat, queue: map<Key, V>, node: Node<V>): map<Key, V> {
    if node.peer in queue || |queue| < capacity then
      queue[node.peer := node.view]
    else if queue == map[] || Distance(target, Farthest(target, queue.Keys)) <= Distance(target, node.peer) then
      queue
    else
      (queue - {Farthest(target, queue.Keys)})[node.peer := node.view]
  }

  function OfferAll<V>(target: Key, capacity: nat, contacted: set<Key>, offers: seq<Node<V>>): map<Key, V> {
    if offers == [] then map[]
    else
      var queue := OfferAll(target, capacity, contacted, offers[..|offers| - 1]);
      var last := offers[|offers| - 1];
      if last.peer in contacted then queue else Offer(target, capacity, queue, last)
  }

  ghost function Offered<V>(contacted: set<Key>, offers: seq<Node<V>>): set<Key> {
    (set node | node in offers :: node.peer) - contacted
  }

  /** Index of the last offer of `peer`. */
  ghost predicate LastOffer<V>(offers: seq<Node<V>>, peer: Key, i: nat) {
    && i < |offers| && offers[i].peer == peer
    && forall j :: i < j < |offers| ==> offers[j].peer != peer
  }

  lemma OfferKeys<V>(target: Key, capacity: nat, queue: map<Key, V>, node: Node<V>)
    ensures Offer(target, capacity, queue, node).Keys == Admit(target, capacity, queue.Keys, node.peer)
  {
  }

  ghost predicate HoldsLastOffers<V>(queue: map<Key, V>, offers: seq<Node<V>>) {
    forall p :: p in queue ==> exists i: nat :: LastOffer(offers, p, i) && queue[p] == offers[i].view
  }

  /** After any offers the queue holds exactly the closest contactable peers
      offered, whatever the order, each in the representation offered last. */
  lemma {:induction false} QueueHoldsNearestOffers<V>(
      target: Key, capacity: nat, contacted: set<Key>, offers: seq<Node<V>>)
    ensures HoldsNearest(target, capacity, contacted, offers, OfferAll(target, capacity, contacted, offers))
    decreases |offers|
  {
    if offers == [] {
      NothingOffered<V>(target, capacity, contacted);
    } else {
      var n := |offers| - 1;
      var before, node := offers[..n], offers[n];
      QueueHoldsNearestOffers(target, capacity, contacted, before);
      OfferOne(target, capacity, contacted, before, node, OfferAll(target, capacity, contacted, before));
      assert offers == before + [node];
    }
  }

  /** Exactly the closest contactable peers offered, each in the representation offered last. */
  ghost predicate HoldsNearest<V>(
      target: Key, capacity: nat, contacted: set<Key>, offers: seq<Node<V>>, queue: map<Key, V>)
  {
    IsNearestSet(target, Offered(contacted, offers), capacity, queue.Keys) && HoldsLastOffers(queue, offers)
  }

  lemma NothingOffered<V>(target: Key, capacity: nat, contacted: set<Key>)
    ensures HoldsNearest<V>(target, capacity, contacted, [], map[])
  {
  }

  lemma OfferOne<V>(
      target: Key, capacity: nat, contacted: set<Key>, before: seq<Node<V>>, node: Node<V>, queue: map<Key, V>)
    requires HoldsNearest(target, capacity, contacted, before, queue)
    ensures HoldsNearest(target, capacity, contacted, before + [node],
                         if node.peer in contacted then queue else Offer(target, capacity, queue, node))
  {
    NearestAfter(target, capacity, contacted, before, node, queue);
    LastOffersAfter(target, capacity, contacted, before, node, queue);
  }

  lemma NearestAfter<V>(
      target: Key, capacity: nat, contacted: set<Key>, before: seq<Node<V>>, node: Node<V>, queue: map<Key, V>)
    requires IsNearestSet(target, Offered(contacted, before), capacity, queue.Keys)
    ensures IsNearestSet(target, Offered(contacted, before + [node]), capacity,
                         (if node.peer in contacted then queue else Offer(target, capacity, queue, node)).Keys)
  {
    OfferedSnoc(contacted, before, node);
    if node.peer !in contacted {
      AdmitKeepsNearest(target, Offered(contacted, before), capacity, queue.Keys, node.peer);
      OfferKeys(target, capacity, queue, node);
    }
  }

  lemma OfferedSnoc<V>(contacted: set<Key>, before: seq<Node<V>>, node: Node<V>)
    ensures Offered(contacted, before + [node])
         == Offered(contacted, before) + if node.peer in contacted then {} else {node.peer}
  {
    assert forall n :: n in before + [node] <==> n in before || n == node;
  }

  lemma LastOffersAfter<V>(
      target: Key, capacity: nat, contacted: set<Key>, before: seq<Node<V>>, node: Node<V>, queue: map<Key, V>)
    requires queue.Keys !! contacted && HoldsLastOffers(queue, before)
    ensures HoldsLastOffers(
              if node.peer in contacted then queue else Offer(target, capacity, queue, node), before + [node])
  {
    var offers := before + [node];
    var queue' := if node.peer in contacted then queue else Offer(target, capacity, queue, node);
    forall p | p in queue'
      ensures exists i: nat :: LastOffer(offers, p, i) && queue'[p] == offers[i].view
    {
      if p == node.peer {
        assert queue'[p] == node.view;
        assert LastOffer(offers, p, |before|);
      } else {
        var i: nat :| LastOffer(before, p, i) && queue[p] == before[i].view;
        assert LastOffer(offers, p, i);
      }
    }
  }

  // ---------- operations ----------

  function ResultPeers<V>(s: Lookup<V>): seq<Key> {
    NearestK(s.target, s.successful.Keys, s.config.count)
  }

  function Fresh<V>(target: Key, config: Config): Lookup<V> {
    Lookup(target, config, map[], map[], [], map[], map[], [], 0, false, 0,
           if config.count == 0 then Some(Converged) else None)
  }

  function WithKnownResult<V>(s: Lookup<V>, node: Node<V>): Lookup<V> {
    s.(candidates := s.candidates - {node.peer},
       peerStates := s.peerStates[node.peer := Succeeded],
       successful := if node.peer in s.successful then s.successful else s.successful[node.peer := node.view])
  }

  function WithCandidate<V>(s: Lookup<V>, node: Node<V>): Lookup<V> {
    s.(candidates := if node.peer in s.peerStates then s.candidates
                     else Offer(s.target, s.config.maxCandidates, s.candidates, node))
  }

  function InsertionOf<V>(s: Lookup<V>, node: Node<V>): Insertion {
    if node.peer in s.peerStates then AlreadyContacted
    else if node.peer in s.candidates then Replaced
    else if |s.candidates| < s.config.maxCandidates then Inserted(None)
    else if s.candidates == map[] then TooFar
    else
      var far := Farthest(s.target, s.candidates.Keys);
      if Distance(s.target, far) <= Distance(s.target, node.peer) then TooFar else Inserted(Some(far))
  }

  /** The queue once contacted peers are dropped from it. */
  function Uncontacted<V>(s: Lookup<V>): map<Key, V> {
    s.candidates - s.peerStates.Keys
  }

  function Discarded<V>(s: Lookup<V>): Lookup<V> {
    s.(candidates := Uncontacted(s))
  }

  function Stopped<V>(s: Lookup<V>, reason: Termination): Lookup<V> {
    s.(roundActive := false, termination := Some(reason))
  }

  function BegunBy<V>(s: Lookup<V>): Result<Progress, LookupError> {
    if s.roundActive then Err(InvalidState(RoundAlreadyActive))
    else if s.termination.Some? then Ok(Finished(s.termination.value))
    else if s.iterations >= s.config.maxIterations then Ok(Finished(IterationLimit))
    else if Uncontacted(s) == map[] then Ok(Finished(Exhausted))
    else Ok(Continue)
  }

  function Begun<V>(s: Lookup<V>): Lookup<V> {
    var started := BegunBy(s) == Ok(Continue);
    s.(candidates := if !s.roundActive && s.termination.None? && s.iterations < s.config.maxIterations
                     then Uncontacted(s) else s.candidates,
       iterations := if started then s.iterations + 1 else s.iterations,
       roundQueries := if started then 0 else s.roundQueries,
       roundActive := s.roundActive || started,
       termination := if BegunBy(s).Ok? && BegunBy(s).value.Finished? then Some(BegunBy(s).value.reason)
                      else s.termination)
  }

  predicate MayTake<V>(s: Lookup<V>) {
    s.roundActive && s.roundQueries < s.config.alpha
  }

  function TakenNode<V>(s: Lookup<V>): Result<Option<Node<V>>, LookupError> {
    if !s.roundActive then Err(InvalidState(NoActiveRound))
    else if !MayTake(s) || Uncontacted(s) == map[] then Ok(None)
    else var p := Nearest(s.target, Uncontacted(s).Keys); Ok(Some(Node(p, Uncontacted(s)[p])))
  }

  function Taken<V>(s: Lookup<V>): Lookup<V> {
    s.(candidates := if !MayTake(s) then s.candidates
                     else if Uncontacted(s) == map[] then map[]
                     else Uncontacted(s) - {Nearest(s.target, Uncontacted(s).Keys)})
  }

  function Marked<V>(s: Lookup<V>, node: Node<V>): (Lookup<V>, Result<(), LookupError>) {
    if !s.roundActive then (s, Err(InvalidState(NoActiveRound)))
    else if s.roundQueries >= s.config.alpha then (s, Err(InvalidState(AlphaReached)))
    else if node.peer in s.peerStates then (s, Err(InvalidState(PeerHasState)))
    else
      (s.(peerStates := s.peerStates[node.peer := Waiting],
          queryOrder := s.queryOrder + [node.peer],
          inFlight := s.inFlight[node.peer := node.view],
          roundQueries := s.roundQueries + 1),
       Ok(()))
  }

  /** `record_success`, `record_failure` and `record_unresponsive`, by the state they assign. */
  function Recorded<V>(s: Lookup<V>, peer: Key, state: PeerState): (Lookup<V>, Result<(), LookupError>) {
    if !(peer in s.peerStates && s.peerStates[peer] == Waiting && peer in s.inFlight) then
      (s, Err(PeerNotWaiting(peer)))
    else
      (s.(inFlight := s.inFlight - {peer},
          peerStates := s.peerStates[peer := state],
          successful := if state == Succeeded && peer !in s.successful
                        then s.successful[peer := s.inFlight[peer]] else s.successful),
       Ok(()))
  }

  /** Some queued peer is closer than the worst of `top`, or there is no result yet. */
  predicate Promising<V>(target: Key, top: seq<Key>, queue: map<Key, V>) {
    && queue != map[]
    && (top == [] || Distance(target, Nearest(target, queue.Keys)) < Distance(target, top[|top| - 1]))
  }

  predicate HasPromising<V>(s: Lookup<V>) {
    Promising(s.target, ResultPeers(s), s.candidates)
  }

  predicate MayComplete<V>(s: Lookup<V>) {
    s.roundActive && s.inFlight == map[]
  }

  /** Unchanged top-K and more to ask: carry on without looking at the round limit. */
  predicate KeepsLooking<V>(s: Lookup<V>) {
    ResultPeers(s) == s.previousTopK && |ResultPeers(s)| < s.config.count && s.candidates != map[]
  }

  predicate HasConverged<V>(s: Lookup<V>) {
    ResultPeers(s) == s.previousTopK && !KeepsLooking(s) && !HasPromising(s)
  }

  /** The checks that follow a round without convergence. */
  function Advanced<V>(s: Lookup<V>): (Lookup<V>, Progress) {
    if s.iterations >= s.config.maxIterations then (Stopped(s, IterationLimit), Finished(IterationLimit))
    else if Uncontacted(s) == map[] then (Stopped(Discarded(s), Exhausted), Finished(Exhausted))
    else (Discarded(s), Continue)
  }

  function Idle<V>(s: Lookup<V>): Lookup<V> {
    s.(roundActive := false, previousTopK := ResultPeers(s))
  }

  function Verdict<V>(s: Lookup<V>): Progress {
    if KeepsLooking(s) then Continue
    else if HasConverged(s) then Finished(Converged)
    else Advanced(Idle(s)).1
  }

  function CompletedBy<V>(s: Lookup<V>): Result<Progress, LookupError> {
    if !s.roundActive then Err(InvalidState(NoActiveRound))
    else if s.inFlight != map[] then Err(InvalidState(QueriesStillWaiting))
    else Ok(Verdict(s))
  }

  function Completed<V>(s: Lookup<V>): Lookup<V> {
    if !MayComplete(s) then s
    else if KeepsLooking(s) then Idle(s)
    else if HasConverged(s) then Stopped(Idle(s), Converged)
    else Advanced(Idle(s)).0
  }

  lemma CompletedFrame<V>(s: Lookup<V>)
    requires MayComplete(s)
    ensures var s' := Completed(s);
            && s' == s.(roundActive := false, previousTopK := s'.previousTopK,
                        candidates := s'.candidates, termination := s'.termination)
            && (s'.candidates == s.candidates || s'.candidates == Uncontacted(s))
            && s'.termination == if Verdict(s).Finished? then Some(Verdict(s).reason) else s.termination
  {
    if !KeepsLooking(s) && !HasConverged(s) {
      var idle := Idle(s);
      assert Uncontacted(idle) == Uncontacted(s);
      if s.iterations < s.config.maxIterations && Uncontacted(idle) == map[] {
        assert Advanced(idle).0 == Stopped(Discarded(idle), Exhausted);
      }
    }
  }

  function Abandoned(states: map<Key, PeerState>, peers: set<Key>): map<Key, PeerState> {
    map p | p in states.Keys + peers :: if p in peers then Unresponsive else states[p]
  }

  lemma AbandonOne(states: map<Key, PeerState>, peers: set<Key>, p: Key)
    ensures Abandoned(states, peers)[p := Unresponsive] == Abandoned(states, peers + {p})
  {
  }

  /** The deadline: every waiting peer becomes unresponsive and the lookup stops. */
  function Expired<V>(s: Lookup<V>): Lookup<V> {
    Stopped(s.(inFlight := map[], peerStates := Abandoned(s.peerStates, s.inFlight.Keys)), TimedOut)
  }

  // ---------- the invariant ----------

  /** In-flight peers are those waiting, result peers those that succeeded, and
      the bounded queue holds neither. */
  ghost predicate Agree<V>(
      capacity: nat, queue: map<Key, V>, states: map<Key, PeerState>, inFlight: map<Key, V>, results: map<Key, V>)
  {
    && (forall p :: p in inFlight <==> p in states && states[p] == Waiting)
    && (forall p :: p in results <==> p in states && states[p] == Succeeded)
    && (forall p :: p in queue ==> p !in states)
    && |queue| <= capacity
  }

  /** Nobody is queried twice, and only queries put a peer in a state other than succeeded. */
  ghost predicate AskedOnce(order: seq<Key>, states: map<Key, PeerState>) {
    && (forall i, j :: 0 <= i < j < |order| ==> order[i] != order[j])
    && (forall p :: p in order ==> p in states)
    && (forall p :: p in states && states[p] != Succeeded ==> p in order)
  }

  ghost predicate StatesAgree<V>(s: Lookup<V>) {
    Agree(s.config.maxCandidates, s.candidates, s.peerStates, s.inFlight, s.successful)
  }

  ghost predicate QueriedOnce<V>(s: Lookup<V>) {
    AskedOnce(s.queryOrder, s.peerStates)
  }

  /** Queries that `rounds` rounds of `alpha` may issue. */
  function Budget(alpha: nat, rounds: nat): nat {
    if rounds == 0 then 0 else Budget(alpha, rounds - 1) + alpha
  }

  lemma {:induction false} BudgetIsProduct(alpha: nat, rounds: nat)
    ensures Budget(alpha, rounds) == alpha * rounds
  {
    if rounds > 0 { BudgetIsProduct(alpha, rounds - 1); }
  }

  lemma {:induction false} BudgetMonotone(alpha: nat, m: nat, n: nat)
    requires m <= n
    ensures Budget(alpha, m) <= Budget(alpha, n)
    decreases n
  {
    if m < n { BudgetMonotone(alpha, m, n - 1); }
  }

  ghost predicate WithinBudget<V>(s: Lookup<V>) {
    && s.iterations <= s.config.maxIterations
    && |s.inFlight| <= s.config.alpha
    && |s.queryOrder| <= Budget(s.config.alpha, s.iterations)
    && (s.roundActive ==>
          && |s.inFlight| <= s.roundQueries <= s.config.alpha
          && s.iterations > 0
          && |s.queryOrder| <= Budget(s.config.alpha, s.iterations - 1) + s.roundQueries)
  }

  /** Holds in every state the driver can reach. */
  ghost predicate Inv<V>(s: Lookup<V>) {
    && s.config.Valid()
    && StatesAgree(s) && QueriedOnce(s) && WithinBudget(s)
    && (!s.roundActive ==> s.inFlight == map[])
    && (s.termination.Some? ==> !s.roundActive)
    && (s.config.count == 0 ==> s.termination.Some?)
  }

  lemma QueryCap<V>(s: Lookup<V>)
    requires Inv(s)
    ensures |s.queryOrder| <= s.config.alpha * s.config.maxIterations
  {
    BudgetMonotone(s.config.alpha, s.iterations, s.config.maxIterations);
    BudgetIsProduct(s.config.alpha, s.config.maxIterations);
  }

  lemma QueueChangeKeepsInv<V>(s: Lookup<V>, queue: map<Key, V>)
    requires Inv(s)
    requires queue.Keys !! s.peerStates.Keys && |queue.Keys| <= s.config.maxCandidates
    ensures Inv(s.(candidates := queue))
  {
    assert |queue| == |queue.Keys|;
  }

  lemma SucceededKeepsStates<V>(s: Lookup<V>, p: Key, view: V)
    requires StatesAgree(s) && p !in s.candidates && p !in s.inFlight
    ensures StatesAgree(s.(peerStates := s.peerStates[p := Succeeded],
                           successful := if p in s.successful then s.successful else s.successful[p := view]))
  {
  }

  lemma SucceededKeepsInv<V>(s: Lookup<V>, p: Key, view: V)
    requires Inv(s) && p !in s.candidates && p !in s.inFlight
    ensures Inv(s.(peerStates := s.peerStates[p := Succeeded],
                   successful := if p in s.successful then s.successful else s.successful[p := view]))
  {
    SucceededKeepsStates(s, p, view);
    assert QueriedOnce(s.(peerStates := s.peerStates[p := Succeeded]));
  }

  /** Registering a known result keeps the invariant exactly when no query to that peer is in flight. */
  lemma KnownResultKeepsInvIff<V>(s: Lookup<V>, node: Node<V>)
    requires Inv(s)
    ensures Inv(WithKnownResult(s, node)) <==> node.peer !in s.inFlight
  {
    var p := node.peer;
    if p in s.inFlight {
      assert WithKnownResult(s, node).peerStates[p] == Succeeded;
      assert p in WithKnownResult(s, node).inFlight;
    } else {
      Cardinality((s.candidates - {p}).Keys, s.candidates.Keys);
      QueueChangeKeepsInv(s, s.candidates - {p});
      SucceededKeepsInv(s.(candidates := s.candidates - {p}), p, node.view);
    }
  }

  // ---------- what a known result costs while its peer is in flight ----------

  datatype Operation<V> =
    | KnownResult(node: Node<V>)
    | Candidate(node: Node<V>)
    | Begin
    | Take
    | Mark(node: Node<V>)
    | Record(peer: Key, state: PeerState)
    | Complete

  /** Any operation of the lookup but the expiry. */
  function Do<V>(s: Lookup<V>, op: Operation<V>): Lookup<V> {
    match op
    case KnownResult(node) => WithKnownResult(s, node)
    case Candidate(node) => WithCandidate(s, node)
    case Begin => Begun(s)
    case Take => Taken(s)
    case Mark(node) => Marked(s, node).0
    case Record(peer, state) => Recorded(s, peer, state).0
    case Complete => Completed(s)
  }

  function DoAll<V>(s: Lookup<V>, ops: seq<Operation<V>>): Lookup<V> {
    if ops == [] then s else Do(DoAll(s, ops[..|ops| - 1]), ops[|ops| - 1])
  }

  /** The query to `p` is in flight, but `p` no longer counts as waited for. */
  ghost predicate Stranded<V>(s: Lookup<V>, p: Key) {
    s.roundActive && p in s.inFlight && p in s.peerStates && s.peerStates[p] == Succeeded
  }

  /** No answer of a stranded peer can be recorded, and its round cannot be completed or begun anew. */
  lemma StrandedBlocks<V>(s: Lookup<V>, p: Key, state: PeerState)
    requires Stranded(s, p)
    ensures Recorded(s, p, state) == (s, Err(PeerNotWaiting(p)))
    ensures CompletedBy(s) == Err(InvalidState(QueriesStillWaiting))
    ensures BegunBy(s) == Err(InvalidState(RoundAlreadyActive))
  {
    assert s.inFlight != map[];
  }

  lemma StrandedStays<V>(s: Lookup<V>, p: Key, op: Operation<V>)
    requires Stranded(s, p)
    ensures Stranded(Do(s, op), p)
  {
    match op
    case Complete => StrandedBlocks(s, p, Failed);
    case Begin => StrandedBlocks(s, p, Failed);
    case _ =>
  }

  /** A known result for a peer in flight blocks the round for good: whatever is done next, short of expiry,
      its answer is refused and the round stays open. */
  lemma {:induction false} KnownResultStrands<V>(s: Lookup<V>, node: Node<V>, ops: seq<Operation<V>>, state: PeerState)
    requires Inv(s) && node.peer in s.inFlight
    ensures var later := DoAll(WithKnownResult(s, node), ops);
            && Stranded(later, node.peer)
            && Recorded(later, node.peer, state) == (later, Err(PeerNotWaiting(node.peer)))
            && CompletedBy(later) == Err(InvalidState(QueriesStillWaiting))
    decreases |ops|
  {
    if ops != [] {
      var n := |ops| - 1;
      KnownResultStrands(s, node, ops[..n], state);
      StrandedStays(DoAll(WithKnownResult(s, node), ops[..n]), node.peer, ops[n]);
    }
    StrandedBlocks(DoAll(WithKnownResult(s, node), ops), node.peer, state);
  }

  /** Expiry frees the round, but leaves a result whose peer counts as unresponsive. */
  lemma ExpiryLeavesMismatch<V>(s: Lookup<V>, p: Key)
    requires Stranded(s, p) && p in s.successful
    ensures var end := Expired(s);
            && !end.roundActive && end.inFlight == map[] && end.termination == Some(TimedOut)
            && p in end.successful && p in end.peerStates && end.peerStates[p] == Unresponsive && !StatesAgree(end)
  {
  }

  lemma CandidateKeepsInv<V>(s: Lookup<V>, node: Node<V>)
    requires Inv(s)
    ensures Inv(WithCandidate(s, node))
  {
    if node.peer !in s.peerStates {
      OfferKeys(s.target, s.config.maxCandidates, s.candidates, node);
      AdmitBounds(s.target, s.config.maxCandidates, s.candidates.Keys, node.peer);
      QueueChangeKeepsInv(s, Offer(s.target, s.config.maxCandidates, s.candidates, node));
    }
  }

  lemma DiscardingIsIdle<V>(s: Lookup<V>)
    requires StatesAgree(s)
    ensures Uncontacted(s) == s.candidates && Discarded(s) == s
  {
  }

  lemma StartedKeepsInv<V>(s: Lookup<V>)
    requires Inv(s) && !s.roundActive && s.termination.None? && s.iterations < s.config.maxIterations
    ensures Inv(s.(iterations := s.iterations + 1, roundQueries := 0, roundActive := true))
  {
  }

  lemma BegunKeepsInv<V>(s: Lookup<V>)
    requires Inv(s)
    ensures Inv(Begun(s))
    ensures BegunBy(s).Err? <==> s.roundActive
  {
    DiscardingIsIdle(s);
    if BegunBy(s) == Ok(Continue) {
      StartedKeepsInv(s);
      assert Begun(s) == s.(iterations := s.iterations + 1, roundQueries := 0, roundActive := true);
    } else if BegunBy(s).Ok? {
      assert Inv(Stopped(s, BegunBy(s).value.reason));
      assert Begun(s) == Stopped(s, BegunBy(s).value.reason);
    }
  }

  /** Selection takes the closest queued peer, and only a peer never contacted before. */
  lemma TakenKeepsInv<V>(s: Lookup<V>)
    requires Inv(s) && s.roundActive
    ensures Inv(Taken(s)) && TakenNode(s).Ok?
    ensures TakenNode(s).value.Some? ==>
              && |Taken(s).candidates| < |s.candidates|
              && s.roundQueries < s.config.alpha
              && IsNearest(s.target, s.candidates.Keys, TakenNode(s).value.value.peer)
              && TakenNode(s).value.value.peer !in s.peerStates
              && TakenNode(s).value.value.peer !in Taken(s).candidates
  {
    DiscardingIsIdle(s);
    if MayTake(s) && s.candidates != map[] {
      var p := Nearest(s.target, s.candidates.Keys);
      WithoutOne(s.candidates, p);
      QueueChangeKeepsInv(s, s.candidates - {p});
      assert Taken(s) == s.(candidates := s.candidates - {p});
    } else {
      assert Taken(s) == s;
    }
  }

  lemma WithoutOne<V>(queue: map<Key, V>, p: Key)
    requires p in queue
    ensures (queue - {p}).Keys == queue.Keys - {p} && |queue - {p}| == |queue| - 1
  {
    assert |queue - {p}| == |(queue - {p}).Keys| && |queue| == |queue.Keys|;
  }

  lemma MarkedKeepsQueriedOnce<V>(s: Lookup<V>, p: Key)
    requires QueriedOnce(s) && p !in s.peerStates
    ensures QueriedOnce(s.(peerStates := s.peerStates[p := Waiting], queryOrder := s.queryOrder + [p]))
  {
  }

  lemma MarkedKeepsStates<V>(s: Lookup<V>, p: Key, view: V)
    requires StatesAgree(s) && p !in s.peerStates && p !in s.candidates
    ensures StatesAgree(s.(peerStates := s.peerStates[p := Waiting], inFlight := s.inFlight[p := view]))
  {
  }

  lemma MarkedKeepsInv<V>(s: Lookup<V>, node: Node<V>)
    requires Inv(s) && s.roundActive && s.roundQueries < s.config.alpha
    requires node.peer !in s.peerStates && node.peer !in s.candidates
    ensures Marked(s, node).1.Ok?
    ensures Inv(Marked(s, node).0)
    ensures Marked(s, node).0.inFlight.Keys == s.inFlight.Keys + {node.peer}
  {
    var s' := Marked(s, node).0;
    assert s'.inFlight.Keys == s.inFlight.Keys + {node.peer};
    assert StatesAgree(s') by { MarkedKeepsStates(s, node.peer, node.view); }
    assert QueriedOnce(s') by { MarkedKeepsQueriedOnce(s, node.peer); }
    assert WithinBudget(s');
  }

  lemma RecordedKeepsStates<V>(s: Lookup<V>, peer: Key, state: PeerState)
    requires StatesAgree(s) && peer in s.inFlight && state != Waiting
    ensures StatesAgree(Recorded(s, peer, state).0)
  {
  }

  lemma RecordedKeepsInv<V>(s: Lookup<V>, peer: Key, state: PeerState)
    requires Inv(s) && peer in s.inFlight && state != Waiting
    ensures Recorded(s, peer, state).1.Ok?
    ensures Inv(Recorded(s, peer, state).0)
    ensures Recorded(s, peer, state).0.inFlight.Keys == s.inFlight.Keys - {peer}
  {
    var s' := Recorded(s, peer, state).0;
    RecordedKeepsStates(s, peer, state);
    assert s'.inFlight.Keys == s.inFlight.Keys - {peer};
    assert QueriedOnce(s');
  }

  lemma CompletedKeepsInv<V>(s: Lookup<V>)
    requires Inv(s) && MayComplete(s)
    ensures Inv(Completed(s))
    ensures CompletedBy(s).Ok?
  {
    DiscardingIsIdle(s);
    CompletedFrame(s);
  }

  lemma ExpiredKeepsInv<V>(s: Lookup<V>)
    requires Inv(s)
    ensures Inv(Expired(s))
  {
    var s' := Expired(s);
    assert StatesAgree(s');
    assert QueriedOnce(s');
  }

  // ---------- what stopping means ----------

  /** No queued peer could enter the result, even if it answered. */
  ghost predicate Settled<V>(s: Lookup<V>) {
    || s.candidates == map[]
    || (&& |ResultPeers(s)| == s.config.count
        && forall p, q :: p in ResultPeers(s) && q in s.candidates ==> Distance(s.target, p) < Distance(s.target, q))
  }

  lemma QueuedIsFarther<V>(s: Lookup<V>, p: Key, q: Key)
    requires StatesAgree(s) && !HasPromising(s) && p in ResultPeers(s) && q in s.candidates
    ensures Distance(s.target, p) < Distance(s.target, q)
  {
    NearestKIsNearest(s.target, s.successful.Keys, s.config.count);
    LastIsFarthest(s.target, ResultPeers(s), p);
    assert p in Elements(ResultPeers(s));
    DistanceInjective(s.target, p, q);
  }

  lemma ConvergedIsSettled<V>(s: Lookup<V>)
    requires StatesAgree(s) && !HasPromising(s)
    requires |ResultPeers(s)| < s.config.count ==> s.candidates == map[]
    ensures Settled(s)
  {
    forall p, q | p in ResultPeers(s) && q in s.candidates
      ensures Distance(s.target, p) < Distance(s.target, q)
    {
      QueuedIsFarther(s, p, q);
    }
  }

  /** A round that ends the lookup by convergence or exhaustion leaves it settled. */
  lemma FinishedIsSettled<V>(s: Lookup<V>)
    requires Inv(s) && MayComplete(s)
    requires Verdict(s) == Finished(Converged) || Verdict(s) == Finished(Exhausted)
    ensures Settled(Completed(s))
  {
    DiscardingIsIdle(s);
    CompletedFrame(s);
    if s.candidates != map[] {
      ConvergedIsSettled(s);
    }
  }

  /** Nothing more to gain: the result is still `previous` and no queued peer could enter it. */
  ghost predicate Quiet<V>(previous: seq<Key>, s: Lookup<V>) {
    ResultPeers(s) == previous && Settled(s)
  }

  lemma SettledIsUnpromising<V>(s: Lookup<V>)
    requires Settled(s) && s.config.count > 0
    ensures !HasPromising(s)
  {
    if s.candidates != map[] {
      var top := ResultPeers(s);
      assert top[|top| - 1] in top && Nearest(s.target, s.candidates.Keys) in s.candidates;
    }
  }

  lemma ConvergesIff<V>(s: Lookup<V>)
    requires Inv(s) && MayComplete(s)
    ensures CompletedBy(s) == Ok(Finished(Converged)) <==> Quiet(s.previousTopK, s)
  {
    if CompletedBy(s) == Ok(Finished(Converged)) {
      ConvergedIsSettled(s);
    }
    if Settled(s) {
      SettledIsUnpromising(s);
    }
  }

  /** What ends a round, for each of the four answers: by the result so far, the last round's result and the queue. */
  ghost predicate RoundDecided<V>(s: Lookup<V>, r: Result<Progress, LookupError>) {
    && (r == Ok(Finished(Converged)) <==> Quiet(s.previousTopK, s))
    && (r == Ok(Finished(IterationLimit)) <==>
        && s.iterations >= s.config.maxIterations
        && (ResultPeers(s) == s.previousTopK ==> !Settled(s) && |ResultPeers(s)| == s.config.count))
    && (r == Ok(Finished(Exhausted)) <==>
        s.candidates == map[] && ResultPeers(s) != s.previousTopK && s.iterations < s.config.maxIterations)
    && (r == Ok(Continue) <==>
        && s.candidates != map[] && !Quiet(s.previousTopK, s)
        && (|| s.iterations < s.config.maxIterations
            || (ResultPeers(s) == s.previousTopK && |ResultPeers(s)| < s.config.count)))
  }

  /** Completing a round decides so, and remembers this round's result for the next one. */
  lemma CompletesIff<V>(s: Lookup<V>)
    requires Inv(s) && MayComplete(s)
    ensures RoundDecided(s, CompletedBy(s))
    ensures Completed(s).previousTopK == ResultPeers(s) == ResultPeers(Completed(s))
    ensures Completed(s).candidates == s.candidates
  {
    ConvergesIff(s);
    DiscardingIsIdle(s);
    assert Uncontacted(Idle(s)) == Uncontacted(s);
    CompletedFrame(s);
    NearestKIsNearest(s.target, s.successful.Keys, s.config.count);
  }

  lemma CompletedQuiet<V>(s: Lookup<V>)
    requires Inv(s) && MayComplete(s)
    ensures Quiet(s.previousTopK, Completed(s)) <==> Quiet(s.previousTopK, s)
  {
    CompletesIff(s);
    CompletedFrame(s);
  }

  /** What an offer reports is what it does to the queue: it added the peer, for nobody or for one other, took
      a new representation of a queued peer, or changed nothing. */
  ghost predicate Reported<V>(r: Insertion, before: map<Key, V>, node: Node<V>, contacted: bool, after: map<Key, V>) {
    match r
    case Inserted(None) => node.peer !in before && after == before[node.peer := node.view]
    case Inserted(Some(far)) =>
      node.peer !in before && far in before && after == (before - {far})[node.peer := node.view]
    case Replaced => node.peer in before && after == before[node.peer := node.view]
    case AlreadyContacted => contacted && after == before
    case TooFar => !contacted && node.peer !in before && after == before
  }

  lemma InsertionTells<V>(s: Lookup<V>, node: Node<V>)
    ensures Reported(InsertionOf(s, node), s.candidates, node, node.peer in s.peerStates,
                     WithCandidate(s, node).candidates)
  {
    if s.candidates != map[] { assert Farthest(s.target, s.candidates.Keys) in s.candidates.Keys; }
  }

  /** A result known beforehand counts as answered: it is among the results, in its earliest representation,
      and is not queried any more. */
  lemma KnownResultTells<V>(s: Lookup<V>, node: Node<V>)
    ensures var s' := WithKnownResult(s, node);
            && s'.successful.Keys == s.successful.Keys + {node.peer}
            && (forall p :: p in s'.successful ==>
                  s'.successful[p] == if p in s.successful then s.successful[p] else node.view)
            && s'.peerStates == s.peerStates[node.peer := Succeeded]
            && s'.candidates.Keys == s.candidates.Keys - {node.peer}
  {
  }

  /** A query and its outcome: only an answer adds a result, in the representation that was queried. */
  lemma QueryDecides<V>(s: Lookup<V>, node: Node<V>, state: PeerState)
    requires Inv(s) && s.roundActive && s.roundQueries < s.config.alpha && node.peer !in s.peerStates
    ensures var s' := Recorded(Marked(s, node).0, node.peer, state).0;
            && s'.inFlight == s.inFlight && s'.peerStates == s.peerStates[node.peer := state]
            && s'.successful == (if state == Succeeded then s.successful[node.peer := node.view] else s.successful)
            && s'.queryOrder == s.queryOrder + [node.peer] && s'.roundQueries == s.roundQueries + 1
  {
    assert s.inFlight[node.peer := node.view] - {node.peer} == s.inFlight;
    assert s.peerStates[node.peer := Waiting][node.peer := state] == s.peerStates[node.peer := state];
  }

  /** What begins a round, and what keeps one from beginning. */
  lemma BeginsIff<V>(s: Lookup<V>)
    requires Inv(s)
    ensures BegunBy(s) == Ok(Continue) <==>
            && !s.roundActive && s.termination.None?
            && s.iterations < s.config.maxIterations && s.candidates != map[]
    ensures !s.roundActive && s.termination.None? ==>
            && (BegunBy(s) == Ok(Finished(IterationLimit)) <==> s.iterations >= s.config.maxIterations)
            && (BegunBy(s) == Ok(Finished(Exhausted)) <==>
                s.iterations < s.config.maxIterations && s.candidates == map[])
    ensures Begun(s).iterations == s.iterations + (if BegunBy(s) == Ok(Continue) then 1 else 0)
    ensures Begun(s).previousTopK == s.previousTopK && Begun(s).candidates == s.candidates
  {
    DiscardingIsIdle(s);
  }

  lemma {:induction false} UnsettledWitness<V>(s: Lookup<V>) returns (q: Key)
    requires StatesAgree(s) && !Settled(s)
    ensures q in s.candidates
    ensures NearestK(s.target, s.successful.Keys + {q}, s.config.count) != ResultPeers(s)
  {
    var top := ResultPeers(s);
    NearestKIsNearest(s.target, s.successful.Keys, s.config.count);
    if |top| < s.config.count {
      q := Nearest(s.target, s.candidates.Keys);
      assert |s.successful.Keys + {q}| == |s.successful.Keys| + 1;
    } else {
      var p, r :| p in top && r in s.candidates && Distance(s.target, r) <= Distance(s.target, p);
      q := r;
      var top' := NearestK(s.target, s.successful.Keys + {q}, s.config.count);
      NearestKIsNearest(s.target, s.successful.Keys + {q}, s.config.count);
      if q !in Elements(top') && p in Elements(top') { assert false; }
      assert p in Elements(top) && q !in Elements(top);
    }
  }

  /** `Settled` is exact: it holds just when no single queued answer would change the result. */
  lemma SettledIff<V>(s: Lookup<V>)
    requires StatesAgree(s)
    ensures Settled(s) <==>
            forall q :: q in s.candidates ==>
              NearestK(s.target, s.successful.Keys + {q}, s.config.count) == ResultPeers(s)
  {
    if Settled(s) {
      forall q | q in s.candidates
        ensures NearestK(s.target, s.successful.Keys + {q}, s.config.count) == ResultPeers(s)
      {
        SettledResultIsFinal(s, {q});
      }
    } else {
      var q := UnsettledWitness(s);
    }
  }

  /** The result survives any further answers from the queue. */
  lemma SettledResultIsFinal<V>(s: Lookup<V>, answers: set<Key>)
    requires StatesAgree(s) && Settled(s) && answers <= s.candidates.Keys
    ensures NearestK(s.target, s.successful.Keys + answers, s.config.count) == ResultPeers(s)
  {
    var all, top := s.successful.Keys + answers, ResultPeers(s);
    NearestKIsNearest(s.target, s.successful.Keys, s.config.count);
    if s.candidates == map[] {
      assert all == s.successful.Keys;
    } else {
      Cardinality(s.successful.Keys, all);
      forall p, q | p in Elements(top) && q in all && q !in Elements(top)
        ensures Distance(s.target, p) < Distance(s.target, q)
      {
        assert q in s.successful.Keys || q in s.candidates;
      }
      assert IsNearestSet(s.target, all, s.config.count, Elements(top));
      var top' := NearestK(s.target, all, s.config.count);
      NearestKIsNearest(s.target, all, s.config.count);
      NearestSetUnique(s.target, all, s.config.count, Elements(top), Elements(top'));
      AscendingUnique(s.target, top, top');
    }
  }
}
