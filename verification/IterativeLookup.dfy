/** The mutable lookup object.  Each method is proved to do what `LookupState`
    says its operation does. */
module IterativeLookups {
  import opened Keys
  import opened Ranking
  import opened Wrappers
  import opened LookupState

  class IterativeLookup<V> {
    var target: Key
    var config: Config
    var candidates: map<Key, V>
    var peerStates: map<Key, PeerState>
    var queryOrder: seq<Key>
    var inFlight: map<Key, V>
    var successful: map<Key, V>
    var previousTopK: seq<Key>
    var iterations: nat
    var roundActive: bool
    var roundQueries: nat
    var termination: Option<Termination>

    function State(): Lookup<V>
      reads this
    {
      Lookup(target, config, candidates, peerStates, queryOrder, inFlight, successful, previousTopK,
             iterations, roundActive, roundQueries, termination)
    }

    constructor (target: Key, config: Config)
      ensures State() == Fresh<V>(target, config)
    {
      this.target, this.config := target, config;
      candidates, peerStates, inFlight, successful := map[], map[], map[], map[];
      queryOrder, previousTopK := [], [];
      iterations, roundActive, roundQueries := 0, false, 0;
      termination := if config.count == 0 then Some(Converged) else None;
    }

    /** `new`: rejects a configuration with a zero limit. */
    static method Create(target: Key, config: Config) returns (r: Result<IterativeLookup<V>, LookupError>)
      ensures r.Ok? <==> config.Valid()
      ensures r.Err? ==> r.error == InvalidConfig
      ensures r.Ok? ==> fresh(r.value) && r.value.State() == Fresh<V>(target, config) && Inv(r.value.State())
    {
      if config.alpha == 0 || config.maxIterations == 0 || config.maxCandidates == 0 {
        return Err(InvalidConfig);
      }
      var lookup := new IterativeLookup<V>(target, config);
      r := Ok(lookup);
    }

    method AddKnownResult(node: Node<V>)
      modifies this
      ensures State() == WithKnownResult(old(State()), node)
    {
      candidates := candidates - {node.peer};
      peerStates := peerStates[node.peer := Succeeded];
      if node.peer !in successful {
        successful := successful[node.peer := node.view];
      }
    }

    method AddCandidate(node: Node<V>) returns (r: Insertion)
      modifies this
      ensures State() == WithCandidate(old(State()), node)
      ensures r == InsertionOf(old(State()), node)
    {
      if node.peer in peerStates {
        return AlreadyContacted;
      }
      if node.peer in candidates {
        candidates := candidates[node.peer := node.view];
        return Replaced;
      }
      if |candidates| >= config.maxCandidates {
        if candidates == map[] {
          return TooFar;
        }
        var farthest := Farthest(target, candidates.Keys);
        if Distance(target, node.peer) >= Distance(target, farthest) {
          return TooFar;
        }
        candidates := candidates - {farthest};
        candidates := candidates[node.peer := node.view];
        return Inserted(Some(farthest));
      }
      candidates := candidates[node.peer := node.view];
      r := Inserted(None);
    }

    method DiscardContacted()
      modifies this`candidates
      ensures candidates == old(candidates) - peerStates.Keys
    {
      candidates := candidates - peerStates.Keys;
    }

    method Finish(reason: Termination) returns (r: Progress)
      modifies this`roundActive, this`termination
      ensures !roundActive && termination == Some(reason) && r == Finished(reason)
    {
      roundActive := false;
      termination := Some(reason);
      r := Finished(reason);
    }

    method BeginRound() returns (r: Result<Progress, LookupError>)
      modifies this
      ensures State() == Begun(old(State())) && r == BegunBy(old(State()))
    {
      if roundActive {
        return Err(InvalidState(RoundAlreadyActive));
      }
      if termination.Some? {
        return Ok(Finished(termination.value));
      }
      if iterations >= config.maxIterations {
        var p := Finish(IterationLimit);
        return Ok(p);
      }
      DiscardContacted();
      if candidates == map[] {
        var p := Finish(Exhausted);
        r := Ok(p);
      } else {
        iterations := iterations + 1;
        roundQueries := 0;
        roundActive := true;
        r := Ok(Continue);
      }
    }

    method TakeNextCandidate() returns (r: Result<Option<Node<V>>, LookupError>)
      modifies this
      ensures State() == Taken(old(State())) && r == TakenNode(old(State()))
    {
      if !roundActive {
        return Err(InvalidState(NoActiveRound));
      }
      if roundQueries >= config.alpha {
        return Ok(None);
      }
      DiscardContacted();
      if candidates == map[] {
        return Ok(None);
      }
      var p := Nearest(target, candidates.Keys);
      r := Ok(Some(Node(p, candidates[p])));
      candidates := candidates - {p};
    }

    method MarkWaiting(node: Node<V>) returns (r: Result<(), LookupError>)
      modifies this
      ensures (State(), r) == Marked(old(State()), node)
    {
      if !roundActive {
        return Err(InvalidState(NoActiveRound));
      }
      if roundQueries >= config.alpha {
        return Err(InvalidState(AlphaReached));
      }
      if node.peer in peerStates {
        return Err(InvalidState(PeerHasState));
      }
      peerStates := peerStates[node.peer := Waiting];
      queryOrder := queryOrder + [node.peer];
      inFlight := inFlight[node.peer := node.view];
      roundQueries := roundQueries + 1;
      r := Ok(());
    }

    method TakeWaiting(peer: Key) returns (r: Result<V, LookupError>)
      modifies this`inFlight
      ensures r.Ok? <==> peer in peerStates && peerStates[peer] == Waiting && peer in old(inFlight)
      ensures r.Ok? ==> r.value == old(inFlight)[peer] && inFlight == old(inFlight) - {peer}
      ensures r.Err? ==> r.error == PeerNotWaiting(peer) && inFlight == old(inFlight)
    {
      if !(peer in peerStates && peerStates[peer] == Waiting) || peer !in inFlight {
        return Err(PeerNotWaiting(peer));
      }
      r := Ok(inFlight[peer]);
      inFlight := inFlight - {peer};
    }

    method RecordSuccess(peer: Key) returns (r: Result<(), LookupError>)
      modifies this
      ensures (State(), r) == Recorded(old(State()), peer, Succeeded)
    {
      var node := TakeWaiting(peer);
      if node.Err? {
        return Err(node.error);
      }
      peerStates := peerStates[peer := Succeeded];
      if peer !in successful {
        successful := successful[peer := node.value];
      }
      r := Ok(());
    }

    method RecordFailure(peer: Key) returns (r: Result<(), LookupError>)
      modifies this
      ensures (State(), r) == Recorded(old(State()), peer, Failed)
    {
      var node := TakeWaiting(peer);
      if node.Err? {
        return Err(node.error);
      }
      peerStates := peerStates[peer := Failed];
      r := Ok(());
    }

    method RecordUnresponsive(peer: Key) returns (r: Result<(), LookupError>)
      modifies this
      ensures (State(), r) == Recorded(old(State()), peer, Unresponsive)
    {
      var node := TakeWaiting(peer);
      if node.Err? {
        return Err(node.error);
      }
      peerStates := peerStates[peer := Unresponsive];
      r := Ok(());
    }

    method Advance() returns (r: Progress)
      modifies this`candidates, this`roundActive, this`termination
      ensures (State(), r) == Advanced(old(State()))
    {
      if iterations >= config.maxIterations {
        r := Finish(IterationLimit);
        return;
      }
      DiscardContacted();
      if candidates == map[] {
        r := Finish(Exhausted);
        return;
      }
      r := Continue;
    }

    /** The convergence decision, once a completed round is known to have nothing in flight. */
    method EvaluateRound() returns (r: Progress)
      requires MayComplete(State())
      modifies this
      ensures State() == Completed(old(State())) && r == Verdict(old(State()))
    {
      var current, promising := ResultPeers(State()), HasPromising(State());
      roundActive := false;
      if current == previousTopK && |current| < config.count && candidates != map[] {
        r := Continue;
      } else if current == previousTopK && !promising {
        r := Finish(Converged);
      } else {
        previousTopK := current;
        assert State() == Idle(old(State()));
        r := Advance();
      }
    }

    method CompleteRound() returns (r: Result<Progress, LookupError>)
      modifies this
      ensures State() == Completed(old(State())) && r == CompletedBy(old(State()))
      ensures old(Inv(State()) && MayComplete(State())) ==>
                RoundDecided(old(State()), r) && previousTopK == ResultPeers(State())
    {
      if Inv(State()) && MayComplete(State()) {
        CompletesIff(State());
      }
      if !roundActive {
        return Err(InvalidState(NoActiveRound));
      }
      if inFlight != map[] {
        return Err(InvalidState(QueriesStillWaiting));
      }
      var p := EvaluateRound();
      r := Ok(p);
    }

    /** What the runner does once its deadline has dropped the walk. */
    method Expire()
      modifies this`inFlight, this`peerStates, this`roundActive, this`termination
      ensures State() == Expired(old(State()))
    {
      var rest := inFlight.Keys;
      inFlight := map[];
      assert peerStates == Abandoned(peerStates, {});
      while rest != {}
        invariant rest <= old(inFlight).Keys
        invariant peerStates == Abandoned(old(peerStates), old(inFlight).Keys - rest)
        modifies this`peerStates
        decreases rest
      {
        var peer :| peer in rest;
        AbandonOne(old(peerStates), old(inFlight).Keys - rest, peer);
        assert old(inFlight).Keys - rest + {peer} == old(inFlight).Keys - (rest - {peer});
        rest := rest - {peer};
        peerStates := peerStates[peer := Unresponsive];
      }
      assert old(inFlight).Keys - {} == old(inFlight).Keys;
      var _ := Finish(TimedOut);
    }

    /** Successful responders, closest first, at most `count` of them. */
    method Results() returns (views: seq<V>)
      ensures |views| == |ResultPeers(State())|
      ensures forall i :: 0 <= i < |views| ==>
                ResultPeers(State())[i] in successful && views[i] == successful[ResultPeers(State())[i]]
    {
      NearestInMap(target, successful, config.count);
      views := NearestEntries(target, successful, config.count);
    }
  }
}
