/** What the adapter's answers decide: whom a selection asks and whom it drops, whom an admission may add,
    and the state every queried peer ends a round in. */
module LookupAnswers {
  import opened Keys
  import opened Ranking
  import opened Wrappers
  import opened LookupState
  import opened LookupDriver
  import opened LookupLedger

  /** Some await from `first` up to `next` found `node` eligible, or not, as `verdict` says. */
  ghost predicate Judged<V, E>(script: Script<V, E>, first: nat, next: nat, node: Node<V>, verdict: bool) {
    exists n: nat :: first <= n < next && script.eligible(n, node) == Ok(verdict)
  }

  // ---------- selecting ----------

  /** Every node that joined the batch was found eligible. */
  ghost predicate PickedEligible<V, E>(
      batch: seq<Node<V>>, picked: seq<Node<V>>, script: Script<V, E>, first: nat, next: nat)
  {
    forall i :: |batch| <= i < |picked| ==> Judged(script, first, next, picked[i], true)
  }

  /** Every candidate that left the queue without joining the batch was found ineligible. */
  ghost predicate DroppedIneligible<V, E>(queue: map<Key, V>, left: map<Key, V>, batch: seq<Node<V>>,
                                          picked: seq<Node<V>>, script: Script<V, E>, first: nat, next: nat)
  {
    forall p :: p in queue && p !in left ==>
      || (exists i :: |batch| <= i < |picked| && picked[i].peer == p)
      || Judged(script, first, next, Node(p, queue[p]), false)
  }

  ghost predicate SelectsByVerdict<V, E>(
      s: Lookup<V>, batch: seq<Node<V>>, script: Script<V, E>, first: nat, result: (Step<V, E>, seq<Node<V>>))
  {
    && first <= result.0.next && batch <= result.1
    && PickedEligible(batch, result.1, script, first, result.0.next)
    && (result.0.stop.None? ==>
          DroppedIneligible(s.candidates, result.0.state.candidates, batch, result.1, script, first, result.0.next))
  }

  lemma JudgedEarlier<V, E>(script: Script<V, E>, first: nat, next: nat, node: Node<V>, verdict: bool)
    requires Judged(script, first + 1, next, node, verdict)
    ensures Judged(script, first, next, node, verdict)
  {
  }

  /** The candidate `node` was weighed first, and the rest of the selection did as it should. */
  lemma SelectsPast<V, E>(s: Lookup<V>, s': Lookup<V>, batch: seq<Node<V>>, batch': seq<Node<V>>, node: Node<V>,
                          asked: bool, script: Script<V, E>, first: nat, result: (Step<V, E>, seq<Node<V>>))
    requires SelectsByVerdict(s', batch', script, first + 1, result)
    requires script.eligible(first, node) == Ok(asked) && batch' == (if asked then batch + [node] else batch)
    requires node.peer in s.candidates && s.candidates[node.peer] == node.view
    requires s'.candidates == s.candidates - {node.peer}
    ensures SelectsByVerdict(s, batch, script, first, result)
  {
    var next, picked := result.0.next, result.1;
    assert Judged(script, first, next, node, asked);
    forall i | |batch| <= i < |picked| ensures Judged(script, first, next, picked[i], true) {
      if asked && i == |batch| {
        assert picked[i] == batch'[i] == node;
      } else {
        JudgedEarlier(script, first, next, picked[i], true);
      }
    }
    if result.0.stop.None? {
      forall p | p in s.candidates && p !in result.0.state.candidates
        ensures (exists i :: |batch| <= i < |picked| && picked[i].peer == p)
             || Judged(script, first, next, Node(p, s.candidates[p]), false)
      {
        if p == node.peer {
          assert asked ==> picked[|batch|] == batch'[|batch|] == node;
        } else if Judged(script, first + 1, next, Node(p, s'.candidates[p]), false) {
          JudgedEarlier(script, first, next, Node(p, s.candidates[p]), false);
        }
      }
    }
  }

  lemma TakenDrops<V>(s: Lookup<V>)
    requires Inv(s) && s.roundActive && TakenNode(s).Ok? && TakenNode(s).value.Some?
    ensures var node := TakenNode(s).value.value;
            && node.peer in s.candidates && s.candidates[node.peer] == node.view
            && Taken(s).candidates == s.candidates - {node.peer}
            && Marked(Taken(s), node).0.candidates == s.candidates - {node.peer}
  {
    DiscardingIsIdle(s);
  }

  /** Whom a selection asks is up to the adapter's verdicts alone: it asks only the eligible, and a candidate
      that leaves the queue without being asked was found ineligible. */
  lemma {:induction false} SelectionFollowsVerdicts<V, E>(
      s: Lookup<V>, batch: seq<Node<V>>, script: Script<V, E>, deadline: Option<nat>, next: nat)
    requires Inv(s) && s.roundActive
    ensures SelectsByVerdict(s, batch, script, next, Selection(s, batch, script, deadline, next))
    decreases |s.candidates|
  {
    if TakenNode(s).Ok? && TakenNode(s).value.Some? && deadline != Some(next)
       && script.eligible(next, TakenNode(s).value.value).Ok?
    {
      var node := TakenNode(s).value.value;
      var asked := script.eligible(next, node).value;
      var (s', batch') := Onward(s, batch, asked);
      SelectionGoesOn(s, batch, script, deadline, next);
      TakenDrops(s);
      TakenFields(s);
      MarkedFields(Taken(s), node);
      SelectionFollowsVerdicts(s', batch', script, deadline, next + 1);
      SelectsPast(s, s', batch, batch', node, asked, script, next, Selection(s, batch, script, deadline, next));
    } else {
      SelectionEnds(s, batch, script, deadline, next);
    }
  }

  lemma SelectionEnds<V, E>(s: Lookup<V>, batch: seq<Node<V>>, script: Script<V, E>, deadline: Option<nat>, next: nat)
    requires Inv(s) && s.roundActive
    requires TakenNode(s).Ok? && TakenNode(s).value.Some? ==>
               deadline == Some(next) || script.eligible(next, TakenNode(s).value.value).Err?
    ensures SelectsByVerdict(s, batch, script, next, Selection(s, batch, script, deadline, next))
  {
    DiscardingIsIdle(s);
  }

  // ---------- admitting ----------

  /** Who is queued afterwards was queued before, or was named and found eligible. */
  ghost predicate AdmitsByVerdict<V, E>(
      s: Lookup<V>, nodes: seq<Node<V>>, script: Script<V, E>, first: nat, step: Step<V, E>)
  {
    && first <= step.next
    && step.state == s.(candidates := step.state.candidates)
    && forall p :: p in step.state.candidates ==>
         || (p in s.candidates && step.state.candidates[p] == s.candidates[p])
         || (exists i :: && 0 <= i < |nodes| && nodes[i] == Node(p, step.state.candidates[p])
                         && Judged(script, first, step.next, nodes[i], true))
  }

  lemma AdmitsPast<V, E>(s: Lookup<V>, s': Lookup<V>, nodes: seq<Node<V>>, script: Script<V, E>,
                         first: nat, later: nat, step: Step<V, E>)
    requires nodes != [] && script.eligible(first, nodes[0]).Ok? && first < later
    requires s' == if script.eligible(first, nodes[0]).value then WithCandidate(s, nodes[0]) else s
    requires AdmitsByVerdict(s', nodes[1..], script, later, step)
    ensures AdmitsByVerdict(s, nodes, script, first, step)
  {
    var after := step.state.candidates;
    forall p | p in after
      ensures (p in s.candidates && after[p] == s.candidates[p])
           || exists i :: && 0 <= i < |nodes| && nodes[i] == Node(p, after[p])
                          && Judged(script, first, step.next, nodes[i], true)
    {
      if p in s'.candidates && after[p] == s'.candidates[p] {
        assert (p in s.candidates && s'.candidates[p] == s.candidates[p])
            || (nodes[0] == Node(p, s'.candidates[p]) && script.eligible(first, nodes[0]) == Ok(true));
      } else {
        var i :| && 0 <= i < |nodes[1..]| && nodes[1..][i] == Node(p, after[p])
                 && Judged(script, later, step.next, nodes[1..][i], true);
        assert nodes[i + 1] == nodes[1..][i];
        assert Judged(script, first, step.next, nodes[i + 1], true);
      }
    }
  }

  lemma {:induction false} AdmissionFollowsVerdicts<V, E>(
      s: Lookup<V>, nodes: seq<Node<V>>, script: Script<V, E>, deadline: Option<nat>, next: nat)
    ensures AdmitsByVerdict(s, nodes, script, next, Admission(s, nodes, script, deadline, next))
    decreases |nodes|
  {
    if nodes != [] && deadline != Some(next) && script.eligible(next, nodes[0]).Ok? {
      if script.eligible(next, nodes[0]).value {
        AdmittedFollowsVerdicts(s, nodes, script, deadline, next);
      } else {
        AdmissionFollowsVerdicts(s, nodes[1..], script, deadline, next + 1);
        AdmitsPast(s, s, nodes, script, next, next + 1, Admission(s, nodes, script, deadline, next));
      }
    }
  }

  lemma AdmittedNothingMore<V, E>(s: Lookup<V>, nodes: seq<Node<V>>, script: Script<V, E>, first: nat, step: Step<V, E>)
    requires step.state == s && first <= step.next
    ensures AdmitsByVerdict(s, nodes, script, first, step)
  {
  }

  lemma {:induction false} AdmittedFollowsVerdicts<V, E>(
      s: Lookup<V>, nodes: seq<Node<V>>, script: Script<V, E>, deadline: Option<nat>, next: nat)
    requires nodes != [] && deadline != Some(next) && script.eligible(next, nodes[0]) == Ok(true)
    ensures AdmitsByVerdict(s, nodes, script, next, Admission(s, nodes, script, deadline, next))
    decreases |nodes|, 0
  {
    var insertion, admitted := InsertionOf(s, nodes[0]), WithCandidate(s, nodes[0]);
    var step := Admission(s, nodes, script, deadline, next);
    var later := if Reports(insertion) then next + 2 else next + 1;
    AdmissionGoesOn(s, nodes, script, deadline, next);
    if Reports(insertion) && (deadline == Some(next + 1) || script.evicted(next + 1, insertion.evicted.value).Err?) {
      later := next + 1;
      AdmissionAdvances(s, nodes, script, deadline, next);
      AdmittedNothingMore(admitted, nodes[1..], script, later, step);
    } else {
      AdmissionFollowsVerdicts(admitted, nodes[1..], script, deadline, later);
    }
    AdmitsPast(s, admitted, nodes, script, next, later, step);
  }

  lemma AdmissionAdvances<V, E>(
      s: Lookup<V>, nodes: seq<Node<V>>, script: Script<V, E>, deadline: Option<nat>, next: nat)
    requires nodes != [] && deadline != Some(next) && script.eligible(next, nodes[0]) == Ok(true)
    requires var insertion := InsertionOf(s, nodes[0]);
             Reports(insertion)
             && (deadline == Some(next + 1) || script.evicted(next + 1, insertion.evicted.value).Err?)
    ensures Admission(s, nodes, script, deadline, next).next >= next + 1
  {
  }

  // ---------- recording ----------

  /** The state an outcome puts its responder in. */
  function StateFor<V>(outcome: Outcome<V>): PeerState {
    match outcome
    case AnswerFrom(_, _) => Succeeded
    case FailureOf(_) => Failed
    case SilenceOf(_) => Unresponsive
  }

  /** `states` follows the outcomes: each decides its responder, each awaited peer now decided has one, and
      nobody else changes. */
  ghost predicate FollowsOutcomes<V>(before: map<Key, PeerState>, outcomes: seq<Outcome<V>>, awaiting: set<Key>,
                                     after: map<Key, PeerState>, rest: set<Key>)
  {
    && rest <= awaiting
    && (forall i :: 0 <= i < |outcomes| ==>
          && outcomes[i].responder in awaiting && outcomes[i].responder !in rest
          && outcomes[i].responder in after && after[outcomes[i].responder] == StateFor(outcomes[i]))
    && (forall p :: p in awaiting && p !in rest ==>
          exists i :: 0 <= i < |outcomes| && outcomes[i].responder == p)
    && (forall p :: p in before && (p !in awaiting || p in rest) ==> p in after && after[p] == before[p])
  }

  lemma FollowsOne<V>(before: map<Key, PeerState>, outcomes: seq<Outcome<V>>, awaiting: set<Key>,
                      middle: map<Key, PeerState>, after: map<Key, PeerState>, rest: set<Key>)
    requires outcomes != [] && outcomes[0].responder in awaiting
    requires middle == before[outcomes[0].responder := StateFor(outcomes[0])]
    requires FollowsOutcomes(middle, outcomes[1..], awaiting - {outcomes[0].responder}, after, rest)
    ensures FollowsOutcomes(before, outcomes, awaiting, after, rest)
  {
    forall i | 0 <= i < |outcomes|
      ensures && outcomes[i].responder in awaiting && outcomes[i].responder !in rest
              && outcomes[i].responder in after && after[outcomes[i].responder] == StateFor(outcomes[i])
    {
      if i > 0 { assert outcomes[i] == outcomes[1..][i - 1]; }
    }
    forall p | p in awaiting && p !in rest ensures exists i :: 0 <= i < |outcomes| && outcomes[i].responder == p {
      if p != outcomes[0].responder {
        var i :| 0 <= i < |outcomes[1..]| && outcomes[1..][i].responder == p;
        assert outcomes[i + 1].responder == p;
      }
    }
  }

  lemma {:induction false} AdmissionFrame<V, E>(start: Lookup<V>, s: Lookup<V>, nodes: seq<Node<V>>,
                                                script: Script<V, E>, deadline: Option<nat>, next: nat)
    requires MidRound(start, s)
    ensures var s' := Admission(s, nodes, script, deadline, next).state;
            MidRound(start, s') && s'.inFlight == s.inFlight && s'.peerStates == s.peerStates
    decreases |nodes|
  {
    if nodes != [] && deadline != Some(next) && script.eligible(next, nodes[0]).Ok? {
      if script.eligible(next, nodes[0]).value {
        AdmitStep(start, s, nodes[0]);
        AdmissionGoesOn(s, nodes, script, deadline, next);
        AdmissionFrame(start, WithCandidate(s, nodes[0]), nodes[1..], script, deadline, next + 1);
        AdmissionFrame(start, WithCandidate(s, nodes[0]), nodes[1..], script, deadline, next + 2);
      } else {
        AdmissionFrame(start, s, nodes[1..], script, deadline, next + 1);
      }
    }
  }

  /** What recording the first outcome leads to. */
  ghost function AfterFirst<V, E>(s: Lookup<V>, outcome: Outcome<V>, script: Script<V, E>,
                                  deadline: Option<nat>, next: nat): Step<V, E>
  {
    var recorded := Recorded(s, outcome.responder, StateFor(outcome)).0;
    if outcome.AnswerFrom? then Admission(recorded, outcome.candidates, script, deadline, next)
    else Step(recorded, next, None)
  }

  lemma ApplicationByOnes<V, E>(s: Lookup<V>, outcomes: seq<Outcome<V>>, awaiting: set<Key>,
                                script: Script<V, E>, deadline: Option<nat>, next: nat)
    requires outcomes != [] && outcomes[0].responder in awaiting
    ensures var step := AfterFirst(s, outcomes[0], script, deadline, next);
            Application(s, outcomes, awaiting, script, deadline, next)
            == if step.stop.Some? then (step, awaiting - {outcomes[0].responder})
               else Application(step.state, outcomes[1..], awaiting - {outcomes[0].responder},
                                script, deadline, step.next)
  {
  }

  lemma FirstDecides<V, E>(start: Lookup<V>, s: Lookup<V>, outcome: Outcome<V>, script: Script<V, E>,
                           deadline: Option<nat>, next: nat)
    requires MidRound(start, s) && outcome.responder in s.inFlight
    ensures var s' := AfterFirst(s, outcome, script, deadline, next).state;
            && MidRound(start, s') && s'.inFlight.Keys == s.inFlight.Keys - {outcome.responder}
            && s'.peerStates == s.peerStates[outcome.responder := StateFor(outcome)]
  {
    RecordStep(start, s, outcome.responder, StateFor(outcome));
    if outcome.AnswerFrom? {
      AdmissionFrame(start, Recorded(s, outcome.responder, Succeeded).0, outcome.candidates, script, deadline, next);
    }
  }

  lemma {:induction false} ApplicationDecides<V, E>(start: Lookup<V>, s: Lookup<V>, outcomes: seq<Outcome<V>>,
                                                    script: Script<V, E>, deadline: Option<nat>, next: nat)
    requires MidRound(start, s)
    requires Application(s, outcomes, s.inFlight.Keys, script, deadline, next).0.stop.None?
    ensures var (step, rest) := Application(s, outcomes, s.inFlight.Keys, script, deadline, next);
            && MidRound(start, step.state) && rest == step.state.inFlight.Keys
            && FollowsOutcomes(s.peerStates, outcomes, s.inFlight.Keys, step.state.peerStates, rest)
    decreases |outcomes|
  {
    if outcomes != [] && outcomes[0].responder in s.inFlight.Keys {
      var first := AfterFirst(s, outcomes[0], script, deadline, next);
      var (step, rest) := Application(s, outcomes, s.inFlight.Keys, script, deadline, next);
      ApplicationByOnes(s, outcomes, s.inFlight.Keys, script, deadline, next);
      FirstDecides(start, s, outcomes[0], script, deadline, next);
      ApplicationDecides(start, first.state, outcomes[1..], script, deadline, first.next);
      FollowsOne(s.peerStates, outcomes, s.inFlight.Keys, first.state.peerStates, step.state.peerStates, rest);
    }
  }

  /** The state a queried peer ends a round in: what its outcome says, or unresponsive for want of one. */
  ghost predicate DecidedBy<V>(outcomes: seq<Outcome<V>>, p: Key, state: PeerState) {
    || (exists i :: 0 <= i < |outcomes| && outcomes[i].responder == p && state == StateFor(outcomes[i]))
    || (state == Unresponsive && forall i :: 0 <= i < |outcomes| ==> outcomes[i].responder != p)
  }

  /** A round that runs to its end decides every peer it queried by the batch's outcomes, and nobody else. */
  lemma OutcomesDecide<V, E>(start: Lookup<V>, s: Lookup<V>, batch: seq<Node<V>>, script: Script<V, E>,
                             deadline: Option<nat>, next: nat)
    requires MidRound(start, s) && PeersOf(batch) == s.inFlight.Keys
    requires Asked(s, batch, script, deadline, next).stop.None?
    ensures script.batch(next, RequestOf(s, batch)).Ok?
    ensures var outcomes := script.batch(next, RequestOf(s, batch)).value;
            var after := Asked(s, batch, script, deadline, next).state.peerStates;
            && (forall p :: p in PeersOf(batch) ==> p in after && DecidedBy(outcomes, p, after[p]))
            && (forall p :: p in s.peerStates && p !in PeersOf(batch) ==> p in after && after[p] == s.peerStates[p])
  {
    var outcomes := script.batch(next, RequestOf(s, batch)).value;
    ApplicationDecides(start, s, outcomes, script, deadline, next + 1);
    var (step, rest) := Application(s, outcomes, PeersOf(batch), script, deadline, next + 1);
    var after := Silenced(step.state).peerStates;
    forall p | p in PeersOf(batch) ensures p in after && DecidedBy(outcomes, p, after[p]) {
      if p !in rest {
        var i :| 0 <= i < |outcomes| && outcomes[i].responder == p;
        assert after[p] == step.state.peerStates[p] == StateFor(outcomes[i]);
      }
    }
  }
}
