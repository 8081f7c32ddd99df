/** The round loop and its deadline, against an arbitrary transport adapter.

    An adapter is any script of answers, one per await: `script.eligible(n, node)`,
    `script.batch(n, request)` or `script.evicted(n, peer)` is what the `n`-th await
    yields when it is asked that.  Every adapter, however it reacts to what it was
    asked before, follows some script on a given run, so a statement about all
    scripts is one about all adapters.
    `deadline == Some(n)` means the overall deadline fires at the `n`-th await. */
module LookupDriver {
  import opened Keys
  import opened Ranking
  import opened Wrappers
  import opened LookupState
  import opened IterativeLookups

  datatype Outcome<V> =
    | AnswerFrom(responder: Key, candidates: seq<Node<V>>)
    | FailureOf(responder: Key)
    | SilenceOf(responder: Key)

  /** What an adapter is told when it is to query a batch. */
  datatype Request<V> = Request(target: Key, count: nat, iteration: nat, batch: seq<Node<V>>)

  datatype Script<!V, !E> = Script(
    eligible: (nat, Node<V>) -> Result<bool, E>,
    batch: (nat, Request<V>) -> Result<seq<Outcome<V>>, E>,
    evicted: (nat, Key) -> Result<(), E>)

  datatype RunError<E> =
    | Misused(error: LookupError)
    | Query(failure: E)
    | DeadlineElapsed
    | UnexpectedResponder(responder: Key)

  /** How the walk left its current await or loop: it returned, or the deadline dropped it. */
  datatype Walk<E> = Returned(result: Result<Termination, RunError<E>>) | Dropped

  // ---------- what no step of a run undoes ----------

  ghost predicate OrderGrows(states: map<Key, PeerState>, before: seq<Key>, after: seq<Key>) {
    && before <= after
    && forall i :: |before| <= i < |after| ==> after[i] !in states
  }

  ghost predicate ResultsGrow<V>(before: map<Key, V>, after: map<Key, V>) {
    forall p :: p in before ==> p in after && after[p] == before[p]
  }

  ghost predicate StatesSettle(before: map<Key, PeerState>, after: map<Key, PeerState>) {
    forall p :: p in before ==> p in after && (before[p] == Waiting || after[p] == before[p])
  }

  /** Queries are only added, never to a peer already known; results are only
      added; a decided peer and a recorded termination stay as they are. */
  ghost predicate Progressed<V>(a: Lookup<V>, b: Lookup<V>) {
    && b.target == a.target && b.config == a.config
    && a.iterations <= b.iterations
    && OrderGrows(a.peerStates, a.queryOrder, b.queryOrder)
    && ResultsGrow(a.successful, b.successful)
    && StatesSettle(a.peerStates, b.peerStates)
    && (a.termination.Some? ==> b.termination == a.termination)
  }

  lemma OrderGrowsFurther(
      s: map<Key, PeerState>, t: map<Key, PeerState>, a: seq<Key>, b: seq<Key>, c: seq<Key>)
    requires OrderGrows(s, a, b) && OrderGrows(t, b, c) && StatesSettle(s, t)
    ensures OrderGrows(s, a, c)
  {
    forall i | |a| <= i < |c| ensures c[i] !in s {
      if i < |b| { assert c[i] == b[i]; }
    }
  }

  lemma ProgressedTransitive<V>(a: Lookup<V>, b: Lookup<V>, c: Lookup<V>)
    requires Progressed(a, b) && Progressed(b, c)
    ensures Progressed(a, c)
  {
    OrderGrowsFurther(a.peerStates, b.peerStates, a.queryOrder, b.queryOrder, c.queryOrder);
    assert ResultsGrow(a.successful, c.successful);
    assert StatesSettle(a.peerStates, c.peerStates);
  }

  lemma UntouchedProgresses<V>(a: Lookup<V>, b: Lookup<V>)
    requires b.target == a.target && b.config == a.config && a.iterations <= b.iterations
    requires b.peerStates == a.peerStates && b.queryOrder == a.queryOrder && b.successful == a.successful
    requires a.termination.Some? ==> b.termination == a.termination
    ensures Progressed(a, b)
  {
  }

  lemma BegunProgresses<V>(s: Lookup<V>)
    ensures Progressed(s, Begun(s))
  {
    UntouchedProgresses(s, Begun(s));
  }

  lemma MarkedProgresses<V>(s: Lookup<V>, node: Node<V>)
    ensures Progressed(s, Marked(s, node).0)
  {
  }

  lemma RecordedProgresses<V>(s: Lookup<V>, peer: Key, state: PeerState)
    ensures Progressed(s, Recorded(s, peer, state).0)
  {
  }

  lemma CompletedProgresses<V>(s: Lookup<V>)
    requires s.roundActive ==> s.termination.None?
    ensures Progressed(s, Completed(s))
  {
    if MayComplete(s) { CompletedFrame(s); }
    UntouchedProgresses(s, Completed(s));
  }

  lemma ExpiredProgresses<V>(s: Lookup<V>)
    requires Inv(s) && s.termination.None?
    ensures Progressed(s, Expired(s))
    ensures ResultPeers(Expired(s)) == ResultPeers(s)
  {
  }

  lemma ExpiredStates<V>(s: Lookup<V>)
    requires StatesAgree(s)
    ensures Expired(s).peerStates.Keys == s.peerStates.Keys
    ensures forall p :: p in s.peerStates ==>
              Expired(s).peerStates[p] == if s.peerStates[p] == Waiting then Unresponsive else s.peerStates[p]
  {
  }

  // ---------- steps inside a round ----------

  /** A state inside a round, reached from `start`. */
  ghost predicate MidRound<V>(start: Lookup<V>, s: Lookup<V>) {
    && Inv(s) && Progressed(start, s)
    && s.roundActive && s.termination.None? && s.iterations == start.iterations
    && s.previousTopK == start.previousTopK
  }

  lemma TakeStep<V>(start: Lookup<V>, s: Lookup<V>)
    requires MidRound(start, s)
    ensures MidRound(start, Taken(s)) && TakenNode(s).Ok?
    ensures TakenNode(s).value.Some? ==>
              |Taken(s).candidates| < |s.candidates| && Selectable(Taken(s), TakenNode(s).value.value.peer)
  {
    TakenKeepsInv(s);
    UntouchedProgresses(s, Taken(s));
    ProgressedTransitive(start, s, Taken(s));
  }

  ghost predicate Selectable<V>(s: Lookup<V>, p: Key) {
    s.roundQueries < s.config.alpha && p !in s.peerStates && p !in s.candidates
  }

  lemma MarkStep<V>(start: Lookup<V>, s: Lookup<V>, node: Node<V>)
    requires MidRound(start, s) && Selectable(s, node.peer)
    ensures MidRound(start, Marked(s, node).0) && Marked(s, node).1.Ok?
    ensures Marked(s, node).0.candidates == s.candidates
    ensures Marked(s, node).0.inFlight.Keys == s.inFlight.Keys + {node.peer}
  {
    MarkedKeepsInv(s, node);
    MarkedProgresses(s, node);
    ProgressedTransitive(start, s, Marked(s, node).0);
  }

  lemma RecordStep<V>(start: Lookup<V>, s: Lookup<V>, peer: Key, state: PeerState)
    requires MidRound(start, s) && peer in s.inFlight && state != Waiting
    ensures MidRound(start, Recorded(s, peer, state).0) && Recorded(s, peer, state).1.Ok?
    ensures Recorded(s, peer, state).0.inFlight.Keys == s.inFlight.Keys - {peer}
  {
    RecordedKeepsInv(s, peer, state);
    RecordedProgresses(s, peer, state);
    ProgressedTransitive(start, s, Recorded(s, peer, state).0);
  }

  lemma AdmitStep<V>(start: Lookup<V>, s: Lookup<V>, node: Node<V>)
    requires MidRound(start, s)
    ensures MidRound(start, WithCandidate(s, node)) && WithCandidate(s, node).inFlight == s.inFlight
  {
    CandidateKeepsInv(s, node);
    UntouchedProgresses(s, WithCandidate(s, node));
    ProgressedTransitive(start, s, WithCandidate(s, node));
  }

  function PeersOf<V>(batch: seq<Node<V>>): set<Key> {
    set i | 0 <= i < |batch| :: batch[i].peer
  }

  lemma PeersOfSnoc<V>(batch: seq<Node<V>>, node: Node<V>)
    ensures PeersOf(batch + [node]) == PeersOf(batch) + {node.peer}
  {
    var longer := batch + [node];
    assert longer[|batch|].peer in PeersOf(longer);
    forall p | p in PeersOf(batch) ensures p in PeersOf(longer) {
      var i :| 0 <= i < |batch| && batch[i].peer == p;
      assert longer[i].peer == p;
    }
  }

  /** The only ways to leave a round early: the deadline, a failing adapter, or
      an outcome for a peer that is not awaited. */
  predicate EarlyExit<E>(walk: Walk<E>, deadline: Option<nat>) {
    match walk
    case Dropped => deadline.Some?
    case Returned(result) => result.Err? && (result.error.Query? || result.error.UnexpectedResponder?)
  }

  /** Where a stretch of the walk leaves off: the state, the next await, and why it stopped, if it did. */
  datatype Step<V, E> = Step(state: Lookup<V>, next: nat, stop: Option<Walk<E>>)

  function Failing<V, E>(s: Lookup<V>, next: nat, error: RunError<E>): Step<V, E> {
    Step(s, next, Some(Returned(Err(error))))
  }

  // ---------- selecting a batch ----------

  lemma TakingShrinks<V>(s: Lookup<V>)
    requires TakenNode(s).Ok? && TakenNode(s).value.Some?
    ensures |Taken(s).candidates| < |s.candidates|
  {
    var p := Nearest(s.target, Uncontacted(s).Keys);
    assert Taken(s).candidates.Keys == Uncontacted(s).Keys - {p};
    Cardinality(Uncontacted(s).Keys, s.candidates.Keys);
    assert |Taken(s).candidates| == |Taken(s).candidates.Keys| && |s.candidates| == |s.candidates.Keys|;
  }

  /** Closest first, ask whether each candidate is eligible and query it if so. */
  function Selection<V, E>(s: Lookup<V>, batch: seq<Node<V>>, script: Script<V, E>, deadline: Option<nat>, next: nat)
    : (Step<V, E>, seq<Node<V>>)
    decreases |s.candidates|
  {
    if TakenNode(s).Err? || TakenNode(s).value.None? then (Step(Taken(s), next, None), batch)
    else
      TakingShrinks(s);
      var node, taken := TakenNode(s).value.value, Taken(s);
      if deadline == Some(next) then (Step(taken, next, Some(Dropped)), batch)
      else match script.eligible(next, node)
        case Err(e) => (Failing(taken, next + 1, Query(e)), batch)
        case Ok(false) => Selection(taken, batch, script, deadline, next + 1)
        case Ok(true) => Selection(Marked(taken, node).0, batch + [node], script, deadline, next + 1)
  }

  /** What considering the closest candidate leads to. */
  datatype Turnout<V, E> = Turnout(over: bool, step: Step<V, E>, batch: seq<Node<V>>)

  /** The candidate next in line. */
  function NextUp<V>(s: Lookup<V>): Option<Node<V>> { if TakenNode(s).Ok? then TakenNode(s).value else None }

  /** `offer` was taken from the queue and left `taken`. */
  function Weighed<V, E>(taken: Lookup<V>, offer: Option<Node<V>>, batch: seq<Node<V>>,
                         script: Script<V, E>, deadline: Option<nat>, next: nat): Turnout<V, E>
  {
    if offer.None? then Turnout(true, Step(taken, next, None), batch)
    else if deadline == Some(next) then Turnout(true, Step(taken, next, Some(Dropped)), batch)
    else match script.eligible(next, offer.value)
      case Err(e) => Turnout(true, Failing(taken, next + 1, Query(e)), batch)
      case Ok(false) => Turnout(false, Step(taken, next + 1, None), batch)
      case Ok(true) => Turnout(false, Step(Marked(taken, offer.value).0, next + 1, None), batch + [offer.value])
  }

  function Considered<V, E>(s: Lookup<V>, batch: seq<Node<V>>, script: Script<V, E>, deadline: Option<nat>, next: nat)
    : Turnout<V, E>
  {
    Weighed(Taken(s), NextUp(s), batch, script, deadline, next)
  }

  /** A selection is the first consideration and, unless that ends it, the selection that follows. */
  lemma SelectionByOnes<V, E>(s: Lookup<V>, batch: seq<Node<V>>, script: Script<V, E>, deadline: Option<nat>, next: nat)
    ensures var t := Considered(s, batch, script, deadline, next);
            Selection(s, batch, script, deadline, next)
            == if t.over then (t.step, t.batch) else Selection(t.step.state, t.batch, script, deadline, t.step.next)
  {
  }

  lemma WeighedOver<V, E>(taken: Lookup<V>, offer: Option<Node<V>>, batch: seq<Node<V>>,
                          script: Script<V, E>, deadline: Option<nat>, next: nat)
    requires Weighed(taken, offer, batch, script, deadline, next).over
    ensures var t := Weighed(taken, offer, batch, script, deadline, next);
            && t.step.state == taken && t.batch == batch && (t.step.stop.None? ==> offer.None?)
            && (t.step.stop.Some? ==> EarlyExit(t.step.stop.value, deadline))
  {
  }

  /** The peers added to the batch come out closest first, and nothing left in the queue is as close. */
  ghost predicate ClosestFirst<V>(target: Key, queue: set<Key>, left: set<Key>, picked: seq<Node<V>>) {
    && left <= queue
    && (forall i :: 0 <= i < |picked| ==> picked[i].peer in queue && picked[i].peer !in left)
    && (forall i, q :: 0 <= i < |picked| && q in left ==> Distance(target, picked[i].peer) < Distance(target, q))
    && (forall i, j :: 0 <= i < j < |picked| ==> Distance(target, picked[i].peer) < Distance(target, picked[j].peer))
  }

  lemma PickCloser<V>(target: Key, queue: set<Key>, node: Node<V>, left: set<Key>, picked: seq<Node<V>>)
    requires IsNearest(target, queue, node.peer) && ClosestFirst(target, queue - {node.peer}, left, picked)
    ensures ClosestFirst(target, queue, left, picked) && ClosestFirst(target, queue, left, [node] + picked)
  {
    forall q | q in queue && q != node.peer ensures Distance(target, node.peer) < Distance(target, q) {
      DistanceInjective(target, node.peer, q);
    }
  }

  /** Adding `picked` to `batch`, closest first, and querying just those, in that order. */
  ghost predicate Picks<V>(target: Key, queue: set<Key>, order: seq<Key>, batch: seq<Node<V>>,
                           left: set<Key>, order': seq<Key>, batch': seq<Node<V>>, picked: seq<Node<V>>)
  {
    && batch' == batch + picked
    && order' == order + PeerSeq(picked)
    && ClosestFirst(target, queue, left, picked)
  }

  lemma PickNothing<V>(target: Key, queue: set<Key>, order: seq<Key>, batch: seq<Node<V>>, left: set<Key>)
    requires left <= queue
    ensures Picks(target, queue, order, batch, left, order, batch, [])
  {
    assert batch + [] == batch && order + PeerSeq<V>([]) == order;
  }

  lemma PickOne<V>(target: Key, queue: set<Key>, order: seq<Key>, batch: seq<Node<V>>, node: Node<V>,
                   left: set<Key>, order': seq<Key>, batch': seq<Node<V>>, rest: seq<Node<V>>)
    requires IsNearest(target, queue, node.peer)
    requires Picks(target, queue - {node.peer}, order + [node.peer], batch + [node], left, order', batch', rest)
    ensures Picks(target, queue, order, batch, left, order', batch', [node] + rest)
  {
    PickCloser(target, queue, node, left, rest);
    assert batch' == batch + ([node] + rest);
    assert PeerSeq([node] + rest) == [node.peer] + PeerSeq(rest);
  }

  predicate Spent<V>(s: Lookup<V>, config: Config) {
    s.candidates == map[] || s.roundQueries == config.alpha
  }

  /** A selection that ends leaves the order alone; unless it was stopped, the batch is full or the queue is empty. */
  lemma TakenLeaves<V>(s: Lookup<V>)
    requires Inv(s) && s.roundActive
    ensures Taken(s).queryOrder == s.queryOrder && Taken(s).candidates.Keys <= s.candidates.Keys
    ensures NextUp(s).None? ==> Spent(Taken(s), s.config)
  {
    DiscardingIsIdle(s);
  }

  /** What taking the closest candidate leaves. */
  lemma TakenFields<V>(s: Lookup<V>)
    requires Inv(s) && s.roundActive && TakenNode(s).Ok? && TakenNode(s).value.Some?
    ensures var node, taken := TakenNode(s).value.value, Taken(s);
            && IsNearest(s.target, s.candidates.Keys, node.peer)
            && taken.candidates.Keys == s.candidates.Keys - {node.peer}
            && |taken.candidates| < |s.candidates|
            && Inv(taken) && taken.roundActive && taken.queryOrder == s.queryOrder && Selectable(taken, node.peer)
  {
    TakenKeepsInv(s);
    DiscardingIsIdle(s);
  }

  /** What querying it adds. */
  lemma MarkedFields<V>(s: Lookup<V>, node: Node<V>)
    requires Inv(s) && s.roundActive && Selectable(s, node.peer)
    ensures var marked := Marked(s, node).0;
            && Inv(marked) && marked.roundActive && marked.candidates == s.candidates
            && marked.target == s.target && marked.config == s.config
            && marked.queryOrder == s.queryOrder + [node.peer]
  {
    MarkedKeepsInv(s, node);
  }

  /** The state and the batch a selection goes on with, once it has weighed the candidate `node`. */
  ghost predicate GoesPast<V>(s: Lookup<V>, batch: seq<Node<V>>, node: Node<V>, asked: bool,
                              s': Lookup<V>, batch': seq<Node<V>>)
  {
    && Inv(s') && s'.roundActive && s'.target == s.target && s'.config == s.config
    && s'.candidates.Keys == s.candidates.Keys - {node.peer} && |s'.candidates| < |s.candidates|
    && batch' == (if asked then batch + [node] else batch)
    && s'.queryOrder == s.queryOrder + (if asked then [node.peer] else [])
  }

  lemma WeighedOn<V, E>(s: Lookup<V>, taken: Lookup<V>, node: Node<V>, batch: seq<Node<V>>,
                        script: Script<V, E>, deadline: Option<nat>, next: nat)
    requires !Weighed(taken, Some(node), batch, script, deadline, next).over
    requires GoesPast(s, batch, node, false, taken, batch) && Selectable(taken, node.peer)
    ensures var t := Weighed(taken, Some(node), batch, script, deadline, next);
            GoesPast(s, batch, node, script.eligible(next, node) == Ok(true), t.step.state, t.batch)
  {
    MarkedFields(taken, node);
  }

  lemma PastOne<V, E>(s: Lookup<V>, batch: seq<Node<V>>, script: Script<V, E>, deadline: Option<nat>, next: nat)
    requires Inv(s) && s.roundActive && !Considered(s, batch, script, deadline, next).over
    ensures NextUp(s).Some? && IsNearest(s.target, s.candidates.Keys, NextUp(s).value.peer)
    ensures var t, node := Considered(s, batch, script, deadline, next), NextUp(s).value;
            GoesPast(s, batch, node, script.eligible(next, node) == Ok(true), t.step.state, t.batch)
  {
    TakenFields(s);
    assert s.queryOrder + [] == s.queryOrder;
    WeighedOn(s, Taken(s), NextUp(s).value, batch, script, deadline, next);
  }

  /** The peers a selection adds to the batch, and what it leaves of the queue and the budget. */
  ghost predicate SelectionPicks<V, E>(s: Lookup<V>, batch: seq<Node<V>>, result: (Step<V, E>, seq<Node<V>>),
                                       picked: seq<Node<V>>)
  {
    && Picks(s.target, s.candidates.Keys, s.queryOrder, batch,
             result.0.state.candidates.Keys, result.0.state.queryOrder, result.1, picked)
    && (result.0.stop.None? ==> Spent(result.0.state, s.config))
  }

  lemma {:induction false} SelectionClosestFirst<V, E>(
      s: Lookup<V>, batch: seq<Node<V>>, script: Script<V, E>, deadline: Option<nat>, next: nat)
    returns (picked: seq<Node<V>>)
    requires Inv(s) && s.roundActive
    ensures SelectionPicks(s, batch, Selection(s, batch, script, deadline, next), picked)
    decreases |s.candidates|
  {
    var t := Considered(s, batch, script, deadline, next);
    SelectionByOnes(s, batch, script, deadline, next);
    if t.over {
      WeighedOver(Taken(s), NextUp(s), batch, script, deadline, next);
      TakenLeaves(s);
      PickNothing(s.target, s.candidates.Keys, s.queryOrder, batch, t.step.state.candidates.Keys);
      picked := [];
    } else {
      PastOne(s, batch, script, deadline, next);
      var rest := SelectionClosestFirst(t.step.state, t.batch, script, deadline, t.step.next);
      var node := NextUp(s).value;
      picked := PickPast(s, batch, node, script.eligible(next, node) == Ok(true), t.step.state, t.batch,
                         Selection(s, batch, script, deadline, next), rest);
    }
  }

  lemma PickPast<V, E>(s: Lookup<V>, batch: seq<Node<V>>, node: Node<V>, asked: bool,
                       s': Lookup<V>, batch': seq<Node<V>>, result: (Step<V, E>, seq<Node<V>>), rest: seq<Node<V>>)
    returns (picked: seq<Node<V>>)
    requires IsNearest(s.target, s.candidates.Keys, node.peer) && GoesPast(s, batch, node, asked, s', batch')
    requires SelectionPicks(s', batch', result, rest)
    ensures SelectionPicks(s, batch, result, picked)
  {
    var queue, left, order := s.candidates.Keys, result.0.state.candidates.Keys, result.0.state.queryOrder;
    if asked {
      PickOne(s.target, queue, s.queryOrder, batch, node, left, order, result.1, rest);
      picked := [node] + rest;
    } else {
      assert s.queryOrder + [] == s.queryOrder;
      PickCloser(s.target, queue, node, left, rest);
      picked := rest;
    }
  }

  function PeerSeq<V>(batch: seq<Node<V>>): seq<Key> {
    seq(|batch|, i requires 0 <= i < |batch| => batch[i].peer)
  }

  /** In the middle of a selection from `start`: what is left to do leads to the same result, and just the
      batch is in flight. */
  ghost predicate Selecting<V, E>(start: Lookup<V>, first: nat, s: Lookup<V>, batch: seq<Node<V>>, next: nat,
                                  script: Script<V, E>, deadline: Option<nat>)
  {
    && MidRound(start, s) && PeersOf(batch) == s.inFlight.Keys
    && Selection(s, batch, script, deadline, next) == Selection(start, [], script, deadline, first)
  }

  /** The selection from `start` is over: nothing is left to take, or the walk stops here. */
  ghost predicate SelectionOver<V, E>(start: Lookup<V>, first: nat, s: Lookup<V>, batch: seq<Node<V>>, next: nat,
                                      stop: Option<Walk<E>>, script: Script<V, E>, deadline: Option<nat>)
  {
    && MidRound(start, s)
    && (Step(s, next, stop), batch) == Selection(start, [], script, deadline, first)
    && (stop.None? ==> PeersOf(batch) == s.inFlight.Keys)
    && (stop.Some? ==> EarlyExit(stop.value, deadline))
  }

  lemma ConsiderOver<V, E>(start: Lookup<V>, first: nat, s: Lookup<V>, batch: seq<Node<V>>, next: nat,
                           script: Script<V, E>, deadline: Option<nat>)
    requires Selecting(start, first, s, batch, next, script, deadline)
    requires Considered(s, batch, script, deadline, next).over
    ensures var t := Considered(s, batch, script, deadline, next);
            SelectionOver(start, first, t.step.state, t.batch, t.step.next, t.step.stop, script, deadline)
  {
    WeighedOver(Taken(s), NextUp(s), batch, script, deadline, next);
    SelectionByOnes(s, batch, script, deadline, next);
    var t := Considered(s, batch, script, deadline, next);
    assert MidRound(start, t.step.state) by { TakeStep(start, s); }
    assert t.step == Step(t.step.state, t.step.next, t.step.stop);
  }

  lemma ConsiderOn<V, E>(start: Lookup<V>, first: nat, s: Lookup<V>, batch: seq<Node<V>>, next: nat,
                         script: Script<V, E>, deadline: Option<nat>)
    requires Selecting(start, first, s, batch, next, script, deadline)
    requires !Considered(s, batch, script, deadline, next).over
    ensures var t := Considered(s, batch, script, deadline, next);
            && Selecting(start, first, t.step.state, t.batch, t.step.next, script, deadline)
            && |t.step.state.candidates| < |s.candidates|
  {
    SelectionByOnes(s, batch, script, deadline, next);
    TakeStep(start, s);
    var node, taken := NextUp(s).value, Taken(s);
    if script.eligible(next, node).value {
      MarkStep(start, taken, node);
      PeersOfSnoc(batch, node);
    }
  }

  /** Consider the closest candidate. */
  method SelectOne<V, E>(lookup: IterativeLookup<V>, batch: seq<Node<V>>,
                         script: Script<V, E>, deadline: Option<nat>, next: nat)
    returns (over: bool, batch': seq<Node<V>>, next': nat, stop: Option<Walk<E>>)
    requires lookup.roundActive
    modifies lookup
    ensures Turnout(over, Step(lookup.State(), next', stop), batch')
         == Considered(old(lookup.State()), batch, script, deadline, next)
  {
    var taken := lookup.TakeNextCandidate();
    if taken.value.None? {
      return true, batch, next, None;
    }
    var candidate := taken.value.value;
    if deadline == Some(next) {
      return true, batch, next, Some(Dropped);
    }
    var answer := script.eligible(next, candidate);
    if answer.Err? {
      return true, batch, next + 1, Some(Returned(Err(Query(answer.error))));
    }
    if answer.value {
      var _ := lookup.MarkWaiting(candidate);
      return false, batch + [candidate], next + 1, None;
    }
    return false, batch, next + 1, None;
  }

  /** Take closest candidates until alpha are waiting or the queue is empty. */
  method SelectBatch<V, E>(lookup: IterativeLookup<V>, script: Script<V, E>, deadline: Option<nat>, first: nat)
    returns (batch: seq<Node<V>>, next: nat, stop: Option<Walk<E>>)
    requires MidRound(lookup.State(), lookup.State()) && lookup.inFlight == map[]
    modifies lookup
    ensures SelectionOver(old(lookup.State()), first, lookup.State(), batch, next, stop, script, deadline)
  {
    batch, next, stop := [], first, None;
    var over := false;
    while !over
      invariant !over ==> Selecting(old(lookup.State()), first, lookup.State(), batch, next, script, deadline)
      invariant over ==> SelectionOver(old(lookup.State()), first, lookup.State(), batch, next, stop, script, deadline)
      decreases !over, |lookup.candidates|
    {
      if Considered(lookup.State(), batch, script, deadline, next).over {
        ConsiderOver(old(lookup.State()), first, lookup.State(), batch, next, script, deadline);
      } else {
        ConsiderOn(old(lookup.State()), first, lookup.State(), batch, next, script, deadline);
      }
      over, batch, next, stop := SelectOne(lookup, batch, script, deadline, next);
    }
  }

  // ---------- applying the outcomes ----------

  /** Offer each eligible candidate to the queue, and report what it evicts. */
  function Admission<V, E>(s: Lookup<V>, nodes: seq<Node<V>>, script: Script<V, E>, deadline: Option<nat>, next: nat)
    : Step<V, E>
    decreases |nodes|
  {
    if nodes == [] then Step(s, next, None)
    else if deadline == Some(next) then Step(s, next, Some(Dropped))
    else match script.eligible(next, nodes[0])
      case Err(e) => Failing(s, next + 1, Query(e))
      case Ok(false) => Admission(s, nodes[1..], script, deadline, next + 1)
      case Ok(true) =>
        var insertion, admitted := InsertionOf(s, nodes[0]), WithCandidate(s, nodes[0]);
        if !(insertion.Inserted? && insertion.evicted.Some?) then
          Admission(admitted, nodes[1..], script, deadline, next + 1)
        else if deadline == Some(next + 1) then Step(admitted, next + 1, Some(Dropped))
        else match script.evicted(next + 1, insertion.evicted.value)
          case Err(e) => Failing(admitted, next + 2, Query(e))
          case Ok(_) => Admission(admitted, nodes[1..], script, deadline, next + 2)
  }

  /** Admit the candidates one responder returned. */
  method AdmitCandidates<V, E>(lookup: IterativeLookup<V>, ghost start: Lookup<V>, nodes: seq<Node<V>>,
                               script: Script<V, E>, deadline: Option<nat>, first: nat)
    returns (next: nat, stop: Option<Walk<E>>)
    requires MidRound(start, lookup.State())
    modifies lookup
    ensures MidRound(start, lookup.State()) && lookup.inFlight == old(lookup.inFlight)
    ensures Step(lookup.State(), next, stop) == Admission(old(lookup.State()), nodes, script, deadline, first)
    ensures stop.Some? ==> EarlyExit(stop.value, deadline)
  {
    next, stop := first, None;
    assert nodes[0..] == nodes;
    for i := 0 to |nodes|
      invariant MidRound(start, lookup.State()) && lookup.inFlight == old(lookup.inFlight)
      invariant Admission(lookup.State(), nodes[i..], script, deadline, next)
             == Admission(old(lookup.State()), nodes, script, deadline, first)
    {
      assert nodes[i..][0] == nodes[i] && nodes[i..][1..] == nodes[i + 1..];
      if deadline == Some(next) {
        return next, Some(Dropped);
      }
      var answer := script.eligible(next, nodes[i]);
      next := next + 1;
      if answer.Err? {
        return next, Some(Returned(Err(Query(answer.error))));
      }
      if answer.value {
        AdmitStep(start, lookup.State(), nodes[i]);
        var insertion := lookup.AddCandidate(nodes[i]);
        if insertion.Inserted? && insertion.evicted.Some? {
          if deadline == Some(next) {
            return next, Some(Dropped);
          }
          var noted := script.evicted(next, insertion.evicted.value);
          next := next + 1;
          if noted.Err? {
            return next, Some(Returned(Err(Query(noted.error))));
          }
        }
      }
    }
  }

  /** Each outcome must answer a peer still awaited; it decides that peer's state. */
  function Application<V, E>(s: Lookup<V>, outcomes: seq<Outcome<V>>, awaiting: set<Key>,
                             script: Script<V, E>, deadline: Option<nat>, next: nat): (Step<V, E>, set<Key>)
    decreases |outcomes|
  {
    if outcomes == [] then (Step(s, next, None), awaiting)
    else
      var peer := outcomes[0].responder;
      if peer !in awaiting then (Failing(s, next, UnexpectedResponder(peer)), awaiting)
      else
        var rest := awaiting - {peer};
        match outcomes[0]
        case FailureOf(_) => Application(Recorded(s, peer, Failed).0, outcomes[1..], rest, script, deadline, next)
        case SilenceOf(_) => Application(Recorded(s, peer, Unresponsive).0, outcomes[1..], rest, script, deadline, next)
        case AnswerFrom(_, candidates) =>
          var admitted := Admission(Recorded(s, peer, Succeeded).0, candidates, script, deadline, next);
          if admitted.stop.Some? then (admitted, rest)
          else Application(admitted.state, outcomes[1..], rest, script, deadline, admitted.next)
  }

  /** Record every outcome of the batch; `awaiting` is what is left unanswered. */
  method ApplyOutcomes<V, E>(lookup: IterativeLookup<V>, ghost start: Lookup<V>, outcomes: seq<Outcome<V>>,
                             batch: set<Key>, script: Script<V, E>, deadline: Option<nat>, first: nat)
    returns (awaiting: set<Key>, next: nat, stop: Option<Walk<E>>)
    requires MidRound(start, lookup.State()) && batch == lookup.inFlight.Keys
    modifies lookup
    ensures MidRound(start, lookup.State())
    ensures (Step(lookup.State(), next, stop), awaiting)
         == Application(old(lookup.State()), outcomes, batch, script, deadline, first)
    ensures stop.None? ==> awaiting == lookup.inFlight.Keys
    ensures stop.Some? ==> EarlyExit(stop.value, deadline)
  {
    awaiting, next, stop := batch, first, None;
    assert outcomes[0..] == outcomes;
    for i := 0 to |outcomes|
      invariant stop.None?
      invariant MidRound(start, lookup.State()) && awaiting == lookup.inFlight.Keys
      invariant Application(lookup.State(), outcomes[i..], awaiting, script, deadline, next)
             == Application(old(lookup.State()), outcomes, batch, script, deadline, first)
    {
      assert outcomes[i..][0] == outcomes[i] && outcomes[i..][1..] == outcomes[i + 1..];
      var responder := outcomes[i].responder;
      if responder !in awaiting {
        stop := Some(Returned(Err(UnexpectedResponder(responder))));
        return;
      }
      awaiting := awaiting - {responder};
      match outcomes[i]
      case AnswerFrom(_, candidates) =>
        RecordStep(start, lookup.State(), responder, Succeeded);
        var _ := lookup.RecordSuccess(responder);
        next, stop := AdmitCandidates(lookup, start, candidates, script, deadline, next);
        if stop.Some? {
          return;
        }
      case FailureOf(_) =>
        RecordStep(start, lookup.State(), responder, Failed);
        var _ := lookup.RecordFailure(responder);
      case SilenceOf(_) =>
        RecordStep(start, lookup.State(), responder, Unresponsive);
        var _ := lookup.RecordUnresponsive(responder);
    }
  }

  /** Every peer in flight becomes unresponsive. */
  function Silenced<V>(s: Lookup<V>): Lookup<V> {
    s.(inFlight := map[], peerStates := Abandoned(s.peerStates, s.inFlight.Keys))
  }

  lemma SilencedOneByOne<V>(s: Lookup<V>, peer: Key)
    requires peer in s.inFlight && peer in s.peerStates && s.peerStates[peer] == Waiting
    ensures Silenced(Recorded(s, peer, Unresponsive).0) == Silenced(s)
  {
    assert Silenced(Recorded(s, peer, Unresponsive).0).peerStates == Silenced(s).peerStates;
  }

  /** Peers without an outcome count as unresponsive. */
  method AbandonRest<V>(lookup: IterativeLookup<V>, ghost start: Lookup<V>, awaiting: set<Key>)
    requires MidRound(start, lookup.State()) && awaiting == lookup.inFlight.Keys
    modifies lookup
    ensures MidRound(start, lookup.State()) && lookup.inFlight == map[]
    ensures lookup.State() == Silenced(old(lookup.State()))
  {
    var rest := awaiting;
    while rest != {}
      invariant MidRound(start, lookup.State()) && rest == lookup.inFlight.Keys
      invariant Silenced(lookup.State()) == Silenced(old(lookup.State()))
      decreases rest
    {
      var responder :| responder in rest;
      SilencedOneByOne(lookup.State(), responder);
      RecordStep(start, lookup.State(), responder, Unresponsive);
      var _ := lookup.RecordUnresponsive(responder);
      rest := rest - {responder};
    }
    NothingToSilence(lookup.State());
  }

  lemma NothingToSilence<V>(s: Lookup<V>)
    requires s.inFlight.Keys == {}
    ensures Silenced(s) == s
  {
    assert s.inFlight == map[];
    assert Abandoned(s.peerStates, {}) == s.peerStates;
  }

  // ---------- one round ----------

  function RequestOf<V>(s: Lookup<V>, batch: seq<Node<V>>): Request<V> {
    Request(s.target, s.config.count, s.iterations, batch)
  }

  /** Ask the whole batch, record what comes back, and give up on the silent. */
  function Asked<V, E>(s: Lookup<V>, batch: seq<Node<V>>, script: Script<V, E>, deadline: Option<nat>, next: nat)
    : Step<V, E>
  {
    if deadline == Some(next) then Step(s, next, Some(Dropped))
    else match script.batch(next, RequestOf(s, batch))
      case Err(e) => Failing(s, next + 1, Query(e))
      case Ok(outcomes) =>
        var applied := Application(s, outcomes, PeersOf(batch), script, deadline, next + 1).0;
        if applied.stop.Some? then applied else applied.(state := Silenced(applied.state))
  }

  method AskBatch<V, E>(lookup: IterativeLookup<V>, ghost start: Lookup<V>, batch: seq<Node<V>>,
                        script: Script<V, E>, deadline: Option<nat>, first: nat)
    returns (next: nat, stop: Option<Walk<E>>)
    requires MidRound(start, lookup.State()) && PeersOf(batch) == lookup.inFlight.Keys
    modifies lookup
    ensures MidRound(start, lookup.State())
    ensures Step(lookup.State(), next, stop) == Asked(old(lookup.State()), batch, script, deadline, first)
    ensures stop.None? ==> lookup.inFlight == map[]
    ensures stop.Some? ==> EarlyExit(stop.value, deadline)
  {
    if deadline == Some(first) {
      return first, Some(Dropped);
    }
    var outcomes := script.batch(first, Request(lookup.target, lookup.config.count, lookup.iterations, batch));
    if outcomes.Err? {
      return first + 1, Some(Returned(Err(Query(outcomes.error))));
    }
    var awaiting;
    awaiting, next, stop := ApplyOutcomes(lookup, start, outcomes.value, PeersOf(batch), script, deadline, first + 1);
    if stop.None? {
      AbandonRest(lookup, start, awaiting);
    }
  }

  /** One active round. */
  function Round<V, E>(s: Lookup<V>, script: Script<V, E>, deadline: Option<nat>, next: nat): Step<V, E> {
    var (selected, batch) := Selection(s, [], script, deadline, next);
    if selected.stop.Some? || batch == [] then selected
    else Asked(selected.state, batch, script, deadline, selected.next)
  }

  method QueryRound<V, E>(lookup: IterativeLookup<V>, script: Script<V, E>, deadline: Option<nat>, first: nat)
    returns (next: nat, stop: Option<Walk<E>>)
    requires MidRound(lookup.State(), lookup.State()) && lookup.inFlight == map[]
    modifies lookup
    ensures MidRound(old(lookup.State()), lookup.State())
    ensures Step(lookup.State(), next, stop) == Round(old(lookup.State()), script, deadline, first)
    ensures stop.None? ==> lookup.inFlight == map[]
    ensures stop.Some? ==> EarlyExit(stop.value, deadline)
  {
    var batch;
    batch, next, stop := SelectBatch(lookup, script, deadline, first);
    if stop.None? && batch != [] {
      next, stop := AskBatch(lookup, old(lookup.State()), batch, script, deadline, next);
    }
  }

  // ---------- whole runs ----------

  /** What a run of the round loop guarantees, whatever the adapter answers. */
  ghost predicate RunSpec<V, E>(start: Lookup<V>, end: Lookup<V>, walk: Walk<E>, deadline: Option<nat>) {
    && Inv(end) && Progressed(start, end)
    && match walk
       case Dropped => deadline.Some? && end.roundActive && end.termination.None?
       case Returned(Err(error)) =>
         && end.roundActive
         && (error.Misused? <==> start.roundActive)
         && !error.DeadlineElapsed?
       case Returned(Ok(reason)) =>
         && !start.roundActive && !end.roundActive && end.termination == Some(reason)
         && (start.termination.None? && (reason == Converged || reason == Exhausted) ==> Settled(end))
         && (start.termination.None? ==> reason != TimedOut)
  }

  /** Between rounds of a run from `start`. */
  ghost predicate BetweenRounds<V>(start: Lookup<V>, s: Lookup<V>) {
    && Inv(s) && Progressed(start, s)
    && s.roundActive == start.roundActive && s.termination == start.termination
  }

  /** What one turn of the loop decides: it goes on only from a round that was not `Quiet`, it converges
      just when the round was, and without a round it says which of limit and queue was in the way. */
  ghost predicate Decided<V, E>(before: Lookup<V>, after: Lookup<V>, stop: Option<Walk<E>>) {
    match stop
    case None =>
      && after.iterations == before.iterations + 1 && after.previousTopK == ResultPeers(after)
      && !Quiet(before.previousTopK, after)
    case Some(Returned(Ok(reason))) =>
      if after.iterations > before.iterations then
        && after.previousTopK == ResultPeers(after)
        && (reason == Converged <==> Quiet(before.previousTopK, after))
      else
        before.termination == Some(reason)
        || (reason == IterationLimit && before.iterations >= before.config.maxIterations)
        || (reason == Exhausted && before.iterations < before.config.maxIterations && before.candidates == map[])
    case Some(_) => true
  }

  lemma CompleteDecides<V, E>(before: Lookup<V>, s: Lookup<V>)
    requires Inv(s) && MayComplete(s)
    requires s.previousTopK == before.previousTopK && s.iterations == before.iterations + 1
    ensures Decided<V, E>(before, Completed(s),
                          if Verdict(s).Finished? then Some(Returned(Ok(Verdict(s).reason))) else None)
  {
    CompletesIff(s);
    CompletedQuiet(s);
    CompletedFrame(s);
  }

  lemma BeginDecides<V, E>(s: Lookup<V>)
    requires Inv(s)
    ensures BegunBy(s).Ok? && BegunBy(s).value.Finished? ==>
              Decided<V, E>(s, Begun(s), Some(Returned(Ok(BegunBy(s).value.reason))))
    ensures BegunBy(s) == Ok(Continue) ==>
              Begun(s).previousTopK == s.previousTopK && Begun(s).iterations == s.iterations + 1
  {
    BeginsIff(s);
  }

  lemma BeginStep<V, E>(start: Lookup<V>, s: Lookup<V>, deadline: Option<nat>)
    requires BetweenRounds(start, s)
    ensures BegunBy(s).Err? ==>
              RunSpec<V, E>(start, Begun(s), Returned(Err(Misused(BegunBy(s).error))), deadline)
    ensures BegunBy(s).Ok? && BegunBy(s).value.Finished? ==>
              RunSpec<V, E>(start, Begun(s), Returned(Ok(BegunBy(s).value.reason)), deadline)
    ensures BegunBy(s) == Ok(Continue) ==>
              && !start.roundActive && Progressed(start, Begun(s))
              && MidRound(Begun(s), Begun(s)) && Begun(s).inFlight == map[]
              && Begun(s).iterations == s.iterations + 1
  {
    BegunKeepsInv(s);
    BegunProgresses(s);
    ProgressedTransitive(start, s, Begun(s));
    UntouchedProgresses(Begun(s), Begun(s));
    DiscardingIsIdle(s);
  }

  lemma StopStep<V, E>(start: Lookup<V>, round: Lookup<V>, s: Lookup<V>, walk: Walk<E>, deadline: Option<nat>)
    requires Progressed(start, round) && !start.roundActive && MidRound(round, s) && EarlyExit(walk, deadline)
    ensures RunSpec(start, s, walk, deadline)
  {
    ProgressedTransitive(start, round, s);
  }

  lemma CompleteStep<V, E>(start: Lookup<V>, round: Lookup<V>, s: Lookup<V>, deadline: Option<nat>)
    requires Progressed(start, round) && !start.roundActive && start.termination.None?
    requires MidRound(round, s) && s.inFlight == map[]
    ensures CompletedBy(s) == Ok(Verdict(s))
    ensures Completed(s).iterations == s.iterations && Completed(s).config == s.config
    ensures Verdict(s) == Continue ==> BetweenRounds(start, Completed(s))
    ensures Verdict(s).Finished? ==>
              RunSpec<V, E>(start, Completed(s), Returned(Ok(Verdict(s).reason)), deadline)
  {
    CompletedFrame(s);
    CompletedKeepsInv(s);
    CompletedProgresses(s);
    ProgressedTransitive(round, s, Completed(s));
    ProgressedTransitive(start, round, Completed(s));
    if Verdict(s) == Finished(Converged) || Verdict(s) == Finished(Exhausted) {
      FinishedIsSettled(s);
    }
  }

  /** One turn of the loop: begin a round, run it, complete it. */
  function Turn<V, E>(s: Lookup<V>, script: Script<V, E>, deadline: Option<nat>, next: nat): Step<V, E> {
    match BegunBy(s)
    case Err(e) => Failing(Begun(s), next, Misused(e))
    case Ok(Finished(reason)) => Step(Begun(s), next, Some(Returned(Ok(reason))))
    case Ok(Continue) =>
      var round := Round(Begun(s), script, deadline, next);
      if round.stop.Some? then round
      else match CompletedBy(round.state)
        case Err(e) => Failing(Completed(round.state), round.next, Misused(e))
        case Ok(Finished(reason)) => Step(Completed(round.state), round.next, Some(Returned(Ok(reason))))
        case Ok(Continue) => Step(Completed(round.state), round.next, None)
  }

  method DriveRound<V, E>(lookup: IterativeLookup<V>, ghost start: Lookup<V>,
                          script: Script<V, E>, deadline: Option<nat>, first: nat)
    returns (next: nat, stop: Option<Walk<E>>)
    requires BetweenRounds(start, lookup.State())
    modifies lookup
    ensures Step(lookup.State(), next, stop) == Turn(old(lookup.State()), script, deadline, first)
    ensures stop.None? ==>
              && BetweenRounds(start, lookup.State())
              && lookup.iterations == old(lookup.iterations) + 1 && lookup.config == old(lookup.config)
    ensures stop.Some? ==> RunSpec(start, lookup.State(), stop.value, deadline)
    ensures Decided(old(lookup.State()), lookup.State(), stop)
  {
    next, stop := first, None;
    BeginStep<V, E>(start, lookup.State(), deadline);
    BeginDecides<V, E>(lookup.State());
    var begun := lookup.BeginRound();
    if begun.Err? {
      stop := Some(Returned(Err(Misused(begun.error))));
      return;
    }
    if begun.value.Finished? {
      stop := Some(Returned(Ok(begun.value.reason)));
      return;
    }
    ghost var round := lookup.State();
    next, stop := QueryRound(lookup, script, deadline, next);
    if stop.Some? {
      StopStep(start, round, lookup.State(), stop.value, deadline);
      return;
    }
    CompleteStep<V, E>(start, round, lookup.State(), deadline);
    CompleteDecides<V, E>(old(lookup.State()), lookup.State());
    var completed := lookup.CompleteRound();
    if completed.value.Finished? {
      stop := Some(Returned(Ok(completed.value.reason)));
    }
  }

  /** A state between rounds and the number of the next await. */
  datatype Boundary<V> = Boundary(state: Lookup<V>, next: nat)

  ghost predicate Follows<V, E>(script: Script<V, E>, deadline: Option<nat>, a: Boundary<V>, b: Boundary<V>) {
    Turn(a.state, script, deadline, a.next) == Step(b.state, b.next, None)
  }

  /** Complete rounds, each followed by the next. */
  ghost predicate Rounds<V, E>(script: Script<V, E>, deadline: Option<nat>, trace: seq<Boundary<V>>) {
    && trace != [] && trace[0].next == 0
    && forall i :: 0 < i < |trace| ==> Follows(script, deadline, trace[i - 1], trace[i])
  }

  /** The run from `start`: complete rounds, then a last one that leaves `end` and says why. */
  ghost predicate IsRun<V, E>(script: Script<V, E>, deadline: Option<nat>, trace: seq<Boundary<V>>,
                              start: Lookup<V>, end: Lookup<V>, walk: Walk<E>)
  {
    && Rounds(script, deadline, trace) && trace[0].state == start
    && |trace| <= start.config.maxIterations + 1
    && var last := trace[|trace| - 1];
       var turn := Turn(last.state, script, deadline, last.next);
       turn.state == end && turn.stop == Some(walk)
  }

  /** Every turn of the run decided as it should: none went on past a round after which nothing could be gained. */
  ghost predicate AllDecided<V, E>(trace: seq<Boundary<V>>, end: Lookup<V>, walk: Walk<E>) {
    && trace != [] && TurnsDecided<V, E>(trace)
    && Decided(trace[|trace| - 1].state, end, Some(walk))
  }

  ghost predicate TurnsDecided<V, E>(trace: seq<Boundary<V>>) {
    forall i :: 0 < i < |trace| ==> Decided<V, E>(trace[i - 1].state, trace[i].state, None)
  }

  lemma TurnsDecidedGrow<V, E>(trace: seq<Boundary<V>>, b: Boundary<V>)
    requires trace != [] && TurnsDecided<V, E>(trace) && Decided<V, E>(trace[|trace| - 1].state, b.state, None)
    ensures TurnsDecided<V, E>(trace + [b])
  {
  }

  lemma RoundsGrow<V, E>(script: Script<V, E>, deadline: Option<nat>, trace: seq<Boundary<V>>, b: Boundary<V>)
    requires Rounds(script, deadline, trace) && Follows(script, deadline, trace[|trace| - 1], b)
    ensures Rounds(script, deadline, trace + [b])
  {
    var longer := trace + [b];
    forall i | 0 < i < |longer| ensures Follows(script, deadline, longer[i - 1], longer[i]) {
      if i < |trace| { assert Follows(script, deadline, trace[i - 1], trace[i]); }
    }
  }

  /** The loop so far: complete rounds from `start` to the state `s`. */
  ghost predicate Walked<V, E>(script: Script<V, E>, deadline: Option<nat>, trace: seq<Boundary<V>>,
                               start: Lookup<V>, s: Lookup<V>, next: nat)
  {
    && Rounds(script, deadline, trace) && trace[0].state == start
    && trace[|trace| - 1] == Boundary(s, next)
    && |trace| - 1 == s.iterations - start.iterations
    && TurnsDecided<V, E>(trace)
  }

  lemma WalkedOn<V, E>(script: Script<V, E>, deadline: Option<nat>, trace: seq<Boundary<V>>,
                       start: Lookup<V>, s: Lookup<V>, next: nat, b: Boundary<V>)
    requires Walked(script, deadline, trace, start, s, next)
    requires Follows(script, deadline, Boundary(s, next), b) && b.state.iterations == s.iterations + 1
    requires Decided<V, E>(s, b.state, None)
    ensures Walked(script, deadline, trace + [b], start, b.state, b.next)
  {
    RoundsGrow(script, deadline, trace, b);
    TurnsDecidedGrow<V, E>(trace, b);
  }

  /** `run_lookup_rounds`.  The measure is the rounds left; `SelectBatch` adds the queue size. */
  method RunLookupRounds<V, E>(lookup: IterativeLookup<V>, script: Script<V, E>, deadline: Option<nat>)
    returns (walk: Walk<E>, ghost trace: seq<Boundary<V>>)
    requires Inv(lookup.State())
    modifies lookup
    ensures RunSpec(old(lookup.State()), lookup.State(), walk, deadline)
    ensures IsRun(script, deadline, trace, old(lookup.State()), lookup.State(), walk)
    ensures AllDecided(trace, lookup.State(), walk)
  {
    var next: nat := 0;
    ghost var start := lookup.State();
    UntouchedProgresses(start, start);
    trace := [Boundary(start, 0)];
    while true
      invariant BetweenRounds(start, lookup.State())
      invariant Walked(script, deadline, trace, start, lookup.State(), next)
      decreases lookup.config.maxIterations - lookup.iterations
    {
      ghost var s, n := lookup.State(), next;
      var stop;
      next, stop := DriveRound(lookup, start, script, deadline, next);
      if stop.Some? {
        walk := stop.value;
        return;
      }
      WalkedOn(script, deadline, trace, start, s, n, Boundary(lookup.State(), next));
      trace := trace + [Boundary(lookup.State(), next)];
    }
  }

  /** The deadline dropped the walk in state `dropped`: nothing is left waiting and nothing recorded is lost. */
  ghost predicate TimedOutFrom<V>(start: Lookup<V>, dropped: Lookup<V>, end: Lookup<V>) {
    && end == Expired(dropped) && Inv(end) && Progressed(start, end)
    && end.termination == Some(TimedOut) && !end.roundActive && end.inFlight == map[]
    && end.peerStates.Keys == dropped.peerStates.Keys
    && (forall p :: p in end.peerStates ==>
          end.peerStates[p] == if dropped.peerStates[p] == Waiting then Unresponsive else dropped.peerStates[p])
    && ResultPeers(end) == ResultPeers(dropped) && end.successful == dropped.successful
  }

  lemma ExpireStep<V, E>(start: Lookup<V>, dropped: Lookup<V>, deadline: Option<nat>)
    requires RunSpec<V, E>(start, dropped, Dropped, deadline)
    ensures TimedOutFrom(start, dropped, Expired(dropped))
  {
    ExpiredKeepsInv(dropped);
    ExpiredProgresses(dropped);
    ExpiredStates(dropped);
    ProgressedTransitive(start, dropped, Expired(dropped));
  }

  /** The walk returned on its own. */
  ghost predicate Completes<V, E>(start: Lookup<V>, end: Lookup<V>, result: Result<Termination, RunError<E>>,
                                  script: Script<V, E>, deadline: Option<nat>, trace: seq<Boundary<V>>)
  {
    && RunSpec(start, end, Returned(result), deadline)
    && IsRun(script, deadline, trace, start, end, Returned(result))
    && AllDecided(trace, end, Returned(result))
  }

  /** The deadline dropped it mid-round. */
  ghost predicate CutShort<V, E>(start: Lookup<V>, dropped: Lookup<V>, end: Lookup<V>,
                                 script: Script<V, E>, deadline: Option<nat>, trace: seq<Boundary<V>>)
  {
    && RunSpec<V, E>(start, dropped, Dropped, deadline)
    && IsRun(script, deadline, trace, start, dropped, Dropped)
    && TimedOutFrom(start, dropped, end)
  }

  method DropWalk<V, E>(lookup: IterativeLookup<V>, ghost start: Lookup<V>, ghost script: Script<V, E>,
                        ghost deadline: Option<nat>, ghost trace: seq<Boundary<V>>)
    requires RunSpec<V, E>(start, lookup.State(), Dropped, deadline)
    requires IsRun(script, deadline, trace, start, lookup.State(), Dropped)
    modifies lookup
    ensures CutShort(start, old(lookup.State()), lookup.State(), script, deadline, trace)
  {
    ExpireStep<V, E>(start, lookup.State(), deadline);
    lookup.Expire();
  }

  /** `run_iterative_lookup`: the walk raced against the deadline. */
  method RunIterativeLookup<V, E>(lookup: IterativeLookup<V>, script: Script<V, E>, deadline: Option<nat>)
    returns (result: Result<Termination, RunError<E>>, ghost dropped: Option<Lookup<V>>, ghost trace: seq<Boundary<V>>)
    requires Inv(lookup.State())
    modifies lookup
    // a lookup that timed out stays timed out, and is not queried again
    ensures old(lookup.termination) == Some(TimedOut) ==>
              result == Err(DeadlineElapsed) && lookup.State() == old(lookup.State())
    ensures old(lookup.termination) != Some(TimedOut) && dropped.None? ==>
              Completes(old(lookup.State()), lookup.State(), result, script, deadline, trace)
    ensures dropped.Some? ==>
              && result == Err(DeadlineElapsed) && deadline.Some?
              && CutShort(old(lookup.State()), dropped.value, lookup.State(), script, deadline, trace)
  {
    dropped, trace := None, [];
    if lookup.termination == Some(TimedOut) {
      result := Err(DeadlineElapsed);
      return;
    }
    var walk;
    walk, trace := RunLookupRounds(lookup, script, deadline);
    if walk.Returned? {
      result := walk.result;
      return;
    }
    assert walk == Dropped;
    dropped, result := Some(lookup.State()), Err(DeadlineElapsed);
    DropWalk(lookup, old(lookup.State()), script, deadline, trace);
  }

  // ---------- what a caller may rely on ----------

  /** However the adapter answers, a run asks at most alpha peers per round, asks nobody it already
      knew, and when it ends by itself no queued peer could change the result. */
  lemma RunGuarantees<V, E>(start: Lookup<V>, end: Lookup<V>, walk: Walk<E>, deadline: Option<nat>, answers: set<Key>)
    requires RunSpec(start, end, walk, deadline)
    ensures |end.queryOrder| <= end.config.alpha * end.config.maxIterations
    ensures forall i :: |start.queryOrder| <= i < |end.queryOrder| ==> end.queryOrder[i] !in start.peerStates
    ensures start.termination.None? && answers <= end.candidates.Keys
            && (walk == Returned(Ok(Converged)) || walk == Returned(Ok(Exhausted))) ==>
              NearestK(end.target, end.successful.Keys + answers, end.config.count) == ResultPeers(end)
  {
    QueryCap(end);
    if start.termination.None? && answers <= end.candidates.Keys
       && (walk == Returned(Ok(Converged)) || walk == Returned(Ok(Exhausted)))
    {
      SettledResultIsFinal(end, answers);
    }
  }
}
