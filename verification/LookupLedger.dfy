/** What becomes of every peer a lookup hears of.  A ledger keeps, for a stretch of the walk, the peers the
    adapter refused as ineligible, those the bounded queue gave up, and those cut off by an early end. */
module LookupLedger {
  import opened Keys
  import opened Ranking
  import opened Wrappers
  import opened LookupState
  import opened LookupDriver

  datatype Ledger = Ledger(refused: set<Key>, displaced: set<Key>, cut: set<Key>) {
    function Lost(): set<Key> { refused + displaced + cut }

    function Plus(l: Ledger): Ledger { Ledger(refused + l.refused, displaced + l.displaced, cut + l.cut) }
  }

  const NOTHING: Ledger := Ledger({}, {}, {})

  function Refusal(p: Key): Ledger { Ledger({p}, {}, {}) }

  function Cut(ps: set<Key>): Ledger { Ledger({}, {}, ps) }

  /** The peers a lookup has contacted or still means to contact. */
  function Reach<V>(s: Lookup<V>): set<Key> { s.peerStates.Keys + s.candidates.Keys }

  /** Between `s` and `s'` nobody known, and nobody in `named`, is lost without being in the ledger. */
  ghost predicate Carries<V>(s: Lookup<V>, named: set<Key>, s': Lookup<V>, l: Ledger) {
    Reach(s) + named <= Reach(s') + l.Lost()
  }

  lemma CarriesOn<V>(a: Lookup<V>, m: set<Key>, b: Lookup<V>, l: Ledger, n: set<Key>, c: Lookup<V>, k: Ledger)
    requires Carries(a, m, b, l) && Carries(b, n, c, k)
    ensures Carries(a, m + n, c, l.Plus(k))
  {
    forall p | p in Reach(a) + (m + n) ensures p in Reach(c) + l.Plus(k).Lost() {
      if p !in n { assert p in Reach(b) + l.Lost(); }
    }
  }

  /** The walk goes on, or has returned a reason of its own. */
  predicate EndsWell<E>(stop: Option<Walk<E>>) { stop.None? || (stop.value.Returned? && stop.value.result.Ok?) }

  /** A stretch of a round accounts for the peers in `named`; only an early end cuts anybody off. */
  ghost predicate Accounts<V, E>(s: Lookup<V>, named: set<Key>, step: Step<V, E>, l: Ledger) {
    && Carries(s, named, step.state, l)
    && (EndsWell(step.stop) ==> step.stop.None? && l.cut == {})
  }

  // ---------- selecting ----------

  ghost function SelectionLedger<V, E>(s: Lookup<V>, script: Script<V, E>, deadline: Option<nat>, next: nat): Ledger
    decreases |s.candidates|
  {
    if TakenNode(s).Err? || TakenNode(s).value.None? then NOTHING
    else
      TakingShrinks(s);
      var node, taken := TakenNode(s).value.value, Taken(s);
      if deadline == Some(next) then Cut({node.peer})
      else match script.eligible(next, node)
        case Err(_) => Cut({node.peer})
        case Ok(false) => Refusal(node.peer).Plus(SelectionLedger(taken, script, deadline, next + 1))
        case Ok(true) => SelectionLedger(Marked(taken, node).0, script, deadline, next + 1)
  }

  lemma TakenCarries<V>(s: Lookup<V>)
    ensures TakenNode(s).Ok? && TakenNode(s).value.Some? ==>
              && Reach(s) <= Reach(Taken(s)) + {TakenNode(s).value.value.peer}
              && Reach(s) <= Reach(Marked(Taken(s), TakenNode(s).value.value).0)
    ensures TakenNode(s).Err? || TakenNode(s).value.None? ==> Reach(s) <= Reach(Taken(s))
  {
  }

  lemma AccountsFrom<V, E>(s: Lookup<V>, s': Lookup<V>, step: Step<V, E>, l: Ledger)
    requires Reach(s) <= Reach(s') && Accounts(s', {}, step, l)
    ensures Accounts(s, {}, step, l)
  {
  }

  lemma AccountsRefusing<V, E>(s: Lookup<V>, s': Lookup<V>, p: Key, step: Step<V, E>, l: Ledger)
    requires Reach(s) <= Reach(s') + {p} && Accounts(s', {}, step, l)
    ensures Accounts(s, {}, step, Refusal(p).Plus(l))
  {
  }

  /** The state and the batch a selection goes on with. */
  function Onward<V>(s: Lookup<V>, batch: seq<Node<V>>, asked: bool): (Lookup<V>, seq<Node<V>>)
    requires TakenNode(s).Ok? && TakenNode(s).value.Some?
  {
    var node := TakenNode(s).value.value;
    if asked then (Marked(Taken(s), node).0, batch + [node]) else (Taken(s), batch)
  }

  lemma SelectionGoesOn<V, E>(s: Lookup<V>, batch: seq<Node<V>>, script: Script<V, E>, deadline: Option<nat>, next: nat)
    requires TakenNode(s).Ok? && TakenNode(s).value.Some? && deadline != Some(next)
    requires script.eligible(next, TakenNode(s).value.value).Ok?
    ensures var node, asked := TakenNode(s).value.value, script.eligible(next, TakenNode(s).value.value).value;
            var (s', batch') := Onward(s, batch, asked);
            var l := SelectionLedger(s', script, deadline, next + 1);
            && |s'.candidates| < |s.candidates|
            && Selection(s, batch, script, deadline, next) == Selection(s', batch', script, deadline, next + 1)
            && SelectionLedger(s, script, deadline, next) == (if asked then l else Refusal(node.peer).Plus(l))
            && Reach(s) <= Reach(s') + (if asked then {} else {node.peer})
  {
    TakingShrinks(s);
    TakenCarries(s);
  }

  lemma {:induction false} SelectionAccounts<V, E>(
      s: Lookup<V>, batch: seq<Node<V>>, script: Script<V, E>, deadline: Option<nat>, next: nat)
    ensures Accounts(s, {}, Selection(s, batch, script, deadline, next).0, SelectionLedger(s, script, deadline, next))
    decreases |s.candidates|
  {
    if TakenNode(s).Ok? && TakenNode(s).value.Some? && deadline != Some(next)
       && script.eligible(next, TakenNode(s).value.value).Ok?
    {
      SelectionGoesOn(s, batch, script, deadline, next);
      var node := TakenNode(s).value.value;
      var (s', batch') := Onward(s, batch, script.eligible(next, node).value);
      var step := Selection(s', batch', script, deadline, next + 1).0;
      var l := SelectionLedger(s', script, deadline, next + 1);
      SelectionAccounts(s', batch', script, deadline, next + 1);
      if script.eligible(next, node).value {
        AccountsFrom(s, s', step, l);
      } else {
        AccountsRefusing(s, s', node.peer, step, l);
      }
    } else {
      SelectionStops(s, batch, script, deadline, next);
    }
  }

  lemma SelectionStops<V, E>(s: Lookup<V>, batch: seq<Node<V>>, script: Script<V, E>, deadline: Option<nat>, next: nat)
    requires TakenNode(s).Ok? && TakenNode(s).value.Some? ==>
               deadline == Some(next) || script.eligible(next, TakenNode(s).value.value).Err?
    ensures Accounts(s, {}, Selection(s, batch, script, deadline, next).0, SelectionLedger(s, script, deadline, next))
  {
    TakenCarries(s);
  }

  // ---------- admitting ----------

  /** Whom the bounded queue gives up when `node` is offered. */
  function Displacement<V>(target: Key, capacity: nat, queue: map<Key, V>, node: Node<V>): set<Key> {
    if node.peer in queue || |queue| < capacity then {}
    else if queue == map[] || Distance(target, Farthest(target, queue.Keys)) <= Distance(target, node.peer) then
      {node.peer}
    else {Farthest(target, queue.Keys)}
  }

  lemma OfferKeeps<V>(target: Key, capacity: nat, queue: map<Key, V>, node: Node<V>)
    ensures queue.Keys + {node.peer}
         <= Offer(target, capacity, queue, node).Keys + Displacement(target, capacity, queue, node)
  {
  }

  function GivenUp<V>(s: Lookup<V>, node: Node<V>): Ledger {
    if node.peer in s.peerStates then NOTHING
    else Ledger({}, Displacement(s.target, s.config.maxCandidates, s.candidates, node), {})
  }

  lemma FartherThanAll(target: Key, queue: set<Key>, p: Key, q: Key)
    requires q in queue && p !in queue && Distance(target, Farthest(target, queue)) <= Distance(target, p)
    ensures Distance(target, q) < Distance(target, p)
  {
    DistanceInjective(target, q, p);
  }

  lemma CloserThanFarthest(target: Key, queue: set<Key>, p: Key, q: Key)
    requires queue != {} && Distance(target, p) < Distance(target, Farthest(target, queue))
    requires q == p || (q in queue && q != Farthest(target, queue))
    ensures Distance(target, q) < Distance(target, Farthest(target, queue))
  {
    DistanceInjective(target, q, Farthest(target, queue));
  }

  /** A peer is given up only to a full queue of closer ones. */
  lemma GivenUpIsFarthest<V>(target: Key, capacity: nat, queue: map<Key, V>, node: Node<V>, p: Key)
    requires 0 < capacity && |queue| <= capacity && p in Displacement(target, capacity, queue, node)
    ensures |Offer(target, capacity, queue, node)| == capacity
    ensures forall q :: q in Offer(target, capacity, queue, node) ==> Distance(target, q) < Distance(target, p)
  {
    var far, after := Farthest(target, queue.Keys), Offer(target, capacity, queue, node);
    if Distance(target, far) <= Distance(target, node.peer) {
      forall q | q in after ensures Distance(target, q) < Distance(target, p) {
        FartherThanAll(target, queue.Keys, node.peer, q);
      }
    } else {
      assert after.Keys == queue.Keys - {far} + {node.peer};
      assert |after| == |after.Keys| && |queue| == |queue.Keys|;
      forall q | q in after ensures Distance(target, q) < Distance(target, p) {
        CloserThanFarthest(target, queue.Keys, node.peer, q);
      }
    }
  }

  lemma OfferCarries<V>(s: Lookup<V>, node: Node<V>)
    ensures Carries(s, {node.peer}, WithCandidate(s, node), GivenUp(s, node))
  {
    if node.peer !in s.peerStates { OfferKeeps(s.target, s.config.maxCandidates, s.candidates, node); }
  }

  ghost function AdmissionLedger<V, E>(
      s: Lookup<V>, nodes: seq<Node<V>>, script: Script<V, E>, deadline: Option<nat>, next: nat): Ledger
    decreases |nodes|
  {
    if nodes == [] then NOTHING
    else if deadline == Some(next) then Cut(PeersOf(nodes))
    else match script.eligible(next, nodes[0])
      case Err(_) => Cut(PeersOf(nodes))
      case Ok(false) => Refusal(nodes[0].peer).Plus(AdmissionLedger(s, nodes[1..], script, deadline, next + 1))
      case Ok(true) =>
        var insertion, admitted := InsertionOf(s, nodes[0]), WithCandidate(s, nodes[0]);
        GivenUp(s, nodes[0]).Plus(
          if !(insertion.Inserted? && insertion.evicted.Some?) then
            AdmissionLedger(admitted, nodes[1..], script, deadline, next + 1)
          else if deadline == Some(next + 1) || script.evicted(next + 1, insertion.evicted.value).Err? then
            Cut(PeersOf(nodes[1..]))
          else AdmissionLedger(admitted, nodes[1..], script, deadline, next + 2))
  }

  lemma AccountsAfter<V, E>(
      a: Lookup<V>, m: set<Key>, b: Lookup<V>, l: Ledger, n: set<Key>, step: Step<V, E>, k: Ledger)
    requires Carries(a, m, b, l) && l.cut == {} && Accounts(b, n, step, k)
    ensures Accounts(a, m + n, step, l.Plus(k))
  {
    CarriesOn(a, m, b, l, n, step.state, k);
  }

  lemma PeersOfCons<V>(nodes: seq<Node<V>>)
    requires nodes != []
    ensures PeersOf(nodes) == {nodes[0].peer} + PeersOf(nodes[1..])
  {
    forall p | p in PeersOf(nodes) ensures p == nodes[0].peer || p in PeersOf(nodes[1..]) {
      var i :| 0 <= i < |nodes| && nodes[i].peer == p;
      if i > 0 { assert nodes[1..][i - 1].peer == p; }
    }
    forall p | p in PeersOf(nodes[1..]) ensures p in PeersOf(nodes) {
      var i :| 0 <= i < |nodes[1..]| && nodes[1..][i].peer == p;
      assert nodes[i + 1].peer == p;
    }
  }

  lemma {:induction false} AdmissionAccounts<V, E>(
      s: Lookup<V>, nodes: seq<Node<V>>, script: Script<V, E>, deadline: Option<nat>, next: nat)
    ensures Accounts(s, PeersOf(nodes), Admission(s, nodes, script, deadline, next),
                     AdmissionLedger(s, nodes, script, deadline, next))
    decreases |nodes|
  {
    if nodes != [] && deadline != Some(next) && script.eligible(next, nodes[0]).Ok? {
      PeersOfCons(nodes);
      if script.eligible(next, nodes[0]).value {
        AdmittedAccounts(s, nodes, script, deadline, next);
      } else {
        AdmissionAccounts(s, nodes[1..], script, deadline, next + 1);
        AccountsAfter(s, {nodes[0].peer}, s, Refusal(nodes[0].peer), PeersOf(nodes[1..]),
                      Admission(s, nodes[1..], script, deadline, next + 1),
                      AdmissionLedger(s, nodes[1..], script, deadline, next + 1));
      }
    }
  }

  predicate Reports(insertion: Insertion) { insertion.Inserted? && insertion.evicted.Some? }

  /** After an eligible candidate the admission goes on, unless its eviction report ends the walk. */
  lemma AdmissionGoesOn<V, E>(s: Lookup<V>, nodes: seq<Node<V>>, script: Script<V, E>, deadline: Option<nat>, next: nat)
    requires nodes != [] && deadline != Some(next) && script.eligible(next, nodes[0]) == Ok(true)
    ensures var insertion, admitted, rest := InsertionOf(s, nodes[0]), WithCandidate(s, nodes[0]), nodes[1..];
            var step := Admission(s, nodes, script, deadline, next);
            var l := AdmissionLedger(s, nodes, script, deadline, next);
            var later := if Reports(insertion) then next + 2 else next + 1;
            if Reports(insertion)
               && (deadline == Some(next + 1) || script.evicted(next + 1, insertion.evicted.value).Err?)
            then step.state == admitted && !EndsWell(step.stop) && l == GivenUp(s, nodes[0]).Plus(Cut(PeersOf(rest)))
            else
              && step == Admission(admitted, rest, script, deadline, later)
              && l == GivenUp(s, nodes[0]).Plus(AdmissionLedger(admitted, rest, script, deadline, later))
  {
  }

  lemma {:induction false} AdmittedAccounts<V, E>(
      s: Lookup<V>, nodes: seq<Node<V>>, script: Script<V, E>, deadline: Option<nat>, next: nat)
    requires nodes != [] && deadline != Some(next) && script.eligible(next, nodes[0]) == Ok(true)
    ensures Accounts(s, PeersOf(nodes), Admission(s, nodes, script, deadline, next),
                     AdmissionLedger(s, nodes, script, deadline, next))
    decreases |nodes|, 0
  {
    var node, rest, insertion := nodes[0], nodes[1..], InsertionOf(s, nodes[0]);
    var admitted, step := WithCandidate(s, node), Admission(s, nodes, script, deadline, next);
    AdmissionGoesOn(s, nodes, script, deadline, next);
    var l;
    if Reports(insertion) && (deadline == Some(next + 1) || script.evicted(next + 1, insertion.evicted.value).Err?) {
      l := Cut(PeersOf(rest));
    } else {
      var later := if Reports(insertion) then next + 2 else next + 1;
      AdmissionAccounts(admitted, rest, script, deadline, later);
      l := AdmissionLedger(admitted, rest, script, deadline, later);
    }
    PeersOfCons(nodes);
    OfferCarries(s, node);
    AccountsAfter(s, {node.peer}, admitted, GivenUp(s, node), PeersOf(rest), step, l);
  }

  // ---------- applying outcomes ----------

  /** Every peer named in an answer. */
  function Named<V>(outcomes: seq<Outcome<V>>): set<Key> {
    if outcomes == [] then {}
    else (if outcomes[0].AnswerFrom? then PeersOf(outcomes[0].candidates) else {}) + Named(outcomes[1..])
  }

  ghost function ApplicationLedger<V, E>(s: Lookup<V>, outcomes: seq<Outcome<V>>, awaiting: set<Key>,
                                         script: Script<V, E>, deadline: Option<nat>, next: nat): Ledger
    decreases |outcomes|
  {
    if outcomes == [] then NOTHING
    else
      var peer := outcomes[0].responder;
      if peer !in awaiting then Cut(Named(outcomes))
      else
        var rest := awaiting - {peer};
        match outcomes[0]
        case FailureOf(_) =>
          ApplicationLedger(Recorded(s, peer, Failed).0, outcomes[1..], rest, script, deadline, next)
        case SilenceOf(_) =>
          ApplicationLedger(Recorded(s, peer, Unresponsive).0, outcomes[1..], rest, script, deadline, next)
        case AnswerFrom(_, candidates) =>
          var recorded := Recorded(s, peer, Succeeded).0;
          var admitted := Admission(recorded, candidates, script, deadline, next);
          AdmissionLedger(recorded, candidates, script, deadline, next).Plus(
            if admitted.stop.Some? then Cut(Named(outcomes[1..]))
            else ApplicationLedger(admitted.state, outcomes[1..], rest, script, deadline, admitted.next))
  }

  lemma RecordedReach<V>(s: Lookup<V>, peer: Key, state: PeerState)
    ensures Reach(Recorded(s, peer, state).0) == Reach(s)
  {
  }

  lemma {:induction false} ApplicationAccounts<V, E>(s: Lookup<V>, outcomes: seq<Outcome<V>>, awaiting: set<Key>,
                                                     script: Script<V, E>, deadline: Option<nat>, next: nat)
    ensures Accounts(s, Named(outcomes), Application(s, outcomes, awaiting, script, deadline, next).0,
                     ApplicationLedger(s, outcomes, awaiting, script, deadline, next))
    decreases |outcomes|
  {
    if outcomes != [] && outcomes[0].responder in awaiting {
      var peer, rest := outcomes[0].responder, awaiting - {outcomes[0].responder};
      match outcomes[0]
      case FailureOf(_) =>
        RecordedReach(s, peer, Failed);
        ApplicationAccounts(Recorded(s, peer, Failed).0, outcomes[1..], rest, script, deadline, next);
      case SilenceOf(_) =>
        RecordedReach(s, peer, Unresponsive);
        ApplicationAccounts(Recorded(s, peer, Unresponsive).0, outcomes[1..], rest, script, deadline, next);
      case AnswerFrom(_, _) =>
        AnswerAccounts(s, outcomes, awaiting, script, deadline, next);
    }
  }

  lemma {:induction false} AnswerAccounts<V, E>(s: Lookup<V>, outcomes: seq<Outcome<V>>, awaiting: set<Key>,
                                                script: Script<V, E>, deadline: Option<nat>, next: nat)
    requires outcomes != [] && outcomes[0].responder in awaiting && outcomes[0].AnswerFrom?
    ensures Accounts(s, Named(outcomes), Application(s, outcomes, awaiting, script, deadline, next).0,
                     ApplicationLedger(s, outcomes, awaiting, script, deadline, next))
    decreases |outcomes|, 0
  {
    var peer, candidates := outcomes[0].responder, outcomes[0].candidates;
    var recorded := Recorded(s, peer, Succeeded).0;
    var admitted := Admission(recorded, candidates, script, deadline, next);
    var l := AdmissionLedger(recorded, candidates, script, deadline, next);
    RecordedReach(s, peer, Succeeded);
    AdmissionAccounts(recorded, candidates, script, deadline, next);
    var more := Named(outcomes[1..]);
    if admitted.stop.Some? {
      assert Carries(admitted.state, more, admitted.state, Cut(more));
      CarriesOn(s, PeersOf(candidates), admitted.state, l, more, admitted.state, Cut(more));
    } else {
      var rest := awaiting - {peer};
      ApplicationAccounts(admitted.state, outcomes[1..], rest, script, deadline, admitted.next);
      AccountsAfter(s, PeersOf(candidates), admitted.state, l, more,
                    Application(admitted.state, outcomes[1..], rest, script, deadline, admitted.next).0,
                    ApplicationLedger(admitted.state, outcomes[1..], rest, script, deadline, admitted.next));
    }
  }

  // ---------- rounds ----------

  /** The peers named in the answers of a round, and its ledger. */
  ghost function AskedNamed<V, E>(
      s: Lookup<V>, batch: seq<Node<V>>, script: Script<V, E>, deadline: Option<nat>, next: nat): set<Key>
  {
    if deadline == Some(next) || script.batch(next, RequestOf(s, batch)).Err? then {}
    else Named(script.batch(next, RequestOf(s, batch)).value)
  }

  ghost function AskedLedger<V, E>(
      s: Lookup<V>, batch: seq<Node<V>>, script: Script<V, E>, deadline: Option<nat>, next: nat): Ledger
  {
    if deadline == Some(next) || script.batch(next, RequestOf(s, batch)).Err? then NOTHING
    else ApplicationLedger(s, script.batch(next, RequestOf(s, batch)).value, PeersOf(batch), script, deadline, next + 1)
  }

  lemma AskedAccounts<V, E>(s: Lookup<V>, batch: seq<Node<V>>, script: Script<V, E>, deadline: Option<nat>, next: nat)
    ensures Accounts(s, AskedNamed(s, batch, script, deadline, next), Asked(s, batch, script, deadline, next),
                     AskedLedger(s, batch, script, deadline, next))
  {
    if deadline != Some(next) && script.batch(next, RequestOf(s, batch)).Ok? {
      var outcomes := script.batch(next, RequestOf(s, batch)).value;
      ApplicationAccounts(s, outcomes, PeersOf(batch), script, deadline, next + 1);
      var applied := Application(s, outcomes, PeersOf(batch), script, deadline, next + 1).0;
      assert Reach(applied.state) <= Reach(Silenced(applied.state));
    }
  }

  ghost function RoundNamed<V, E>(s: Lookup<V>, script: Script<V, E>, deadline: Option<nat>, next: nat): set<Key> {
    var (selected, batch) := Selection(s, [], script, deadline, next);
    if selected.stop.Some? || batch == [] then {}
    else AskedNamed(selected.state, batch, script, deadline, selected.next)
  }

  ghost function RoundLedger<V, E>(s: Lookup<V>, script: Script<V, E>, deadline: Option<nat>, next: nat): Ledger {
    var (selected, batch) := Selection(s, [], script, deadline, next);
    var l := SelectionLedger(s, script, deadline, next);
    if selected.stop.Some? || batch == [] then l
    else l.Plus(AskedLedger(selected.state, batch, script, deadline, selected.next))
  }

  lemma RoundAccounts<V, E>(s: Lookup<V>, script: Script<V, E>, deadline: Option<nat>, next: nat)
    ensures Accounts(s, RoundNamed(s, script, deadline, next), Round(s, script, deadline, next),
                     RoundLedger(s, script, deadline, next))
  {
    SelectionAccounts(s, [], script, deadline, next);
    var (selected, batch) := Selection(s, [], script, deadline, next);
    var l := SelectionLedger(s, script, deadline, next);
    if selected.stop.None? && batch != [] {
      AskedAccounts(selected.state, batch, script, deadline, selected.next);
      AccountsAfter(s, {}, selected.state, l, AskedNamed(selected.state, batch, script, deadline, selected.next),
                    Asked(selected.state, batch, script, deadline, selected.next),
                    AskedLedger(selected.state, batch, script, deadline, selected.next));
    }
  }

  // ---------- whole runs ----------

  ghost function TurnNamed<V, E>(b: Boundary<V>, script: Script<V, E>, deadline: Option<nat>): set<Key> {
    if BegunBy(b.state) == Ok(Continue) then RoundNamed(Begun(b.state), script, deadline, b.next) else {}
  }

  ghost function TurnLedger<V, E>(b: Boundary<V>, script: Script<V, E>, deadline: Option<nat>): Ledger {
    if BegunBy(b.state) == Ok(Continue) then RoundLedger(Begun(b.state), script, deadline, b.next) else NOTHING
  }

  lemma BegunReach<V>(s: Lookup<V>)
    ensures Reach(Begun(s)) == Reach(s)
  {
  }

  lemma CompletedReach<V>(s: Lookup<V>)
    ensures Reach(Completed(s)) == Reach(s)
  {
    if MayComplete(s) { CompletedFrame(s); }
  }

  /** A turn that begins a round ends in its state, or in the state it is completed to. */
  lemma TurnOfRound<V, E>(s: Lookup<V>, script: Script<V, E>, deadline: Option<nat>, next: nat)
    ensures var turn, round := Turn(s, script, deadline, next), Round(Begun(s), script, deadline, next);
            if BegunBy(s) != Ok(Continue) then turn.state == Begun(s)
            else if round.stop.Some? then turn == round
            else turn.state == Completed(round.state)
  {
  }

  lemma TurnCarries<V, E>(b: Boundary<V>, script: Script<V, E>, deadline: Option<nat>)
    ensures var turn := Turn(b.state, script, deadline, b.next);
            && Carries(b.state, TurnNamed(b, script, deadline), turn.state, TurnLedger(b, script, deadline))
            && (EndsWell(turn.stop) ==> TurnLedger(b, script, deadline).cut == {})
  {
    BegunReach(b.state);
    TurnOfRound(b.state, script, deadline, b.next);
    if BegunBy(b.state) == Ok(Continue) {
      RoundAccounts(Begun(b.state), script, deadline, b.next);
      CompletedReach(Round(Begun(b.state), script, deadline, b.next).state);
    }
  }

  /** The peers named in the answers of all turns of a run, the last one included. */
  ghost function RunNamed<V, E>(trace: seq<Boundary<V>>, script: Script<V, E>, deadline: Option<nat>): set<Key> {
    if trace == [] then {}
    else RunNamed(trace[..|trace| - 1], script, deadline) + TurnNamed(trace[|trace| - 1], script, deadline)
  }

  ghost function RunLedger<V, E>(trace: seq<Boundary<V>>, script: Script<V, E>, deadline: Option<nat>): Ledger {
    if trace == [] then NOTHING
    else RunLedger(trace[..|trace| - 1], script, deadline).Plus(TurnLedger(trace[|trace| - 1], script, deadline))
  }

  /** Complete rounds account for everybody up to the last boundary. */
  lemma {:induction false} RoundsAccount<V, E>(trace: seq<Boundary<V>>, script: Script<V, E>, deadline: Option<nat>)
    requires Rounds(script, deadline, trace)
    ensures var n := |trace| - 1;
            && Carries(trace[0].state, RunNamed(trace[..n], script, deadline), trace[n].state,
                       RunLedger(trace[..n], script, deadline))
            && RunLedger(trace[..n], script, deadline).cut == {}
    decreases |trace|
  {
    var n := |trace| - 1;
    if n > 0 {
      var front := trace[..n];
      assert Rounds(script, deadline, front) by {
        forall i | 0 < i < |front| ensures Follows(script, deadline, front[i - 1], front[i]) {
          assert Follows(script, deadline, trace[i - 1], trace[i]);
        }
      }
      RoundsAccount(front, script, deadline);
      assert Follows(script, deadline, trace[n - 1], trace[n]);
      TurnCarries(trace[n - 1], script, deadline);
      assert front[|front| - 1] == trace[n - 1] && front[0] == trace[0];
      CarriesOn(trace[0].state, RunNamed(front[..n - 1], script, deadline), trace[n - 1].state,
                RunLedger(front[..n - 1], script, deadline),
                TurnNamed(trace[n - 1], script, deadline), trace[n].state, TurnLedger(trace[n - 1], script, deadline));
    }
  }

  /** Every peer known at the start or named in any answer of a run is contacted, still queued, refused by
      the adapter, or given up by the full queue; only a run that ends early cuts anybody off. */
  lemma RunAccounts<V, E>(script: Script<V, E>, deadline: Option<nat>, trace: seq<Boundary<V>>,
                          start: Lookup<V>, end: Lookup<V>, walk: Walk<E>)
    requires IsRun(script, deadline, trace, start, end, walk)
    ensures Carries(start, RunNamed(trace, script, deadline), end, RunLedger(trace, script, deadline))
    ensures walk.Returned? && walk.result.Ok? ==> RunLedger(trace, script, deadline).cut == {}
  {
    var n := |trace| - 1;
    RoundsAccount(trace, script, deadline);
    TurnCarries(trace[n], script, deadline);
    CarriesOn(start, RunNamed(trace[..n], script, deadline), trace[n].state, RunLedger(trace[..n], script, deadline),
              TurnNamed(trace[n], script, deadline), end, TurnLedger(trace[n], script, deadline));
  }

  /** Where a peer that was neither refused nor given up stands once the lookup has settled. */
  ghost predicate Settles<V>(end: Lookup<V>, p: Key) {
    || p in ResultPeers(end)
    || (p in end.peerStates && (end.peerStates[p] == Failed || end.peerStates[p] == Unresponsive))
    || (&& |ResultPeers(end)| == end.config.count
        && forall q :: q in ResultPeers(end) ==> Distance(end.target, q) < Distance(end.target, p))
  }

  /** A lookup that ends by itself as converged or exhausted misses a peer it ever heard of only if that peer
      failed it, is farther than a full result, was refused by the adapter, or was given up by the full queue. */
  lemma NobodyElseIsMissed<V, E>(script: Script<V, E>, deadline: Option<nat>, trace: seq<Boundary<V>>,
                                 start: Lookup<V>, end: Lookup<V>, walk: Walk<E>, p: Key)
    requires IsRun(script, deadline, trace, start, end, walk) && RunSpec(start, end, walk, deadline)
    requires start.termination.None? && (walk == Returned(Ok(Converged)) || walk == Returned(Ok(Exhausted)))
    requires p in Reach(start) + RunNamed(trace, script, deadline)
    ensures Settles(end, p) || p in RunLedger(trace, script, deadline).refused
            || p in RunLedger(trace, script, deadline).displaced
  {
    RunAccounts(script, deadline, trace, start, end, walk);
    if p in Reach(end) { ReachedSettles(end, p); }
  }

  lemma ReachedSettles<V>(end: Lookup<V>, p: Key)
    requires Inv(end) && !end.roundActive && Settled(end) && p in Reach(end)
    ensures Settles(end, p)
  {
    if p in end.peerStates {
      assert end.peerStates[p] != Waiting by { assert p !in end.inFlight; }
      if end.peerStates[p] == Succeeded { SucceededSettles(end, p); }
    }
  }

  lemma SucceededSettles<V>(end: Lookup<V>, p: Key)
    requires p in end.successful
    ensures Settles(end, p)
  {
    var top, all := ResultPeers(end), end.successful.Keys;
    NearestKIsNearest(end.target, all, end.config.count);
    if p !in top {
      assert p !in Elements(top);
      if |all| <= end.config.count { FullSubset(Elements(top), all); }
    }
  }
}
