/** What a call to the dial coordinator returns, told from the events of the run alone: the end of its own
    dial and identity exchange, or of the dial it joined. */
module DialOutcomes {
  import opened Keys
  import opened Wrappers
  import opened DialCoordinator

  /** A call's look at the pending dials: when, whether dials to the peer were suppressed, the slot it found. */
  datatype Look = Look(at: nat, suppressed: bool, slot: Option<ChannelId>)

  datatype DialEnd = DialEnd(reached: bool, candidates: nat)

  /** What the events of a run say of one call. */
  datatype Report = Report(fast: bool, look: Option<Look>, dial: Option<DialEnd>, identity: Option<Identity>)

  const NOTHING_YET: Report := Report(false, None, None, None)

  /** At the `k`-th event call `t` looked, with this verdict on suppression, and found this slot. */
  ghost predicate FoundAt(events: seq<Event>, k: nat, t: TaskId, suppressed: bool, slot: Option<ChannelId>) {
    && k < |events| && events[k] == Claim(t, suppressed)
    && exists before :: && Reaches(events[..k], before) && t in before.tasks
                        && Find(before.slots, before.tasks[t].peer) == slot
  }

  ghost predicate LookTold(events: seq<Event>, t: TaskId, look: Option<Look>) {
    && (look.Some? ==> FoundAt(events, look.value.at, t, look.value.suppressed, look.value.slot))
    && (forall k :: 0 <= k < |events| && events[k].Claim? && events[k].t == t ==> look.Some? && look.value.at == k)
  }

  ghost predicate DialTold(events: seq<Event>, t: TaskId, dial: Option<DialEnd>) {
    forall reached, n :: DialEnds(t, reached, n) in events <==> dial == Some(DialEnd(reached, n))
  }

  ghost predicate IdentityTold(events: seq<Event>, t: TaskId, identity: Option<Identity>) {
    forall i :: IdentityEnds(t, i) in events <==> identity == Some(i)
  }

  ghost predicate Told(events: seq<Event>, t: TaskId, r: Report) {
    && (FastPath(t) in events <==> r.fast)
    && LookTold(events, t, r.look) && DialTold(events, t, r.dial) && IdentityTold(events, t, r.identity)
  }

  /** The report once one more event of the call has happened, `at` the given place and with this slot found. */
  function Noted(r: Report, e: Event, at: nat, slot: Option<ChannelId>): Report {
    match e
    case FastPath(_) => r.(fast := true)
    case Claim(_, suppressed) => r.(look := Some(Look(at, suppressed, slot)))
    case DialEnds(_, reached, n) => r.(dial := Some(DialEnd(reached, n)))
    case IdentityEnds(_, identity) => r.(identity := Some(identity))
    case _ => r
  }

  /** What a dial with this outcome looked like. */
  predicate Explains(r: Report, o: Outcome) {
    match o
    case DialFailed(n) => r.dial == Some(DialEnd(false, n)) && r.identity == None
    case Connected => r.dial.Some? && r.dial.value.reached && r.identity == Some(Matches)
    case IdentityMismatch(a) => r.dial.Some? && r.dial.value.reached && r.identity == Some(IsOther(a))
    case IdentityFailed(x) => r.dial.Some? && r.dial.value.reached && r.identity == Some(Fails(x))
  }

  /** The call found the peer's slot free and dials not suppressed. */
  predicate Opens(r: Report) { !r.fast && r.look.Some? && r.look.value.slot.None? && !r.look.value.suppressed }

  predicate Joins(r: Report, c: ChannelId) {
    !r.fast && r.look.Some? && r.look.value.slot == Some(c) && r.dial == None && r.identity == None
  }

  /** A call in this phase has such a report. */
  predicate Fits(phase: Phase, r: Report) {
    match phase
    case Entering => r == NOTHING_YET
    case Joining(c) => Joins(r, c)
    case Dialing(_) => Opens(r) && r.dial == None && r.identity == None
    case Identifying(_) => Opens(r) && r.dial.Some? && r.dial.value.reached && r.identity == None
    case Disconnecting(_, x) => Opens(r) && Explains(r, IdentityFailed(x))
    case Evicting(_, a) => Opens(r) && Explains(r, IdentityMismatch(a))
    case Clearing(_, o) => Opens(r) && Explains(r, o)
    case Sending(_, o) => Opens(r) && Explains(r, o)
    case Returned(Owned(_, o)) => Opens(r) && Explains(r, o)
    case Returned(AlreadyConnected) => r == NOTHING_YET.(fast := true)
    case Returned(Suppressed) =>
      && !r.fast && r.look.Some? && r.look.value.suppressed && r.look.value.slot.None?
      && r.dial == None && r.identity == None
    case Returned(Joined(c, _)) => Joins(r, c)
    case Returned(OwnerGone(c)) => Joins(r, c)
    case Unwinding(_) => Opens(r)
    case Cancelled => !r.fast
  }

  /** The event ends something that had not ended before. */
  predicate Fresh(r: Report, e: Event) {
    && (e.Claim? ==> r.look == None) && (e.DialEnds? ==> r.dial == None) && (e.IdentityEnds? ==> r.identity == None)
  }

  lemma FitsMoves(phase: Phase, e: Event, slot: Option<ChannelId>, free: ChannelId, message: Option<Outcome>,
                  at: nat, r: Report)
    requires Allows(phase, e) && Fits(phase, r)
    ensures Fits(Moved(phase, e, slot, free, message), Noted(r, e, at, slot)) && Fresh(r, e)
  {
  }

  // ---------- the report grows with the run ----------

  lemma FoundStays(events: seq<Event>, e: Event, k: nat, t: TaskId, suppressed: bool, slot: Option<ChannelId>)
    requires FoundAt(events, k, t, suppressed, slot)
    ensures FoundAt(events + [e], k, t, suppressed, slot)
  {
    assert (events + [e])[..k] == events[..k];
  }

  lemma LookStays(events: seq<Event>, e: Event, t: TaskId, look: Option<Look>)
    requires LookTold(events, t, look) && !(e.Claim? && e.t == t)
    ensures LookTold(events + [e], t, look)
  {
    if look.Some? { FoundStays(events, e, look.value.at, t, look.value.suppressed, look.value.slot); }
  }

  lemma LookNoted(events: seq<Event>, before: State, t: TaskId, suppressed: bool)
    requires LookTold(events, t, None) && Reaches(events, before) && t in before.tasks
    ensures LookTold(events + [Claim(t, suppressed)], t,
                     Some(Look(|events|, suppressed, Find(before.slots, before.tasks[t].peer))))
  {
    assert (events + [Claim(t, suppressed)])[..|events|] == events;
  }

  lemma OtherTold(events: seq<Event>, e: Event, t: TaskId, r: Report)
    requires Told(events, t, r) && e.t != t
    ensures Told(events + [e], t, r)
  {
    LookStays(events, e, t, r.look);
  }

  lemma SpawnTold(events: seq<Event>, e: Event, t: TaskId, r: Report)
    requires Told(events, t, r) && e.Spawn?
    ensures Told(events + [e], t, r)
  {
    LookStays(events, e, t, r.look);
  }

  lemma NotedTold(events: seq<Event>, e: Event, before: State, r: Report)
    requires Told(events, e.t, r) && Fresh(r, e) && Reaches(events, before) && e.t in before.tasks
    ensures Told(events + [e], e.t, Noted(r, e, |events|, Find(before.slots, before.tasks[e.t].peer)))
  {
    if e.Claim? {
      LookNoted(events, before, e.t, e.suppressed);
    } else {
      LookStays(events, e, e.t, r.look);
    }
  }

  lemma StepTold(events: seq<Event>, before: State, e: Event, s: State, r: Report) returns (r': Report)
    requires Reaches(events, before) && Enabled(before, e) && s == Next(before, e) && !e.Spawn?
    requires Told(events, e.t, r) && Fits(before.tasks[e.t].phase, r)
    ensures e.t in s.tasks && Told(events + [e], e.t, r') && Fits(s.tasks[e.t].phase, r')
  {
    var task := before.tasks[e.t];
    TasksAfter(before, e, s);
    FitsMoves(task.phase, e, Find(before.slots, task.peer), before.nextChannel,
              if task.phase.Joining? then Find(before.messages, task.phase.chan) else None, |events|, r);
    NotedTold(events, e, before, r);
    r' := Noted(r, e, |events|, Find(before.slots, task.peer));
  }

  /** Every call of every run has a report of its events that fits its phase. */
  lemma {:induction false} RunTold(events: seq<Event>, s: State, t: TaskId) returns (r: Report)
    requires Reaches(events, s)
    ensures Told(events, t, r)
    ensures if t in s.tasks then Fits(s.tasks[t].phase, r) else r == NOTHING_YET
    decreases |events|
  {
    r := NOTHING_YET;
    if events != [] {
      var n := |events| - 1;
      var front, e := events[..n], events[n];
      var before :| Reaches(front, before) && Enabled(before, e) && s == Next(before, e);
      assert events == front + [e];
      r := RunTold(front, before, t);
      OthersStay(before, e, s, t);
      if e.t != t {
        OtherTold(front, e, t, r);
      } else if e.Spawn? {
        SpawnTold(front, e, t, r);
      } else {
        r := StepTold(front, before, e, s, r);
      }
    }
  }

  lemma {:induction false} ReachesOne(events: seq<Event>, s: State, s': State)
    requires Reaches(events, s) && Reaches(events, s')
    ensures s == s'
    decreases |events|
  {
    if events != [] {
      var n := |events| - 1;
      var a :| Reaches(events[..n], a) && Enabled(a, events[n]) && s == Next(a, events[n]);
      var b :| Reaches(events[..n], b) && Enabled(b, events[n]) && s' == Next(b, events[n]);
      ReachesOne(events[..n], a, b);
    }
  }

  /** A call looks at most once, so what it found is one thing. */
  lemma FoundOnce(events: seq<Event>, k: nat, t: TaskId, suppressed: bool, slot: Option<ChannelId>, look: Look)
    requires FoundAt(events, k, t, suppressed, slot) && LookTold(events, t, Some(look))
    ensures look == Look(k, suppressed, slot)
  {
    assert events[k].Claim? && look.at == k;
    var a :| Reaches(events[..k], a) && t in a.tasks && Find(a.slots, a.tasks[t].peer) == slot;
    var b :| Reaches(events[..k], b) && t in b.tasks && Find(b.slots, b.tasks[t].peer) == look.slot;
    ReachesOne(events[..k], a, b);
  }

  lemma PeerStays(s: State, e: Event, s': State)
    requires Enabled(s, e) && s' == Next(s, e)
    ensures e.t in s'.tasks && s'.tasks[e.t].peer == if e.Spawn? then e.peer else s.tasks[e.t].peer
  {
    if !e.Spawn? { EffectKeepsTasks(s, e); }
  }

  /** A call is for the peer it was made for, and is made once. */
  lemma {:induction false} SpawnedFor(events: seq<Event>, s: State, t: TaskId, p: Key)
    requires Reaches(events, s)
    ensures Spawn(t, p) in events <==> t in s.tasks && s.tasks[t].peer == p
    decreases |events|
  {
    if events != [] {
      var n := |events| - 1;
      var front, e := events[..n], events[n];
      var before :| Reaches(front, before) && Enabled(before, e) && s == Next(before, e);
      assert events == front + [e];
      SpawnedFor(front, before, t, p);
      OthersStay(before, e, s, t);
      PeerStays(before, e, s);
    }
  }

  // ---------- what a call returns ----------

  /** The outcome `o` is how the dial of call `t` went, by the events alone. */
  ghost predicate OutcomeOf(events: seq<Event>, t: TaskId, o: Outcome) {
    && (o == Connected <==> IdentityEnds(t, Matches) in events)
    && (forall a: Key :: o == IdentityMismatch(a) <==> IdentityEnds(t, IsOther(a)) in events)
    && (forall x: nat :: o == IdentityFailed(x) <==> IdentityEnds(t, Fails(x)) in events)
    && (forall n: nat :: o == DialFailed(n) <==> DialEnds(t, false, n) in events)
  }

  lemma ExplainedOutcome(events: seq<Event>, t: TaskId, r: Report, o: Outcome)
    requires Told(events, t, r) && Explains(r, o)
    ensures OutcomeOf(events, t, o)
  {
  }

  /** An owner returns the outcome of its own dial; it dialed because it found the slot free and dials to the
      peer not suppressed. */
  lemma OwnerReturnsItsOutcome(events: seq<Event>, s: State, t: TaskId)
    requires Reaches(events, s) && t in s.tasks
    requires s.tasks[t].phase.Returned? && s.tasks[t].phase.result.Owned?
    ensures OutcomeOf(events, t, s.tasks[t].phase.result.outcome)
    ensures exists k: nat :: FoundAt(events, k, t, false, None)
  {
    var r := RunTold(events, s, t);
    ExplainedOutcome(events, t, r, s.tasks[t].phase.result.outcome);
  }

  /** A joiner returns the outcome of the other call's dial, and ends no dial of its own; it joined because it
      found that dial's channel in the slot. */
  lemma JoinerReturnsThatOutcome(events: seq<Event>, s: State, t: TaskId)
    requires Reaches(events, s) && t in s.tasks
    requires s.tasks[t].phase.Returned? && s.tasks[t].phase.result.Joined?
    ensures var c := s.tasks[t].phase.result.dial;
            && Shares(s, c, s.tasks[t].peer) && s.owner[c] != t
            && OutcomeOf(events, s.owner[c], s.tasks[t].phase.result.outcome)
            && (exists k: nat, suppressed :: FoundAt(events, k, t, suppressed, Some(c)))
    ensures forall e :: e in events && (e.DialEnds? || e.IdentityEnds?) ==> e.t != t
  {
    JoinerHearsOwner(events, s, t);
    OwnerReturnsItsOutcome(events, s, s.owner[s.tasks[t].phase.result.dial]);
    var r := RunTold(events, s, t);
    assert FoundAt(events, r.look.value.at, t, r.look.value.suppressed, Some(s.tasks[t].phase.result.dial));
  }

  /** The two answers without a dial: already connected just when the fast path said so, suppressed just when
      the call found the slot free and dials to the peer suppressed. */
  lemma UndialedAnswers(events: seq<Event>, s: State, t: TaskId)
    requires Reaches(events, s) && t in s.tasks && s.tasks[t].phase.Returned?
    ensures s.tasks[t].phase.result == AlreadyConnected <==> FastPath(t) in events
    ensures s.tasks[t].phase.result == Suppressed <==> exists k: nat :: FoundAt(events, k, t, true, None)
  {
    var r := RunTold(events, s, t);
    if k: nat :| FoundAt(events, k, t, true, None) {
      assert events[k].Claim? && events[k].t == t;
      FoundOnce(events, k, t, true, None, r.look.value);
    }
  }
}
