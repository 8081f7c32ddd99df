/** The single-flight dial coordinator as interleaved steps of any number of
    `ensure_peer_channel` calls.

    A step is one atomic action on the shared map or a channel, or the end of an
    await.  A call may be cancelled at any of its awaits; cancelling a dial owner
    drops its guard (which frees the slot) and then its sender. */
module DialCoordinator {
  import opened Keys
  import opened Wrappers

  type TaskId = nat
  type ChannelId = nat

  datatype Outcome =
    | Connected
    | DialFailed(candidates: nat)
    | IdentityFailed(error: nat)
    | IdentityMismatch(actual: Key)

  datatype CallResult =
    | AlreadyConnected
    | Suppressed
    | Owned(dial: ChannelId, outcome: Outcome)
    | Joined(dial: ChannelId, outcome: Outcome)
    | OwnerGone(dial: ChannelId)

  datatype Phase =
    | Entering
    | Joining(chan: ChannelId)                        // awaiting the owner's broadcast
    | Dialing(chan: ChannelId)                        // awaiting dial_addresses
    | Identifying(chan: ChannelId)                    // awaiting the identity exchange
    | Disconnecting(chan: ChannelId, error: nat)      // awaiting the channel teardown
    | Evicting(chan: ChannelId, actual: Key)          // awaiting the routing table
    | Clearing(chan: ChannelId, outcome: Outcome)     // about to free the slot
    | Sending(chan: ChannelId, outcome: Outcome)      // slot freed, about to broadcast
    | Unwinding(chan: ChannelId)                      // cancelled, slot freed, sender not yet dropped
    | Returned(result: CallResult)
    | Cancelled
  {
    /** The owner's dial is under way or its slot is still taken. */
    predicate HoldsSlot() { Dialing? || Identifying? || Disconnecting? || Evicting? || Clearing? }

    /** The call still holds the sending half of its channel. */
    predicate HoldsSender() { HoldsSlot() || Sending? || Unwinding? }

    predicate Finished() { Returned? || Cancelled? }
  }

  datatype Task = Task(peer: Key, phase: Phase)

  datatype Identity = Matches | IsOther(actual: Key) | Fails(error: nat)

  datatype Event =
    | Spawn(t: TaskId, peer: Key)
    | FastPath(t: TaskId)
    | Claim(t: TaskId, suppressed: bool)
    | DialEnds(t: TaskId, reached: bool, candidates: nat)
    | IdentityEnds(t: TaskId, identity: Identity)
    | TeardownEnds(t: TaskId)
    | EvictionEnds(t: TaskId)
    | ClearSlot(t: TaskId)
    | Send(t: TaskId)
    | Receive(t: TaskId)
    | Cancel(t: TaskId)
    | DropSender(t: TaskId)

  /** `owner` remembers which call created each channel, and `penalties` counts
      the trust penalties each call charged. */
  datatype State = State(
    slots: map<Key, ChannelId>,
    tasks: map<TaskId, Task>,
    owner: map<ChannelId, TaskId>,
    messages: map<ChannelId, Outcome>,
    penalties: map<TaskId, nat>,
    nextChannel: ChannelId)

  const Initial: State := State(map[], map[], map[], map[], map[], 0)

  /** Every sender is gone: neither the map nor any call holds one. */
  ghost predicate Closed(s: State, c: ChannelId) {
    && (forall p :: p in s.slots ==> s.slots[p] != c)
    && (forall t :: t in s.tasks ==> !(s.tasks[t].phase.HoldsSender() && s.tasks[t].phase.chan == c))
  }

  /** The phases in which a call can take a step. */
  predicate Allows(phase: Phase, e: Event) {
    match e
    case Spawn(_, _) => false
    case FastPath(_) => phase.Entering?
    case Claim(_, _) => phase.Entering?
    case DialEnds(_, _, _) => phase.Dialing?
    case IdentityEnds(_, _) => phase.Identifying?
    case TeardownEnds(_) => phase.Disconnecting?
    case EvictionEnds(_) => phase.Evicting?
    case ClearSlot(_) => phase.Clearing?
    case Send(_) => phase.Sending?
    case Receive(_) => phase.Joining?
    case Cancel(_) =>
      || phase.Entering? || phase.Joining?
      || phase.Dialing? || phase.Identifying? || phase.Disconnecting? || phase.Evicting?
    case DropSender(_) => phase.Unwinding?
  }

  /** A receiver wakes up once its channel holds a message or is closed. */
  ghost predicate Enabled(s: State, e: Event) {
    if e.Spawn? then e.t !in s.tasks
    else
      && e.t in s.tasks && Allows(s.tasks[e.t].phase, e)
      && (e.Receive? ==> s.tasks[e.t].phase.chan in s.messages || Closed(s, s.tasks[e.t].phase.chan))
  }

  function At(s: State, t: TaskId, phase: Phase): State
    requires t in s.tasks
  {
    s.(tasks := s.tasks[t := s.tasks[t].(phase := phase)])
  }

  function Charged(s: State, t: TaskId): State {
    s.(penalties := s.penalties[t := (if t in s.penalties then s.penalties[t] else 0) + 1])
  }

  /** The phase a step leads to, given what the call finds in the shared maps: the peer's slot,
      the next free channel, and the message on the channel it waits for. */
  function Moved(phase: Phase, e: Event, slot: Option<ChannelId>, free: ChannelId, message: Option<Outcome>): Phase
    requires Allows(phase, e)
  {
    match e
    case FastPath(_) => Returned(AlreadyConnected)
    case Claim(_, suppressed) =>
      if slot.Some? then Joining(slot.value) else if suppressed then Returned(Suppressed) else Dialing(free)
    case DialEnds(_, reached, n) => if reached then Identifying(phase.chan) else Clearing(phase.chan, DialFailed(n))
    case IdentityEnds(_, Matches) => Clearing(phase.chan, Connected)
    case IdentityEnds(_, IsOther(actual)) => Evicting(phase.chan, actual)
    case IdentityEnds(_, Fails(error)) => Disconnecting(phase.chan, error)
    case TeardownEnds(_) => Clearing(phase.chan, IdentityFailed(phase.error))
    case EvictionEnds(_) => Clearing(phase.chan, IdentityMismatch(phase.actual))
    case ClearSlot(_) => Sending(phase.chan, phase.outcome)
    case Send(_) => Returned(Owned(phase.chan, phase.outcome))
    case Receive(_) =>
      if message.Some? then Returned(Joined(phase.chan, message.value)) else Returned(OwnerGone(phase.chan))
    case Cancel(_) => if phase.HoldsSlot() then Unwinding(phase.chan) else Cancelled
    case DropSender(_) => Cancelled
  }

  function Find<K(==), V>(m: map<K, V>, k: K): Option<V> { if k in m then Some(m[k]) else None }

  function NewPhase(s: State, e: Event): Phase
    requires Enabled(s, e) && !e.Spawn?
  {
    var task := s.tasks[e.t];
    Moved(task.phase, e, Find(s.slots, task.peer), s.nextChannel,
          if task.phase.Joining? then Find(s.messages, task.phase.chan) else None)
  }

  /** What a step does to everything but the calls: claim or free the slot, broadcast, charge a penalty. */
  function Effect(s: State, e: Event): State
    requires Enabled(s, e) && !e.Spawn?
  {
    var peer, phase := s.tasks[e.t].peer, s.tasks[e.t].phase;
    match e
    case Claim(t, suppressed) =>
      if peer in s.slots || suppressed then s
      else s.(slots := s.slots[peer := s.nextChannel],
              owner := s.owner[s.nextChannel := t],
              nextChannel := s.nextChannel + 1)
    case DialEnds(t, reached, _) => if reached then s else Charged(s, t)
    case TeardownEnds(t) => Charged(s, t)
    case ClearSlot(_) => s.(slots := s.slots - {peer})
    case Send(_) => s.(messages := s.messages[phase.chan := phase.outcome])
    case Cancel(_) => if phase.HoldsSlot() then s.(slots := s.slots - {peer}) else s
    case _ => s
  }

  function Next(s: State, e: Event): State
    requires Enabled(s, e)
  {
    if e.Spawn? then s.(tasks := s.tasks[e.t := Task(e.peer, Entering)], penalties := s.penalties[e.t := 0])
    else EffectKeepsTasks(s, e); At(Effect(s, e), e.t, NewPhase(s, e))
  }

  lemma EffectKeepsTasks(s: State, e: Event)
    requires Enabled(s, e) && !e.Spawn?
    ensures Effect(s, e).tasks == s.tasks
  {
  }

  // ---------- the invariant ----------

  predicate Penalised(o: Outcome) { o.DialFailed? || o.IdentityFailed? }

  /** Penalties a call in this phase has charged. */
  function Due(phase: Phase): nat {
    match phase
    case Clearing(_, o) => if Penalised(o) then 1 else 0
    case Sending(_, o) => if Penalised(o) then 1 else 0
    case Returned(Owned(_, o)) => if Penalised(o) then 1 else 0
    case _ => 0
  }

  ghost predicate Owns(s: State, t: TaskId, c: ChannelId) { c in s.owner && s.owner[c] == t }

  /** Channel `c` was opened by a call that dials `peer`. */
  ghost predicate Shares(s: State, c: ChannelId, peer: Key) {
    c in s.owner && s.owner[c] in s.tasks && s.tasks[s.owner[c]].peer == peer
  }

  ghost predicate TaskOk(s: State, t: TaskId)
    requires t in s.tasks
  {
    var peer, phase := s.tasks[t].peer, s.tasks[t].phase;
    && (phase.HoldsSender() ==> Owns(s, t, phase.chan) && phase.chan !in s.messages)
    && (phase.HoldsSlot() ==> peer in s.slots && s.slots[peer] == phase.chan)
    && match phase
       case Joining(c) => Shares(s, c, peer)
       case Returned(Owned(c, o)) => Owns(s, t, c) && c in s.messages && s.messages[c] == o
       case Returned(Joined(c, o)) => Shares(s, c, peer) && c in s.messages && s.messages[c] == o
       case Returned(OwnerGone(c)) =>
         Shares(s, c, peer) && c !in s.messages && s.tasks[s.owner[c]].phase.Cancelled?
       case _ => true
  }

  ghost predicate ChargesOk(tasks: map<TaskId, Task>, penalties: map<TaskId, nat>) {
    forall t :: t in tasks ==> t in penalties && penalties[t] == Due(tasks[t].phase)
  }

  /** A channel's creator still holds the sender, has broadcast and returned, or was cancelled. */
  ghost predicate ChannelOk(s: State, c: ChannelId)
    requires c in s.owner
  {
    && c < s.nextChannel
    && s.owner[c] in s.tasks
    && var phase := s.tasks[s.owner[c]].phase;
       || (phase.HoldsSender() && phase.chan == c)
       || (phase.Returned? && phase.result.Owned? && phase.result.dial == c)
       || (phase.Cancelled? && c !in s.messages)
  }

  /** A taken slot belongs to a live dial of that peer. */
  ghost predicate SlotOk(s: State, p: Key)
    requires p in s.slots
  {
    var c := s.slots[p];
    && c in s.owner && s.owner[c] in s.tasks
    && s.tasks[s.owner[c]].peer == p
    && s.tasks[s.owner[c]].phase.HoldsSlot() && s.tasks[s.owner[c]].phase.chan == c
  }

  ghost predicate Inv(s: State) {
    && (forall t {:trigger TaskOk(s, t)} :: t in s.tasks ==> TaskOk(s, t))
    && (forall c {:trigger ChannelOk(s, c)} :: c in s.owner ==> ChannelOk(s, c))
    && (forall p {:trigger SlotOk(s, p)} :: p in s.slots ==> SlotOk(s, p))
    && (forall c :: c in s.messages ==> c in s.owner)
    && ChargesOk(s.tasks, s.penalties)
  }

  /** `s'` differs from `s` only in what call `t` may change. */
  ghost predicate StepOf(s: State, s': State, t: TaskId) {
    && t in s.tasks && t in s'.tasks
    && s'.tasks == s.tasks[t := s'.tasks[t]]
    && s'.tasks[t].peer == s.tasks[t].peer
    && !s.tasks[t].phase.Finished()
    && s.nextChannel <= s'.nextChannel
    && (forall c :: c in s.owner ==> c in s'.owner && s'.owner[c] == s.owner[c])
    && (forall c :: c in s'.owner && c !in s.owner ==> s'.owner[c] == t)
    && (forall c :: c in s.messages ==> c in s'.messages && s'.messages[c] == s.messages[c])
    && (forall c :: c in s'.messages && c !in s.messages ==> Owns(s, t, c))
    && (forall p :: p != s.tasks[t].peer ==> (p in s'.slots <==> p in s.slots))
    && (forall p :: p != s.tasks[t].peer && p in s.slots ==> s'.slots[p] == s.slots[p])
  }

  lemma OtherTaskOk(s: State, s': State, t: TaskId, u: TaskId)
    requires StepOf(s, s', t) && u in s.tasks && u != t && TaskOk(s, u)
    requires s.tasks[u].phase.HoldsSlot() && s.tasks[u].peer == s.tasks[t].peer ==>
               s.tasks[u].peer in s'.slots && s'.slots[s.tasks[u].peer] == s.tasks[u].phase.chan
    requires s.tasks[u].phase.Returned? && s.tasks[u].phase.result.OwnerGone? ==>
               s.owner[s.tasks[u].phase.result.dial] != t
    ensures TaskOk(s', u)
  {
  }

  lemma OtherChannelOk(s: State, s': State, t: TaskId, c: ChannelId)
    requires StepOf(s, s', t) && c in s.owner && s.owner[c] != t && ChannelOk(s, c)
    ensures ChannelOk(s', c)
  {
  }

  lemma OtherSlotOk(s: State, s': State, t: TaskId, p: Key)
    requires StepOf(s, s', t) && p in s.slots && SlotOk(s, p)
    requires p in s'.slots && s'.slots[p] == s.slots[p] && s.owner[s.slots[p]] != t
    ensures SlotOk(s', p)
  {
  }

  /** A step keeps the invariant if it does so for what the stepping call owns. */
  lemma LocalStepKeepsInv(s: State, s': State, t: TaskId)
    requires Inv(s) && StepOf(s, s', t)
    requires TaskOk(s', t) && ChargesOk(s'.tasks, s'.penalties)
    requires forall c :: c in s'.owner && s'.owner[c] == t ==> ChannelOk(s', c)
    requires s.tasks[t].peer in s'.slots ==> SlotOk(s', s.tasks[t].peer)
    requires forall u :: u in s.tasks && u != t && s.tasks[u].phase.HoldsSlot()
                         && s.tasks[u].peer == s.tasks[t].peer ==>
               s.tasks[u].peer in s'.slots && s'.slots[s.tasks[u].peer] == s.tasks[u].phase.chan
    ensures Inv(s')
  {
    forall u | u in s'.tasks && u != t ensures TaskOk(s', u) {
      assert TaskOk(s, u);
      OtherTaskOk(s, s', t, u);
    }
    forall c | c in s'.owner && s'.owner[c] != t ensures ChannelOk(s', c) {
      assert ChannelOk(s, c);
      OtherChannelOk(s, s', t, c);
    }
    forall p | p in s'.slots && p != s.tasks[t].peer ensures SlotOk(s', p) {
      assert SlotOk(s, p);
      OtherSlotOk(s, s', t, p);
    }
  }

  /** Two calls holding the slot of one peer are the same call. */
  lemma OneSlotHolder(s: State, t: TaskId, u: TaskId)
    requires Inv(s) && t in s.tasks && u in s.tasks
    requires s.tasks[t].phase.HoldsSlot() && s.tasks[u].phase.HoldsSlot() && s.tasks[u].peer == s.tasks[t].peer
    ensures t == u
  {
    assert TaskOk(s, t) && TaskOk(s, u);
  }

  /** The step `e` keeps the invariant. */
  ghost predicate Preserved(s: State, e: Event)
    requires Enabled(s, e)
  {
    Inv(Next(s, e))
  }

  lemma SpawnKeepsInv(s: State, e: Event)
    requires Inv(s) && Enabled(s, e) && e.Spawn?
    ensures Preserved(s, e)
  {
    var s' := Next(s, e);
    assert ChargesOk(s'.tasks, s'.penalties);
    forall t | t in s'.tasks ensures TaskOk(s', t) { assert t != e.t ==> TaskOk(s, t); }
    forall c | c in s'.owner ensures ChannelOk(s', c) { assert ChannelOk(s, c); }
    forall p | p in s'.slots ensures SlotOk(s', p) { assert SlotOk(s, p); }
  }

  lemma ChargesCarryOver(tasks: map<TaskId, Task>, penalties: map<TaskId, nat>, t: TaskId, task: Task)
    requires ChargesOk(tasks, penalties) && t in tasks && Due(task.phase) == Due(tasks[t].phase)
    ensures ChargesOk(tasks[t := task], penalties)
  {
  }

  /** Steps that leave the shared maps alone: the call was not an owner, or stays one. */
  lemma QuietStepKeepsInv(s: State, s': State, t: TaskId)
    requires Inv(s) && t in s.tasks && !s.tasks[t].phase.Finished()
    requires t in s'.tasks && s' == At(s, t, s'.tasks[t].phase).(penalties := s'.penalties)
    requires TaskOk(s', t) && ChargesOk(s'.tasks, s'.penalties)
    requires s.tasks[t].phase.HoldsSender() <==> s'.tasks[t].phase.HoldsSender()
    requires s.tasks[t].phase.HoldsSlot() <==> s'.tasks[t].phase.HoldsSlot()
    requires s.tasks[t].phase.HoldsSender() ==> s'.tasks[t].phase.chan == s.tasks[t].phase.chan
    ensures Inv(s')
  {
    var p := s.tasks[t].peer;
    forall c | c in s'.owner && s'.owner[c] == t ensures ChannelOk(s', c) { assert ChannelOk(s, c); }
    if p in s.slots { assert SlotOk(s, p); }
    forall u | u in s.tasks && u != t && s.tasks[u].phase.HoldsSlot() && s.tasks[u].peer == p
      ensures p in s'.slots && s'.slots[p] == s.tasks[u].phase.chan
    {
      assert TaskOk(s, u);
    }
    LocalStepKeepsInv(s, s', t);
  }

  /** The owner moves on with its slot still taken, charging what the new phase owes. */
  lemma AdvanceKeepsInv(s: State, t: TaskId, phase: Phase)
    requires Inv(s) && t in s.tasks && s.tasks[t].phase.HoldsSlot()
    requires phase.HoldsSlot() && phase.chan == s.tasks[t].phase.chan
    ensures Inv(At(s, t, phase).(penalties := s.penalties[t := Due(phase)]))
  {
    var s' := At(s, t, phase).(penalties := s.penalties[t := Due(phase)]);
    assert TaskOk(s, t);
    assert ChargesOk(s'.tasks, s'.penalties);
    QuietStepKeepsInv(s, s', t);
  }

  lemma UnchargedStep(s: State, t: TaskId)
    requires Inv(s) && t in s.tasks && Due(s.tasks[t].phase) == 0
    ensures s.penalties[t := 0] == s.penalties
    ensures t in s.penalties && s.penalties[t] == 0
  {
  }

  lemma DialEndsKeepsInv(s: State, t: TaskId, reached: bool, n: nat)
    requires Inv(s) && Enabled(s, DialEnds(t, reached, n))
    ensures Preserved(s, DialEnds(t, reached, n))
  {
    UnchargedStep(s, t);
    AdvanceKeepsInv(s, t, NewPhase(s, DialEnds(t, reached, n)));
  }

  lemma IdentityEndsKeepsInv(s: State, t: TaskId, identity: Identity)
    requires Inv(s) && Enabled(s, IdentityEnds(t, identity))
    ensures Preserved(s, IdentityEnds(t, identity))
  {
    UnchargedStep(s, t);
    AdvanceKeepsInv(s, t, NewPhase(s, IdentityEnds(t, identity)));
  }

  lemma TeardownEndsKeepsInv(s: State, t: TaskId)
    requires Inv(s) && Enabled(s, TeardownEnds(t))
    ensures Preserved(s, TeardownEnds(t))
  {
    UnchargedStep(s, t);
    AdvanceKeepsInv(s, t, NewPhase(s, TeardownEnds(t)));
  }

  lemma EvictionEndsKeepsInv(s: State, t: TaskId)
    requires Inv(s) && Enabled(s, EvictionEnds(t))
    ensures Preserved(s, EvictionEnds(t))
  {
    UnchargedStep(s, t);
    AdvanceKeepsInv(s, t, NewPhase(s, EvictionEnds(t)));
  }

  /** A call that owns nothing changes phase. */
  lemma BystanderKeepsInv(s: State, t: TaskId, phase: Phase)
    requires Inv(s) && t in s.tasks && (s.tasks[t].phase.Entering? || s.tasks[t].phase.Joining?)
    requires !phase.HoldsSender() && Due(phase) == 0
    requires TaskOk(At(s, t, phase), t)
    ensures Inv(At(s, t, phase))
  {
    assert ChargesOk(At(s, t, phase).tasks, s.penalties);
    QuietStepKeepsInv(s, At(s, t, phase), t);
  }

  lemma ReceivedOk(s: State, t: TaskId)
    requires Inv(s) && Enabled(s, Receive(t))
    ensures TaskOk(At(s, t, NewPhase(s, Receive(t))), t)
  {
    var c := s.tasks[t].phase.chan;
    assert TaskOk(s, t) && ChannelOk(s, c);
    var owner := s.owner[c];
    if c !in s.messages {
      assert s.tasks[owner].phase.Cancelled? by {
        assert Closed(s, c);
        assert TaskOk(s, owner);
      }
    }
  }

  lemma ReceiveKeepsInv(s: State, t: TaskId)
    requires Inv(s) && Enabled(s, Receive(t))
    ensures Preserved(s, Receive(t))
  {
    ReceivedOk(s, t);
    BystanderKeepsInv(s, t, NewPhase(s, Receive(t)));
  }

  lemma JoinKeepsInv(s: State, t: TaskId, suppressed: bool)
    requires Inv(s) && Enabled(s, Claim(t, suppressed)) && (s.tasks[t].peer in s.slots || suppressed)
    ensures Preserved(s, Claim(t, suppressed))
  {
    if s.tasks[t].peer in s.slots { assert SlotOk(s, s.tasks[t].peer); }
    BystanderKeepsInv(s, t, NewPhase(s, Claim(t, suppressed)));
  }

  lemma LeaveKeepsInv(s: State, t: TaskId, phase: Phase)
    requires Inv(s) && t in s.tasks && (s.tasks[t].phase.Entering? || s.tasks[t].phase.Joining?)
    requires phase == Returned(AlreadyConnected) || phase == Cancelled
    ensures Inv(At(s, t, phase))
  {
    BystanderKeepsInv(s, t, phase);
  }

  function Opened(s: State, t: TaskId): State
    requires t in s.tasks
  {
    At(s, t, Dialing(s.nextChannel)).(
      slots := s.slots[s.tasks[t].peer := s.nextChannel],
      owner := s.owner[s.nextChannel := t],
      nextChannel := s.nextChannel + 1)
  }

  lemma OpenedIsStep(s: State, t: TaskId)
    requires Inv(s) && t in s.tasks && s.tasks[t].phase.Entering? && s.tasks[t].peer !in s.slots
    ensures StepOf(s, Opened(s, t), t) && TaskOk(Opened(s, t), t)
    ensures forall c :: c in s.owner ==> c != s.nextChannel && s.owner[c] != t
  {
    assert forall c :: c in s.owner ==> ChannelOk(s, c);
    assert s.nextChannel !in s.messages;
  }

  lemma OpenKeepsInv(s: State, t: TaskId)
    requires Inv(s) && t in s.tasks && s.tasks[t].phase.Entering? && s.tasks[t].peer !in s.slots
    ensures Inv(Opened(s, t))
  {
    var s' := Opened(s, t);
    OpenedIsStep(s, t);
    ChargesCarryOver(s.tasks, s.penalties, t, s'.tasks[t]);
    forall u | u in s.tasks && u != t && s.tasks[u].phase.HoldsSlot() ensures s.tasks[u].peer in s.slots {
      assert TaskOk(s, u);
    }
    LocalStepKeepsInv(s, s', t);
  }

  /** What a call's own channel looks like after the call moved to `phase`. */
  lemma OwnChannels(s: State, s': State, t: TaskId)
    requires Inv(s) && StepOf(s, s', t) && s'.owner == s.owner && s'.nextChannel == s.nextChannel
    requires s.tasks[t].phase.HoldsSender()
    requires var c, phase := s.tasks[t].phase.chan, s'.tasks[t].phase;
             || (phase.HoldsSender() && phase.chan == c)
             || (phase.Returned? && phase.result.Owned? && phase.result.dial == c)
             || (phase.Cancelled? && c !in s'.messages)
    ensures forall c :: c in s'.owner && s'.owner[c] == t ==> ChannelOk(s', c)
  {
    forall c | c in s'.owner && s'.owner[c] == t ensures ChannelOk(s', c) {
      assert ChannelOk(s, c);
    }
  }

  /** The state after the owner freed its slot. */
  function Freed(s: State, t: TaskId, phase: Phase): State
    requires t in s.tasks
  {
    At(s, t, phase).(slots := s.slots - {s.tasks[t].peer})
  }

  lemma FreedIsStep(s: State, t: TaskId, phase: Phase)
    requires Inv(s) && t in s.tasks && s.tasks[t].phase.HoldsSlot()
    requires (phase.Sending? || phase.Unwinding?) && phase.chan == s.tasks[t].phase.chan
    ensures StepOf(s, Freed(s, t, phase), t) && TaskOk(Freed(s, t, phase), t)
  {
    assert TaskOk(s, t);
  }

  /** The owner frees its slot and keeps the sender a little longer. */
  lemma FreeKeepsInv(s: State, t: TaskId, phase: Phase)
    requires Inv(s) && t in s.tasks && s.tasks[t].phase.HoldsSlot()
    requires (phase.Sending? || phase.Unwinding?) && phase.chan == s.tasks[t].phase.chan
    requires Due(phase) == Due(s.tasks[t].phase)
    ensures Inv(Freed(s, t, phase))
  {
    var s' := Freed(s, t, phase);
    FreedIsStep(s, t, phase);
    ChargesCarryOver(s.tasks, s.penalties, t, s'.tasks[t]);
    OwnChannels(s, s', t);
    forall u | u in s.tasks && s.tasks[u].phase.HoldsSlot() && s.tasks[u].peer == s.tasks[t].peer ensures u == t {
      OneSlotHolder(s, t, u);
    }
    LocalStepKeepsInv(s, s', t);
  }

  /** The owner gives up its sender: it has broadcast, or it was cancelled. */
  lemma ReleaseKeepsInv(s: State, s': State, t: TaskId)
    requires Inv(s) && StepOf(s, s', t) && (s.tasks[t].phase.Sending? || s.tasks[t].phase.Unwinding?)
    requires s'.slots == s.slots && s'.owner == s.owner
    requires s'.penalties == s.penalties && s'.nextChannel == s.nextChannel
    requires TaskOk(s', t) && Due(s'.tasks[t].phase) == Due(s.tasks[t].phase)
    requires var c, phase := s.tasks[t].phase.chan, s'.tasks[t].phase;
             || (phase.Returned? && phase.result.Owned? && phase.result.dial == c)
             || (phase.Cancelled? && c !in s'.messages)
    ensures Inv(s')
  {
    var p := s.tasks[t].peer;
    OwnChannels(s, s', t);
    ChargesCarryOver(s.tasks, s.penalties, t, s'.tasks[t]);
    if p in s.slots { assert SlotOk(s, p); }
    forall u | u in s.tasks && u != t && s.tasks[u].phase.HoldsSlot() && s.tasks[u].peer == p
      ensures p in s'.slots && s'.slots[p] == s.tasks[u].phase.chan
    {
      assert TaskOk(s, u);
    }
    LocalStepKeepsInv(s, s', t);
  }

  lemma SendKeepsInv(s: State, t: TaskId)
    requires Inv(s) && Enabled(s, Send(t))
    ensures Preserved(s, Send(t))
  {
    var phase, s' := s.tasks[t].phase, Next(s, Send(t));
    assert s' == At(s, t, Returned(Owned(phase.chan, phase.outcome))).(
                   messages := s.messages[phase.chan := phase.outcome]);
    assert TaskOk(s, t);
    assert StepOf(s, s', t);
    ReleaseKeepsInv(s, s', t);
  }

  lemma DropKeepsInv(s: State, t: TaskId)
    requires Inv(s) && Enabled(s, DropSender(t))
    ensures Preserved(s, DropSender(t))
  {
    var s' := Next(s, DropSender(t));
    assert s' == At(s, t, Cancelled);
    assert TaskOk(s, t);
    assert StepOf(s, s', t);
    ReleaseKeepsInv(s, s', t);
  }

  lemma CancelKeepsInv(s: State, t: TaskId)
    requires Inv(s) && Enabled(s, Cancel(t))
    ensures Preserved(s, Cancel(t))
  {
    var phase := s.tasks[t].phase;
    if phase.HoldsSlot() {
      FreeKeepsInv(s, t, Unwinding(phase.chan));
      assert Next(s, Cancel(t)) == Freed(s, t, Unwinding(phase.chan));
    } else {
      LeaveKeepsInv(s, t, Cancelled);
      assert Next(s, Cancel(t)) == At(s, t, Cancelled);
    }
  }

  lemma ClearKeepsInv(s: State, t: TaskId)
    requires Inv(s) && Enabled(s, ClearSlot(t))
    ensures Preserved(s, ClearSlot(t))
  {
    var phase := Sending(s.tasks[t].phase.chan, s.tasks[t].phase.outcome);
    FreeKeepsInv(s, t, phase);
    assert Next(s, ClearSlot(t)) == Freed(s, t, phase);
  }

  lemma ClaimKeepsInv(s: State, t: TaskId, suppressed: bool)
    requires Inv(s) && Enabled(s, Claim(t, suppressed))
    ensures Preserved(s, Claim(t, suppressed))
  {
    if s.tasks[t].peer in s.slots || suppressed {
      JoinKeepsInv(s, t, suppressed);
    } else {
      OpenKeepsInv(s, t);
      assert Next(s, Claim(t, suppressed)) == Opened(s, t);
    }
  }

  lemma StepKeepsInv(s: State, e: Event)
    requires Inv(s) && Enabled(s, e)
    ensures Preserved(s, e)
  {
    match e
    case Spawn(_, _) => SpawnKeepsInv(s, e);
    case FastPath(t) => LeaveKeepsInv(s, t, Returned(AlreadyConnected));
    case Claim(t, suppressed) => ClaimKeepsInv(s, t, suppressed);
    case DialEnds(t, reached, n) => DialEndsKeepsInv(s, t, reached, n);
    case IdentityEnds(t, identity) => IdentityEndsKeepsInv(s, t, identity);
    case TeardownEnds(t) => TeardownEndsKeepsInv(s, t);
    case EvictionEnds(t) => EvictionEndsKeepsInv(s, t);
    case ClearSlot(t) => ClearKeepsInv(s, t);
    case Send(t) => SendKeepsInv(s, t);
    case Receive(t) => ReceiveKeepsInv(s, t);
    case Cancel(t) => CancelKeepsInv(s, t);
    case DropSender(t) => DropKeepsInv(s, t);
  }

  // ---------- whole runs ----------

  /** `s` is reached from the initial state by `events`, in that order. */
  ghost predicate Reaches(events: seq<Event>, s: State) {
    if events == [] then s == Initial
    else
      var n := |events| - 1;
      exists before :: Reaches(events[..n], before) && Enabled(before, events[n]) && s == Next(before, events[n])
  }

  lemma {:induction false} RunKeepsInv(events: seq<Event>, s: State)
    requires Reaches(events, s)
    ensures Inv(s)
    decreases |events|
  {
    if events != [] {
      var n := |events| - 1;
      var before :| Reaches(events[..n], before) && Enabled(before, events[n]) && s == Next(before, events[n]);
      RunKeepsInv(events[..n], before);
      StepKeepsInv(before, events[n]);
    }
  }

  /** Under every interleaving at most one owned dial per peer is under way. */
  lemma AtMostOneDial(events: seq<Event>, s: State, t: TaskId, u: TaskId)
    requires Reaches(events, s) && t in s.tasks && u in s.tasks
    requires s.tasks[t].phase.HoldsSlot() && s.tasks[u].phase.HoldsSlot() && s.tasks[t].peer == s.tasks[u].peer
    ensures t == u
  {
    RunKeepsInv(events, s);
    OneSlotHolder(s, t, u);
  }

  /** A slot is taken exactly while a live call is dialing that peer, so it is always freed. */
  lemma SlotIffDialing(events: seq<Event>, s: State, p: Key)
    requires Reaches(events, s)
    ensures p in s.slots <==> exists t :: t in s.tasks && s.tasks[t].peer == p && s.tasks[t].phase.HoldsSlot()
  {
    RunKeepsInv(events, s);
    if p in s.slots {
      assert SlotOk(s, p);
    }
    forall t | t in s.tasks && s.tasks[t].peer == p && s.tasks[t].phase.HoldsSlot() ensures p in s.slots {
      assert TaskOk(s, t);
    }
  }

  /** What a joiner is told: the outcome of another call's dial of the same peer, or that this call was
      cancelled without one. */
  lemma JoinerHearsOwner(events: seq<Event>, s: State, t: TaskId)
    requires Reaches(events, s) && t in s.tasks && s.tasks[t].phase.Returned?
    ensures match s.tasks[t].phase.result
            case Joined(c, o) =>
              && Shares(s, c, s.tasks[t].peer) && s.owner[c] != t
              && s.tasks[s.owner[c]].phase == Returned(Owned(c, o))
            case OwnerGone(c) =>
              Shares(s, c, s.tasks[t].peer) && s.owner[c] != t && s.tasks[s.owner[c]].phase == Cancelled
            case _ => true
  {
    RunKeepsInv(events, s);
    assert TaskOk(s, t);
    match s.tasks[t].phase.result
    case Joined(c, o) => assert ChannelOk(s, c); assert TaskOk(s, s.owner[c]);
    case _ =>
  }

  /** A channel whose owner was cancelled has no sender left. */
  lemma CancelledCloses(s: State, c: ChannelId)
    requires Inv(s) && c in s.owner && s.owner[c] in s.tasks && s.tasks[s.owner[c]].phase.Cancelled?
    ensures Closed(s, c)
  {
    forall p | p in s.slots ensures s.slots[p] != c { assert SlotOk(s, p); }
    forall u | u in s.tasks ensures !(s.tasks[u].phase.HoldsSender() && s.tasks[u].phase.chan == c) {
      assert TaskOk(s, u);
    }
  }

  /** The owner of an open channel without a message is still running. */
  lemma OwnerRuns(s: State, c: ChannelId)
    requires Inv(s) && c in s.owner && s.owner[c] in s.tasks && c !in s.messages && !Closed(s, c)
    ensures s.tasks[s.owner[c]].phase.HoldsSender()
  {
    assert ChannelOk(s, c) && TaskOk(s, s.owner[c]);
    if s.tasks[s.owner[c]].phase.Cancelled? { CancelledCloses(s, c); }
  }

  lemma WakesOrRuns(s: State, t: TaskId)
    requires Inv(s) && t in s.tasks && s.tasks[t].phase.Joining?
    ensures var c := s.tasks[t].phase.chan;
            || Enabled(s, Receive(t))
            || (Shares(s, c, s.tasks[t].peer) && s.tasks[s.owner[c]].phase.HoldsSender())
  {
    var c := s.tasks[t].phase.chan;
    assert TaskOk(s, t);
    if c !in s.messages && !Closed(s, c) { OwnerRuns(s, c); }
  }

  /** No lost wakeup: a waiting joiner can receive now, or its owner is still running. */
  lemma NoLostWakeup(events: seq<Event>, s: State, t: TaskId)
    requires Reaches(events, s) && t in s.tasks && s.tasks[t].phase.Joining?
    ensures var c := s.tasks[t].phase.chan;
            || Enabled(s, Receive(t))
            || (Shares(s, c, s.tasks[t].peer) && s.tasks[s.owner[c]].phase.HoldsSender())
  {
    RunKeepsInv(events, s);
    WakesOrRuns(s, t);
  }

  /** A completed dial charges one penalty if it failed and none otherwise; nobody else is charged. */
  lemma PenaltiesOncePerDial(events: seq<Event>, s: State, t: TaskId)
    requires Reaches(events, s) && t in s.tasks
    ensures t in s.penalties && s.penalties[t] <= 1
    ensures s.penalties[t] == 1 ==> exists c :: Owns(s, t, c)
    ensures s.tasks[t].phase.Returned? && s.tasks[t].phase.result.Owned? ==>
              (s.penalties[t] == 1 <==> Penalised(s.tasks[t].phase.result.outcome))
    ensures s.tasks[t].phase.Returned? && !s.tasks[t].phase.result.Owned? ==> s.penalties[t] == 0
    ensures s.tasks[t].phase.Cancelled? || s.tasks[t].phase.Joining? ==> s.penalties[t] == 0
  {
    RunKeepsInv(events, s);
    assert TaskOk(s, t);
  }

  // ---------- every call finishes ----------

  /** Steps a call can still take. */
  function StepsLeft(phase: Phase): nat {
    match phase
    case Entering => 6
    case Dialing(_) => 5
    case Identifying(_) => 4
    case Disconnecting(_, _) => 3
    case Evicting(_, _) => 3
    case Clearing(_, _) => 2
    case Sending(_, _) => 1
    case Joining(_) => 1
    case Unwinding(_) => 1
    case _ => 0
  }

  function StepsOf(events: seq<Event>, t: TaskId): nat {
    if events == [] then 0
    else
      var n := |events| - 1;
      StepsOf(events[..n], t) + if events[n].t == t && !events[n].Spawn? then 1 else 0
  }

  /** In any run, a call takes at most six steps after it is spawned. */
  lemma {:induction false} CallsAreShort(events: seq<Event>, s: State, t: TaskId)
    requires Reaches(events, s)
    ensures t in s.tasks ==> StepsOf(events, t) + StepsLeft(s.tasks[t].phase) <= 6
    ensures t !in s.tasks ==> StepsOf(events, t) == 0
    decreases |events|
  {
    if events != [] {
      var n := |events| - 1;
      var e := events[n];
      var before :| Reaches(events[..n], before) && Enabled(before, e) && s == Next(before, e);
      CallsAreShort(events[..n], before, t);
      OthersStay(before, e, s, t);
      if t == e.t && !e.Spawn? { OneStepDown(before, e, s); }
    }
  }

  lemma OthersStay(s: State, e: Event, s': State, t: TaskId)
    requires Enabled(s, e) && s' == Next(s, e)
    ensures t != e.t ==> (t in s.tasks <==> t in s'.tasks)
    ensures t != e.t && t in s.tasks ==> s'.tasks[t] == s.tasks[t]
    ensures e.t in s'.tasks
    ensures e.Spawn? ==> e.t !in s.tasks && s'.tasks[e.t].phase == Entering
  {
    TasksAfter(s, e, s');
  }

  lemma TasksAfter(s: State, e: Event, s': State)
    requires Enabled(s, e) && s' == Next(s, e)
    ensures e.t in s'.tasks && s'.tasks == s.tasks[e.t := s'.tasks[e.t]]
    ensures e.Spawn? ==> e.t !in s.tasks && s'.tasks[e.t].phase == Entering
    ensures !e.Spawn? ==> e.t in s.tasks && s'.tasks[e.t].phase == NewPhase(s, e)
  {
    if !e.Spawn? { EffectKeepsTasks(s, e); }
  }

  lemma MovesDown(phase: Phase, e: Event, slot: Option<ChannelId>, free: ChannelId, message: Option<Outcome>)
    requires Allows(phase, e)
    ensures StepsLeft(Moved(phase, e, slot, free, message)) < StepsLeft(phase)
  {
  }

  lemma OneStepDown(s: State, e: Event, s': State)
    requires Enabled(s, e) && s' == Next(s, e) && !e.Spawn?
    ensures e.t in s.tasks && e.t in s'.tasks
    ensures StepsLeft(s'.tasks[e.t].phase) < StepsLeft(s.tasks[e.t].phase)
  {
    TasksAfter(s, e, s');
    var task := s.tasks[e.t];
    MovesDown(task.phase, e, Find(s.slots, task.peer), s.nextChannel,
              if task.phase.Joining? then Find(s.messages, task.phase.chan) else None);
  }

  /** Only spawning is possible. */
  ghost predicate Stuck(s: State) { forall e :: Enabled(s, e) ==> e.Spawn? }

  /** When nothing is left to step, every call has finished and every slot is free. */
  lemma StuckMeansDone(events: seq<Event>, s: State)
    requires Reaches(events, s) && Stuck(s)
    ensures forall t :: t in s.tasks ==> s.tasks[t].phase.Finished()
    ensures s.slots == map[]
  {
    RunKeepsInv(events, s);
    forall t | t in s.tasks ensures !s.tasks[t].phase.HoldsSender() && !s.tasks[t].phase.Entering? {
      SomeStep(s, t);
    }
    forall t | t in s.tasks ensures !s.tasks[t].phase.Joining? {
      WakesUp(events, s, t);
    }
    forall p ensures p !in s.slots {
      SlotIffDialing(events, s, p);
    }
  }

  lemma WakesUp(events: seq<Event>, s: State, t: TaskId)
    requires Reaches(events, s) && t in s.tasks
    ensures s.tasks[t].phase.Joining? ==>
              || Enabled(s, Receive(t))
              || exists u :: u in s.tasks && s.tasks[u].phase.HoldsSender()
  {
    if s.tasks[t].phase.Joining? { NoLostWakeup(events, s, t); }
  }

  lemma SomeStep(s: State, t: TaskId)
    requires t in s.tasks
    ensures s.tasks[t].phase.HoldsSender() || s.tasks[t].phase.Entering? ==>
              exists e :: Enabled(s, e) && !e.Spawn?
  {
    var e := match s.tasks[t].phase
      case Entering => FastPath(t)
      case Dialing(_) => DialEnds(t, true, 0)
      case Identifying(_) => IdentityEnds(t, Matches)
      case Disconnecting(_, _) => TeardownEnds(t)
      case Evicting(_, _) => EvictionEnds(t)
      case Clearing(_, _) => ClearSlot(t)
      case Sending(_, _) => Send(t)
      case _ => DropSender(t);
    assert s.tasks[t].phase.HoldsSender() || s.tasks[t].phase.Entering? ==> Enabled(s, e);
  }
}
