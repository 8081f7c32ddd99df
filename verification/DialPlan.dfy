/** The bounded dial plan for one peer. */
module DialPlan {
  import opened Wrappers
  import opened Addresses
  import opened Sorting

  const MAX_DIAL_PLAN_SIZE: nat := 5

  datatype DialAddressContext = DialAddressContext(wanIps: set<Ip>, lanIps: seq<Ip>, allowLoopback: bool)

  predicate IpSharesWan(ctx: DialAddressContext, ip: Ip) {
    !IsLanIp(Canonical(ip)) && Canonical(ip) in ctx.wanIps
  }

  predicate SharesWan(ctx: DialAddressContext, address: MultiAddr) {
    !address.transport.NonIp? && IpSharesWan(ctx, address.transport.socket.ip)
  }

  /** Some direct or unverified address of the peer is on one of our own WAN addresses. */
  predicate PeerSharesWan(ctx: DialAddressContext, typed: seq<Typed>) {
    exists i :: 0 <= i < |typed| &&
      var kind := Advertised(typed[i].0, typed[i].1);
      (kind == Direct || kind == Unverified) && SharesWan(ctx, typed[i].0)
  }

  predicate SameLanPrefix(a: Ip, b: Ip) {
    var a', b' := Canonical(a), Canonical(b);
    && IsLanIp(a') && IsLanIp(b')
    && ((a'.V4? && b'.V4? && a'.bits / 256 == b'.bits / 256)
        || (a'.V6? && b'.V6? && a'.bits / TWO_64 == b'.bits / TWO_64))
  }

  /** Lower is a better match with our own local addresses. */
  function LanMatchScore(ctx: DialAddressContext, ip: Ip): nat {
    var c := Canonical(ip);
    if !IsLanIp(c) then 4
    else if c.IsLoopback() then (if ctx.allowLoopback then 0 else 4)
    else if c in ctx.lanIps then 0
    else if exists i :: 0 <= i < |ctx.lanIps| && SameLanPrefix(ctx.lanIps[i], c) then 1
    else 3
  }

  /** The slot an address competes for, if any. */
  datatype Role = NoRole | RelayRole | WanRole(v4: bool) | LanRole(v4: bool)

  predicate IsDialable(address: MultiAddr) {
    address.transport.Quic? && !address.transport.socket.ip.IsUnspecified()
  }

  function RoleOf(ctx: DialAddressContext, t: Typed): Role {
    if !IsDialable(t.0) then NoRole
    else
      var kind, v4 := Advertised(t.0, t.1), Canonical(t.0.transport.socket.ip).V4?;
      match kind
      case Relay => if SharesWan(ctx, t.0) then NoRole else RelayRole
      case Lan => LanRole(v4)
      case _ => WanRole(v4)
  }

  /** What decides inside a slot: nothing for relays, the tier for WAN, the match score for LAN. */
  function CostOf(ctx: DialAddressContext, t: Typed): nat {
    match RoleOf(ctx, t)
    case WanRole(_) => Advertised(t.0, t.1).Priority()
    case LanRole(_) => LanMatchScore(ctx, Canonical(t.0.transport.socket.ip))
    case _ => 0
  }

  /** `slot` is the cheapest of the first `n` addresses with role `role`, the earliest on a tie. */
  ghost predicate IsBest(ctx: DialAddressContext, typed: seq<Typed>, n: nat, role: Role, slot: Option<nat>)
    requires n <= |typed|
  {
    match slot
    case None => forall j :: 0 <= j < n ==> RoleOf(ctx, typed[j]) != role
    case Some(b) =>
      && b < n && RoleOf(ctx, typed[b]) == role
      && forall j :: 0 <= j < n && RoleOf(ctx, typed[j]) == role ==>
           || CostOf(ctx, typed[b]) < CostOf(ctx, typed[j])
           || (CostOf(ctx, typed[b]) == CostOf(ctx, typed[j]) && b <= j)
  }

  lemma BestUnique(ctx: DialAddressContext, typed: seq<Typed>, role: Role, a: Option<nat>, b: Option<nat>)
    requires IsBest(ctx, typed, |typed|, role, a) && IsBest(ctx, typed, |typed|, role, b)
    ensures a == b
  {
  }

  datatype Slots = Slots(relay: Option<nat>, wan4: Option<nat>, wan6: Option<nat>, lan4: Option<nat>, lan6: Option<nat>)

  ghost predicate SlotsBest(ctx: DialAddressContext, typed: seq<Typed>, n: nat, s: Slots)
    requires n <= |typed|
  {
    && IsBest(ctx, typed, n, RelayRole, s.relay)
    && IsBest(ctx, typed, n, WanRole(true), s.wan4) && IsBest(ctx, typed, n, WanRole(false), s.wan6)
    && IsBest(ctx, typed, n, LanRole(true), s.lan4) && IsBest(ctx, typed, n, LanRole(false), s.lan6)
  }

  /** One step of the scan for one slot: fill it, or replace a strictly costlier entry. */
  function Offered(ctx: DialAddressContext, typed: seq<Typed>, role: Role, slot: Option<nat>, i: nat): Option<nat>
    requires i < |typed| && (slot.Some? ==> slot.value < |typed|)
  {
    if RoleOf(ctx, typed[i]) != role then slot
    else if slot.None? || CostOf(ctx, typed[i]) < CostOf(ctx, typed[slot.value]) then Some(i) else slot
  }

  lemma OfferedIsBest(ctx: DialAddressContext, typed: seq<Typed>, role: Role, slot: Option<nat>, i: nat)
    requires i < |typed| && IsBest(ctx, typed, i, role, slot)
    ensures IsBest(ctx, typed, i + 1, role, Offered(ctx, typed, role, slot, i))
  {
  }

  /** The pair of per-family slots, cheaper first when `costs` decides, earlier first otherwise. */
  function Pair(a: Option<nat>, b: Option<nat>, before: (nat, nat) -> bool): seq<nat> {
    if a.None? then (if b.None? then [] else [b.value])
    else if b.None? then [a.value]
    else if before(b.value, a.value) then [b.value, a.value] else [a.value, b.value]
  }

  function LanOrder(ctx: DialAddressContext, typed: seq<Typed>, s: Slots): seq<nat> {
    Pair(s.lan4, s.lan6, (i: nat, j: nat) =>
      i < |typed| && j < |typed| &&
      (CostOf(ctx, typed[i]) < CostOf(ctx, typed[j]) || (CostOf(ctx, typed[i]) == CostOf(ctx, typed[j]) && i < j)))
  }

  function WanOrder(s: Slots): seq<nat> { Pair(s.wan4, s.wan6, (i: nat, j: nat) => i < j) }

  function RelayOrder(s: Slots): seq<nat> { if s.relay.Some? then [s.relay.value] else [] }

  predicate PrefersLan(ctx: DialAddressContext, typed: seq<Typed>, s: Slots) {
    LanOrder(ctx, typed, s) != [] && PeerSharesWan(ctx, typed)
  }

  function Assembled(ctx: DialAddressContext, typed: seq<Typed>, s: Slots): seq<nat> {
    var lan, rest := LanOrder(ctx, typed, s), RelayOrder(s) + WanOrder(s);
    if PrefersLan(ctx, typed, s) then lan + rest else if rest == [] then lan else rest
  }

  /** `select_dial_candidates_with_context`; the plan is given as positions in `typed`. */
  method SelectDialCandidates(ctx: DialAddressContext, typed: seq<Typed>) returns (plan: seq<nat>, slots: Slots)
    ensures SlotsBest(ctx, typed, |typed|, slots)
    ensures plan == Assembled(ctx, typed, slots)
    ensures IsPlan(ctx, typed, plan)
  {
    var relay: Option<nat>, wan4: Option<nat>, wan6: Option<nat> := None, None, None;
    var lan4: Option<nat>, lan6: Option<nat> := None, None;
    for i := 0 to |typed|
      invariant SlotsBest(ctx, typed, i, Slots(relay, wan4, wan6, lan4, lan6))
    {
      ghost var was := Slots(relay, wan4, wan6, lan4, lan6);
      var address, kind := typed[i].0, Advertised(typed[i].0, typed[i].1);
      if IsDialable(address) {
        if kind == Relay {
          if relay.None? && !SharesWan(ctx, address) {
            relay := Some(i);
          }
        } else {
          var ip := Canonical(address.transport.socket.ip);
          if kind == Lan {
            if ip.V4? {
              lan4 := Offered(ctx, typed, LanRole(true), lan4, i);
            } else {
              lan6 := Offered(ctx, typed, LanRole(false), lan6, i);
            }
          } else if ip.V4? {
            wan4 := Offered(ctx, typed, WanRole(true), wan4, i);
          } else {
            wan6 := Offered(ctx, typed, WanRole(false), wan6, i);
          }
        }
      }
      StepIsBest(ctx, typed, i, was, Slots(relay, wan4, wan6, lan4, lan6));
    }
    slots := Slots(relay, wan4, wan6, lan4, lan6);
    plan := Assembled(ctx, typed, slots);
    AssembledIsPlan(ctx, typed, slots);
  }

  lemma StepIsBest(ctx: DialAddressContext, typed: seq<Typed>, i: nat, was: Slots, now: Slots)
    requires i < |typed| && SlotsBest(ctx, typed, i, was)
    requires now.relay == Offered(ctx, typed, RelayRole, was.relay, i)
    requires now.wan4 == Offered(ctx, typed, WanRole(true), was.wan4, i)
    requires now.wan6 == Offered(ctx, typed, WanRole(false), was.wan6, i)
    requires now.lan4 == Offered(ctx, typed, LanRole(true), was.lan4, i)
    requires now.lan6 == Offered(ctx, typed, LanRole(false), was.lan6, i)
    ensures SlotsBest(ctx, typed, i + 1, now)
  {
    OfferedIsBest(ctx, typed, RelayRole, was.relay, i);
    OfferedIsBest(ctx, typed, WanRole(true), was.wan4, i);
    OfferedIsBest(ctx, typed, WanRole(false), was.wan6, i);
    OfferedIsBest(ctx, typed, LanRole(true), was.lan4, i);
    OfferedIsBest(ctx, typed, LanRole(false), was.lan6, i);
  }

  // ---------- what the plan promises ----------

  ghost predicate IsLan(ctx: DialAddressContext, typed: seq<Typed>, i: nat) {
    i < |typed| && RoleOf(ctx, typed[i]).LanRole?
  }

  /** Some relay or WAN address can be dialed. */
  ghost predicate HasWiderRoute(ctx: DialAddressContext, typed: seq<Typed>) {
    exists i :: 0 <= i < |typed| && (RoleOf(ctx, typed[i]).RelayRole? || RoleOf(ctx, typed[i]).WanRole?)
  }

  ghost predicate HasLanRoute(ctx: DialAddressContext, typed: seq<Typed>) {
    exists i :: 0 <= i < |typed| && RoleOf(ctx, typed[i]).LanRole?
  }

  lemma LanOrderShape(ctx: DialAddressContext, typed: seq<Typed>, s: Slots)
    requires SlotsBest(ctx, typed, |typed|, s)
    ensures |LanOrder(ctx, typed, s)| <= 2
    ensures forall i :: i in LanOrder(ctx, typed, s) ==> IsLan(ctx, typed, i)
    ensures LanOrder(ctx, typed, s) != [] <==> HasLanRoute(ctx, typed)
  {
  }

  lemma RestShape(ctx: DialAddressContext, typed: seq<Typed>, s: Slots)
    requires SlotsBest(ctx, typed, |typed|, s)
    ensures |RelayOrder(s) + WanOrder(s)| <= 3
    ensures forall i :: i in RelayOrder(s) + WanOrder(s) ==> i < |typed| && !IsLan(ctx, typed, i)
    ensures RelayOrder(s) + WanOrder(s) != [] <==> HasWiderRoute(ctx, typed)
  {
  }

  /** At most five entries, one per slot; local routes come first exactly when the peer
      shares our WAN address, and otherwise only when there is no other route. */
  lemma PlanShape(ctx: DialAddressContext, typed: seq<Typed>, s: Slots)
    requires SlotsBest(ctx, typed, |typed|, s)
    ensures var plan := Assembled(ctx, typed, s);
            && |plan| <= MAX_DIAL_PLAN_SIZE
            && (forall i :: i in plan ==> i < |typed| && IsDialable(typed[i].0))
            && ((exists i :: i in plan && IsLan(ctx, typed, i)) <==>
                  HasLanRoute(ctx, typed) && (PeerSharesWan(ctx, typed) || !HasWiderRoute(ctx, typed)))
            && (plan == [] <==> !HasLanRoute(ctx, typed) && !HasWiderRoute(ctx, typed))
            && (forall a, b :: 0 <= a < b < |plan| && IsLan(ctx, typed, plan[b]) ==> IsLan(ctx, typed, plan[a]))
  {
    LanOrderShape(ctx, typed, s);
    RestShape(ctx, typed, s);
    var lan, rest := LanOrder(ctx, typed, s), RelayOrder(s) + WanOrder(s);
    if lan != [] { assert lan[0] in lan; }
  }

  lemma OrdersDistinct(ctx: DialAddressContext, typed: seq<Typed>, s: Slots)
    requires SlotsBest(ctx, typed, |typed|, s)
    ensures NoRepeats(LanOrder(ctx, typed, s))
    ensures NoRepeats(RelayOrder(s) + WanOrder(s))
    ensures s.relay.Some? ==> (RelayOrder(s) + WanOrder(s))[0] == s.relay.value
  {
  }

  lemma ConcatDistinct(xs: seq<nat>, ys: seq<nat>, p: nat -> bool)
    requires NoRepeats(xs) && NoRepeats(ys)
    requires (forall x :: x in xs ==> p(x)) && (forall y :: y in ys ==> !p(y))
    ensures NoRepeats(xs + ys)
  {
    var zs := xs + ys;
    forall a, b | 0 <= a < b < |zs| ensures zs[a] != zs[b] {
      assert a < |xs| ==> zs[a] in xs;
      assert b >= |xs| ==> zs[b] in ys;
    }
  }

  /** No address is planned twice, and a relay is preceded by local routes only. */
  lemma PlanOrder(ctx: DialAddressContext, typed: seq<Typed>, s: Slots)
    requires SlotsBest(ctx, typed, |typed|, s)
    ensures NoRepeats(Assembled(ctx, typed, s))
    ensures s.relay.Some? ==>
              exists r :: 0 <= r < |Assembled(ctx, typed, s)| && Assembled(ctx, typed, s)[r] == s.relay.value
                          && forall a :: 0 <= a < r ==> IsLan(ctx, typed, Assembled(ctx, typed, s)[a])
  {
    LanOrderShape(ctx, typed, s);
    RestShape(ctx, typed, s);
    OrdersDistinct(ctx, typed, s);
    var lan, rest := LanOrder(ctx, typed, s), RelayOrder(s) + WanOrder(s);
    var plan := Assembled(ctx, typed, s);
    ConcatDistinct(lan, rest, (i: nat) => i < |typed| && RoleOf(ctx, typed[i]).LanRole?);
    if s.relay.Some? {
      var r := if PrefersLan(ctx, typed, s) then |lan| else 0;
      assert plan[r] == s.relay.value;
      assert forall a :: 0 <= a < r ==> plan[a] in lan;
    }
  }

  // ---------- the plan, by the addresses themselves ----------

  /** Address `i` can be dialed and is advertised with one of these tags, in this IP family. */
  ghost predicate Competes(typed: seq<Typed>, i: nat, kinds: set<AddressType>, v4: bool) {
    && i < |typed| && IsDialable(typed[i].0) && Advertised(typed[i].0, typed[i].1) in kinds
    && Canonical(typed[i].0.transport.socket.ip).V4? == v4
  }

  const WAN_KINDS: set<AddressType> := {Direct, Unverified}

  function Tier(t: Typed): nat { Advertised(t.0, t.1).Priority() }

  function LanScore(ctx: DialAddressContext, t: Typed): nat {
    if t.0.transport.NonIp? then 4 else LanMatchScore(ctx, t.0.transport.socket.ip)
  }

  /** A relay that can be dialed and is not behind our own WAN address. */
  ghost predicate UsableRelay(ctx: DialAddressContext, typed: seq<Typed>, i: nat) {
    && i < |typed| && IsDialable(typed[i].0) && Advertised(typed[i].0, typed[i].1) == Relay
    && !SharesWan(ctx, typed[i].0)
  }

  /** `i` comes first among those that compete: by `cost`, and by position on a tie. */
  ghost predicate Wins(typed: seq<Typed>, i: nat, kinds: set<AddressType>, v4: bool, cost: Typed -> nat) {
    && Competes(typed, i, kinds, v4)
    && forall j :: 0 <= j < |typed| && Competes(typed, j, kinds, v4) ==>
         cost(typed[i]) < cost(typed[j]) || (cost(typed[i]) == cost(typed[j]) && i <= j)
  }

  /** Local routes are worth trying: the peer is behind our own WAN address, or there is nothing else. */
  ghost predicate LanWorthwhile(ctx: DialAddressContext, typed: seq<Typed>) {
    || PeerSharesWan(ctx, typed)
    || forall i :: 0 <= i < |typed| ==>
         !UsableRelay(ctx, typed, i) && !Competes(typed, i, WAN_KINDS, true) && !Competes(typed, i, WAN_KINDS, false)
  }

  /** The first usable relay, the best WAN address of each family by tier, and, where worthwhile, the best
      local address of each family by its match with ours: just these are planned. */
  ghost predicate Belongs(ctx: DialAddressContext, typed: seq<Typed>, i: nat) {
    || (UsableRelay(ctx, typed, i) && forall j :: 0 <= j < i ==> !UsableRelay(ctx, typed, j))
    || Wins(typed, i, WAN_KINDS, true, Tier) || Wins(typed, i, WAN_KINDS, false, Tier)
    || (LanWorthwhile(ctx, typed)
        && (Wins(typed, i, {Lan}, true, t => LanScore(ctx, t)) || Wins(typed, i, {Lan}, false, t => LanScore(ctx, t))))
  }

  /** An address has a role just when it competes for it. */
  lemma RoleIsCompeting(ctx: DialAddressContext, typed: seq<Typed>, i: nat, v4: bool)
    requires i < |typed|
    ensures RoleOf(ctx, typed[i]) == RelayRole <==> UsableRelay(ctx, typed, i)
    ensures RoleOf(ctx, typed[i]) == WanRole(v4) <==> Competes(typed, i, WAN_KINDS, v4)
    ensures RoleOf(ctx, typed[i]) == LanRole(v4) <==> Competes(typed, i, {Lan}, v4)
    ensures RoleOf(ctx, typed[i]) == WanRole(v4) ==> CostOf(ctx, typed[i]) == Tier(typed[i])
    ensures RoleOf(ctx, typed[i]) == LanRole(v4) ==> CostOf(ctx, typed[i]) == LanScore(ctx, typed[i])
  {
    if IsDialable(typed[i].0) { CanonicalScope(typed[i].0.transport.socket.ip); }
  }

  lemma BestRelay(ctx: DialAddressContext, typed: seq<Typed>, i: nat)
    ensures IsBest(ctx, typed, |typed|, RelayRole, Some(i)) <==>
            UsableRelay(ctx, typed, i) && forall j :: 0 <= j < i ==> !UsableRelay(ctx, typed, j)
  {
    forall j | 0 <= j < |typed| ensures RoleOf(ctx, typed[j]) == RelayRole <==> UsableRelay(ctx, typed, j) {
      RoleIsCompeting(ctx, typed, j, true);
    }
  }

  lemma BestWan(ctx: DialAddressContext, typed: seq<Typed>, v4: bool, i: nat)
    ensures IsBest(ctx, typed, |typed|, WanRole(v4), Some(i)) <==> Wins(typed, i, WAN_KINDS, v4, Tier)
  {
    forall j | 0 <= j < |typed|
      ensures RoleOf(ctx, typed[j]) == WanRole(v4) <==> Competes(typed, j, WAN_KINDS, v4)
      ensures RoleOf(ctx, typed[j]) == WanRole(v4) ==> CostOf(ctx, typed[j]) == Tier(typed[j])
    {
      RoleIsCompeting(ctx, typed, j, v4);
    }
  }

  lemma BestLan(ctx: DialAddressContext, typed: seq<Typed>, v4: bool, i: nat)
    ensures IsBest(ctx, typed, |typed|, LanRole(v4), Some(i)) <==>
            Wins(typed, i, {Lan}, v4, t => LanScore(ctx, t))
  {
    forall j | 0 <= j < |typed|
      ensures RoleOf(ctx, typed[j]) == LanRole(v4) <==> Competes(typed, j, {Lan}, v4)
      ensures RoleOf(ctx, typed[j]) == LanRole(v4) ==> CostOf(ctx, typed[j]) == LanScore(ctx, typed[j])
    {
      RoleIsCompeting(ctx, typed, j, v4);
    }
  }

  lemma SlotHolds(ctx: DialAddressContext, typed: seq<Typed>, role: Role, slot: Option<nat>, i: nat)
    requires IsBest(ctx, typed, |typed|, role, slot)
    ensures slot == Some(i) <==> IsBest(ctx, typed, |typed|, role, Some(i))
  {
    if IsBest(ctx, typed, |typed|, role, Some(i)) { BestUnique(ctx, typed, role, slot, Some(i)); }
  }

  lemma WorthwhileIs(ctx: DialAddressContext, typed: seq<Typed>)
    ensures LanWorthwhile(ctx, typed) <==> PeerSharesWan(ctx, typed) || !HasWiderRoute(ctx, typed)
  {
    forall i | 0 <= i < |typed|
      ensures RoleOf(ctx, typed[i]).RelayRole? || RoleOf(ctx, typed[i]).WanRole? <==>
              || UsableRelay(ctx, typed, i)
              || Competes(typed, i, WAN_KINDS, true) || Competes(typed, i, WAN_KINDS, false)
    {
      RoleIsCompeting(ctx, typed, i, true);
      RoleIsCompeting(ctx, typed, i, false);
    }
  }

  lemma AssembledHas(ctx: DialAddressContext, typed: seq<Typed>, s: Slots, i: nat)
    requires SlotsBest(ctx, typed, |typed|, s)
    ensures i in Assembled(ctx, typed, s) <==>
            || s.relay == Some(i) || s.wan4 == Some(i) || s.wan6 == Some(i)
            || (LanWorthwhile(ctx, typed) && (s.lan4 == Some(i) || s.lan6 == Some(i)))
  {
    LanOrderShape(ctx, typed, s);
    RestShape(ctx, typed, s);
    WorthwhileIs(ctx, typed);
  }

  /** What is planned, stated of the addresses alone. */
  lemma PlanHoldsTheBest(ctx: DialAddressContext, typed: seq<Typed>, s: Slots, i: nat)
    requires SlotsBest(ctx, typed, |typed|, s)
    ensures i in Assembled(ctx, typed, s) <==> Belongs(ctx, typed, i)
  {
    AssembledHas(ctx, typed, s, i);
    BestRelay(ctx, typed, i);
    BestWan(ctx, typed, true, i);
    BestWan(ctx, typed, false, i);
    BestLan(ctx, typed, true, i);
    BestLan(ctx, typed, false, i);
    SlotHolds(ctx, typed, RelayRole, s.relay, i);
    SlotHolds(ctx, typed, WanRole(true), s.wan4, i);
    SlotHolds(ctx, typed, WanRole(false), s.wan6, i);
    SlotHolds(ctx, typed, LanRole(true), s.lan4, i);
    SlotHolds(ctx, typed, LanRole(false), s.lan6, i);
  }

  /** In which order two planned addresses are tried: local ones first, by score and then position; then the
      relay; then the WAN addresses by position, whatever their tiers. */
  ghost predicate TriedBefore(ctx: DialAddressContext, typed: seq<Typed>, i: nat, j: nat) {
    && i < |typed| && j < |typed|
    && var a, b := Advertised(typed[i].0, typed[i].1), Advertised(typed[j].0, typed[j].1);
       if b == Lan then
         && a == Lan
         && (LanScore(ctx, typed[i]) < LanScore(ctx, typed[j])
             || (LanScore(ctx, typed[i]) == LanScore(ctx, typed[j]) && i < j))
       else if b == Relay then a == Lan
       else a == Lan || a == Relay || i < j
  }

  lemma InRole(ctx: DialAddressContext, typed: seq<Typed>, role: Role, slot: Option<nat>)
    requires IsBest(ctx, typed, |typed|, role, slot) && slot.Some?
    ensures var t := typed[slot.value];
            && (role.RelayRole? ==> Advertised(t.0, t.1) == Relay)
            && (role.WanRole? ==> Advertised(t.0, t.1) in WAN_KINDS)
            && (role.LanRole? ==> Advertised(t.0, t.1) == Lan && CostOf(ctx, t) == LanScore(ctx, t))
  {
    RoleIsCompeting(ctx, typed, slot.value, true);
    RoleIsCompeting(ctx, typed, slot.value, false);
  }

  predicate Tagged(typed: seq<Typed>, xs: seq<nat>, kinds: set<AddressType>) {
    forall i :: i in xs ==> i < |typed| && Advertised(typed[i].0, typed[i].1) in kinds
  }

  lemma RelayTags(ctx: DialAddressContext, typed: seq<Typed>, s: Slots)
    requires SlotsBest(ctx, typed, |typed|, s)
    ensures Tagged(typed, RelayOrder(s), {Relay})
  {
    if s.relay.Some? { InRole(ctx, typed, RelayRole, s.relay); }
  }

  lemma WanTags(ctx: DialAddressContext, typed: seq<Typed>, s: Slots)
    requires SlotsBest(ctx, typed, |typed|, s)
    ensures Tagged(typed, WanOrder(s), WAN_KINDS)
  {
    if s.wan4.Some? { InRole(ctx, typed, WanRole(true), s.wan4); }
    if s.wan6.Some? { InRole(ctx, typed, WanRole(false), s.wan6); }
  }

  lemma LanTags(ctx: DialAddressContext, typed: seq<Typed>, s: Slots)
    requires SlotsBest(ctx, typed, |typed|, s)
    ensures Tagged(typed, LanOrder(ctx, typed, s), {Lan})
    ensures forall i :: i in LanOrder(ctx, typed, s) ==> CostOf(ctx, typed[i]) == LanScore(ctx, typed[i])
  {
    if s.lan4.Some? { InRole(ctx, typed, LanRole(true), s.lan4); }
    if s.lan6.Some? { InRole(ctx, typed, LanRole(false), s.lan6); }
  }

  ghost predicate InOrder(ctx: DialAddressContext, typed: seq<Typed>, plan: seq<nat>) {
    forall a, b :: 0 <= a < b < |plan| ==> TriedBefore(ctx, typed, plan[a], plan[b])
  }

  lemma ConcatInOrder(ctx: DialAddressContext, typed: seq<Typed>, xs: seq<nat>, ys: seq<nat>)
    requires InOrder(ctx, typed, xs) && InOrder(ctx, typed, ys)
    requires forall x, y :: x in xs && y in ys ==> TriedBefore(ctx, typed, x, y)
    ensures InOrder(ctx, typed, xs + ys)
  {
    var zs := xs + ys;
    forall a, b | 0 <= a < b < |zs| ensures TriedBefore(ctx, typed, zs[a], zs[b]) {
      assert a < |xs| ==> zs[a] in xs;
      assert b >= |xs| ==> zs[b] in ys;
    }
  }

  lemma LanInOrder(ctx: DialAddressContext, typed: seq<Typed>, s: Slots)
    requires SlotsBest(ctx, typed, |typed|, s)
    ensures InOrder(ctx, typed, LanOrder(ctx, typed, s))
  {
    LanTags(ctx, typed, s);
    var lan := LanOrder(ctx, typed, s);
    forall a, b | 0 <= a < b < |lan| ensures TriedBefore(ctx, typed, lan[a], lan[b]) {
      assert lan[a] in lan && lan[b] in lan;
    }
  }

  lemma WanInOrder(ctx: DialAddressContext, typed: seq<Typed>, s: Slots)
    requires SlotsBest(ctx, typed, |typed|, s)
    ensures InOrder(ctx, typed, WanOrder(s))
  {
    WanTags(ctx, typed, s);
    var wan := WanOrder(s);
    forall a, b | 0 <= a < b < |wan| ensures TriedBefore(ctx, typed, wan[a], wan[b]) {
      assert wan[a] in wan && wan[b] in wan;
    }
  }

  lemma RestInOrder(ctx: DialAddressContext, typed: seq<Typed>, s: Slots)
    requires SlotsBest(ctx, typed, |typed|, s)
    ensures InOrder(ctx, typed, RelayOrder(s) + WanOrder(s))
    ensures Tagged(typed, RelayOrder(s) + WanOrder(s), {Relay, Direct, Unverified})
  {
    RelayTags(ctx, typed, s);
    WanTags(ctx, typed, s);
    WanInOrder(ctx, typed, s);
    ConcatInOrder(ctx, typed, RelayOrder(s), WanOrder(s));
  }

  lemma PlanInOrder(ctx: DialAddressContext, typed: seq<Typed>, s: Slots)
    requires SlotsBest(ctx, typed, |typed|, s)
    ensures InOrder(ctx, typed, Assembled(ctx, typed, s))
  {
    LanTags(ctx, typed, s);
    LanInOrder(ctx, typed, s);
    RestInOrder(ctx, typed, s);
    ConcatInOrder(ctx, typed, LanOrder(ctx, typed, s), RelayOrder(s) + WanOrder(s));
  }

  /** The plan: every address that belongs, once, in the order they are tried. */
  ghost predicate IsPlan(ctx: DialAddressContext, typed: seq<Typed>, plan: seq<nat>) {
    && |plan| <= MAX_DIAL_PLAN_SIZE && NoRepeats(plan) && InOrder(ctx, typed, plan)
    && forall i: nat :: i in plan <==> Belongs(ctx, typed, i)
  }

  lemma AssembledIsPlan(ctx: DialAddressContext, typed: seq<Typed>, s: Slots)
    requires SlotsBest(ctx, typed, |typed|, s)
    ensures IsPlan(ctx, typed, Assembled(ctx, typed, s))
  {
    PlanShape(ctx, typed, s);
    PlanOrder(ctx, typed, s);
    PlanInOrder(ctx, typed, s);
    forall i: nat ensures i in Assembled(ctx, typed, s) <==> Belongs(ctx, typed, i) {
      PlanHoldsTheBest(ctx, typed, s, i);
    }
  }

  /** How well a local address matches: exactly one of ours or an allowed loopback, in the prefix of one of
      ours, local but elsewhere, or no match at all. */
  lemma LanScoreTells(ctx: DialAddressContext, ip: Ip)
    ensures var c, score := Canonical(ip), LanMatchScore(ctx, ip);
            var near := exists i :: 0 <= i < |ctx.lanIps| && SameLanPrefix(ctx.lanIps[i], c);
            && (score == 4 <==> !IsLanIp(ip) || (c.IsLoopback() && !ctx.allowLoopback))
            && (score == 0 <==> IsLanIp(ip) && if c.IsLoopback() then ctx.allowLoopback else c in ctx.lanIps)
            && (score == 1 <==> IsLanIp(ip) && !c.IsLoopback() && c !in ctx.lanIps && near)
            && (score == 3 <==> IsLanIp(ip) && !c.IsLoopback() && c !in ctx.lanIps && !near)
  {
    CanonicalScope(ip);
  }
}
