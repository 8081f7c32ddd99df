/** The two-tier dial-failure cache, refined to a history of events.

    The cache forgets lazily: reads drop what has expired.  `history` records
    what really happened, and every answer is shown to be a function of the
    history and the current time alone.  Times are nanoseconds of a clock that
    never runs backwards. */
module DialFailures {
  import opened Keys
  import opened Wrappers
  import opened Addresses
  import opened Sorting

  const SECOND: nat := 1_000_000_000
  const FAILURE_TTL: nat := 30 * 60 * SECOND
  const EXEMPTION_TTL: nat := 2 * 60 * SECOND
  const SUPPRESS_THRESHOLD: nat := 4

  datatype Event =
    | Failed(at: nat, socket: Socket, kind: AddressType)
    | Succeeded(at: nat, socket: Socket)
    | Republished(at: nat, socket: Socket, publisher: Key)

  // ---------- what the history says ----------

  predicate Live(recorded: Option<nat>, now: nat, ttl: nat) {
    recorded.Some? && now < recorded.value + ttl
  }

  /** Last failure of socket `a` with no later success or republication there. */
  function LastFailure(h: seq<Event>, a: Socket): Option<nat> {
    if h == [] then None
    else
      var e := h[|h| - 1];
      if CanonicalSocket(e.socket) != a then LastFailure(h[..|h| - 1], a)
      else if e.Failed? then Some(e.at) else None
  }

  /** Last failure of relay session `a` with no later success anywhere at its IP. */
  function LastRelayFailure(h: seq<Event>, a: Socket): Option<nat> {
    if h == [] then None
    else
      var e, c := h[|h| - 1], CanonicalSocket(h[|h| - 1].socket);
      if e.Failed? && e.kind == Relay && c == a then Some(e.at)
      else if e.Succeeded? && c.ip == a.ip then None
      else LastRelayFailure(h[..|h| - 1], a)
  }

  /** Last time `peer` itself republished socket `a`. */
  function LastRepublished(h: seq<Event>, peer: Key, a: Socket): Option<nat> {
    if h == [] then None
    else
      var e := h[|h| - 1];
      if e.Republished? && e.publisher == peer && CanonicalSocket(e.socket) == a then Some(e.at)
      else LastRepublished(h[..|h| - 1], peer, a)
  }

  /** The distinct relay sessions at `ip` that count as failed at time `now`. */
  function DeadSessions(h: seq<Event>, ip: Ip, now: nat): set<Socket> {
    set i | 0 <= i < |h| && CanonicalSocket(h[i].socket).ip == ip
            && Live(LastRelayFailure(h, CanonicalSocket(h[i].socket)), now, FAILURE_TTL)
      :: CanonicalSocket(h[i].socket)
  }

  predicate IpSuppressed(h: seq<Event>, ip: Ip, now: nat) {
    |DeadSessions(h, ip, now)| >= SUPPRESS_THRESHOLD
  }

  /** The answer the cache owes for a dial to `peer` at `socket`. */
  predicate FailedForDial(h: seq<Event>, peer: Key, socket: Socket, kind: AddressType, now: nat) {
    var a := CanonicalSocket(socket);
    || Live(LastFailure(h, a), now, FAILURE_TTL)
    || (&& kind == Relay && IpSuppressed(h, a.ip, now)
        && !Live(LastRepublished(h, peer, a), now, EXEMPTION_TTL))
  }

  lemma {:induction false} RelayFailureInHistory(h: seq<Event>, a: Socket)
    ensures LastRelayFailure(h, a).Some? ==> exists i :: 0 <= i < |h| && CanonicalSocket(h[i].socket) == a
    decreases |h|
  {
    if h != [] {
      RelayFailureInHistory(h[..|h| - 1], a);
      assert forall i :: 0 <= i < |h| - 1 ==> h[..|h| - 1][i] == h[i];
      if LastRelayFailure(h[..|h| - 1], a).Some? {
        var i :| 0 <= i < |h| - 1 && CanonicalSocket(h[..|h| - 1][i].socket) == a;
        assert CanonicalSocket(h[i].socket) == a;
      }
    }
  }

  /** Membership, without indices. */
  lemma DeadSession(h: seq<Event>, ip: Ip, now: nat, a: Socket)
    ensures a in DeadSessions(h, ip, now) <==> a.ip == ip && Live(LastRelayFailure(h, a), now, FAILURE_TTL)
  {
    RelayFailureInHistory(h, a);
  }

  // ---------- the cache ----------

  ghost predicate EntriesFollow(h: seq<Event>, entries: map<Socket, nat>, clock: nat) {
    && (forall a :: a in entries ==> LastFailure(h, a) == Some(entries[a]))
    && (forall a :: Live(LastFailure(h, a), clock, FAILURE_TTL) ==> a in entries)
  }

  ghost predicate SessionsFollow(h: seq<Event>, sessions: map<Ip, map<Socket, nat>>, clock: nat) {
    && (forall ip, a :: ip in sessions && a in sessions[ip] ==>
          a.ip == ip && LastRelayFailure(h, a) == Some(sessions[ip][a]))
    && (forall a :: Live(LastRelayFailure(h, a), clock, FAILURE_TTL) ==>
          a.ip in sessions && a in sessions[a.ip])
  }

  ghost predicate ExemptionsFollow(h: seq<Event>, exempt: map<(Key, Socket), nat>, clock: nat) {
    && (forall k :: k in exempt ==> LastRepublished(h, k.0, k.1) == Some(exempt[k]))
    && (forall p, a :: Live(LastRepublished(h, p, a), clock, EXEMPTION_TTL) ==> (p, a) in exempt)
  }

  lemma SessionsAfterFailure(h: seq<Event>, sessions: map<Ip, map<Socket, nat>>, clock: nat, e: Event)
    requires SessionsFollow(h, sessions, clock) && clock <= e.at && e.Failed?
    ensures e.kind != Relay ==> SessionsFollow(h + [e], sessions, e.at)
    ensures e.kind == Relay ==>
              var a := CanonicalSocket(e.socket);
              var own := if a.ip in sessions then sessions[a.ip] else map[];
              SessionsFollow(h + [e], sessions[a.ip := own[a := e.at]], e.at)
  {
    assert (h + [e])[..|h|] == h;
  }

  lemma SessionsAfterSuccess(h: seq<Event>, sessions: map<Ip, map<Socket, nat>>, clock: nat, e: Event)
    requires SessionsFollow(h, sessions, clock) && clock <= e.at && e.Succeeded?
    ensures SessionsFollow(h + [e], sessions - {CanonicalSocket(e.socket).ip}, e.at)
  {
    assert (h + [e])[..|h|] == h;
  }

  lemma SessionsKept(h: seq<Event>, sessions: map<Ip, map<Socket, nat>>, clock: nat, e: Event)
    requires SessionsFollow(h, sessions, clock) && clock <= e.at && e.Republished?
    ensures SessionsFollow(h + [e], sessions, e.at)
  {
    assert (h + [e])[..|h|] == h;
  }

  /** What is left of one IP's sessions once the expired ones are dropped. */
  function LiveSessions(sessions: map<Socket, nat>, now: nat): map<Socket, nat> {
    map a | a in sessions && now < sessions[a] + FAILURE_TTL :: sessions[a]
  }

  lemma PruningIsInvisible(h: seq<Event>, sessions: map<Ip, map<Socket, nat>>, clock: nat, now: nat, ip: Ip)
    requires SessionsFollow(h, sessions, clock) && clock <= now && ip in sessions
    ensures LiveSessions(sessions[ip], now).Keys == DeadSessions(h, ip, now)
    ensures SessionsFollow(h, sessions[ip := LiveSessions(sessions[ip], now)], now)
    ensures LiveSessions(sessions[ip], now) == map[] ==> SessionsFollow(h, sessions - {ip}, now)
  {
    var live := LiveSessions(sessions[ip], now);
    forall a ensures a in live.Keys <==> a in DeadSessions(h, ip, now) {
      DeadSession(h, ip, now, a);
    }
  }

  lemma NothingHeld(h: seq<Event>, sessions: map<Ip, map<Socket, nat>>, clock: nat, now: nat, ip: Ip)
    requires SessionsFollow(h, sessions, clock) && clock <= now && ip !in sessions
    ensures DeadSessions(h, ip, now) == {}
    ensures SessionsFollow(h, sessions, now)
  {
    forall a ensures a !in DeadSessions(h, ip, now) { DeadSession(h, ip, now, a); }
  }

  lemma EntriesAfter(h: seq<Event>, entries: map<Socket, nat>, clock: nat, e: Event)
    requires EntriesFollow(h, entries, clock) && clock <= e.at
    ensures var a := CanonicalSocket(e.socket);
            EntriesFollow(h + [e], if e.Failed? then entries[a := e.at] else entries - {a}, e.at)
  {
    assert (h + [e])[..|h|] == h;
  }

  lemma ExemptionsAfter(h: seq<Event>, exempt: map<(Key, Socket), nat>, clock: nat, e: Event)
    requires ExemptionsFollow(h, exempt, clock) && clock <= e.at && !e.Republished?
    ensures ExemptionsFollow(h + [e], exempt, e.at)
  {
    assert (h + [e])[..|h|] == h;
  }

  /** Expired exemptions are dropped and the new one is added. */
  lemma ExemptionsRenewed(h: seq<Event>, exempt: map<(Key, Socket), nat>, clock: nat, e: Event)
    requires ExemptionsFollow(h, exempt, clock) && clock <= e.at && e.Republished?
    ensures var kept := map k | k in exempt && e.at < exempt[k] + EXEMPTION_TTL :: exempt[k];
            ExemptionsFollow(h + [e], kept[(e.publisher, CanonicalSocket(e.socket)) := e.at], e.at)
  {
    assert (h + [e])[..|h|] == h;
  }

  class DialFailureCache {
    var entries: map<Socket, nat>
    var ipFailures: map<Ip, map<Socket, nat>>
    var exempt: map<(Key, Socket), nat>
    ghost var history: seq<Event>
    ghost var clock: nat

    ghost predicate Valid()
      reads this
    {
      && EntriesFollow(history, entries, clock)
      && SessionsFollow(history, ipFailures, clock)
      && ExemptionsFollow(history, exempt, clock)
    }

    constructor ()
      ensures Valid() && history == []
    {
      entries, ipFailures, exempt := map[], map[], map[];
      history, clock := [], 0;
    }

    method PerAddrFailed(a: Socket, now: nat) returns (r: bool)
      requires Valid() && clock <= now
      modifies this`entries, this`clock
      ensures Valid() && clock == now
      ensures r == Live(LastFailure(history, a), now, FAILURE_TTL)
    {
      clock := now;
      if a in entries {
        if now < entries[a] + FAILURE_TTL {
          return true;
        }
        entries := entries - {a};
      }
      r := false;
    }

    method IpIsSuppressed(ip: Ip, now: nat) returns (r: bool)
      requires Valid() && clock <= now
      modifies this`ipFailures, this`clock
      ensures Valid() && clock == now
      ensures r == IpSuppressed(history, ip, now)
    {
      ghost var before := clock;
      clock := now;
      if ip in ipFailures {
        PruningIsInvisible(history, ipFailures, before, now, ip);
        var live := LiveSessions(ipFailures[ip], now);
        if live == map[] {
          ipFailures := ipFailures - {ip};
          r := false;
        } else {
          ipFailures := ipFailures[ip := live];
          r := |live| >= SUPPRESS_THRESHOLD;
        }
      } else {
        NothingHeld(history, ipFailures, before, now, ip);
        r := false;
      }
    }

    method HasFreshExemption(peer: Key, a: Socket, now: nat) returns (r: bool)
      requires Valid() && clock <= now
      modifies this`exempt, this`clock
      ensures Valid() && clock == now
      ensures r == Live(LastRepublished(history, peer, a), now, EXEMPTION_TTL)
    {
      clock := now;
      if (peer, a) in exempt {
        if now < exempt[(peer, a)] + EXEMPTION_TTL {
          return true;
        }
        exempt := exempt - {(peer, a)};
      }
      r := false;
    }

    /** Reads prune what has expired, but the history and so every later answer stays. */
    method IsFailedForDial(peer: Key, socket: Socket, kind: AddressType, now: nat) returns (r: bool)
      requires Valid() && clock <= now
      modifies this`entries, this`ipFailures, this`exempt, this`clock
      ensures Valid() && clock == now
      ensures r == FailedForDial(history, peer, socket, kind, now)
    {
      var a := CanonicalSocket(socket);
      var failed := PerAddrFailed(a, now);
      if failed {
        return true;
      }
      if kind != Relay {
        return false;
      }
      var suppressed := IpIsSuppressed(a.ip, now);
      if !suppressed {
        return false;
      }
      var fresh' := HasFreshExemption(peer, a, now);
      r := !fresh';
    }

    method RecordFailure(socket: Socket, kind: AddressType, now: nat)
      requires Valid() && clock <= now
      modifies this
      ensures Valid() && clock == now
      ensures history == old(history) + [Failed(now, socket, kind)]
    {
      var a := CanonicalSocket(socket);
      EntriesAfter(history, entries, clock, Failed(now, socket, kind));
      SessionsAfterFailure(history, ipFailures, clock, Failed(now, socket, kind));
      ExemptionsAfter(history, exempt, clock, Failed(now, socket, kind));
      clock := now;
      history := history + [Failed(now, socket, kind)];
      entries := entries[a := now];
      if kind == Relay {
        var sessions := if a.ip in ipFailures then ipFailures[a.ip] else map[];
        ipFailures := ipFailures[a.ip := sessions[a := now]];
      }
    }

    /** A successful dial clears the socket and everything held against its IP. */
    method Clear(socket: Socket, now: nat)
      requires Valid() && clock <= now
      modifies this
      ensures Valid() && clock == now
      ensures history == old(history) + [Succeeded(now, socket)]
    {
      var a := CanonicalSocket(socket);
      EntriesAfter(history, entries, clock, Succeeded(now, socket));
      SessionsAfterSuccess(history, ipFailures, clock, Succeeded(now, socket));
      ExemptionsAfter(history, exempt, clock, Succeeded(now, socket));
      clock := now;
      history := history + [Succeeded(now, socket)];
      entries := entries - {a};
      ipFailures := ipFailures - {a.ip};
    }

    method NoteRepublished(peer: Key, socket: Socket, now: nat)
      requires Valid() && clock <= now
      modifies this
      ensures Valid() && clock == now
      ensures history == old(history) + [Republished(now, socket, peer)]
    {
      var a := CanonicalSocket(socket);
      EntriesAfter(history, entries, clock, Republished(now, socket, peer));
      SessionsKept(history, ipFailures, clock, Republished(now, socket, peer));
      ExemptionsRenewed(history, exempt, clock, Republished(now, socket, peer));
      clock := now;
      history := history + [Republished(now, socket, peer)];
      entries := entries - {a};
      exempt := map k | k in exempt && now < exempt[k] + EXEMPTION_TTL :: exempt[k];
      exempt := exempt[(peer, a) := now];
    }
  }

  /** New sockets of an applied publication; an unchanged address is no sign of recovery. */
  function NewSockets(previous: seq<MultiAddr>, addresses: seq<MultiAddr>): seq<Socket> {
    if addresses == [] then []
    else
      var last := addresses[|addresses| - 1];
      NewSockets(previous, addresses[..|addresses| - 1])
      + if last in previous || last.DialableSocket().None? then [] else [last.DialableSocket().value]
  }

  function RepublishedAll(publisher: Key, sockets: seq<Socket>, now: nat): seq<Event> {
    seq(|sockets|, i requires 0 <= i < |sockets| => Republished(now, sockets[i], publisher))
  }

  /** `clear_dial_failures_for_published`. */
  method ClearForPublished(cache: DialFailureCache, publisher: Key, applied: bool,
                           previous: seq<MultiAddr>, addresses: seq<MultiAddr>, now: nat) returns (cleared: nat)
    requires cache.Valid() && cache.clock <= now
    modifies cache
    ensures cache.Valid()
    ensures !applied ==> cleared == 0 && cache.history == old(cache.history)
    ensures applied ==>
              && cleared == |NewSockets(previous, addresses)|
              && cache.history == old(cache.history) + RepublishedAll(publisher, NewSockets(previous, addresses), now)
  {
    cleared := 0;
    if !applied {
      return;
    }
    for i := 0 to |addresses|
      invariant cache.Valid() && cache.clock <= now
      invariant cleared == |NewSockets(previous, addresses[..i])|
      invariant cache.history ==
                  old(cache.history) + RepublishedAll(publisher, NewSockets(previous, addresses[..i]), now)
    {
      assert addresses[..i + 1][..i] == addresses[..i];
      if addresses[i] !in previous {
        var socket := addresses[i].DialableSocket();
        if socket.Some? {
          cache.NoteRepublished(publisher, socket.value, now);
          cleared := cleared + 1;
        }
      }
    }
    assert addresses[..|addresses|] == addresses;
  }

  // ---------- what the tiers promise ----------

  lemma SessionsUntouched(h: seq<Event>, e: Event, ip: Ip, now: nat)
    requires !(e.Failed? && e.kind == Relay && CanonicalSocket(e.socket).ip == ip)
    requires !(e.Succeeded? && CanonicalSocket(e.socket).ip == ip)
    ensures DeadSessions(h + [e], ip, now) == DeadSessions(h, ip, now)
  {
    assert (h + [e])[..|h|] == h;
    forall a ensures a in DeadSessions(h + [e], ip, now) <==> a in DeadSessions(h, ip, now) {
      DeadSession(h, ip, now, a);
      DeadSession(h + [e], ip, now, a);
    }
  }

  /** Republishing a socket changes no answer for any other socket, for any peer. */
  lemma RepublishIsLocal(h: seq<Event>, e: Event, peer: Key, socket: Socket, kind: AddressType, now: nat)
    requires e.Republished? && CanonicalSocket(socket) != CanonicalSocket(e.socket)
    ensures FailedForDial(h + [e], peer, socket, kind, now) == FailedForDial(h, peer, socket, kind, now)
  {
    assert (h + [e])[..|h|] == h;
    SessionsUntouched(h, e, CanonicalSocket(socket).ip, now);
  }

  /** At the republished socket itself, another peer stays under the IP's suppression. */
  lemma RepublishHelpsOnlyThePublisher(h: seq<Event>, e: Event, peer: Key, now: nat)
    requires e.Republished? && peer != e.publisher
    ensures var a := CanonicalSocket(e.socket);
            FailedForDial(h + [e], peer, e.socket, Relay, now) <==>
              IpSuppressed(h, a.ip, now) && !Live(LastRepublished(h, peer, a), now, EXEMPTION_TTL)
  {
    assert (h + [e])[..|h|] == h;
    SessionsUntouched(h, e, CanonicalSocket(e.socket).ip, now);
  }

  /** For the publisher the exact socket is free to dial until the exemption lapses, and no longer. */
  lemma RepublishFreesThePublisher(h: seq<Event>, e: Event, now: nat)
    requires e.Republished?
    ensures FailedForDial(h + [e], e.publisher, e.socket, Relay, now) <==>
              now >= e.at + EXEMPTION_TTL && IpSuppressed(h, CanonicalSocket(e.socket).ip, now)
  {
    assert (h + [e])[..|h|] == h;
    SessionsUntouched(h, e, CanonicalSocket(e.socket).ip, now);
  }

  /** The IP tier counts distinct sessions: a relay failure adds its socket, once. */
  lemma RelayFailureCountsOnce(h: seq<Event>, e: Event, now: nat)
    requires e.Failed? && e.kind == Relay && now < e.at + FAILURE_TTL
    ensures var a := CanonicalSocket(e.socket);
            DeadSessions(h + [e], a.ip, now) == DeadSessions(h, a.ip, now) + {a}
  {
    var c := CanonicalSocket(e.socket);
    assert (h + [e])[..|h|] == h;
    forall a ensures a in DeadSessions(h + [e], c.ip, now) <==> a in DeadSessions(h, c.ip, now) + {c} {
      DeadSession(h, c.ip, now, a);
      DeadSession(h + [e], c.ip, now, a);
    }
  }

  /** Failures of other kinds never feed the IP tier. */
  lemma OtherFailuresDoNotSuppress(h: seq<Event>, e: Event, ip: Ip, now: nat)
    requires e.Failed? && e.kind != Relay
    ensures IpSuppressed(h + [e], ip, now) == IpSuppressed(h, ip, now)
  {
    SessionsUntouched(h, e, ip, now);
  }

  /** A success anywhere at an IP lifts its suppression for every later moment. */
  lemma SuccessLiftsSuppression(h: seq<Event>, e: Event, peer: Key, socket: Socket, kind: AddressType, now: nat)
    requires e.Succeeded? && CanonicalSocket(socket).ip == CanonicalSocket(e.socket).ip
    ensures DeadSessions(h + [e], CanonicalSocket(socket).ip, now) == {}
    ensures FailedForDial(h + [e], peer, socket, kind, now) <==>
              CanonicalSocket(socket) != CanonicalSocket(e.socket)
              && Live(LastFailure(h, CanonicalSocket(socket)), now, FAILURE_TTL)
  {
    assert (h + [e])[..|h|] == h;
    var ip := CanonicalSocket(socket).ip;
    forall a ensures a !in DeadSessions(h + [e], ip, now) { DeadSession(h + [e], ip, now, a); }
  }

  /** Without new events the dead sessions of an IP only shrink, and its suppression can only end. */
  lemma TimeForgives(h: seq<Event>, ip: Ip, now: nat, later: nat)
    requires now <= later
    ensures DeadSessions(h, ip, later) <= DeadSessions(h, ip, now)
    ensures IpSuppressed(h, ip, later) ==> IpSuppressed(h, ip, now)
  {
    forall a | a in DeadSessions(h, ip, later) ensures a in DeadSessions(h, ip, now) {
      DeadSession(h, ip, later, a);
      DeadSession(h, ip, now, a);
    }
    var some, all := DeadSessions(h, ip, later), DeadSessions(h, ip, now);
    assert all == some + (all - some);
  }

  /** Without new events an answer turns from free to failed in one way only: the exemption that kept the
      peer's own republished relay socket free lapses while its IP is still suppressed. */
  lemma TurnsBackIff(h: seq<Event>, peer: Key, socket: Socket, kind: AddressType, now: nat, later: nat)
    requires now <= later
    ensures var a := CanonicalSocket(socket);
            !FailedForDial(h, peer, socket, kind, now) && FailedForDial(h, peer, socket, kind, later) <==>
              && kind == Relay && IpSuppressed(h, a.ip, later) && !Live(LastFailure(h, a), now, FAILURE_TTL)
              && Live(LastRepublished(h, peer, a), now, EXEMPTION_TTL)
              && !Live(LastRepublished(h, peer, a), later, EXEMPTION_TTL)
  {
    TimeForgives(h, CanonicalSocket(socket).ip, now, later);
  }

  /** An IPv4-mapped socket and its plain form are one endpoint. */
  lemma MappedFormsAgree(h: seq<Event>, peer: Key, socket: Socket, kind: AddressType, now: nat)
    ensures FailedForDial(h, peer, CanonicalSocket(socket), kind, now) == FailedForDial(h, peer, socket, kind, now)
  {
    CanonicalScope(socket.ip);
  }

  // ---------- the history, event by event ----------

  /** Event `i` is the last at socket `a`, and a failure. */
  ghost predicate FailedLast(h: seq<Event>, a: Socket, i: nat) {
    && i < |h| && h[i].Failed? && CanonicalSocket(h[i].socket) == a
    && forall j :: i < j < |h| ==> CanonicalSocket(h[j].socket) != a
  }

  /** Event `i` is the last relay failure of session `a`, and nothing at its IP has succeeded since. */
  ghost predicate RelayFailedLast(h: seq<Event>, a: Socket, i: nat) {
    && i < |h| && h[i].Failed? && h[i].kind == Relay && CanonicalSocket(h[i].socket) == a
    && forall j :: i < j < |h| ==>
         && !(h[j].Failed? && h[j].kind == Relay && CanonicalSocket(h[j].socket) == a)
         && !(h[j].Succeeded? && CanonicalSocket(h[j].socket).ip == a.ip)
  }

  /** Event `i` is the last time `peer` republished `a`. */
  ghost predicate RepublishedLast(h: seq<Event>, peer: Key, a: Socket, i: nat) {
    && i < |h| && h[i].Republished? && h[i].publisher == peer && CanonicalSocket(h[i].socket) == a
    && forall j :: i < j < |h| ==>
         !(h[j].Republished? && h[j].publisher == peer && CanonicalSocket(h[j].socket) == a)
  }

  lemma {:induction false} LastFailureIs(h: seq<Event>, a: Socket, at: nat)
    ensures LastFailure(h, a) == Some(at) <==> exists i: nat :: FailedLast(h, a, i) && h[i].at == at
    decreases |h|
  {
    if h != [] {
      var n := |h| - 1;
      LastFailureIs(h[..n], a, at);
      forall i: nat | i < n && CanonicalSocket(h[n].socket) != a
        ensures FailedLast(h, a, i) <==> FailedLast(h[..n], a, i)
      {
      }
      assert h[n].Failed? && CanonicalSocket(h[n].socket) == a ==> FailedLast(h, a, n);
    }
  }

  lemma {:induction false} LastRelayFailureIs(h: seq<Event>, a: Socket, at: nat)
    ensures LastRelayFailure(h, a) == Some(at) <==> exists i: nat :: RelayFailedLast(h, a, i) && h[i].at == at
    decreases |h|
  {
    if h != [] {
      var n := |h| - 1;
      var e, c := h[n], CanonicalSocket(h[n].socket);
      LastRelayFailureIs(h[..n], a, at);
      forall i: nat | i < n && !(e.Failed? && e.kind == Relay && c == a) && !(e.Succeeded? && c.ip == a.ip)
        ensures RelayFailedLast(h, a, i) <==> RelayFailedLast(h[..n], a, i)
      {
      }
      assert e.Failed? && e.kind == Relay && c == a ==> RelayFailedLast(h, a, n);
    }
  }

  lemma {:induction false} LastRepublishedIs(h: seq<Event>, peer: Key, a: Socket, at: nat)
    ensures LastRepublished(h, peer, a) == Some(at) <==>
            exists i: nat :: RepublishedLast(h, peer, a, i) && h[i].at == at
    decreases |h|
  {
    if h != [] {
      var n := |h| - 1;
      var e := h[n];
      LastRepublishedIs(h[..n], peer, a, at);
      forall i: nat | i < n && !(e.Republished? && e.publisher == peer && CanonicalSocket(e.socket) == a)
        ensures RepublishedLast(h, peer, a, i) <==> RepublishedLast(h[..n], peer, a, i)
      {
      }
      assert e.Republished? && e.publisher == peer && CanonicalSocket(e.socket) == a ==> RepublishedLast(h, peer, a, n);
    }
  }

  /** The last thing that happened at the socket was a failure, within the last thirty minutes. */
  ghost predicate FailedRecently(h: seq<Event>, a: Socket, now: nat) {
    exists i: nat :: FailedLast(h, a, i) && now < h[i].at + FAILURE_TTL
  }

  /** The answer for a dial that is not through a relay is up to its own socket alone. */
  lemma PlainDialIff(h: seq<Event>, peer: Key, socket: Socket, kind: AddressType, now: nat)
    requires kind != Relay
    ensures FailedForDial(h, peer, socket, kind, now) <==> FailedRecently(h, CanonicalSocket(socket), now)
  {
    LiveFailureIs(h, CanonicalSocket(socket), now);
  }

  /** A relay dial also fails once four sessions at its IP count as dead, unless this peer republished this
      very socket within the last two minutes. */
  lemma RelayDialIff(h: seq<Event>, peer: Key, socket: Socket, now: nat)
    ensures var a := CanonicalSocket(socket);
            FailedForDial(h, peer, socket, Relay, now) <==>
              || FailedRecently(h, a, now)
              || (|DeadSessions(h, a.ip, now)| >= 4
                  && !exists i: nat :: RepublishedLast(h, peer, a, i) && now < h[i].at + EXEMPTION_TTL)
  {
    var a := CanonicalSocket(socket);
    LiveFailureIs(h, a, now);
    var last := LastRepublished(h, peer, a);
    if last.Some? { LastRepublishedIs(h, peer, a, last.value); }
    if i: nat :| RepublishedLast(h, peer, a, i) && now < h[i].at + EXEMPTION_TTL {
      LastRepublishedIs(h, peer, a, h[i].at);
    }
  }

  lemma LiveFailureIs(h: seq<Event>, a: Socket, now: nat)
    ensures Live(LastFailure(h, a), now, FAILURE_TTL) <==> FailedRecently(h, a, now)
  {
    if LastFailure(h, a).Some? { LastFailureIs(h, a, LastFailure(h, a).value); }
    if i: nat :| FailedLast(h, a, i) && now < h[i].at + FAILURE_TTL { LastFailureIs(h, a, h[i].at); }
  }

  /** A session counts as dead while its last relay failure, with no success at its IP since, is recent. */
  lemma DeadSessionIff(h: seq<Event>, ip: Ip, now: nat, a: Socket)
    ensures a in DeadSessions(h, ip, now) <==>
            a.ip == ip && exists i: nat :: RelayFailedLast(h, a, i) && now < h[i].at + FAILURE_TTL
  {
    DeadSession(h, ip, now, a);
    if LastRelayFailure(h, a).Some? { LastRelayFailureIs(h, a, LastRelayFailure(h, a).value); }
    if i: nat :| RelayFailedLast(h, a, i) && now < h[i].at + FAILURE_TTL { LastRelayFailureIs(h, a, h[i].at); }
  }

  // ---------- what a publication clears ----------

  function FreshSocket(previous: seq<MultiAddr>): MultiAddr -> Option<Socket> {
    (m: MultiAddr) =>
      match m.transport
      case Quic(socket) => if m in previous then None else Some(socket)
      case _ => None
  }

  /** The sockets republished are those of the native addresses that were not published before, in order. */
  lemma {:induction false} NewSocketsAre(previous: seq<MultiAddr>, addresses: seq<MultiAddr>)
    ensures NewSockets(previous, addresses) == FilterMap(addresses, FreshSocket(previous))
    decreases |addresses|
  {
    if addresses != [] { NewSocketsAre(previous, addresses[..|addresses| - 1]); }
  }

  /** Socket `a` is published now and was not before. */
  ghost predicate NewlyPublished(previous: seq<MultiAddr>, addresses: seq<MultiAddr>, a: Socket) {
    exists m :: m in addresses && m !in previous && m.transport.Quic? && CanonicalSocket(m.transport.socket) == a
  }

  lemma NewlyPublishedIs(previous: seq<MultiAddr>, addresses: seq<MultiAddr>, a: Socket)
    ensures NewlyPublished(previous, addresses, a) <==>
            exists s :: s in NewSockets(previous, addresses) && CanonicalSocket(s) == a
  {
    NewSocketsAre(previous, addresses);
    if m :| m in addresses && m !in previous && m.transport.Quic? && CanonicalSocket(m.transport.socket) == a {
      FilterMapHas(addresses, FreshSocket(previous), m.transport.socket);
      assert m in addresses && FreshSocket(previous)(m) == Some(m.transport.socket);
    }
    if s :| s in NewSockets(previous, addresses) && CanonicalSocket(s) == a {
      FilterMapHas(addresses, FreshSocket(previous), s);
    }
  }

  ghost predicate Republishes(h: seq<Event>, h': seq<Event>, publisher: Key, now: nat, a: Socket, new': bool) {
    && LastFailure(h', a) == (if new' then None else LastFailure(h, a))
    && LastRelayFailure(h', a) == LastRelayFailure(h, a)
    && forall p :: LastRepublished(h', p, a) == if new' && p == publisher then Some(now) else LastRepublished(h, p, a)
  }

  lemma {:induction false} RepublishingAll(h: seq<Event>, publisher: Key, sockets: seq<Socket>, now: nat, a: Socket)
    ensures Republishes(h, h + RepublishedAll(publisher, sockets, now), publisher, now, a,
                        exists s :: s in sockets && CanonicalSocket(s) == a)
    decreases |sockets|
  {
    var all := h + RepublishedAll(publisher, sockets, now);
    if sockets == [] {
      assert all == h;
    } else {
      var n := |sockets| - 1;
      RepublishingAll(h, publisher, sockets[..n], now, a);
      assert all[..|all| - 1] == h + RepublishedAll(publisher, sockets[..n], now);
      assert all[|all| - 1] == Republished(now, sockets[n], publisher);
      assert forall s :: s in sockets <==> s in sockets[..n] || s == sockets[n];
    }
  }

  /** What an applied publication does to every later answer: at a newly published socket it takes back the
      failure and gives the publisher, and nobody else, a new exemption; an address published before is no
      sign of recovery; and no session comes back to life. */
  lemma PublicationClears(h: seq<Event>, publisher: Key, previous: seq<MultiAddr>, addresses: seq<MultiAddr>,
                          now: nat, a: Socket)
    ensures Republishes(h, h + RepublishedAll(publisher, NewSockets(previous, addresses), now), publisher, now, a,
                        NewlyPublished(previous, addresses, a))
  {
    NewlyPublishedIs(previous, addresses, a);
    RepublishingAll(h, publisher, NewSockets(previous, addresses), now, a);
  }
}
