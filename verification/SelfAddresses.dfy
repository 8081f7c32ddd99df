/** The set of addresses a node advertises for itself. */
module SelfAddresses {
  import opened Wrappers
  import opened Addresses
  import opened Sorting

  const MAX_SELF_QUIC_ADDRESSES: nat := 5

  /** A usable address of ours, normalized and tagged. */
  datatype Offer = Offer(socket: Socket, observed: bool)

  type Proof = Socket -> bool

  function TagOf(proven: Proof, socket: Socket): AddressType {
    if IsLanIp(socket.ip) then Lan else if proven(socket) then Direct else Unverified
  }

  /** The four non-relay slots: LAN or WAN, by IP family. */
  datatype SlotName = SlotName(lan: bool, v4: bool)

  function SlotFor(proven: Proof, socket: Socket): SlotName {
    SlotName(TagOf(proven, socket) == Lan, socket.ip.V4?)
  }

  /** What one input contributes: nothing for placeholders and for the relay's own address. */
  function Accepted(relay: Option<Socket>, socket: Socket, observed: bool): seq<Offer> {
    var n := CanonicalSocket(socket);
    if socket.ip.IsUnspecified() || socket.port == 0 || relay == Some(n) then [] else [Offer(n, observed)]
  }

  function Offers(relay: Option<Socket>, sockets: seq<Socket>, observed: bool): seq<Offer> {
    if sockets == [] then []
    else Offers(relay, sockets[..|sockets| - 1], observed) + Accepted(relay, sockets[|sockets| - 1], observed)
  }

  // ---------- which offer a slot should hold ----------

  /** Offer `w` has the best tier offered to its slot: the last observed one of that
      tier, or the first listen address if no observed one has it. */
  ghost predicate IsChosen(proven: Proof, offers: seq<Offer>, slot: SlotName, w: nat) {
    && w < |offers| && SlotFor(proven, offers[w].socket) == slot
    && forall j :: 0 <= j < |offers| && SlotFor(proven, offers[j].socket) == slot ==>
         var best, other := TagOf(proven, offers[w].socket).Priority(), TagOf(proven, offers[j].socket).Priority();
         && best <= other
         && (best == other && offers[w].observed ==> offers[j].observed ==> j <= w)
         && (best == other && !offers[w].observed ==> !offers[j].observed && w <= j)
  }

  ghost predicate HoldsChosen(proven: Proof, offers: seq<Offer>, slot: SlotName, choice: Option<Choice>) {
    match choice
    case None => forall j :: 0 <= j < |offers| ==> SlotFor(proven, offers[j].socket) != slot
    case Some(c) =>
      && c.tag == TagOf(proven, c.socket)
      && exists w: nat :: IsChosen(proven, offers, slot, w) && offers[w].socket == c.socket
  }

  datatype Choice = Choice(firstSeen: nat, socket: Socket, tag: AddressType)

  function Recorded(slot: Option<Choice>, socket: Socket, tag: AddressType, replaceSameTier: bool, index: nat): Choice {
    if slot.None? then Choice(index, socket, tag)
    else
      var existing := slot.value;
      if tag.Priority() < existing.tag.Priority() || (replaceSameTier && tag.Priority() == existing.tag.Priority())
      then existing.(socket := socket, tag := tag) else existing
  }

  /** Observed addresses come before listen addresses. */
  ghost predicate Phased(offers: seq<Offer>) {
    forall i, j :: 0 <= i < j < |offers| && offers[j].observed ==> offers[i].observed
  }

  lemma RecordedHolds(proven: Proof, offers: seq<Offer>, o: Offer, choice: Option<Choice>, index: nat)
    requires Phased(offers + [o])
    requires HoldsChosen(proven, offers, SlotFor(proven, o.socket), choice)
    ensures HoldsChosen(proven, offers + [o], SlotFor(proven, o.socket),
                        Some(Recorded(choice, o.socket, TagOf(proven, o.socket), o.observed, index)))
  {
    var slot, longer, n := SlotFor(proven, o.socket), offers + [o], |offers|;
    assert longer[n] == o;
    if choice.None? {
      assert IsChosen(proven, longer, slot, n);
    } else {
      var w: nat :| IsChosen(proven, offers, slot, w) && offers[w].socket == choice.value.socket;
      assert longer[w] == offers[w];
      var tag := TagOf(proven, o.socket);
      if tag.Priority() < choice.value.tag.Priority() || (o.observed && tag.Priority() == choice.value.tag.Priority()) {
        assert IsChosen(proven, longer, slot, n);
      } else {
        assert IsChosen(proven, longer, slot, w);
      }
    }
  }

  /** Seeing a selected address again changes nothing. */
  lemma RepeatHolds(proven: Proof, offers: seq<Offer>, o: Offer, c: Choice)
    requires Phased(offers + [o]) && c.socket == o.socket
    requires HoldsChosen(proven, offers, SlotFor(proven, o.socket), Some(c))
    ensures HoldsChosen(proven, offers + [o], SlotFor(proven, o.socket), Some(c))
  {
    RecordedHolds(proven, offers, o, Some(c), 0);
  }

  lemma OtherSlotHolds(proven: Proof, offers: seq<Offer>, o: Offer, slot: SlotName, choice: Option<Choice>)
    requires SlotFor(proven, o.socket) != slot && HoldsChosen(proven, offers, slot, choice)
    ensures HoldsChosen(proven, offers + [o], slot, choice)
  {
    var longer := offers + [o];
    if choice.Some? {
      var w: nat :| IsChosen(proven, offers, slot, w) && offers[w].socket == choice.value.socket;
      assert longer[w] == offers[w];
      assert IsChosen(proven, longer, slot, w);
    }
  }

  /** Offer `i` is the first one made to `slot`. */
  ghost predicate IsFirst(proven: Proof, offers: seq<Offer>, slot: SlotName, i: nat) {
    && i < |offers| && SlotFor(proven, offers[i].socket) == slot
    && forall j :: 0 <= j < i ==> SlotFor(proven, offers[j].socket) != slot
  }

  // ---------- the four slots together ----------

  datatype Slots = Slots(wan4: Option<Choice>, wan6: Option<Choice>, lan4: Option<Choice>, lan6: Option<Choice>) {
    function Get(name: SlotName): Option<Choice> {
      if name.lan then (if name.v4 then lan4 else lan6) else (if name.v4 then wan4 else wan6)
    }

    function Put(name: SlotName, c: Choice): Slots {
      if name.lan then (if name.v4 then this.(lan4 := Some(c)) else this.(lan6 := Some(c)))
      else if name.v4 then this.(wan4 := Some(c)) else this.(wan6 := Some(c))
    }

    /** Every slot holds the offer it should. */
    ghost predicate Hold(proven: Proof, offers: seq<Offer>) {
      forall name :: HoldsChosen(proven, offers, name, Get(name))
    }

    /** Slots are numbered, below `index`, in the order they were first offered something. */
    ghost predicate Numbered(proven: Proof, offers: seq<Offer>, index: nat) {
      && (forall a :: Get(a).Some? ==> Get(a).value.firstSeen < index)
      && forall a, b, i, j | IsFirst(proven, offers, a, i) && IsFirst(proven, offers, b, j)
                             && Get(a).Some? && Get(b).Some? ::
           Get(a).value.firstSeen < Get(b).value.firstSeen <==> i < j
    }

    ghost predicate Contains(socket: Socket) {
      exists name :: Get(name).Some? && Get(name).value.socket == socket
    }
  }

  lemma FirstAppend(proven: Proof, offers: seq<Offer>, o: Offer, slot: SlotName, i: nat)
    requires IsFirst(proven, offers + [o], slot, i)
    ensures i < |offers| ==> IsFirst(proven, offers, slot, i)
    ensures i == |offers| ==> SlotFor(proven, o.socket) == slot
                              && forall j :: 0 <= j < |offers| ==> SlotFor(proven, offers[j].socket) != slot
  {
    var longer := offers + [o];
    assert forall j :: 0 <= j < |offers| ==> longer[j] == offers[j];
  }

  lemma PutHolds(proven: Proof, offers: seq<Offer>, o: Offer, slots: Slots, index: nat)
    requires Phased(offers + [o]) && slots.Hold(proven, offers)
    ensures var name := SlotFor(proven, o.socket);
            slots.Put(name, Recorded(slots.Get(name), o.socket, TagOf(proven, o.socket), o.observed, index))
                 .Hold(proven, offers + [o])
  {
    var name := SlotFor(proven, o.socket);
    var c := Recorded(slots.Get(name), o.socket, TagOf(proven, o.socket), o.observed, index);
    forall other ensures HoldsChosen(proven, offers + [o], other, slots.Put(name, c).Get(other)) {
      if other == name {
        RecordedHolds(proven, offers, o, slots.Get(name), index);
      } else {
        OtherSlotHolds(proven, offers, o, other, slots.Get(other));
      }
    }
  }

  /** A filled slot was offered something before; an empty one was not. */
  lemma FilledIffOffered(proven: Proof, offers: seq<Offer>, slots: Slots, name: SlotName)
    requires slots.Hold(proven, offers)
    ensures slots.Get(name).Some? <==> exists i :: 0 <= i < |offers| && SlotFor(proven, offers[i].socket) == name
  {
    assert HoldsChosen(proven, offers, name, slots.Get(name));
    if slots.Get(name).Some? {
      var w: nat :| IsChosen(proven, offers, name, w) && offers[w].socket == slots.Get(name).value.socket;
    }
  }

  lemma PutGet(slots: Slots, name: SlotName, c: Choice, a: SlotName)
    ensures slots.Put(name, c).Get(a) == (if a == name then Some(c) else slots.Get(a))
  {
  }

  lemma PutNumbers(proven: Proof, offers: seq<Offer>, o: Offer, slots: Slots, index: nat)
    requires slots.Hold(proven, offers) && slots.Numbered(proven, offers, index)
    ensures var name := SlotFor(proven, o.socket);
            slots.Put(name, Recorded(slots.Get(name), o.socket, TagOf(proven, o.socket), o.observed, index))
                 .Numbered(proven, offers + [o], index + 1)
  {
    var name := SlotFor(proven, o.socket);
    var c := Recorded(slots.Get(name), o.socket, TagOf(proven, o.socket), o.observed, index);
    var put, longer := slots.Put(name, c), offers + [o];
    forall a ensures put.Get(a) == (if a == name then Some(c) else slots.Get(a)) { PutGet(slots, name, c, a); }
    forall a, b, i, j | IsFirst(proven, longer, a, i) && IsFirst(proven, longer, b, j)
                        && put.Get(a).Some? && put.Get(b).Some?
      ensures put.Get(a).value.firstSeen < put.Get(b).value.firstSeen <==> i < j
    {
      FirstAppend(proven, offers, o, a, i);
      FirstAppend(proven, offers, o, b, j);
      FilledIffOffered(proven, offers, slots, a);
      FilledIffOffered(proven, offers, slots, b);
    }
  }

  /** Offering a selected address again changes nothing. */
  lemma RepeatKeeps(proven: Proof, offers: seq<Offer>, o: Offer, slots: Slots, index: nat)
    requires Phased(offers + [o]) && slots.Contains(o.socket)
    requires slots.Hold(proven, offers) && slots.Numbered(proven, offers, index)
    ensures slots.Hold(proven, offers + [o]) && slots.Numbered(proven, offers + [o], index)
  {
    var name :| slots.Get(name).Some? && slots.Get(name).value.socket == o.socket;
    assert HoldsChosen(proven, offers, name, slots.Get(name));
    assert SlotFor(proven, o.socket) == name;
    forall other ensures HoldsChosen(proven, offers + [o], other, slots.Get(other)) {
      if other == name {
        RepeatHolds(proven, offers, o, slots.Get(name).value);
      } else {
        OtherSlotHolds(proven, offers, o, other, slots.Get(other));
      }
    }
    forall a, b, i, j | IsFirst(proven, offers + [o], a, i) && IsFirst(proven, offers + [o], b, j)
                        && slots.Get(a).Some? && slots.Get(b).Some?
      ensures slots.Get(a).value.firstSeen < slots.Get(b).value.firstSeen <==> i < j
    {
      FirstAppend(proven, offers, o, a, i);
      FirstAppend(proven, offers, o, b, j);
      FilledIffOffered(proven, offers, slots, a);
      FilledIffOffered(proven, offers, slots, b);
    }
  }

  // ---------- the order of the set ----------

  function Native(socket: Socket): MultiAddr { MultiAddr(Quic(socket), None) }

  function Entry(c: Choice): Typed { (Native(c.socket), c.tag) }

  function RelayEntry(relay: Option<Socket>): seq<Typed> {
    if relay.Some? then [(Native(relay.value), Relay)] else []
  }

  function Present(c: Option<Choice>): seq<Choice> { if c.Some? then [c.value] else [] }

  function Filled(slots: Slots): seq<Choice> {
    Present(slots.wan4) + Present(slots.wan6) + Present(slots.lan4) + Present(slots.lan6)
  }

  function AboveAll(choices: seq<Choice>): (bound: nat)
    ensures forall i :: 0 <= i < |choices| ==> choices[i].firstSeen < bound
  {
    if choices == [] then 0 else AboveAll(choices[1..]) + choices[0].firstSeen + 1
  }

  /** The pair (tier, first seen) as one number, for numbers seen below `bound`. */
  function RankIn(bound: nat): Choice -> nat {
    (c: Choice) => c.tag.Priority() * bound + c.firstSeen
  }

  function Ranked(slots: Slots): seq<Choice> {
    StableSort(Filled(slots), RankIn(AboveAll(Filled(slots))))
  }

  lemma RankIsLexicographic(bound: nat, c: Choice, d: Choice)
    requires c.firstSeen < bound && d.firstSeen < bound
    requires RankIn(bound)(c) <= RankIn(bound)(d)
    ensures c.tag.Priority() <= d.tag.Priority()
    ensures c.tag == d.tag ==> c.firstSeen <= d.firstSeen
  {
    match c.tag
    case Relay => match d.tag { case _ => }
    case Direct => match d.tag { case _ => }
    case Unverified => match d.tag { case _ => }
    case Lan => match d.tag { case _ => }
  }

  lemma FilledHas(slots: Slots, c: Choice)
    ensures c in Filled(slots) <==> exists name :: slots.Get(name) == Some(c)
  {
    assert slots.Get(SlotName(false, true)) == slots.wan4 && slots.Get(SlotName(false, false)) == slots.wan6;
    assert slots.Get(SlotName(true, true)) == slots.lan4 && slots.Get(SlotName(true, false)) == slots.lan6;
  }

  /** Slots hold different sockets, so each choice is listed once. */
  lemma FilledOnce(proven: Proof, offers: seq<Offer>, slots: Slots, c: Choice)
    requires slots.Hold(proven, offers)
    ensures multiset(Filled(slots))[c] <= 1
  {
    forall name | slots.Get(name).Some? ensures SlotFor(proven, slots.Get(name).value.socket) == name {
      HeldInSlot(proven, offers, slots, name);
    }
    assert slots.Get(SlotName(false, true)) == slots.wan4 && slots.Get(SlotName(false, false)) == slots.wan6;
    assert slots.Get(SlotName(true, true)) == slots.lan4 && slots.Get(SlotName(true, false)) == slots.lan6;
    var a, b, c', d := Present(slots.wan4), Present(slots.wan6), Present(slots.lan4), Present(slots.lan6);
    assert multiset(Filled(slots)) == multiset(a) + multiset(b) + multiset(c') + multiset(d);
    PresentOnce(slots.wan4, c);
    PresentOnce(slots.wan6, c);
    PresentOnce(slots.lan4, c);
    PresentOnce(slots.lan6, c);
  }

  lemma PresentOnce(choice: Option<Choice>, c: Choice)
    ensures multiset(Present(choice))[c] == if choice == Some(c) then 1 else 0
  {
  }

  /** A held socket was offered, and belongs to the slot that holds it. */
  lemma HeldInSlot(proven: Proof, offers: seq<Offer>, slots: Slots, name: SlotName)
    requires slots.Hold(proven, offers) && slots.Get(name).Some?
    ensures var c := slots.Get(name).value;
            && SlotFor(proven, c.socket) == name && c.tag == TagOf(proven, c.socket)
            && exists w: nat :: w < |offers| && offers[w].socket == c.socket
  {
    assert HoldsChosen(proven, offers, name, slots.Get(name));
    var w: nat :| IsChosen(proven, offers, name, w) && offers[w].socket == slots.Get(name).value.socket;
  }

  lemma RankedOnce(proven: Proof, offers: seq<Offer>, slots: Slots)
    requires slots.Hold(proven, offers)
    ensures NoRepeats(Ranked(slots))
  {
    var filled := Filled(slots);
    StableSortSorts(filled, RankIn(AboveAll(filled)));
    forall c ensures multiset(Ranked(slots))[c] <= 1 { FilledOnce(proven, offers, slots, c); }
    DistinctFromCount(Ranked(slots));
  }

  /** What is listed after the relay: every filled slot once, better tiers first,
      and within a tier the slot that was offered something first. */
  lemma RankedOrder(proven: Proof, offers: seq<Offer>, slots: Slots, index: nat)
    requires slots.Hold(proven, offers) && slots.Numbered(proven, offers, index)
    ensures forall c :: c in Ranked(slots) <==> exists name :: slots.Get(name) == Some(c)
    ensures forall i, j :: 0 <= i < j < |Ranked(slots)| ==> Before(proven, offers, Ranked(slots)[i], Ranked(slots)[j])
  {
    var filled, ranked := Filled(slots), Ranked(slots);
    var bound := AboveAll(filled);
    StableSortSorts(filled, RankIn(bound));
    forall c ensures c in ranked <==> exists name :: slots.Get(name) == Some(c) { FilledHas(slots, c); }
    RankedOnce(proven, offers, slots);
    forall i, j | 0 <= i < j < |ranked| ensures Before(proven, offers, ranked[i], ranked[j]) {
      assert ranked[i] in filled && ranked[j] in filled;
      RankIsLexicographic(bound, ranked[i], ranked[j]);
      RankedPair(proven, offers, slots, index, ranked[i], ranked[j]);
    }
  }

  ghost predicate Before(proven: Proof, offers: seq<Offer>, c: Choice, d: Choice) {
    && c.socket != d.socket
    && c.tag.Priority() <= d.tag.Priority()
    && (c.tag == d.tag ==>
          forall p: nat, q: nat | IsFirst(proven, offers, SlotFor(proven, c.socket), p)
                                  && IsFirst(proven, offers, SlotFor(proven, d.socket), q) :: p < q)
  }

  lemma RankedPair(proven: Proof, offers: seq<Offer>, slots: Slots, index: nat, c: Choice, d: Choice)
    requires slots.Hold(proven, offers) && slots.Numbered(proven, offers, index)
    requires c != d && c in Filled(slots) && d in Filled(slots)
    requires c.tag.Priority() <= d.tag.Priority() && (c.tag == d.tag ==> c.firstSeen <= d.firstSeen)
    ensures Before(proven, offers, c, d)
  {
    FilledHas(slots, c);
    FilledHas(slots, d);
    var a :| slots.Get(a) == Some(c);
    var b :| slots.Get(b) == Some(d);
    HeldInSlot(proven, offers, slots, a);
    HeldInSlot(proven, offers, slots, b);
    forall p: nat, q: nat | IsFirst(proven, offers, a, p) && IsFirst(proven, offers, b, q) && c.tag == d.tag
      ensures p < q
    {
      assert d.firstSeen < c.firstSeen <==> q < p;
    }
  }

  // ---------- building the set ----------

  class SelfAddressSet {
    var relay: Option<Socket>
    var wan4: Option<Choice>
    var wan6: Option<Choice>
    var lan4: Option<Choice>
    var lan6: Option<Choice>

    function Chosen(): Slots
      reads this
    {
      Slots(wan4, wan6, lan4, lan6)
    }

    constructor (relay: Option<Socket>)
      ensures this.relay == relay && Chosen() == Slots(None, None, None, None)
    {
      this.relay := relay;
      wan4, wan6, lan4, lan6 := None, None, None, None;
    }

    method ContainsSelected(socket: Socket) returns (found: bool)
      ensures found <==> relay == Some(socket) || Chosen().Contains(socket)
    {
      found := || relay == Some(socket)
               || (wan4.Some? && wan4.value.socket == socket)
               || (wan6.Some? && wan6.value.socket == socket)
               || (lan4.Some? && lan4.value.socket == socket)
               || (lan6.Some? && lan6.value.socket == socket);
      assert Chosen().Get(SlotName(false, true)) == wan4 && Chosen().Get(SlotName(false, false)) == wan6;
      assert Chosen().Get(SlotName(true, true)) == lan4 && Chosen().Get(SlotName(true, false)) == lan6;
    }

    method RecordNonRelayChoice(socket: Socket, tag: AddressType, replaceSameTier: bool, index: nat)
      modifies this`wan4, this`wan6, this`lan4, this`lan6
      ensures var name := SlotName(tag == Lan, socket.ip.V4?);
              Chosen() ==
                old(Chosen()).Put(name, Recorded(old(Chosen()).Get(name), socket, tag, replaceSameTier, index))
    {
      if tag == Lan && socket.ip.V4? {
        lan4 := Some(Recorded(lan4, socket, tag, replaceSameTier, index));
      } else if tag == Lan {
        lan6 := Some(Recorded(lan6, socket, tag, replaceSameTier, index));
      } else if socket.ip.V4? {
        wan4 := Some(Recorded(wan4, socket, tag, replaceSameTier, index));
      } else {
        wan6 := Some(Recorded(wan6, socket, tag, replaceSameTier, index));
      }
    }

    /** One input; `offers` is what the inputs before it contributed. */
    method RecordSelfAddress(proven: Proof, socket: Socket, observed: bool, index: nat, ghost offers: seq<Offer>)
      returns (next: nat)
      requires Chosen().Hold(proven, offers) && Chosen().Numbered(proven, offers, index)
      requires Phased(offers) && (observed ==> forall i :: 0 <= i < |offers| ==> offers[i].observed)
      modifies this`wan4, this`wan6, this`lan4, this`lan6
      ensures var extended := offers + Accepted(relay, socket, observed);
              && Chosen().Hold(proven, extended) && Chosen().Numbered(proven, extended, next) && Phased(extended)
    {
      next := index;
      var normalized := CanonicalSocket(socket);
      if socket.ip.IsUnspecified() || socket.port == 0 || relay == Some(normalized) {
        assert offers + [] == offers;
        return;
      }
      ghost var o := Offer(normalized, observed);
      assert Phased(offers + [o]);
      var selected := ContainsSelected(normalized);
      if selected {
        RepeatKeeps(proven, offers, o, Chosen(), index);
        return;
      }
      PutHolds(proven, offers, o, Chosen(), index);
      PutNumbers(proven, offers, o, Chosen(), index);
      RecordNonRelayChoice(normalized, TagOf(proven, normalized), observed, index);
      next := index + 1;
    }

    /** The observed addresses, in order. */
    method RecordObserved(proven: Proof, observed: seq<Socket>) returns (index: nat)
      requires Chosen() == Slots(None, None, None, None)
      modifies this`wan4, this`wan6, this`lan4, this`lan6
      ensures var offers := Offers(relay, observed, true);
              Chosen().Hold(proven, offers) && Chosen().Numbered(proven, offers, index) && Phased(offers)
    {
      index := 0;
      for i := 0 to |observed|
        invariant var offers := Offers(relay, observed[..i], true);
                  Chosen().Hold(proven, offers) && Chosen().Numbered(proven, offers, index) && Phased(offers)
      {
        OffersPhase(relay, observed[..i], true);
        assert observed[..i + 1][..i] == observed[..i];
        index := RecordSelfAddress(proven, observed[i], true, index, Offers(relay, observed[..i], true));
      }
      assert observed[..|observed|] == observed;
    }

    /** The listen addresses after them; those of a transport we cannot dial are skipped. */
    method RecordListen(proven: Proof, listen: seq<MultiAddr>, start: nat, ghost seen: seq<Offer>) returns (index: nat)
      requires Chosen().Hold(proven, seen) && Chosen().Numbered(proven, seen, start) && Phased(seen)
      modifies this`wan4, this`wan6, this`lan4, this`lan6
      ensures var offers := seen + Offers(relay, Dialable(listen), false);
              Chosen().Hold(proven, offers) && Chosen().Numbered(proven, offers, index)
    {
      index := start;
      assert seen + [] == seen;
      for i := 0 to |listen|
        invariant var offers := seen + Offers(relay, Dialable(listen[..i]), false);
                  Chosen().Hold(proven, offers) && Chosen().Numbered(proven, offers, index) && Phased(offers)
      {
        var socket := listen[i].DialableSocket();
        DialableSnoc(relay, listen, i, seen);
        if socket.Some? {
          ghost var offers := Offers(relay, Dialable(listen[..i]), false);
          index := RecordSelfAddress(proven, socket.value, false, index, seen + offers);
        }
      }
      assert listen[..|listen|] == listen;
    }

    /** Relay first, then the chosen addresses by tier and by when their slot was first filled. */
    method IntoTypedVec() returns (typed: seq<Typed>)
      ensures typed == RelayEntry(relay) + Mapped(Ranked(Chosen()), Entry)
    {
      typed := if relay.Some? then [(Native(relay.value), Relay)] else [];
      var choices := Ranked(Chosen());
      ghost var first := typed;
      for i := 0 to |choices|
        invariant typed == first + Mapped(choices[..i], Entry)
      {
        MappedSnoc(choices, Entry, i);
        typed := typed + [(Native(choices[i].socket), choices[i].tag)];
      }
      assert choices[..|choices|] == choices;
    }
  }

  function Dialable(listen: seq<MultiAddr>): seq<Socket> {
    if listen == [] then []
    else
      var last := listen[|listen| - 1].DialableSocket();
      Dialable(listen[..|listen| - 1]) + if last.Some? then [last.value] else []
  }

  lemma DialableSnoc(relay: Option<Socket>, listen: seq<MultiAddr>, i: nat, seen: seq<Offer>)
    requires i < |listen|
    ensures var before := Offers(relay, Dialable(listen[..i]), false);
            var after := Offers(relay, Dialable(listen[..i + 1]), false);
            match listen[i].DialableSocket()
            case None => after == before
            case Some(socket) => (seen + before) + Accepted(relay, socket, false) == seen + after
  {
    assert listen[..i + 1][..i] == listen[..i];
    var before := Dialable(listen[..i]);
    match listen[i].DialableSocket()
    case None => assert Dialable(listen[..i + 1]) == before;
    case Some(socket) => OffersSnoc(relay, before, socket, false);
  }

  lemma OffersSnoc(relay: Option<Socket>, sockets: seq<Socket>, socket: Socket, observed: bool)
    ensures Offers(relay, sockets + [socket], observed)
         == Offers(relay, sockets, observed) + Accepted(relay, socket, observed)
  {
    assert (sockets + [socket])[..|sockets|] == sockets;
  }

  lemma {:induction false} OffersPhase(relay: Option<Socket>, sockets: seq<Socket>, observed: bool)
    ensures forall i :: 0 <= i < |Offers(relay, sockets, observed)| ==>
              Offers(relay, sockets, observed)[i].observed == observed
    decreases |sockets|
  {
    if sockets != [] { OffersPhase(relay, sockets[..|sockets| - 1], observed); }
  }

  function Inputs(relay: Option<Socket>, observed: seq<Socket>, listen: seq<MultiAddr>): seq<Offer> {
    Offers(relay, observed, true) + Offers(relay, Dialable(listen), false)
  }

  method BuildSelfAddressSet(observed: seq<Socket>, listen: seq<MultiAddr>, relay: Option<Socket>, proven: Proof)
    returns (s: SelfAddressSet, ghost index: nat)
    ensures fresh(s)
    ensures s.relay == Normalized(relay)
    ensures s.Chosen().Hold(proven, Inputs(s.relay, observed, listen))
    ensures s.Chosen().Numbered(proven, Inputs(s.relay, observed, listen), index)
  {
    s := new SelfAddressSet(Normalized(relay));
    var next := s.RecordObserved(proven, observed);
    next := s.RecordListen(proven, listen, next, Offers(s.relay, observed, true));
    index := next;
  }

  function Normalized(relay: Option<Socket>): Option<Socket> {
    if relay.Some? then Some(CanonicalSocket(relay.value)) else None
  }

  /** What a node says of itself: at most five different addresses, the relay's first, then every filled
      slot by tier and, within a tier, by which slot was offered something first. */
  ghost predicate IsAddressSet(proven: Proof, observed: seq<Socket>, listen: seq<MultiAddr>, relay: Option<Socket>,
                                typed: seq<Typed>, slots: Slots)
  {
    var offers := Inputs(Normalized(relay), observed, listen);
    var ranked := Ranked(slots);
    && |typed| <= MAX_SELF_QUIC_ADDRESSES
    && (forall i, j :: 0 <= i < j < |typed| ==> typed[i].0 != typed[j].0)
    && slots.Hold(proven, offers)
    && typed == RelayEntry(Normalized(relay)) + Mapped(ranked, Entry)
    && (forall c :: c in ranked <==> exists name :: slots.Get(name) == Some(c))
    && (forall i, j :: 0 <= i < j < |ranked| ==> Before(proven, offers, ranked[i], ranked[j]))
  }

  method ListedAddresses(observed: seq<Socket>, listen: seq<MultiAddr>, relay: Option<Socket>, proven: Proof)
    returns (typed: seq<Typed>, ghost slots: Slots)
    ensures IsAddressSet(proven, observed, listen, relay, typed, slots) && TagsTell(proven, relay, typed)
    ensures HasWildcard(typed) <==> WildcardGetsThrough(proven, observed, listen, relay)
    ensures HasZeroPort(typed) <==> relay.Some? && relay.value.port == 0
  {
    var s, index := BuildSelfAddressSet(observed, listen, relay, proven);
    typed := s.IntoTypedVec();
    slots := s.Chosen();
    RankedOrder(proven, Inputs(s.relay, observed, listen), slots, index);
    ListedOnce(proven, s.relay, observed, listen, slots);
    ListedTags(proven, observed, listen, relay, typed, slots);
    WildcardListedIff(proven, observed, listen, relay, typed, slots);
    ZeroPortListedIff(proven, observed, listen, relay, typed, slots);
  }

  /** A listed address and its tag, told of the address alone: the relay's own as `Relay`, and of the others
      `Lan` for a local address, `Direct` for a proven one, `Unverified` for the rest. */
  ghost predicate TagTells(proven: Proof, relay: Option<Socket>, t: Typed) {
    && t.0.transport.Quic? && t.0.owner.None?
    && var socket := t.0.transport.socket;
       var own := relay.Some? && socket == CanonicalSocket(relay.value);
       && (t.1 == Relay <==> own)
       && (t.1 == Lan <==> !own && IsLanIp(socket.ip))
       && (t.1 == Direct <==> !own && !IsLanIp(socket.ip) && proven(socket))
       && (t.1 == Unverified <==> !own && !IsLanIp(socket.ip) && !proven(socket))
  }

  ghost predicate TagsTell(proven: Proof, relay: Option<Socket>, typed: seq<Typed>) {
    forall t :: t in typed ==> TagTells(proven, relay, t)
  }

  lemma HeldTag(proven: Proof, observed: seq<Socket>, listen: seq<MultiAddr>, relay: Option<Socket>, slots: Slots,
                name: SlotName)
    requires slots.Hold(proven, Inputs(Normalized(relay), observed, listen)) && slots.Get(name).Some?
    ensures TagTells(proven, relay, Entry(slots.Get(name).value))
  {
    HeldIsNotRelay(proven, Normalized(relay), observed, listen, slots, name);
    HeldInSlot(proven, Inputs(Normalized(relay), observed, listen), slots, name);
  }

  lemma RankedTag(proven: Proof, observed: seq<Socket>, listen: seq<MultiAddr>, relay: Option<Socket>, slots: Slots,
                  c: Choice)
    requires slots.Hold(proven, Inputs(Normalized(relay), observed, listen)) && c in Ranked(slots)
    ensures TagTells(proven, relay, Entry(c))
  {
    StableSortSorts(Filled(slots), RankIn(AboveAll(Filled(slots))));
    FilledHas(slots, c);
    var name :| slots.Get(name) == Some(c);
    HeldTag(proven, observed, listen, relay, slots, name);
  }

  lemma RelayTag(proven: Proof, relay: Option<Socket>, t: Typed)
    requires t in RelayEntry(Normalized(relay))
    ensures TagTells(proven, relay, t)
  {
  }

  lemma MappedHas(head: seq<Typed>, choices: seq<Choice>, t: Typed)
    requires t in head + Mapped(choices, Entry)
    ensures t in head || exists c :: c in choices && t == Entry(c)
  {
    if t !in head {
      var i :| 0 <= i < |choices| && Mapped(choices, Entry)[i] == t;
      assert choices[i] in choices;
    }
  }

  lemma ListedTags(proven: Proof, observed: seq<Socket>, listen: seq<MultiAddr>, relay: Option<Socket>,
                   typed: seq<Typed>, slots: Slots)
    requires slots.Hold(proven, Inputs(Normalized(relay), observed, listen))
    requires typed == RelayEntry(Normalized(relay)) + Mapped(Ranked(slots), Entry)
    ensures TagsTell(proven, relay, typed)
  {
    var ranked, head := Ranked(slots), RelayEntry(Normalized(relay));
    forall t | t in typed ensures TagTells(proven, relay, t) {
      MappedHas(head, ranked, t);
      if t in head {
        RelayTag(proven, relay, t);
      } else {
        var c :| c in ranked && t == Entry(c);
        RankedTag(proven, observed, listen, relay, slots, c);
      }
    }
  }

  /** What is offered to the slots: each given socket with a port that is no wildcard and not the relay's,
      normalized, in the order given. */
  lemma {:induction false} OffersAre(relay: Option<Socket>, sockets: seq<Socket>, observed: bool)
    ensures Offers(relay, sockets, observed) == FilterMap(sockets, Usable(relay, observed))
    decreases |sockets|
  {
    if sockets != [] { OffersAre(relay, sockets[..|sockets| - 1], observed); }
  }

  function Usable(relay: Option<Socket>, observed: bool): Socket -> Option<Offer> {
    (s: Socket) =>
      if s.port != 0 && !s.ip.IsUnspecified() && relay != Some(CanonicalSocket(s))
      then Some(Offer(CanonicalSocket(s), observed)) else None
  }

  /** Of the listen addresses, the native ones, in the order given. */
  lemma {:induction false} DialableAre(listen: seq<MultiAddr>)
    ensures Dialable(listen) == FilterMap(listen, NativeSocket)
    decreases |listen|
  {
    if listen != [] { DialableAre(listen[..|listen| - 1]); }
  }

  function NativeSocket(a: MultiAddr): Option<Socket> {
    match a.transport
    case Quic(socket) => Some(socket)
    case _ => None
  }

  lemma {:induction false} RelayNotOffered(relay: Option<Socket>, sockets: seq<Socket>, observed: bool)
    ensures forall i :: 0 <= i < |Offers(relay, sockets, observed)| ==>
              relay != Some(Offers(relay, sockets, observed)[i].socket)
    decreases |sockets|
  {
    if sockets != [] { RelayNotOffered(relay, sockets[..|sockets| - 1], observed); }
  }

  lemma HeldIsNotRelay(proven: Proof, relay: Option<Socket>, observed: seq<Socket>, listen: seq<MultiAddr>,
                       slots: Slots, name: SlotName)
    requires slots.Hold(proven, Inputs(relay, observed, listen)) && slots.Get(name).Some?
    ensures relay != Some(slots.Get(name).value.socket) && slots.Get(name).value.tag != Relay
  {
    HeldInSlot(proven, Inputs(relay, observed, listen), slots, name);
    RelayNotOffered(relay, observed, true);
    RelayNotOffered(relay, Dialable(listen), false);
  }

  lemma ListedOnce(proven: Proof, relay: Option<Socket>, observed: seq<Socket>, listen: seq<MultiAddr>, slots: Slots)
    requires slots.Hold(proven, Inputs(relay, observed, listen))
    ensures |Ranked(slots)| <= 4
    ensures forall i :: 0 <= i < |Ranked(slots)| ==>
              relay != Some(Ranked(slots)[i].socket) && Ranked(slots)[i].tag != Relay
  {
    var filled, ranked := Filled(slots), Ranked(slots);
    StableSortSorts(filled, RankIn(AboveAll(filled)));
    forall i | 0 <= i < |ranked| ensures relay != Some(ranked[i].socket) && ranked[i].tag != Relay {
      assert ranked[i] in filled;
      FilledHas(slots, ranked[i]);
      var name :| slots.Get(name) == Some(ranked[i]);
      HeldIsNotRelay(proven, relay, observed, listen, slots, name);
    }
  }

  // ---------- placeholders ----------

  /** `::ffff:0.0.0.0`: not the wildcard as written, but the IPv4 wildcard once normalized. */
  predicate IsMappedWildcard(ip: Ip) { ip == V6(0xffff * TWO_32) }

  lemma UnspecifiedOnceCanonical(ip: Ip)
    ensures Canonical(ip).IsUnspecified() <==> ip.IsUnspecified() || IsMappedWildcard(ip)
    ensures IsMappedWildcard(ip) ==> Canonical(ip) == V4(0)
  {
  }

  ghost predicate HasWildcard(typed: seq<Typed>) {
    exists i :: 0 <= i < |typed| && typed[i].0.transport.Quic? && typed[i].0.transport.socket.ip.IsUnspecified()
  }

  ghost predicate HasZeroPort(typed: seq<Typed>) {
    exists i :: 0 <= i < |typed| && typed[i].0.transport.Quic? && typed[i].0.transport.socket.port == 0
  }

  /** The sockets behind `Offers`, as they were given. */
  function Givens(relay: Option<Socket>, sockets: seq<Socket>): seq<Socket> {
    if sockets == [] then []
    else
      var n := |sockets| - 1;
      Givens(relay, sockets[..n]) + if Accepted(relay, sockets[n], true) == [] then [] else [sockets[n]]
  }

  function GivenInputs(relay: Option<Socket>, observed: seq<Socket>, listen: seq<MultiAddr>): seq<Socket> {
    Givens(relay, observed) + Givens(relay, Dialable(listen))
  }

  /** An offer is a given socket, normalized; what is given is no wildcard as written and has a port. */
  predicate Backs(given: Socket, offer: Offer) {
    offer.socket == CanonicalSocket(given) && !given.ip.IsUnspecified() && given.port != 0
  }

  ghost predicate BacksAll(givens: seq<Socket>, offers: seq<Offer>) {
    |givens| == |offers| && forall i :: 0 <= i < |offers| ==> Backs(givens[i], offers[i])
  }

  lemma {:induction false} GivensBack(relay: Option<Socket>, sockets: seq<Socket>, observed: bool)
    ensures BacksAll(Givens(relay, sockets), Offers(relay, sockets, observed))
    decreases |sockets|
  {
    if sockets != [] { GivensBack(relay, sockets[..|sockets| - 1], observed); }
  }

  lemma GivenInputsBack(relay: Option<Socket>, observed: seq<Socket>, listen: seq<MultiAddr>)
    ensures BacksAll(GivenInputs(relay, observed, listen), Inputs(relay, observed, listen))
  {
    GivensBack(relay, observed, true);
    GivensBack(relay, Dialable(listen), false);
  }

  const WAN_V4: SlotName := SlotName(false, true)

  /** The relay is a wildcard, which nobody tests; or the offer that wins the IPv4 WAN slot was given
      as the mapped wildcard, which the test before normalization lets pass. */
  ghost predicate WildcardGetsThrough(
      proven: Proof, observed: seq<Socket>, listen: seq<MultiAddr>, relay: Option<Socket>)
  {
    var offers := Inputs(Normalized(relay), observed, listen);
    || (relay.Some? && (relay.value.ip.IsUnspecified() || IsMappedWildcard(relay.value.ip)))
    || exists w: nat :: IsChosen(proven, offers, WAN_V4, w) && w < |GivenInputs(Normalized(relay), observed, listen)|
                        && IsMappedWildcard(GivenInputs(Normalized(relay), observed, listen)[w].ip)
  }

  lemma ChosenUnique(proven: Proof, offers: seq<Offer>, slot: SlotName, v: nat, w: nat)
    requires IsChosen(proven, offers, slot, v) && IsChosen(proven, offers, slot, w)
    ensures v == w
  {
  }

  /** The socket a slot holds is the chosen one. */
  lemma HeldIsChosen(proven: Proof, offers: seq<Offer>, slots: Slots, name: SlotName, w: nat)
    requires slots.Hold(proven, offers) && IsChosen(proven, offers, name, w)
    ensures slots.Get(name).Some? && slots.Get(name).value.socket == offers[w].socket
  {
    FilledIffOffered(proven, offers, slots, name);
    assert HoldsChosen(proven, offers, name, slots.Get(name));
    var v: nat :| IsChosen(proven, offers, name, v) && offers[v].socket == slots.Get(name).value.socket;
    ChosenUnique(proven, offers, name, v, w);
  }

  /** A listed address is the relay's, or the socket some slot holds. */
  lemma ListedIsHeld(relay: Option<Socket>, typed: seq<Typed>, slots: Slots, socket: Socket)
    requires typed == RelayEntry(relay) + Mapped(Ranked(slots), Entry)
    requires forall c :: c in Ranked(slots) <==> exists name :: slots.Get(name) == Some(c)
    ensures (exists i :: 0 <= i < |typed| && typed[i].0 == Native(socket)) <==>
            relay == Some(socket) || exists name :: slots.Get(name).Some? && slots.Get(name).value.socket == socket
  {
    var ranked, first := Ranked(slots), |RelayEntry(relay)|;
    forall i | 0 <= i < |typed| && typed[i].0 == Native(socket)
      ensures relay == Some(socket) || exists name :: slots.Get(name).Some? && slots.Get(name).value.socket == socket
    {
      if first <= i {
        assert typed[i] == Entry(ranked[i - first]) && ranked[i - first] in ranked;
      }
    }
    if relay == Some(socket) { assert typed[0].0 == Native(socket); }
    forall name | slots.Get(name).Some? && slots.Get(name).value.socket == socket
      ensures exists i :: 0 <= i < |typed| && typed[i].0 == Native(socket)
    {
      var c := slots.Get(name).value;
      assert c in ranked;
      var k :| 0 <= k < |ranked| && ranked[k] == c;
      assert typed[first + k].0 == Native(socket);
    }
  }

  lemma ListedAreNative(relay: Option<Socket>, typed: seq<Typed>, slots: Slots, i: nat)
    requires typed == RelayEntry(relay) + Mapped(Ranked(slots), Entry) && i < |typed|
    ensures typed[i].0.transport.Quic? && typed[i].0 == Native(typed[i].0.transport.socket)
  {
  }

  /** What a slot holds comes from a given socket that is no wildcard as written and has a port. */
  lemma HeldIsGiven(proven: Proof, observed: seq<Socket>, listen: seq<MultiAddr>, relay: Option<Socket>,
                    slots: Slots, name: SlotName) returns (w: nat)
    requires slots.Hold(proven, Inputs(relay, observed, listen)) && slots.Get(name).Some?
    ensures IsChosen(proven, Inputs(relay, observed, listen), name, w)
    ensures w < |GivenInputs(relay, observed, listen)|
    ensures var given, socket := GivenInputs(relay, observed, listen)[w], slots.Get(name).value.socket;
            && socket == CanonicalSocket(given) && !given.ip.IsUnspecified() && given.port != 0
            && SlotFor(proven, socket) == name
  {
    var offers := Inputs(relay, observed, listen);
    GivenInputsBack(relay, observed, listen);
    assert HoldsChosen(proven, offers, name, slots.Get(name));
    w :| IsChosen(proven, offers, name, w) && offers[w].socket == slots.Get(name).value.socket;
    assert Backs(GivenInputs(relay, observed, listen)[w], offers[w]);
  }

  /** A relay heads the set. */
  lemma RelayHeads(proven: Proof, observed: seq<Socket>, listen: seq<MultiAddr>, relay: Socket,
                   typed: seq<Typed>, slots: Slots)
    requires IsAddressSet(proven, observed, listen, Some(relay), typed, slots)
    ensures typed != [] && typed[0] == (Native(CanonicalSocket(relay)), Relay)
  {
  }

  /** A wildcard is listed exactly when one gets through in one of the two ways. */
  lemma WildcardListedIff(proven: Proof, observed: seq<Socket>, listen: seq<MultiAddr>, relay: Option<Socket>,
                          typed: seq<Typed>, slots: Slots)
    requires IsAddressSet(proven, observed, listen, relay, typed, slots)
    ensures HasWildcard(typed) <==> WildcardGetsThrough(proven, observed, listen, relay)
  {
    if HasWildcard(typed) { ListedGetsThrough(proven, observed, listen, relay, typed, slots); }
    if WildcardGetsThrough(proven, observed, listen, relay) {
      var socket := ThroughIsHeld(proven, observed, listen, relay, slots);
      ListedIsHeld(Normalized(relay), typed, slots, socket);
      ListedWildcard(typed, socket);
    }
  }

  lemma ListedWildcard(typed: seq<Typed>, socket: Socket)
    requires socket.ip.IsUnspecified() && exists i :: 0 <= i < |typed| && typed[i].0 == Native(socket)
    ensures HasWildcard(typed)
  {
    var i :| 0 <= i < |typed| && typed[i].0 == Native(socket);
    assert typed[i].0.transport.Quic?;
  }

  lemma ListedGetsThrough(proven: Proof, observed: seq<Socket>, listen: seq<MultiAddr>, relay: Option<Socket>,
                          typed: seq<Typed>, slots: Slots)
    requires IsAddressSet(proven, observed, listen, relay, typed, slots) && HasWildcard(typed)
    ensures WildcardGetsThrough(proven, observed, listen, relay)
  {
    var i: nat :| i < |typed| && typed[i].0.transport.Quic? && typed[i].0.transport.socket.ip.IsUnspecified();
    var r, socket := Normalized(relay), typed[i].0.transport.socket;
    ListedAreNative(r, typed, slots, i);
    ListedIsHeld(r, typed, slots, socket);
    if r == Some(socket) {
      UnspecifiedOnceCanonical(relay.value.ip);
    } else {
      var name :| slots.Get(name).Some? && slots.Get(name).value.socket == socket;
      WildcardIsChosen(proven, observed, listen, relay, slots, name);
    }
  }

  lemma WildcardIsChosen(proven: Proof, observed: seq<Socket>, listen: seq<MultiAddr>, relay: Option<Socket>,
                         slots: Slots, name: SlotName)
    requires slots.Hold(proven, Inputs(Normalized(relay), observed, listen))
    requires slots.Get(name).Some? && slots.Get(name).value.socket.ip.IsUnspecified()
    ensures WildcardGetsThrough(proven, observed, listen, relay)
  {
    var w := HeldIsGiven(proven, observed, listen, Normalized(relay), slots, name);
    UnspecifiedOnceCanonical(GivenInputs(Normalized(relay), observed, listen)[w].ip);
  }

  lemma ThroughIsHeld(proven: Proof, observed: seq<Socket>, listen: seq<MultiAddr>, relay: Option<Socket>, slots: Slots)
    returns (socket: Socket)
    requires slots.Hold(proven, Inputs(Normalized(relay), observed, listen))
    requires WildcardGetsThrough(proven, observed, listen, relay)
    ensures socket.ip.IsUnspecified()
    ensures Normalized(relay) == Some(socket)
            || exists name :: slots.Get(name).Some? && slots.Get(name).value.socket == socket
  {
    var r := Normalized(relay);
    if relay.Some? && (relay.value.ip.IsUnspecified() || IsMappedWildcard(relay.value.ip)) {
      UnspecifiedOnceCanonical(relay.value.ip);
      socket := r.value;
    } else {
      var offers, givens := Inputs(r, observed, listen), GivenInputs(r, observed, listen);
      var w: nat :| IsChosen(proven, offers, WAN_V4, w) && w < |givens| && IsMappedWildcard(givens[w].ip);
      GivenInputsBack(r, observed, listen);
      assert Backs(givens[w], offers[w]);
      UnspecifiedOnceCanonical(givens[w].ip);
      HeldIsChosen(proven, offers, slots, WAN_V4, w);
      socket := offers[w].socket;
    }
  }

  /** A zero port is listed exactly when it is the relay's: everything else is tested. */
  lemma ZeroPortListedIff(proven: Proof, observed: seq<Socket>, listen: seq<MultiAddr>, relay: Option<Socket>,
                             typed: seq<Typed>, slots: Slots)
    requires IsAddressSet(proven, observed, listen, relay, typed, slots)
    ensures HasZeroPort(typed) <==> relay.Some? && relay.value.port == 0
  {
    var r := Normalized(relay);
    if HasZeroPort(typed) {
      var i :| 0 <= i < |typed| && typed[i].0.transport.Quic? && typed[i].0.transport.socket.port == 0;
      var socket := typed[i].0.transport.socket;
      ListedAreNative(r, typed, slots, i);
      ListedIsHeld(r, typed, slots, socket);
      if r != Some(socket) {
        var name :| slots.Get(name).Some? && slots.Get(name).value.socket == socket;
        var w := HeldIsGiven(proven, observed, listen, r, slots, name);
      }
    }
    if relay.Some? && relay.value.port == 0 {
      ListedIsHeld(r, typed, slots, r.value);
    }
  }

  // ---------- inputs on which the rule fails ----------

  /** The mapped wildcard, observed: it is listed as a direct or unverified address. */
  lemma MappedWildcardIsListed(proven: Proof, typed: seq<Typed>, slots: Slots)
    requires IsAddressSet(proven, [Socket(V6(0xffff * TWO_32), 1)], [], None, typed, slots)
    ensures HasWildcard(typed)
  {
    var given := Socket(V6(0xffff * TWO_32), 1);
    assert [given][..0] == [];
    assert Offers(None, [given], true) == Offers(None, [], true) + Accepted(None, given, true);
    var offers := Inputs(None, [given], []);
    assert offers == [Offer(Socket(V4(0), 1), true)];
    assert IsChosen(proven, offers, WAN_V4, 0);
    assert GivenInputs(None, [given], []) == [given];
    WildcardListedIff(proven, [given], [], None, typed, slots);
  }

  /** A relay without address or port, and nothing else: it is listed as it is. */
  lemma WildcardRelayIsListed(proven: Proof, typed: seq<Typed>, slots: Slots)
    requires IsAddressSet(proven, [], [], Some(Socket(V4(0), 0)), typed, slots)
    ensures typed[..1] == [(Native(Socket(V4(0), 0)), Relay)]
    ensures HasWildcard(typed) && HasZeroPort(typed)
  {
    WildcardListedIff(proven, [], [], Some(Socket(V4(0), 0)), typed, slots);
    ZeroPortListedIff(proven, [], [], Some(Socket(V4(0), 0)), typed, slots);
  }
}
