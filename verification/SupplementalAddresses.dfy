/** Supplemental endpoints a node registers beside its own address set, and
    the address records it publishes for both. */
module SupplementalAddresses {
  import opened Wrappers
  import opened Keys
  import opened Addresses
  import opened Sorting
  import opened SelfAddresses

  const MAX_TRANSPORT_ADDRESS_PAYLOAD: nat := 2 * 1024
  const MAX_TRANSPORT_ADDRESS_RECORDS: nat := 16
  const MAX_SUPPLEMENTAL_SELF_ADDRESSES: nat := MAX_TRANSPORT_ADDRESS_RECORDS - MAX_SELF_QUIC_ADDRESSES

  /** The wire codec of one address; `None` where encoding fails. */
  type Codec = MultiAddr -> Option<seq<bv8>>

  datatype AddressRecord = AddressRecord(webRtc: bool, reachability: AddressType, payload: seq<bv8>)

  predicate IsStorable(address: MultiAddr) {
    address.transport.NonIp? || (!address.transport.socket.ip.IsUnspecified() && address.transport.socket.port != 0)
  }

  predicate WithinBounds(payload: seq<bv8>) { 0 < |payload| <= MAX_TRANSPORT_ADDRESS_PAYLOAD }

  function BoundTo(self: Key, address: MultiAddr): MultiAddr { address.(owner := Some(self)) }

  predicate IsForeign(self: Key, address: MultiAddr) { address.owner.Some? && address.owner.value != self }

  // ---------- registration ----------

  datatype Rejection = InvalidAddress | UnsupportedTransport | ForeignPeer | Duplicate | CapacityExceeded

  /** Why an address can never be registered, whatever else is. */
  function Unfit(self: Key, codec: Codec, address: MultiAddr): Option<Rejection> {
    if !IsStorable(address) then Some(InvalidAddress)
    else if IsForeign(self, address) then Some(ForeignPeer)
    else if !address.transport.WebRtcDirect? then Some(UnsupportedTransport)
    else
      var payload := codec(BoundTo(self, address));
      if payload.None? || !WithinBounds(payload.value) then Some(InvalidAddress) else None
  }

  /** The fit inputs, bound to this node, in input order. */
  function Fit(self: Key, codec: Codec, addresses: seq<MultiAddr>): seq<MultiAddr> {
    if addresses == [] then []
    else
      var n := |addresses| - 1;
      var before, last := Fit(self, codec, addresses[..n]), addresses[n];
      if Unfit(self, codec, last).Some? then before else before + [BoundTo(self, last)]
  }

  /** The reason given to a rejected input says what is wrong with it. */
  predicate Justified(self: Key, codec: Codec, accepted: seq<MultiAddr>, address: MultiAddr, reason: Rejection) {
    match reason
    case Duplicate => Unfit(self, codec, address).None? && BoundTo(self, address) in accepted
    case CapacityExceeded =>
      && Unfit(self, codec, address).None? && BoundTo(self, address) !in accepted
      && |accepted| == MAX_SUPPLEMENTAL_SELF_ADDRESSES
    case _ => Unfit(self, codec, address) == Some(reason)
  }

  function Capped(endpoints: seq<MultiAddr>): seq<MultiAddr> {
    if |endpoints| <= MAX_SUPPLEMENTAL_SELF_ADDRESSES then endpoints else endpoints[..MAX_SUPPLEMENTAL_SELF_ADDRESSES]
  }

  /** Why an input is turned down, given what was accepted before it. */
  function Refusal(self: Key, codec: Codec, accepted: seq<MultiAddr>, address: MultiAddr): Option<Rejection> {
    var unfit := Unfit(self, codec, address);
    if unfit.Some? then unfit
    else if BoundTo(self, address) in accepted then Some(Duplicate)
    else if |accepted| == MAX_SUPPLEMENTAL_SELF_ADDRESSES then Some(CapacityExceeded)
    else None
  }

  /** The first eleven different endpoints. */
  function AcceptedEndpoints(self: Key, codec: Codec, addresses: seq<MultiAddr>): seq<MultiAddr> {
    Capped(Once(Fit(self, codec, addresses)))
  }

  /** Each input that is turned down, in input order, with the reason. */
  function Rejections(self: Key, codec: Codec, addresses: seq<MultiAddr>): seq<(MultiAddr, Rejection)> {
    if addresses == [] then []
    else
      var n := |addresses| - 1;
      var before := Rejections(self, codec, addresses[..n]);
      match Refusal(self, codec, AcceptedEndpoints(self, codec, addresses[..n]), addresses[n])
      case Some(reason) => before + [(addresses[n], reason)]
      case None => before
  }

  /** The inputs that are not, as they were given. */
  function Admitted(self: Key, codec: Codec, addresses: seq<MultiAddr>): seq<MultiAddr> {
    if addresses == [] then []
    else
      var n := |addresses| - 1;
      var refusal := Refusal(self, codec, AcceptedEndpoints(self, codec, addresses[..n]), addresses[n]);
      Admitted(self, codec, addresses[..n]) + if refusal.Some? then [] else [addresses[n]]
  }

  ghost predicate Registered(self: Key, codec: Codec, addresses: seq<MultiAddr>,
                             accepted: seq<MultiAddr>, rejected: seq<(MultiAddr, Rejection)>)
  {
    accepted == AcceptedEndpoints(self, codec, addresses) && rejected == Rejections(self, codec, addresses)
  }

  lemma RegisterNext(self: Key, codec: Codec, addresses: seq<MultiAddr>, i: nat,
                     accepted: seq<MultiAddr>, rejected: seq<(MultiAddr, Rejection)>)
    requires i < |addresses| && Registered(self, codec, addresses[..i], accepted, rejected)
    ensures match Refusal(self, codec, accepted, addresses[i])
            case Some(reason) =>
              Registered(self, codec, addresses[..i + 1], accepted, rejected + [(addresses[i], reason)])
            case None =>
              Registered(self, codec, addresses[..i + 1], accepted + [BoundTo(self, addresses[i])], rejected)
  {
    RegisterStep(self, codec, addresses[..i], addresses[i]);
    assert addresses[..i + 1] == addresses[..i] + [addresses[i]];
  }

  method RegisterSupplemental(self: Key, codec: Codec, addresses: seq<MultiAddr>)
    returns (accepted: seq<MultiAddr>, rejected: seq<(MultiAddr, Rejection)>)
    ensures Registered(self, codec, addresses, accepted, rejected)
  {
    accepted, rejected := [], [];
    for i := 0 to |addresses|
      invariant Registered(self, codec, addresses[..i], accepted, rejected)
    {
      RegisterNext(self, codec, addresses, i, accepted, rejected);
      var refusal := Refusal(self, codec, accepted, addresses[i]);
      if refusal.Some? {
        rejected := rejected + [(addresses[i], refusal.value)];
      } else {
        accepted := accepted + [BoundTo(self, addresses[i])];
      }
    }
    assert addresses[..|addresses|] == addresses;
  }

  /** One more input, in terms of what is accepted so far. */
  lemma RegisterStep(self: Key, codec: Codec, addresses: seq<MultiAddr>, address: MultiAddr)
    ensures var before, all := AcceptedEndpoints(self, codec, addresses), addresses + [address];
            match Refusal(self, codec, before, address)
            case Some(reason) =>
              && AcceptedEndpoints(self, codec, all) == before
              && Rejections(self, codec, all) == Rejections(self, codec, addresses) + [(address, reason)]
            case None =>
              && AcceptedEndpoints(self, codec, all) == before + [BoundTo(self, address)]
              && Rejections(self, codec, all) == Rejections(self, codec, addresses)
  {
    assert (addresses + [address])[..|addresses|] == addresses;
    OnceSnoc(Fit(self, codec, addresses), BoundTo(self, address));
  }

  function RejectedInputs(rejected: seq<(MultiAddr, Rejection)>): seq<MultiAddr> {
    Mapped(rejected, (r: (MultiAddr, Rejection)) => r.0)
  }

  function Endpoints(self: Key, inputs: seq<MultiAddr>): seq<MultiAddr> {
    Mapped(inputs, (a: MultiAddr) => BoundTo(self, a))
  }

  lemma MappedAppend<T, U>(xs: seq<T>, x: T, f: T -> U)
    ensures Mapped(xs + [x], f) == Mapped(xs, f) + [f(x)]
  {
  }

  /** The admitted inputs are what is accepted under this node's name, and with the rejected ones they are the
      inputs, each as often as it was given. */
  ghost predicate Balanced(self: Key, addresses: seq<MultiAddr>, admitted: seq<MultiAddr>,
                           accepted: seq<MultiAddr>, rejected: seq<(MultiAddr, Rejection)>)
  {
    && Endpoints(self, admitted) == accepted
    && multiset(addresses) == multiset(admitted) + multiset(RejectedInputs(rejected))
  }

  lemma BalancedStep(self: Key, addresses: seq<MultiAddr>, admitted: seq<MultiAddr>, accepted: seq<MultiAddr>,
                     rejected: seq<(MultiAddr, Rejection)>, address: MultiAddr, reason: Rejection)
    requires Balanced(self, addresses, admitted, accepted, rejected)
    ensures Balanced(self, addresses + [address], admitted, accepted, rejected + [(address, reason)])
    ensures Balanced(self, addresses + [address], admitted + [address], accepted + [BoundTo(self, address)], rejected)
  {
    MappedAppend(rejected, (address, reason), (r: (MultiAddr, Rejection)) => r.0);
    MappedAppend(admitted, address, (a: MultiAddr) => BoundTo(self, a));
  }

  lemma AdmittedStep(self: Key, codec: Codec, addresses: seq<MultiAddr>, address: MultiAddr)
    ensures var before := Admitted(self, codec, addresses);
            Admitted(self, codec, addresses + [address])
            == if Refusal(self, codec, AcceptedEndpoints(self, codec, addresses), address).Some? then before
               else before + [address]
  {
    assert (addresses + [address])[..|addresses|] == addresses;
  }

  /** Nothing is lost and nothing is made up. */
  lemma {:induction false} EveryInputReported(self: Key, codec: Codec, addresses: seq<MultiAddr>)
    ensures Balanced(self, addresses, Admitted(self, codec, addresses),
                     AcceptedEndpoints(self, codec, addresses), Rejections(self, codec, addresses))
    decreases |addresses|
  {
    if addresses != [] {
      var n := |addresses| - 1;
      var before, last := addresses[..n], addresses[n];
      EveryInputReported(self, codec, before);
      InputReported(self, codec, before, last);
      assert addresses == before + [last];
    }
  }

  lemma InputReported(self: Key, codec: Codec, addresses: seq<MultiAddr>, address: MultiAddr)
    requires Balanced(self, addresses, Admitted(self, codec, addresses),
                      AcceptedEndpoints(self, codec, addresses), Rejections(self, codec, addresses))
    ensures var all := addresses + [address];
            Balanced(self, all, Admitted(self, codec, all), AcceptedEndpoints(self, codec, all),
                     Rejections(self, codec, all))
  {
    var accepted := AcceptedEndpoints(self, codec, addresses);
    var refusal := Refusal(self, codec, accepted, address);
    RegisterStep(self, codec, addresses, address);
    AdmittedStep(self, codec, addresses, address);
    BalancedStep(self, addresses, Admitted(self, codec, addresses), accepted, Rejections(self, codec, addresses),
                 address, if refusal.Some? then refusal.value else Duplicate);
  }

  ghost predicate AllJustified(
      self: Key, codec: Codec, accepted: seq<MultiAddr>, rejected: seq<(MultiAddr, Rejection)>)
  {
    forall i :: 0 <= i < |rejected| ==> Justified(self, codec, accepted, rejected[i].0, rejected[i].1)
  }

  lemma JustifiedStep(self: Key, codec: Codec, accepted: seq<MultiAddr>, rejected: seq<(MultiAddr, Rejection)>,
                      address: MultiAddr)
    requires AllJustified(self, codec, accepted, rejected)
    ensures match Refusal(self, codec, accepted, address)
            case Some(reason) => AllJustified(self, codec, accepted, rejected + [(address, reason)])
            case None => AllJustified(self, codec, accepted + [BoundTo(self, address)], rejected)
  {
  }

  /** Every reason still holds of what is accepted in the end. */
  lemma {:induction false} ReasonsHold(self: Key, codec: Codec, addresses: seq<MultiAddr>)
    ensures AllJustified(self, codec, AcceptedEndpoints(self, codec, addresses), Rejections(self, codec, addresses))
    decreases |addresses|
  {
    if addresses != [] {
      var n := |addresses| - 1;
      var before := addresses[..n];
      ReasonsHold(self, codec, before);
      RegisterStep(self, codec, before, addresses[n]);
      JustifiedStep(self, codec, AcceptedEndpoints(self, codec, before), Rejections(self, codec, before), addresses[n]);
      assert addresses == before + [addresses[n]];
    }
  }

  // ---------- publication ----------

  datatype Fault = ForeignOwner | NotEncodable | UnsupportedPublication | InvalidPublication | TooManyRecords

  function RecordOf(self: Key, codec: Codec, entry: Typed): Result<AddressRecord, Fault> {
    var (address, kind) := entry;
    if IsForeign(self, address) then Err(ForeignOwner)
    else
      var sent := if address.transport.WebRtcDirect? then BoundTo(self, address) else address;
      if !sent.transport.Quic? && !sent.transport.WebRtcDirect? then Err(UnsupportedPublication)
      else
        var payload := codec(sent);
        if payload.None? then Err(NotEncodable)
        else if !IsStorable(sent) || !WithinBounds(payload.value) then Err(InvalidPublication)
        else
          var direct := sent.transport.WebRtcDirect?;
          Ok(AddressRecord(direct, if direct then Unverified else kind, payload.value))
  }

  /** What is written into the record of an entry: over WebRTC the address bound to this node, always as
      unverified; over QUIC the address as it is, with its own tag.  No other entry has a record. */
  ghost predicate Describes(self: Key, codec: Codec, entry: Typed, record: AddressRecord) {
    && !IsForeign(self, entry.0) && IsStorable(entry.0)
    && (entry.0.transport.Quic? || entry.0.transport.WebRtcDirect?)
    && (record.webRtc <==> entry.0.transport.WebRtcDirect?)
    && record.reachability == (if record.webRtc then Unverified else entry.1)
    && codec(if record.webRtc then entry.0.(owner := Some(self)) else entry.0) == Some(record.payload)
    && 0 < |record.payload| <= 2048
  }

  lemma RecordTells(self: Key, codec: Codec, entry: Typed, record: AddressRecord)
    ensures RecordOf(self, codec, entry) == Ok(record) <==> Describes(self, codec, entry, record)
  {
  }

  /** An endpoint can be registered exactly when it is a WebRTC address with a port that is no wildcard, is
      nobody else's, and encodes within 2 KiB once it is bound to this node. */
  lemma FitIff(self: Key, codec: Codec, address: MultiAddr)
    ensures Unfit(self, codec, address).None? <==>
            && address.transport.WebRtcDirect?
            && address.transport.socket.port != 0 && !address.transport.socket.ip.IsUnspecified()
            && (address.owner.None? || address.owner == Some(self))
            && var payload := codec(address.(owner := Some(self)));
               payload.Some? && 0 < |payload.value| <= 2048
  {
  }

  /** The records of a publication are those of its entries, each described as its entry says. */
  ghost predicate DescribesAll(self: Key, codec: Codec, entries: seq<Typed>, records: seq<AddressRecord>) {
    && (forall r :: r in records ==> exists e :: e in entries && Describes(self, codec, e, r))
    && (forall e :: e in entries ==> exists r :: r in records && Describes(self, codec, e, r))
  }

  lemma CompletedDescribes(self: Key, codec: Codec, entries: seq<Typed>, r: Result<seq<AddressRecord>, Fault>)
    requires Completed(self, codec, entries, r) && r.Ok?
    ensures DescribesAll(self, codec, entries, r.value)
  {
    var f := Encoder(self, codec);
    assert entries[..|entries|] == entries;
    var values := Values(f, entries);
    OnceKeeps(values);
    forall x | x in r.value ensures exists e :: e in entries && Describes(self, codec, e, x) {
      var i :| 0 <= i < |values| && values[i] == x;
      RecordTells(self, codec, entries[i], x);
      assert entries[i] in entries;
    }
    forall e | e in entries ensures exists x :: x in r.value && Describes(self, codec, e, x) {
      var i :| 0 <= i < |entries| && entries[i] == e;
      assert values[i] in values;
      RecordTells(self, codec, e, values[i]);
    }
  }

  function Encoder(self: Key, codec: Codec): Typed -> Result<AddressRecord, Fault> {
    (entry: Typed) => RecordOf(self, codec, entry)
  }

  function Entries(supplied: seq<Typed>, supplemental: seq<MultiAddr>): seq<Typed> {
    supplied + Mapped(supplemental, (a: MultiAddr) => (a, Unverified))
  }

  ghost predicate AllOk<T, R, E>(f: T -> Result<R, E>, xs: seq<T>) {
    forall i :: 0 <= i < |xs| ==> f(xs[i]).Ok?
  }

  ghost function Values<T, R, E>(f: T -> Result<R, E>, xs: seq<T>): seq<R>
    requires AllOk(f, xs)
  {
    seq(|xs|, i requires 0 <= i < |xs| => f(xs[i]).value)
  }

  /** The different records of the first `n` entries, which all encode. */
  ghost predicate RecordsUpTo<T, R, E>(f: T -> Result<R, E>, entries: seq<T>, n: nat, records: seq<R>) {
    n <= |entries| && AllOk(f, entries[..n]) && records == Once(Values(f, entries[..n]))
  }

  lemma RecordAdded<T, R, E>(f: T -> Result<R, E>, entries: seq<T>, n: nat, records: seq<R>)
    requires n < |entries| && RecordsUpTo(f, entries, n, records) && f(entries[n]).Ok?
    ensures var record := f(entries[n]).value;
            RecordsUpTo(f, entries, n + 1, if record in records then records else records + [record])
  {
    var record := f(entries[n]).value;
    assert entries[..n + 1] == entries[..n] + [entries[n]];
    assert AllOk(f, entries[..n + 1]);
    assert Values(f, entries[..n + 1]) == Values(f, entries[..n]) + [record];
    OnceSnoc(Values(f, entries[..n]), record);
  }

  /** Entry `n` is the first that does not encode, and the records before it are not too many. */
  ghost predicate FailsAt<T, R, E>(f: T -> Result<R, E>, entries: seq<T>, n: nat, records: seq<R>, fault: E) {
    && n < |entries| && RecordsUpTo(f, entries, n, records) && |records| <= MAX_TRANSPORT_ADDRESS_RECORDS
    && f(entries[n]) == Err(fault)
  }

  /** All the records, or the fault met first: an entry that does not encode, or a seventeenth record. */
  ghost predicate Completed(self: Key, codec: Codec, entries: seq<Typed>, r: Result<seq<AddressRecord>, Fault>) {
    var f := Encoder(self, codec);
    match r
    case Ok(records) => RecordsUpTo(f, entries, |entries|, records) && |records| <= MAX_TRANSPORT_ADDRESS_RECORDS
    case Err(TooManyRecords) => exists n: nat, records :: Overflows(f, entries, n, records)
    case Err(fault) => exists n: nat, records :: FailsAt(f, entries, n, records, fault)
  }

  ghost predicate Overflows<T, R, E>(f: T -> Result<R, E>, entries: seq<T>, n: nat, records: seq<R>) {
    RecordsUpTo(f, entries, n, records) && |records| == MAX_TRANSPORT_ADDRESS_RECORDS + 1
  }

  method CompleteRecords(self: Key, codec: Codec, supplied: seq<Typed>, supplemental: seq<MultiAddr>)
    returns (r: Result<seq<AddressRecord>, Fault>)
    ensures Completed(self, codec, Entries(supplied, supplemental), r)
    ensures r.Ok? ==> DescribesAll(self, codec, Entries(supplied, supplemental), r.value)
  {
    var entries := Entries(supplied, supplemental);
    var found := [];
    for i := 0 to |entries|
      invariant RecordsBefore(self, codec, entries, i, found)
    {
      RecordStep(self, codec, entries, i, found);
      var record := RecordOf(self, codec, entries[i]);
      if record.Err? {
        return Err(record.error);
      }
      if record.value !in found {
        found := found + [record.value];
        if |found| > MAX_TRANSPORT_ADDRESS_RECORDS {
          return Err(TooManyRecords);
        }
      }
    }
    r := Ok(found);
    CompletedDescribes(self, codec, entries, r);
  }

  ghost predicate RecordsBefore(self: Key, codec: Codec, entries: seq<Typed>, n: nat, found: seq<AddressRecord>) {
    RecordsUpTo(Encoder(self, codec), entries, n, found) && |found| <= MAX_TRANSPORT_ADDRESS_RECORDS
  }

  /** What each turn of the loop may conclude. */
  lemma RecordStep(self: Key, codec: Codec, entries: seq<Typed>, n: nat, found: seq<AddressRecord>)
    requires n < |entries| && RecordsBefore(self, codec, entries, n, found)
    ensures match RecordOf(self, codec, entries[n])
            case Err(fault) => Completed(self, codec, entries, Err(fault))
            case Ok(record) =>
              var more := if record in found then found else found + [record];
              if |more| > MAX_TRANSPORT_ADDRESS_RECORDS then Completed(self, codec, entries, Err(TooManyRecords))
              else RecordsBefore(self, codec, entries, n + 1, more)
  {
    var f := Encoder(self, codec);
    match RecordOf(self, codec, entries[n])
    case Err(fault) =>
      NeverTooMany(self, codec, entries[n]);
      assert FailsAt(f, entries, n, found, fault);
    case Ok(record) =>
      RecordAdded(f, entries, n, found);
      var more := if record in found then found else found + [record];
      if |more| > MAX_TRANSPORT_ADDRESS_RECORDS { assert Overflows(f, entries, n + 1, more); }
  }

  lemma NeverTooMany(self: Key, codec: Codec, entry: Typed)
    ensures RecordOf(self, codec, entry) != Err(TooManyRecords)
  {
  }

  /** Five native addresses and the accepted endpoints never need a seventeenth record. */
  lemma RecordsFit(self: Key, codec: Codec, supplied: seq<Typed>, addresses: seq<MultiAddr>,
                   n: nat, records: seq<AddressRecord>)
    requires |supplied| <= MAX_SELF_QUIC_ADDRESSES
    requires RecordsUpTo(Encoder(self, codec), Entries(supplied, AcceptedEndpoints(self, codec, addresses)), n, records)
    ensures |records| <= MAX_TRANSPORT_ADDRESS_RECORDS
  {
    OnceKeeps(Values(Encoder(self, codec), Entries(supplied, AcceptedEndpoints(self, codec, addresses))[..n]));
  }

  lemma LimitNotReached(self: Key, codec: Codec, supplied: seq<Typed>, addresses: seq<MultiAddr>,
                        r: Result<seq<AddressRecord>, Fault>)
    requires |supplied| <= MAX_SELF_QUIC_ADDRESSES
    requires Completed(self, codec, Entries(supplied, AcceptedEndpoints(self, codec, addresses)), r)
    ensures r != Err(TooManyRecords)
  {
    var entries := Entries(supplied, AcceptedEndpoints(self, codec, addresses));
    if r == Err(TooManyRecords) {
      var n: nat, records :| Overflows(Encoder(self, codec), entries, n, records);
      RecordsFit(self, codec, supplied, addresses, n, records);
    }
  }

  // ---------- when a node can publish ----------

  predicate Encodes(codec: Codec, address: MultiAddr) {
    codec(address).Some? && WithinBounds(codec(address).value)
  }

  /** The relay, or what is chosen for the IPv4 WAN slot, is an address nobody can connect to. */
  ghost predicate PlaceholderGetsThrough(
      proven: Proof, observed: seq<Socket>, listen: seq<MultiAddr>, relay: Option<Socket>)
  {
    WildcardGetsThrough(proven, observed, listen, relay) || (relay.Some? && relay.value.port == 0)
  }

  /** Publication fails at the first entry without a record, if there is one. */
  lemma OkIffAllOk(self: Key, codec: Codec, entries: seq<Typed>, r: Result<seq<AddressRecord>, Fault>)
    requires Completed(self, codec, entries, r) && r != Err(TooManyRecords)
    ensures r.Ok? <==> AllOk(Encoder(self, codec), entries)
  {
    assert entries[..|entries|] == entries;
    if r.Err? {
      var n: nat, records :| FailsAt(Encoder(self, codec), entries, n, records, r.error);
    }
  }

  lemma {:induction false} FitIsFit(self: Key, codec: Codec, addresses: seq<MultiAddr>, a: MultiAddr)
    requires a in Fit(self, codec, addresses)
    ensures a.owner == Some(self) && a.transport.WebRtcDirect? && IsStorable(a) && Encodes(codec, a)
    decreases |addresses|
  {
    var n := |addresses| - 1;
    var before := Fit(self, codec, addresses[..n]);
    if a in before {
      FitIsFit(self, codec, addresses[..n], a);
    } else {
      assert Unfit(self, codec, addresses[n]).None? && a == BoundTo(self, addresses[n]);
    }
  }

  /** An accepted endpoint always has a record. */
  lemma AcceptedHasRecord(self: Key, codec: Codec, addresses: seq<MultiAddr>, a: MultiAddr)
    requires a in AcceptedEndpoints(self, codec, addresses)
    ensures RecordOf(self, codec, (a, Unverified)).Ok?
  {
    var fit := Fit(self, codec, addresses);
    OnceKeeps(fit);
    assert a in Once(fit);
    FitIsFit(self, codec, addresses, a);
    assert BoundTo(self, a) == a;
  }

  /** A native address has a record unless it is a placeholder or does not encode. */
  lemma NativeRecordIff(self: Key, codec: Codec, socket: Socket, kind: AddressType)
    ensures RecordOf(self, codec, (Native(socket), kind)).Ok? <==>
            !socket.ip.IsUnspecified() && socket.port != 0 && Encodes(codec, Native(socket))
  {
  }

  lemma AllNativeOkIff(self: Key, codec: Codec, proven: Proof, observed: seq<Socket>, listen: seq<MultiAddr>,
                       relay: Option<Socket>, typed: seq<Typed>, slots: Slots)
    requires IsAddressSet(proven, observed, listen, relay, typed, slots)
    ensures AllOk(Encoder(self, codec), typed) <==>
            && !HasWildcard(typed) && !HasZeroPort(typed)
            && forall i :: 0 <= i < |typed| ==> Encodes(codec, typed[i].0)
  {
    forall i | 0 <= i < |typed|
      ensures typed[i].0.transport.Quic?
      ensures RecordOf(self, codec, typed[i]).Ok? <==>
              && !typed[i].0.transport.socket.ip.IsUnspecified() && typed[i].0.transport.socket.port != 0
              && Encodes(codec, typed[i].0)
    {
      ListedAreNative(Normalized(relay), typed, slots, i);
      NativeRecordIff(self, codec, typed[i].0.transport.socket, typed[i].1);
    }
  }

  lemma EntriesOkIff(self: Key, codec: Codec, supplied: seq<Typed>, addresses: seq<MultiAddr>)
    ensures AllOk(Encoder(self, codec), Entries(supplied, AcceptedEndpoints(self, codec, addresses))) <==>
            AllOk(Encoder(self, codec), supplied)
  {
    var accepted := AcceptedEndpoints(self, codec, addresses);
    var entries := Entries(supplied, accepted);
    forall i | 0 <= i < |supplied| ensures entries[i] == supplied[i] {}
    forall i | |supplied| <= i < |entries| ensures RecordOf(self, codec, entries[i]).Ok? {
      AcceptedHasRecord(self, codec, addresses, accepted[i - |supplied|]);
    }
  }

  /** A node can publish exactly when no placeholder gets through and its native addresses encode. */
  lemma PublishesIff(self: Key, codec: Codec, proven: Proof, observed: seq<Socket>, listen: seq<MultiAddr>,
                     relay: Option<Socket>, typed: seq<Typed>, slots: Slots, registration: seq<MultiAddr>,
                     r: Result<seq<AddressRecord>, Fault>)
    requires IsAddressSet(proven, observed, listen, relay, typed, slots)
    requires Completed(self, codec, Entries(typed, AcceptedEndpoints(self, codec, registration)), r)
    ensures r.Ok? <==>
            && !PlaceholderGetsThrough(proven, observed, listen, relay)
            && forall i :: 0 <= i < |typed| ==> Encodes(codec, typed[i].0)
  {
    LimitNotReached(self, codec, typed, registration, r);
    OkIffAllOk(self, codec, Entries(typed, AcceptedEndpoints(self, codec, registration)), r);
    EntriesOkIff(self, codec, typed, registration);
    AllNativeOkIff(self, codec, proven, observed, listen, relay, typed, slots);
    WildcardListedIff(proven, observed, listen, relay, typed, slots);
    ZeroPortListedIff(proven, observed, listen, relay, typed, slots);
  }

  /** With a codec that encodes every native address, the inputs alone decide. */
  lemma InputsDecide(self: Key, codec: Codec, proven: Proof, observed: seq<Socket>, listen: seq<MultiAddr>,
                     relay: Option<Socket>, typed: seq<Typed>, slots: Slots, registration: seq<MultiAddr>,
                     r: Result<seq<AddressRecord>, Fault>)
    requires forall socket :: Encodes(codec, Native(socket))
    requires IsAddressSet(proven, observed, listen, relay, typed, slots)
    requires Completed(self, codec, Entries(typed, AcceptedEndpoints(self, codec, registration)), r)
    ensures r.Ok? <==> !PlaceholderGetsThrough(proven, observed, listen, relay)
  {
    PublishesIff(self, codec, proven, observed, listen, relay, typed, slots, registration, r);
    forall i | 0 <= i < |typed| ensures Encodes(codec, typed[i].0) {
      ListedAreNative(Normalized(relay), typed, slots, i);
    }
  }

  lemma FirstOk<T, R, E>(f: T -> Result<R, E>, entries: seq<T>, n: nat)
    ensures 0 < n <= |entries| && AllOk(f, entries[..n]) ==> f(entries[0]).Ok?
  {
    if 0 < n <= |entries| { assert entries[..n][0] == entries[0]; }
  }

  /** A first entry without a record decides the fault. */
  lemma FailsAtOnce(self: Key, codec: Codec, entries: seq<Typed>, r: Result<seq<AddressRecord>, Fault>)
    requires Completed(self, codec, entries, r) && r != Err(TooManyRecords)
    requires entries != [] && RecordOf(self, codec, entries[0]).Err?
    ensures r == Err(RecordOf(self, codec, entries[0]).error)
  {
    OkIffAllOk(self, codec, entries, r);
    var f := Encoder(self, codec);
    assert f(entries[0]).Err?;
    var n: nat, records :| FailsAt(f, entries, n, records, r.error);
    FirstOk(f, entries, n);
  }

  lemma PlaceholderHasNoRecord(self: Key, codec: Codec)
    ensures var relay := Native(Socket(V4(0), 0));
            var fault := if codec(relay).Some? then InvalidPublication else NotEncodable;
            RecordOf(self, codec, (relay, Relay)) == Err(fault)
  {
  }

  /** A relay without address or port stops everything: whatever else the node knows of itself and whatever
      endpoints are registered, nothing is published. */
  lemma PlaceholderRelayStopsAll(self: Key, codec: Codec, proven: Proof, observed: seq<Socket>, listen: seq<MultiAddr>,
                                 typed: seq<Typed>, slots: Slots, registration: seq<MultiAddr>,
                                 r: Result<seq<AddressRecord>, Fault>)
    requires IsAddressSet(proven, observed, listen, Some(Socket(V4(0), 0)), typed, slots)
    requires Completed(self, codec, Entries(typed, AcceptedEndpoints(self, codec, registration)), r)
    ensures r == Err(if codec(Native(Socket(V4(0), 0))).Some? then InvalidPublication else NotEncodable)
  {
    LimitNotReached(self, codec, typed, registration, r);
    RelayHeads(proven, observed, listen, Socket(V4(0), 0), typed, slots);
    var entries := Entries(typed, AcceptedEndpoints(self, codec, registration));
    assert entries[0] == typed[0];
    PlaceholderHasNoRecord(self, codec);
    FailsAtOnce(self, codec, entries, r);
  }

  /** What a node publishes: the records of its own address set and of its registered endpoints.  The record
      limit is never hit, and it fails exactly when a placeholder gets through or a native address does not encode. */
  method PublishOwn(self: Key, codec: Codec, observed: seq<Socket>, listen: seq<MultiAddr>, relay: Option<Socket>,
                    proven: Proof, registration: seq<MultiAddr>)
    returns (r: Result<seq<AddressRecord>, Fault>, typed: seq<Typed>, ghost slots: Slots,
             accepted: seq<MultiAddr>, rejected: seq<(MultiAddr, Rejection)>)
    ensures IsAddressSet(proven, observed, listen, relay, typed, slots)
    ensures Registered(self, codec, registration, accepted, rejected)
    ensures Completed(self, codec, Entries(typed, accepted), r) && r != Err(TooManyRecords)
    ensures r.Ok? ==> DescribesAll(self, codec, Entries(typed, accepted), r.value)
    ensures r.Ok? <==>
            && !PlaceholderGetsThrough(proven, observed, listen, relay)
            && forall i :: 0 <= i < |typed| ==> Encodes(codec, typed[i].0)
  {
    typed, slots := ListedAddresses(observed, listen, relay, proven);
    accepted, rejected := RegisterSupplemental(self, codec, registration);
    r := CompleteRecords(self, codec, typed, accepted);
    LimitNotReached(self, codec, typed, registration, r);
    PublishesIff(self, codec, proven, observed, listen, relay, typed, slots, registration, r);
  }
}
