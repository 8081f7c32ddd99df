/** DHT peer records and the merge of two views of one peer. */
module PeerRecords {
  import opened Keys
  import opened Wrappers
  import opened Addresses
  import opened Sorting

  type Sequence = n: nat | n < TWO_64

  /** Verification rejects sequence zero, so a verified publication has a positive one. */
  type ProvenSequence = n: nat | 0 < n < TWO_64 witness 1

  datatype Publication = Publication(owner: Key, sequence: ProvenSequence, payload: seq<bv8>)

  datatype Authority = AuthenticatedOwner(sequence: Sequence) | Signed(publication: Publication)

  datatype DHTNode = DHTNode(
    peer: Key,
    addresses: seq<MultiAddr>,
    types: seq<AddressType>,
    distance: Option<seq<bv8>>,
    reliability: real,
    authority: Option<Authority>)

  // ---------- owner rank ----------

  /** Sequence established by the owner; zero when there is no authority. */
  function PublishSeq(node: DHTNode): Sequence {
    match node.authority
    case None => 0
    case Some(AuthenticatedOwner(sequence)) => sequence
    case Some(Signed(publication)) => publication.sequence
  }

  predicate IsSigned(node: DHTNode) { node.authority.Some? && node.authority.value.Signed? }

  /** The source's `(is V2, sequence)` pair. */
  function OwnerVersion(node: DHTNode): (bool, nat) { (IsSigned(node), PublishSeq(node)) }

  predicate VersionLess(a: (bool, nat), b: (bool, nat)) {
    (!a.0 && b.0) || (a.0 == b.0 && a.1 < b.1)
  }

  /** The same order as one number: hints are 0, V1 views come next, V2 views above them all. */
  function Rank(node: DHTNode): nat {
    (if IsSigned(node) then TWO_64 else 0) + PublishSeq(node)
  }

  predicate Proven(node: DHTNode) { PublishSeq(node) != 0 }

  lemma RankOrder(a: DHTNode, b: DHTNode)
    ensures Rank(a) < Rank(b) <==> VersionLess(OwnerVersion(a), OwnerVersion(b))
    ensures Rank(a) == Rank(b) <==> OwnerVersion(a) == OwnerVersion(b)
    ensures Rank(a) == 0 <==> !Proven(a)
    ensures IsSigned(b) && !IsSigned(a) ==> Rank(a) < Rank(b)
  {
  }

  // ---------- address lists ----------

  function TagAt(types: seq<AddressType>, i: nat): AddressType {
    if i < |types| then types[i] else Unverified
  }

  function TypedAddresses(node: DHTNode): seq<Typed> {
    seq(|node.addresses|, i requires 0 <= i < |node.addresses| =>
      (node.addresses[i], Advertised(node.addresses[i], TagAt(node.types, i))))
  }

  /** The two parallel vectors while a merge is under way; `tags` may be the longer one. */
  datatype Lists = Lists(addresses: seq<MultiAddr>, tags: seq<AddressType>)

  function Max(a: nat, b: nat): nat { if a < b then b else a }

  /** Own tags padded with `Unverified` and canonicalised; surplus tags are kept. */
  function Start(node: DHTNode): (l: Lists)
    ensures |l.addresses| <= |l.tags|
  {
    Lists(node.addresses,
          seq(Max(|node.addresses|, |node.types|), i requires 0 <= i < Max(|node.addresses|, |node.types|) =>
            if i < |node.addresses| then Advertised(node.addresses[i], TagAt(node.types, i)) else node.types[i]))
  }

  function Position(xs: seq<MultiAddr>, x: MultiAddr): (i: nat)
    requires x in xs
    ensures i < |xs| && xs[i] == x
    ensures forall j :: 0 <= j < i ==> xs[j] != x
  {
    if xs[0] == x then 0 else 1 + Position(xs[1..], x)
  }

  function Stronger(current: AddressType, offered: AddressType): AddressType {
    if offered.Priority() < current.Priority() then offered else current
  }

  function Absorb(l: Lists, t: Typed): (r: Lists)
    requires |l.addresses| <= |l.tags|
    ensures |r.addresses| <= |r.tags|
  {
    if t.0 in l.addresses then
      var i := Position(l.addresses, t.0);
      l.(tags := l.tags[i := Stronger(l.tags[i], t.1)])
    else
      Lists(l.addresses + [t.0], l.tags + [t.1])
  }

  function AbsorbAll(l: Lists, ts: seq<Typed>): (r: Lists)
    requires |l.addresses| <= |l.tags|
    ensures |r.addresses| <= |r.tags|
  {
    if ts == [] then l else Absorb(AbsorbAll(l, ts[..|ts| - 1]), ts[|ts| - 1])
  }

  function Zip(l: Lists): seq<Typed>
    requires |l.addresses| <= |l.tags|
  {
    seq(|l.addresses|, i requires 0 <= i < |l.addresses| => (l.addresses[i], l.tags[i]))
  }

  function Unzip(ts: seq<Typed>): Lists {
    Lists(seq(|ts|, i requires 0 <= i < |ts| => ts[i].0), seq(|ts|, i requires 0 <= i < |ts| => ts[i].1))
  }

  const ByPriority: Typed -> nat := (t: Typed) => t.1.Priority()

  function MergedLists(a: DHTNode, b: DHTNode): Lists {
    Unzip(StableSort(Zip(AbsorbAll(Start(a), TypedAddresses(b))), ByPriority))
  }

  /** `merge_from` as a function of the two views. */
  function Merged(a: DHTNode, b: DHTNode): DHTNode {
    if a.peer != b.peer then a
    else if Proven(a) || Proven(b) then (if Rank(a) < Rank(b) then b else a)
    else
      a.(addresses := MergedLists(a, b).addresses,
         types := MergedLists(a, b).tags,
         reliability := if b.reliability > a.reliability then b.reliability else a.reliability)
  }

  // ---------- the in-place merge ----------

  class PeerRecord {
    var peer: Key
    var addresses: seq<MultiAddr>
    var types: seq<AddressType>
    var distance: Option<seq<bv8>>
    var reliability: real
    var authority: Option<Authority>

    function View(): DHTNode
      reads this
    {
      DHTNode(peer, addresses, types, distance, reliability, authority)
    }

    constructor (node: DHTNode)
      ensures View() == node
    {
      peer, addresses, types := node.peer, node.addresses, node.types;
      distance, reliability, authority := node.distance, node.reliability, node.authority;
    }

    method Assign(node: DHTNode)
      modifies this
      ensures View() == node
    {
      peer, addresses, types := node.peer, node.addresses, node.types;
      distance, reliability, authority := node.distance, node.reliability, node.authority;
    }

    /** Replace the whole view exactly when the other one ranks strictly higher. */
    method MergeOwnerViews(other: DHTNode)
      modifies this
      ensures View() == if Rank(old(View())) < Rank(other) then other else old(View())
    {
      var currentV2: nat := if IsSigned(View()) then PublishSeq(View()) else 0;
      var otherV2: nat := if IsSigned(other) then PublishSeq(other) else 0;
      var replace := if currentV2 != 0 || otherV2 != 0 then otherV2 > currentV2
                     else PublishSeq(other) > PublishSeq(View());
      if replace {
        Assign(other);
      }
    }

    /** Pad and canonicalise the own tags in place. */
    method Canonicalise()
      modifies this`types
      ensures types == Start(old(View())).tags
    {
      while |types| < |addresses|
        invariant |types| <= Max(|addresses|, |old(types)|) && |old(types)| <= |types|
        invariant forall i :: 0 <= i < |types| ==> types[i] == TagAt(old(types), i)
        decreases |addresses| - |types|
      {
        types := types + [Unverified];
      }
      var padded := types;
      for i := 0 to |addresses|
        invariant |types| == |padded|
        invariant forall j :: 0 <= j < i ==> types[j] == Advertised(addresses[j], padded[j])
        invariant forall j :: i <= j < |types| ==> types[j] == padded[j]
      {
        types := types[i := Advertised(addresses[i], types[i])];
      }
    }

    method FindAddress(address: MultiAddr) returns (pos: Option<nat>)
      ensures pos.Some? <==> address in addresses
      ensures pos.Some? ==> pos.value == Position(addresses, address)
    {
      for i := 0 to |addresses|
        invariant forall j :: 0 <= j < i ==> addresses[j] != address
      {
        if addresses[i] == address {
          return Some(i);
        }
      }
      pos := None;
    }

    method AbsorbOffers(offers: seq<Typed>)
      requires |addresses| <= |types|
      modifies this`addresses, this`types
      ensures |addresses| <= |types|
      ensures Lists(addresses, types) == AbsorbAll(Lists(old(addresses), old(types)), offers)
    {
      ghost var start := Lists(addresses, types);
      for i := 0 to |offers|
        invariant |addresses| <= |types|
        invariant Lists(addresses, types) == AbsorbAll(start, offers[..i])
      {
        assert offers[..i + 1][..i] == offers[..i];
        var (address, kind) := offers[i];
        var pos := FindAddress(address);
        if pos.Some? {
          if kind.Priority() < types[pos.value].Priority() {
            types := types[pos.value := kind];
          }
        } else {
          addresses := addresses + [address];
          types := types + [kind];
        }
      }
      assert offers[..|offers|] == offers;
    }

    method MergeFrom(other: DHTNode)
      modifies this
      ensures View() == Merged(old(View()), other)
    {
      if peer != other.peer {
        return;
      }
      if PublishSeq(View()) != 0 || PublishSeq(other) != 0 {
        MergeOwnerViews(other);
        return;
      }
      Canonicalise();
      AbsorbOffers(TypedAddresses(other));
      var pairs := StableSort(Zip(Lists(addresses, types)), ByPriority);
      addresses, types := Unzip(pairs).addresses, Unzip(pairs).tags;
      if other.reliability > reliability {
        reliability := other.reliability;
      }
    }
  }
}
