/** Choosing one report per subject out of many, conflicting ones. */
module ClientRouting {
  import opened Keys
  import opened Ranking
  import opened Wrappers
  import opened Addresses
  import opened Sorting
  import opened PeerRecords
  import opened PeerMerge

  const QUORUM_TOP_N: nat := 3
  const QUORUM_THRESHOLD: nat := 2
  const NO_TIER: nat := 255

  /** Reports on one subject, by responder. */
  type Reports = map<Key, DHTNode>

  /** Where an address sorts by its textual form. */
  type TextOrder = MultiAddr -> nat

  /** The least priority among tagged addresses: one of theirs and at most each of theirs. */
  function BestTierOf(ts: seq<Typed>): (tier: nat)
    ensures tier == NO_TIER <==> ts == []
    ensures forall t :: t in ts ==> tier <= t.1.Priority() < NO_TIER
    ensures ts != [] ==> exists t :: t in ts && t.1.Priority() == tier
  {
    if ts == [] then NO_TIER else Min(ts[0].1.Priority(), BestTierOf(ts[1..]))
  }

  function BestTier(node: DHTNode): nat { BestTierOf(TypedAddresses(node)) }

  /** The best tier of a record that lists nothing is none at all; of any other, the least priority it lists. */
  lemma BestTierIs(node: DHTNode)
    ensures BestTier(node) == NO_TIER <==> node.addresses == []
    ensures forall i :: 0 <= i < |node.addresses| ==>
              BestTier(node) <= Advertised(node.addresses[i], TagAt(node.types, i)).Priority()
    ensures node.addresses != [] ==>
              exists i :: && 0 <= i < |node.addresses|
                          && Advertised(node.addresses[i], TagAt(node.types, i)).Priority() == BestTier(node)
  {
    var ts := TypedAddresses(node);
    forall i | 0 <= i < |node.addresses|
      ensures BestTier(node) <= Advertised(node.addresses[i], TagAt(node.types, i)).Priority()
    {
      assert ts[i] in ts;
    }
    if node.addresses != [] {
      var t :| t in ts && t.1.Priority() == BestTier(node);
      var i :| 0 <= i < |ts| && ts[i] == t;
      assert Advertised(node.addresses[i], TagAt(node.types, i)) == t.1;
    }
  }

  /** Tagged addresses stably sorted by the text of the address.  The source writes
      the tag as its priority, which names the tag just as well. */
  function Signature(node: DHTNode, text: TextOrder): seq<Typed> {
    StableSort(TypedAddresses(node), ByText(text))
  }

  function ByText(text: TextOrder): Typed -> nat { (t: Typed) => text(t.0) }

  // ---------- hash-map iteration ----------

  ghost predicate Lists(order: seq<Key>, s: set<Key>) {
    NoRepeats(order) && Elements(order) == s
  }

  /** A hash map hands out its keys in an order nobody controls. */
  method HashOrder<V>(m: map<Key, V>) returns (order: seq<Key>)
    ensures Lists(order, m.Keys)
  {
    order := [];
    var rest := m.Keys;
    while rest != {}
      invariant rest <= m.Keys && Lists(order, m.Keys - rest)
      decreases rest
    {
      var k :| k in rest;
      assert k !in Elements(order);
      assert Elements(order + [k]) == Elements(order) + {k} by { ElementsSnoc(order, k); }
      order := order + [k];
      rest := rest - {k};
    }
  }

  lemma ElementsSnoc<T>(xs: seq<T>, x: T)
    ensures Elements(xs + [x]) == Elements(xs) + {x}
  {
    assert forall y :: y in xs + [x] <==> y in xs || y == x;
  }

  // ---------- the winner, without any order ----------

  ghost predicate AnyProven(reports: Reports) {
    exists r :: r in reports && Proven(reports[r])
  }

  /** Responder `r` reported a proven view of greatest rank, and no closer one did. */
  ghost predicate IsOwnerWinner(subject: Key, reports: Reports, r: Key) {
    && r in reports && Proven(reports[r])
    && forall q :: q in reports ==>
         || Rank(reports[q]) < Rank(reports[r])
         || (Rank(reports[q]) == Rank(reports[r]) && Distance(subject, r) <= Distance(subject, q))
  }

  /** Responders `a` and `b` agree on the subject's addresses. */
  predicate Agrees(reports: Reports, text: TextOrder, a: Key, b: Key)
    requires a in reports && b in reports
  {
    Signature(reports[a], text) == Signature(reports[b], text)
  }

  /** The closest responder, unless the second and third closest agree against it. */
  ghost predicate IsHintWinner(subject: Key, reports: Reports, text: TextOrder, r: Key) {
    var near := NearestK(subject, reports.Keys, QUORUM_TOP_N);
    && near != []
    && (forall i :: 0 <= i < |near| ==> near[i] in reports)
    && r == if |near| == 3 && !Agrees(reports, text, near[0], near[1])
               && !Agrees(reports, text, near[0], near[2]) && Agrees(reports, text, near[1], near[2])
            then near[1] else near[0]
  }

  ghost predicate IsWinner(subject: Key, reports: Reports, text: TextOrder, r: Key) {
    && r in reports
    && (AnyProven(reports) ==> IsOwnerWinner(subject, reports, r))
    && (!AnyProven(reports) && subject in reports ==> r == subject)
    && (!AnyProven(reports) && subject !in reports ==> IsHintWinner(subject, reports, text, r))
  }

  /** The rules leave no choice: iteration order and ties cannot matter. */
  lemma WinnerUnique(subject: Key, reports: Reports, text: TextOrder, r: Key, q: Key)
    requires IsWinner(subject, reports, text, r) && IsWinner(subject, reports, text, q)
    ensures r == q
  {
    DistanceInjective(subject, r, q);
  }

  // ---------- computing it ----------

  /** Sort key: distance first, best tier second. */
  function ResponderKey(subject: Key, reports: Reports): Key -> nat {
    (r: Key) => Distance(subject, r) * 256 + (if r in reports then BestTier(reports[r]) else 0)
  }

  /** Whatever the map's order, the sort lists responders by distance; the tier never decides. */
  lemma SortIsByDistance(subject: Key, reports: Reports, order: seq<Key>)
    requires Lists(order, reports.Keys)
    ensures StableSort(order, ResponderKey(subject, reports)) == ByDistance(subject, reports.Keys)
  {
    var key := ResponderKey(subject, reports);
    var sorted := StableSort(order, key);
    StableSortSorts(order, key);
    DistinctCount(order);
    DistinctFromCount(sorted);
    assert Elements(sorted) == Elements(order);
    forall i, j | 0 <= i < j < |sorted|
      ensures Distance(subject, sorted[i]) < Distance(subject, sorted[j])
    {
      KeyOrder(subject, reports, sorted[i], sorted[j]);
    }
    ByDistanceSorts(subject, reports.Keys);
    AscendingUnique(subject, sorted, ByDistance(subject, reports.Keys));
  }

  lemma KeyOrder(subject: Key, reports: Reports, p: Key, q: Key)
    requires p != q && ResponderKey(subject, reports)(p) <= ResponderKey(subject, reports)(q)
    ensures Distance(subject, p) < Distance(subject, q)
  {
    DistanceInjective(subject, p, q);
  }

  /** `max_by` keeps the later element unless the earlier one is greater. */
  predicate Outranks(subject: Key, reports: Reports, b: Key, x: Key)
    requires b in reports && x in reports
  {
    || Rank(reports[b]) > Rank(reports[x])
    || (Rank(reports[b]) == Rank(reports[x]) &&
        (|| Distance(subject, x) > Distance(subject, b)
         || (Distance(subject, x) == Distance(subject, b) && BestTier(reports[x]) > BestTier(reports[b]))))
  }

  method OwnerWinner(subject: Key, reports: Reports, byDist: seq<Key>) returns (best: Option<Key>)
    requires Elements(byDist) == reports.Keys
    ensures best.None? <==> !AnyProven(reports)
    ensures best.Some? ==> IsOwnerWinner(subject, reports, best.value)
  {
    best := None;
    assert forall i :: 0 <= i < |byDist| ==> byDist[i] in Elements(byDist);
    for i := 0 to |byDist|
      invariant best.None? ==> forall j :: 0 <= j < i ==> !Proven(reports[byDist[j]])
      invariant best.Some? ==> best.value in reports && Proven(reports[best.value])
      invariant best.Some? ==> forall j :: 0 <= j < i ==>
                  || Rank(reports[byDist[j]]) < Rank(reports[best.value])
                  || (&& Rank(reports[byDist[j]]) == Rank(reports[best.value])
                      && Distance(subject, best.value) <= Distance(subject, byDist[j]))
    {
      var r := byDist[i];
      if Proven(reports[r]) && (best.None? || !Outranks(subject, reports, best.value, r)) {
        best := Some(r);
      }
    }
    assert forall q :: q in reports ==> q in Elements(byDist);
  }

  /** The trailing merge loop of rule 1 changes nothing. */
  method MergeReports(winner: DHTNode, reports: Reports, byDist: seq<Key>) returns (node: DHTNode)
    requires Elements(byDist) == reports.Keys && Proven(winner)
    requires forall q :: q in reports ==> Rank(reports[q]) <= Rank(winner)
    ensures node == winner
  {
    var record := new PeerRecord(winner);
    assert forall i :: 0 <= i < |byDist| ==> byDist[i] in Elements(byDist);
    for i := 0 to |byDist|
      invariant record.View() == winner
    {
      record.MergeFrom(reports[byDist[i]]);
    }
    node := record.View();
  }

  /** Responders of `near` whose report has signature `sig`. */
  ghost function Backers(reports: Reports, text: TextOrder, near: seq<Key>, sig: seq<Typed>): set<Key>
    requires forall i :: 0 <= i < |near| ==> near[i] in reports
  {
    set r | r in near && Signature(reports[r], text) == sig
  }

  /** Every responder in `near` is in the bucket of its signature, and in no other. */
  ghost predicate Bucketed(reports: Reports, text: TextOrder, near: seq<Key>, buckets: map<seq<Typed>, seq<Key>>)
    requires forall i :: 0 <= i < |near| ==> near[i] in reports
  {
    && (forall sig | sig in buckets :: NoRepeats(buckets[sig]))
    && (forall sig | sig in buckets :: Elements(buckets[sig]) == Backers(reports, text, near, sig))
    && (forall j :: 0 <= j < |near| ==> Signature(reports[near[j]], text) in buckets)
  }

  lemma BucketStep(reports: Reports, text: TextOrder, near: seq<Key>, i: nat, buckets: map<seq<Typed>, seq<Key>>)
    requires i < |near| && NoRepeats(near) && forall j :: 0 <= j < |near| ==> near[j] in reports
    requires Bucketed(reports, text, near[..i], buckets)
    ensures var sig := Signature(reports[near[i]], text);
            var members := if sig in buckets then buckets[sig] else [];
            Bucketed(reports, text, near[..i + 1], buckets[sig := members + [near[i]]])
  {
    var sig := Signature(reports[near[i]], text);
    var members := if sig in buckets then buckets[sig] else [];
    BackersStep(reports, text, near, i);
    assert forall j :: 0 <= j < i ==> near[..i][j] == near[j];
    assert Elements(members) == Backers(reports, text, near[..i], sig);
    assert near[i] !in members by { assert near[i] !in Elements(members); }
    ElementsSnoc(members, near[i]);
    assert near[..i + 1] == near[..i] + [near[i]];
  }

  lemma NobodyAgrees(reports: Reports, text: TextOrder, near: seq<Key>, buckets: map<seq<Typed>, seq<Key>>,
                     i: nat, j: nat)
    requires i < j < |near| && NoRepeats(near) && forall k :: 0 <= k < |near| ==> near[k] in reports
    requires Bucketed(reports, text, near, buckets)
    requires forall sig | sig in buckets :: |buckets[sig]| < QUORUM_THRESHOLD
    ensures !Agrees(reports, text, near[i], near[j])
  {
    SmallBucket(buckets[Signature(reports[near[i]], text)], near[i], near[j]);
  }

  /** Bucket the closest responders by signature and look for a bucket of two. */
  method Quorum(subject: Key, reports: Reports, text: TextOrder, near: seq<Key>) returns (group: Option<seq<Key>>)
    requires forall i :: 0 <= i < |near| ==> near[i] in reports
    requires NoRepeats(near)
    ensures group.None? ==>
              forall i, j :: 0 <= i < j < |near| ==> !Agrees(reports, text, near[i], near[j])
    ensures group.Some? ==> |group.value| >= QUORUM_THRESHOLD && NoRepeats(group.value)
    ensures group.Some? ==>
              exists sig :: Elements(group.value) == Backers(reports, text, near, sig)
  {
    var buckets: map<seq<Typed>, seq<Key>> := map[];
    for i := 0 to |near|
      invariant Bucketed(reports, text, near[..i], buckets)
    {
      BucketStep(reports, text, near, i, buckets);
      var sig := Signature(reports[near[i]], text);
      var members := if sig in buckets then buckets[sig] else [];
      buckets := buckets[sig := members + [near[i]]];
    }
    assert near[..|near|] == near;
    if sig :| sig in buckets && |buckets[sig]| >= QUORUM_THRESHOLD {
      group := Some(buckets[sig]);
    } else {
      group := None;
      forall i, j | 0 <= i < j < |near| ensures !Agrees(reports, text, near[i], near[j]) {
        NobodyAgrees(reports, text, near, buckets, i, j);
      }
    }
  }

  lemma BackersStep(reports: Reports, text: TextOrder, near: seq<Key>, i: nat)
    requires i < |near| && forall j :: 0 <= j < |near| ==> near[j] in reports
    ensures forall sig :: Backers(reports, text, near[..i + 1], sig) ==
              Backers(reports, text, near[..i], sig)
              + if sig == Signature(reports[near[i]], text) then {near[i]} else {}
  {
    assert near[..i + 1] == near[..i] + [near[i]];
  }

  lemma SmallBucket(xs: seq<Key>, p: Key, q: Key)
    requires |xs| < 2 && p != q
    ensures !(p in Elements(xs) && q in Elements(xs))
  {
  }

  lemma NearestOfTwo(subject: Key, near: seq<Key>, group: set<Key>, p: Key, q: Key)
    requires Ascending(subject, near) && |near| <= 3 && group <= Elements(near)
    requires p in group && q in group && p != q
    ensures near[0] in group ==> Nearest(subject, group) == near[0]
    ensures near[0] !in group ==>
              |near| == 3 && group == {near[1], near[2]} && Nearest(subject, group) == near[1]
  {
    var w := Nearest(subject, group);
    assert p in Elements(near) && q in Elements(near) && w in Elements(near);
    AscendingHead(subject, near, w);
    DistanceInjective(subject, w, near[0]);
    if near[0] !in group {
      assert group <= {near[1], near[2]};
    }
  }

  lemma GroupPicksHintWinner(subject: Key, reports: Reports, text: TextOrder, group: seq<Key>, sig: seq<Typed>)
    requires reports != map[]
    requires var near := NearestK(subject, reports.Keys, QUORUM_TOP_N);
             && (forall i :: 0 <= i < |near| ==> near[i] in reports)
             && Elements(group) == Backers(reports, text, near, sig)
    requires |group| >= 2 && NoRepeats(group)
    ensures Elements(group) != {}
    ensures IsHintWinner(subject, reports, text, Nearest(subject, Elements(group)))
  {
    var near := NearestK(subject, reports.Keys, QUORUM_TOP_N);
    NearestKIsNearest(subject, reports.Keys, QUORUM_TOP_N);
    var p, q, g := group[0], group[1], Elements(group);
    assert p in g && q in g;
    NearestOfTwo(subject, near, g, p, q);
    if near[0] in g {
      var r := if p == near[0] then q else p;
      assert Agrees(reports, text, near[0], r);
      assert r in near;
    }
  }

  /** Rules 3 and 4: a quorum among the closest three, or else the closest. */
  method HintWinner(subject: Key, reports: Reports, text: TextOrder, byDist: seq<Key>) returns (r: Key)
    requires reports != map[] && byDist == ByDistance(subject, reports.Keys)
    ensures r in reports && IsHintWinner(subject, reports, text, r)
  {
    ByDistanceSorts(subject, reports.Keys);
    var near := byDist[..Min(QUORUM_TOP_N, |byDist|)];
    assert near == NearestK(subject, reports.Keys, QUORUM_TOP_N);
    NearestInMap(subject, reports, QUORUM_TOP_N);
    assert NoRepeats(near) by { NearestKIsNearest(subject, reports.Keys, QUORUM_TOP_N); }
    var group := Quorum(subject, reports, text, near);
    if group.Some? {
      ghost var sig :| Elements(group.value) == Backers(reports, text, near, sig);
      GroupPicksHintWinner(subject, reports, text, group.value, sig);
      return Nearest(subject, Elements(group.value));
    }
    r := byDist[0];
  }

  /** `compute_winner`. */
  method ComputeWinner(subject: Key, reports: Reports, text: TextOrder)
    returns (winner: Option<(Key, DHTNode)>)
    ensures winner.None? <==> reports == map[]
    ensures winner.Some? ==>
              && IsWinner(subject, reports, text, winner.value.0)
              && winner.value.1 == reports[winner.value.0]
  {
    if reports == map[] {
      return None;
    }
    var order := HashOrder(reports);
    var byDist := StableSort(order, ResponderKey(subject, reports));
    SortIsByDistance(subject, reports, order);
    ByDistanceSorts(subject, reports.Keys);
    var best := OwnerWinner(subject, reports, byDist);
    if best.Some? {
      var node := MergeReports(reports[best.value], reports, byDist);
      return Some((best.value, node));
    }
    if subject in reports {
      return Some((subject, reports[subject]));
    }
    var r := HintWinner(subject, reports, text, byDist);
    winner := Some((r, reports[r]));
  }

  // ---------- what the rules promise ----------

  /** Two of the three closest responders decide, wherever the third one stands. */
  lemma ConsensusWins(subject: Key, reports: Reports, text: TextOrder, w: Key, i: nat, j: nat)
    requires IsWinner(subject, reports, text, w) && !AnyProven(reports) && subject !in reports
    requires var near := NearestK(subject, reports.Keys, QUORUM_TOP_N);
             i < j < |near| && near[i] in reports && near[j] in reports && Agrees(reports, text, near[i], near[j])
    ensures Agrees(reports, text, w, NearestK(subject, reports.Keys, QUORUM_TOP_N)[i])
  {
  }

  /** No two signatures can both have the threshold among the closest three. */
  lemma OneQuorumAtMost(subject: Key, reports: Reports, text: TextOrder, sig: seq<Typed>, sig': seq<Typed>)
    requires var near := NearestK(subject, reports.Keys, QUORUM_TOP_N);
             && (forall i :: 0 <= i < |near| ==> near[i] in reports)
             && |Backers(reports, text, near, sig)| >= QUORUM_THRESHOLD
             && |Backers(reports, text, near, sig')| >= QUORUM_THRESHOLD
    ensures sig == sig'
  {
    var near := NearestK(subject, reports.Keys, QUORUM_TOP_N);
    NearestKIsNearest(subject, reports.Keys, QUORUM_TOP_N);
    var a, b := Backers(reports, text, near, sig), Backers(reports, text, near, sig');
    assert a <= Elements(near) && b <= Elements(near);
    assert a + b <= Elements(near);
    Cardinality(a + b, Elements(near));
    assert |a + b| == |a| + |b| - |a * b|;
    assert a * b != {};
    var r :| r in a * b;
  }

  /** Without agreement among the three closest, the closest responder wins. */
  lemma ClosestWinsOtherwise(subject: Key, reports: Reports, text: TextOrder, w: Key)
    requires IsWinner(subject, reports, text, w) && !AnyProven(reports) && subject !in reports
    requires var near := NearestK(subject, reports.Keys, QUORUM_TOP_N);
             forall i, j :: 0 <= i < j < |near| && near[i] in reports && near[j] in reports ==>
               !Agrees(reports, text, near[i], near[j])
    ensures IsNearest(subject, reports.Keys, w)
  {
    ByDistanceSorts(subject, reports.Keys);
    var all := ByDistance(subject, reports.Keys);
    assert w == all[0];
    forall q | q in reports ensures Distance(subject, w) <= Distance(subject, q) {
      assert q in Elements(all);
      AscendingHead(subject, all, q);
    }
  }

  /** No report outranks the winner: hints cannot displace V1, nor V1 a signed V2. */
  lemma WinnerHasTopRank(subject: Key, reports: Reports, text: TextOrder, w: Key)
    requires IsWinner(subject, reports, text, w)
    ensures forall q :: q in reports ==> Rank(reports[q]) <= Rank(reports[w])
  {
    forall q | q in reports ensures Rank(reports[q]) <= Rank(reports[w]) {
      RankOrder(reports[q], reports[w]);
    }
  }

  // ---------- signatures and insertion order ----------

  /** No address text appears with two different tags. */
  ghost predicate TextDecides(ts: seq<Typed>, text: TextOrder) {
    Identifies(ts, ByText(text))
  }

  function Swapped<T>(xs: seq<T>, i: nat, j: nat): seq<T>
    requires i < |xs| && j < |xs|
  {
    xs[i := xs[j]][j := xs[i]]
  }

  lemma SortIgnoresOrder(ts: seq<Typed>, us: seq<Typed>, text: TextOrder)
    requires TextDecides(ts, text) && multiset(us) == multiset(ts)
    ensures StableSort(us, ByText(text)) == StableSort(ts, ByText(text))
  {
    var key := ByText(text);
    StableSortSorts(us, key);
    StableSortSorts(ts, key);
    IdentifiesSorted(ts, key);
    SortedUnique(StableSort(ts, key), StableSort(us, key), key);
  }

  lemma SortShowsSwap(ts: seq<Typed>, text: TextOrder) returns (i: nat, j: nat)
    requires !TextDecides(ts, text)
    ensures i < j < |ts| && StableSort(Swapped(ts, i, j), ByText(text)) != StableSort(ts, ByText(text))
  {
    i, j :| i < j < |ts| && ByText(text)(ts[i]) == ByText(text)(ts[j]) && ts[i] != ts[j];
    SwapShows(ts, ByText(text), i, j);
  }

  /** The record of the same peer that lists `ts`. */
  function Relisted(node: DHTNode, ts: seq<Typed>): DHTNode {
    node.(addresses := Unzip(ts).addresses, types := Unzip(ts).tags)
  }

  /** Two positions of a record's list exchanged: a record again, with the same tagged addresses. */
  lemma SwappedRecord(node: DHTNode, i: nat, j: nat)
    requires i < j < |TypedAddresses(node)|
    ensures var ts := TypedAddresses(node);
            && TypedAddresses(Relisted(node, Swapped(ts, i, j))) == Swapped(ts, i, j)
            && multiset(Swapped(ts, i, j)) == multiset(ts)
  {
  }

  /** The signature of a record is independent of the order of its list exactly when no address text is
      listed with two different tags. */
  lemma SignatureOrderFreeIff(node: DHTNode, text: TextOrder)
    ensures TextDecides(TypedAddresses(node), text) <==>
            forall other: DHTNode :: multiset(TypedAddresses(other)) == multiset(TypedAddresses(node)) ==>
              Signature(other, text) == Signature(node, text)
  {
    var ts := TypedAddresses(node);
    if TextDecides(ts, text) {
      forall other: DHTNode | multiset(TypedAddresses(other)) == multiset(ts)
        ensures Signature(other, text) == Signature(node, text)
      {
        SortIgnoresOrder(ts, TypedAddresses(other), text);
      }
    } else {
      var i, j := SortShowsSwap(ts, text);
      SwappedRecord(node, i, j);
      var other := Relisted(node, Swapped(ts, i, j));
      assert Signature(other, text) != Signature(node, text);
    }
  }

  /** Responders that agree list the same tagged addresses, each as often. */
  lemma AgreeingListsTheSame(reports: Reports, text: TextOrder, a: Key, b: Key)
    requires a in reports && b in reports && Agrees(reports, text, a, b)
    ensures multiset(TypedAddresses(reports[a])) == multiset(TypedAddresses(reports[b]))
  {
    StableSortSorts(TypedAddresses(reports[a]), ByText(text));
    StableSortSorts(TypedAddresses(reports[b]), ByText(text));
  }

  /** A hint that lists one address twice, first with tag `first` and then with tag `second`. */
  function Twice(peer: Key, first: AddressType, second: AddressType): DHTNode {
    var x := MultiAddr(NonIp(0), None);
    DHTNode(peer, [x, x], [first, second], None, 0.0, None)
  }

  /** Two responders that report the same tagged addresses in different order do not agree. */
  lemma SameSetDisagrees(subject: Key, p: Key, q: Key, text: TextOrder)
    requires p != q
    ensures var reports := map[p := Twice(subject, Relay, Direct), q := Twice(subject, Direct, Relay)];
            && multiset(TypedAddresses(reports[p])) == multiset(TypedAddresses(reports[q]))
            && !Agrees(reports, text, p, q)
  {
    TwiceLists(subject, Relay, Direct);
    TwiceLists(subject, Direct, Relay);
    SwappedTwice(subject, text);
  }

  lemma TwiceLists(peer: Key, first: AddressType, second: AddressType)
    ensures var x := MultiAddr(NonIp(0), None);
            TypedAddresses(Twice(peer, first, second)) == [(x, first), (x, second)]
  {
  }

  lemma SwappedTwice(peer: Key, text: TextOrder)
    ensures Signature(Twice(peer, Relay, Direct), text) != Signature(Twice(peer, Direct, Relay), text)
  {
    TwiceLists(peer, Relay, Direct);
    TwiceLists(peer, Direct, Relay);
    var ts, us := TypedAddresses(Twice(peer, Relay, Direct)), TypedAddresses(Twice(peer, Direct, Relay));
    assert us == Swapped(ts, 0, 1);
    SwapShows(ts, ByText(text), 0, 1);
  }
}
