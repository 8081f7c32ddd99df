/** What `merge_from` means: on hints it is a join of address-to-tag maps, on
    owner-proven views it keeps the view of greatest rank. */
module PeerMerge {
  import opened Keys
  import opened Wrappers
  import opened Addresses
  import opened Sorting
  import opened PeerRecords

  type TagMap = map<MultiAddr, AddressType>

  function Note(m: TagMap, t: Typed): TagMap {
    m[t.0 := if t.0 in m then Stronger(m[t.0], t.1) else t.1]
  }

  /** For every address offered, the strongest tag offered for it. */
  function BestTags(ts: seq<Typed>): TagMap {
    if ts == [] then map[] else Note(BestTags(ts[..|ts| - 1]), ts[|ts| - 1])
  }

  function TagsOf(node: DHTNode): TagMap { BestTags(TypedAddresses(node)) }

  function Join(m: TagMap, n: TagMap): TagMap {
    map a | a in m.Keys + n.Keys ::
      if a !in n then m[a] else if a !in m then n[a] else Stronger(m[a], n[a])
  }

  lemma JoinAssociates(l: TagMap, m: TagMap, n: TagMap)
    ensures Join(l, Join(m, n)) == Join(Join(l, m), n)
  {
    assert Join(l, Join(m, n)).Keys == Join(Join(l, m), n).Keys;
  }

  lemma JoinLaws(l: TagMap, m: TagMap, n: TagMap)
    ensures Join(m, n) == Join(n, m)
    ensures Join(l, Join(m, n)) == Join(Join(l, m), n)
    ensures Join(m, m) == m
  {
    JoinAssociates(l, m, n);
  }

  lemma JoinNote(m: TagMap, n: TagMap, t: Typed)
    ensures Join(m, Note(n, t)) == Note(Join(m, n), t)
  {
  }

  // ---------- lists that stand for a map ----------

  ghost predicate Represents(l: Lists, m: TagMap) {
    && |l.addresses| == |l.tags|
    && NoRepeats(l.addresses)
    && (forall a :: a in m ==> a in l.addresses)
    && (forall i :: 0 <= i < |l.addresses| ==> l.addresses[i] in m && m[l.addresses[i]] == l.tags[i])
  }

  lemma RepresentsUnique(l: Lists, m: TagMap, n: TagMap)
    requires Represents(l, m) && Represents(l, n)
    ensures m == n
  {
    assert forall a :: a in m <==> a in l.addresses;
    assert forall a :: a in n <==> a in l.addresses;
  }

  lemma AbsorbRepresents(l: Lists, m: TagMap, t: Typed)
    requires Represents(l, m)
    ensures Represents(Absorb(l, t), Note(m, t))
  {
    if t.0 in l.addresses {
      var i := Position(l.addresses, t.0);
      assert forall j :: 0 <= j < |l.addresses| && j != i ==> l.addresses[j] != t.0;
    } else {
      assert t.0 !in m;
    }
  }

  lemma {:induction false} AbsorbAllRepresents(l: Lists, m: TagMap, ts: seq<Typed>)
    requires Represents(l, m)
    ensures Represents(AbsorbAll(l, ts), Join(m, BestTags(ts)))
    decreases |ts|
  {
    if ts == [] {
      assert Join(m, map[]) == m;
    } else {
      var n := |ts| - 1;
      AbsorbAllRepresents(l, m, ts[..n]);
      AbsorbRepresents(AbsorbAll(l, ts[..n]), Join(m, BestTags(ts[..n])), ts[n]);
      JoinNote(m, BestTags(ts[..n]), ts[n]);
    }
  }

  lemma {:induction false} DistinctRepresents(ts: seq<Typed>)
    requires NoRepeats(Unzip(ts).addresses)
    ensures Represents(Unzip(ts), BestTags(ts))
    decreases |ts|
  {
    if ts != [] {
      var n := |ts| - 1;
      var l, l' := Unzip(ts[..n]), Unzip(ts);
      UnzipSnoc(ts);
      assert NoRepeats(l.addresses) && ts[n].0 !in l.addresses by {
        assert l'.addresses[n] == ts[n].0;
        assert forall i :: 0 <= i < n ==> l.addresses[i] == l'.addresses[i];
      }
      DistinctRepresents(ts[..n]);
      AbsorbRepresents(l, BestTags(ts[..n]), ts[n]);
      assert Absorb(l, ts[n]) == l';
    }
  }

  lemma UnzipSnoc(ts: seq<Typed>)
    requires ts != []
    ensures var n := |ts| - 1;
            && Unzip(ts).addresses == Unzip(ts[..n]).addresses + [ts[n].0]
            && Unzip(ts).tags == Unzip(ts[..n]).tags + [ts[n].1]
  {
  }

  lemma ZipUnzip(l: Lists)
    requires |l.addresses| == |l.tags|
    ensures Unzip(Zip(l)) == l
  {
    assert Unzip(Zip(l)).addresses == l.addresses && Unzip(Zip(l)).tags == l.tags;
  }

  /** The same as pairs: a form that does not mention positions. */
  ghost predicate ListsOnce(ts: seq<Typed>, m: TagMap) {
    NoRepeats(ts) && forall t :: t in ts <==> t.0 in m && m[t.0] == t.1
  }

  lemma ZipListsOnce(l: Lists, m: TagMap)
    requires Represents(l, m)
    ensures ListsOnce(Zip(l), m)
  {
    var ts := Zip(l);
    forall t: Typed | t.0 in m && m[t.0] == t.1 ensures t in ts {
      var k :| 0 <= k < |l.addresses| && l.addresses[k] == t.0;
      assert ts[k] == t;
    }
  }

  lemma UnzipRepresents(ts: seq<Typed>, m: TagMap)
    requires ListsOnce(ts, m)
    ensures Represents(Unzip(ts), m)
  {
    var l := Unzip(ts);
    forall i, j | 0 <= i < j < |ts| ensures l.addresses[i] != l.addresses[j] {
      assert ts[i] in ts && ts[j] in ts && ts[i] != ts[j];
    }
    forall a | a in m ensures a in l.addresses {
      assert (a, m[a]) in ts;
      var i :| 0 <= i < |ts| && ts[i] == (a, m[a]);
      assert l.addresses[i] == a;
    }
    assert forall i :: 0 <= i < |ts| ==> ts[i] in ts;
  }

  lemma SortRepresents(l: Lists, m: TagMap)
    requires Represents(l, m)
    ensures Represents(Unzip(StableSort(Zip(l), ByPriority)), m)
  {
    var ts := Zip(l);
    ZipListsOnce(l, m);
    StableSortSorts(ts, ByPriority);
    DistinctCount(ts);
    DistinctFromCount(StableSort(ts, ByPriority));
    UnzipRepresents(StableSort(ts, ByPriority), m);
  }

  // ---------- hints: the merge is a join ----------

  /** Tags are parallel to addresses, or shorter. */
  predicate Aligned(node: DHTNode) { |node.types| <= |node.addresses| }

  lemma StartRepresents(a: DHTNode)
    requires Aligned(a) && NoRepeats(a.addresses)
    ensures Represents(Start(a), TagsOf(a))
  {
    var ts := TypedAddresses(a);
    assert Unzip(ts).addresses == a.addresses;
    assert Unzip(ts).tags == Start(a).tags;
    DistinctRepresents(ts);
  }

  /** Every tag in the map respects the scope of its address. */
  ghost predicate ScopeRespected(m: TagMap) {
    forall a :: a in m && a.IsLocalScope() ==> m[a] == Lan
  }

  lemma {:induction false} TypedScope(ts: seq<Typed>)
    requires forall t :: t in ts && t.0.IsLocalScope() ==> t.1 == Lan
    ensures ScopeRespected(BestTags(ts))
    decreases |ts|
  {
    if ts != [] { TypedScope(ts[..|ts| - 1]); }
  }

  lemma NodeScope(node: DHTNode)
    ensures ScopeRespected(TagsOf(node))
  {
    TypedScope(TypedAddresses(node));
  }

  /** A record whose lists stand for a scope-respecting map reads back as that map. */
  lemma ReadBack(node: DHTNode, m: TagMap)
    requires Represents(Lists(node.addresses, node.types), m) && ScopeRespected(m)
    ensures TagsOf(node) == m
    ensures TypedAddresses(node) == Zip(Lists(node.addresses, node.types))
  {
    var l := Lists(node.addresses, node.types);
    assert TypedAddresses(node) == Zip(l);
    ZipUnzip(l);
    DistinctRepresents(Zip(l));
    RepresentsUnique(l, m, BestTags(Zip(l)));
  }

  /** Merging hints joins their address-to-tag maps and leaves well-formed lists. */
  lemma MergeIsJoin(a: DHTNode, b: DHTNode)
    requires a.peer == b.peer && !Proven(a) && !Proven(b)
    requires Aligned(a) && NoRepeats(a.addresses)
    ensures TagsOf(Merged(a, b)) == Join(TagsOf(a), TagsOf(b))
    ensures Aligned(Merged(a, b)) && NoRepeats(Merged(a, b).addresses)
    ensures |Merged(a, b).types| == |Merged(a, b).addresses|
    ensures SortedBy(TypedAddresses(Merged(a, b)), ByPriority)
    ensures ScopeRespected(TagsOf(Merged(a, b)))
    ensures !Proven(Merged(a, b))
  {
    var absorbed := AbsorbAll(Start(a), TypedAddresses(b));
    var m := Join(TagsOf(a), TagsOf(b));
    StartRepresents(a);
    AbsorbAllRepresents(Start(a), TagsOf(a), TypedAddresses(b));
    SortRepresents(absorbed, m);
    assert ScopeRespected(m) by { NodeScope(a); NodeScope(b); }
    ReadBack(Merged(a, b), m);
    StableSortSorts(Zip(absorbed), ByPriority);
    var sorted := StableSort(Zip(absorbed), ByPriority);
    assert Zip(Unzip(sorted)) == sorted;
  }

  ghost predicate WellFormedHint(node: DHTNode) {
    !Proven(node) && Aligned(node) && NoRepeats(node.addresses)
  }

  lemma HintsCommute(a: DHTNode, b: DHTNode)
    requires a.peer == b.peer && WellFormedHint(a) && WellFormedHint(b)
    ensures TagsOf(Merged(a, b)) == TagsOf(Merged(b, a))
    ensures Merged(a, b).reliability == Merged(b, a).reliability
  {
    MergeIsJoin(a, b);
    MergeIsJoin(b, a);
    JoinLaws(TagsOf(a), TagsOf(a), TagsOf(b));
  }

  lemma HintsAssociate(a: DHTNode, b: DHTNode, c: DHTNode)
    requires a.peer == b.peer == c.peer && WellFormedHint(a) && WellFormedHint(b) && !Proven(c)
    ensures TagsOf(Merged(a, Merged(b, c))) == TagsOf(Merged(Merged(a, b), c))
  {
    var ab, bc := Merged(a, b), Merged(b, c);
    MergedKeepsPeer(a, b);
    MergedKeepsPeer(b, c);
    MergeIsJoin(a, b);
    MergeIsJoin(b, c);
    assert ab.peer == c.peer && a.peer == bc.peer;
    assert TagsOf(Merged(a, bc)) == Join(TagsOf(a), TagsOf(bc)) by { MergeIsJoin(a, bc); }
    assert TagsOf(Merged(ab, c)) == Join(TagsOf(ab), TagsOf(c)) by { MergeIsJoin(ab, c); }
    JoinLaws(TagsOf(a), TagsOf(b), TagsOf(c));
  }

  lemma HintsIdempotent(a: DHTNode)
    requires WellFormedHint(a)
    ensures TagsOf(Merged(a, a)) == TagsOf(a)
  {
    MergeIsJoin(a, a);
    JoinLaws(TagsOf(a), TagsOf(a), TagsOf(a));
  }

  // ---------- surplus tags break the join ----------

  function FreshDevice(xs: seq<MultiAddr>): (n: nat)
    ensures forall x :: x in xs && x.transport.NonIp? ==> x.transport.device < n
  {
    if xs == [] then 0
    else
      var n := FreshDevice(xs[1..]);
      assert forall x :: x in xs ==> x == xs[0] || x in xs[1..];
      if xs[0].transport.NonIp? then Max(n, xs[0].transport.device + 1) else n
  }

  /** A one-address hint that a record with a surplus tag mislabels. */
  function Misread(a: DHTNode): DHTNode
    requires !Aligned(a)
  {
    var stray := a.types[|a.addresses|];
    DHTNode(a.peer, [MultiAddr(NonIp(FreshDevice(a.addresses)), None)],
            [if stray == Relay then Direct else Relay], None, a.reliability, None)
  }

  /** The lists as the sort sees them: the surplus tag sits where the new address's own tag should. */
  function Mislabelled(a: DHTNode): Lists
    requires !Aligned(a)
  {
    Lists(a.addresses + [Misread(a).addresses[0]], Start(a).tags[..|a.addresses|] + [a.types[|a.addresses|]])
  }

  lemma SurplusIsRead(a: DHTNode)
    requires !Aligned(a)
    ensures Zip(AbsorbAll(Start(a), TypedAddresses(Misread(a)))) == Zip(Mislabelled(a))
  {
    var b, start := Misread(a), Start(a);
    var ts := TypedAddresses(b);
    assert ts == [(b.addresses[0], b.types[0])];
    assert ts[..0] == [];
    assert AbsorbAll(start, ts) == Absorb(start, ts[0]);
    assert b.addresses[0] !in a.addresses;
    assert start.tags[|a.addresses|] == a.types[|a.addresses|];
  }

  lemma MislabelledRepresents(a: DHTNode) returns (m: TagMap)
    requires NoRepeats(a.addresses) && !Aligned(a)
    ensures Represents(Mislabelled(a), m) && ScopeRespected(m)
    ensures var x := Misread(a).addresses[0]; x in m && m[x] == a.types[|a.addresses|]
  {
    var n := |a.addresses|;
    var own := a.(types := a.types[..n]);
    var x, stray := Misread(a).addresses[0], a.types[n];
    assert Start(own).tags == Start(a).tags[..n];
    assert x !in a.addresses;
    StartRepresents(own);
    AbsorbRepresents(Start(own), TagsOf(own), (x, stray));
    m := Note(TagsOf(own), (x, stray));
    NodeScope(own);
  }

  lemma SingleOffer(x: MultiAddr, kind: AddressType)
    ensures BestTags([(x, kind)]) == map[x := kind]
  {
    assert [(x, kind)][..0] == [];
    assert BestTags([(x, kind)][..0]) == map[];
  }

  lemma SurplusTagMislabels(a: DHTNode)
    requires !Proven(a) && NoRepeats(a.addresses) && !Aligned(a)
    ensures TagsOf(Merged(a, Misread(a))) != Join(TagsOf(a), TagsOf(Misread(a)))
  {
    var b := Misread(a);
    var x := b.addresses[0];
    var m := MislabelledRepresents(a);
    SurplusIsRead(a);
    SortRepresents(Mislabelled(a), m);
    ReadBack(Merged(a, b), m);
    assert TypedAddresses(b) == [(x, b.types[0])];
    SingleOffer(x, b.types[0]);
    NotOffered(TypedAddresses(a), x);
  }

  lemma {:induction false} NotOffered(ts: seq<Typed>, x: MultiAddr)
    requires forall t :: t in ts ==> t.0 != x
    ensures x !in BestTags(ts)
    decreases |ts|
  {
    if ts != [] { NotOffered(ts[..|ts| - 1], x); }
  }

  /** `merge_from` joins with every hint exactly when the record carries no surplus tag. */
  lemma JoinsIffAligned(a: DHTNode)
    requires !Proven(a) && NoRepeats(a.addresses)
    ensures Aligned(a) <==>
            forall b: DHTNode :: b.peer == a.peer && !Proven(b) ==>
              TagsOf(Merged(a, b)) == Join(TagsOf(a), TagsOf(b))
  {
    if Aligned(a) {
      forall b: DHTNode | b.peer == a.peer && !Proven(b)
        ensures TagsOf(Merged(a, b)) == Join(TagsOf(a), TagsOf(b))
      {
        MergeIsJoin(a, b);
      }
    } else {
      SurplusTagMislabels(a);
      assert Misread(a).peer == a.peer && !Proven(Misread(a));
    }
  }

  // ---------- owner-proven views ----------

  /** Fold of `merge_from` over later views of the peer. */
  function MergeAll(first: DHTNode, views: seq<DHTNode>): DHTNode {
    if views == [] then first
    else Merged(MergeAll(first, views[..|views| - 1]), views[|views| - 1])
  }

  function TopRank(first: DHTNode, views: seq<DHTNode>): nat {
    if views == [] then Rank(first)
    else Max(TopRank(first, views[..|views| - 1]), Rank(views[|views| - 1]))
  }

  lemma {:induction false} TopRankIsMax(first: DHTNode, views: seq<DHTNode>)
    ensures Rank(first) <= TopRank(first, views)
    ensures forall v :: v in views ==> Rank(v) <= TopRank(first, views)
    ensures TopRank(first, views) == Rank(first) || exists v :: v in views && Rank(v) == TopRank(first, views)
    decreases |views|
  {
    if views != [] {
      var n := |views| - 1;
      TopRankIsMax(first, views[..n]);
      assert views == views[..n] + [views[n]];
    }
  }

  lemma MergedKeepsPeer(a: DHTNode, b: DHTNode)
    ensures Merged(a, b).peer == a.peer
    ensures a.peer == b.peer ==> Rank(Merged(a, b)) == Max(Rank(a), Rank(b))
    ensures Proven(a) || (a.peer == b.peer && Proven(b)) ==> Merged(a, b) == a || Merged(a, b) == b
  {
  }

  /** With an owner-proven view among them, merging any list of views of one peer
      yields exactly one of those views, of greatest rank: nothing is blended in. */
  lemma {:induction false} MergeKeepsBest(first: DHTNode, views: seq<DHTNode>)
    requires forall v :: v in views ==> v.peer == first.peer
    ensures MergeAll(first, views).peer == first.peer
    ensures Rank(MergeAll(first, views)) == TopRank(first, views)
    ensures TopRank(first, views) > 0 ==> MergeAll(first, views) == first || MergeAll(first, views) in views
    decreases |views|
  {
    if views != [] {
      var n := |views| - 1;
      MergeKeepsBest(first, views[..n]);
      MergedKeepsPeer(MergeAll(first, views[..n]), views[n]);
      assert views == views[..n] + [views[n]];
      if TopRank(first, views[..n]) == 0 && TopRank(first, views) > 0 {
        assert MergeAll(first, views) == views[n];
      }
    }
  }

  /** If views of equal rank are equal, the order of merging does not matter. */
  lemma MergeOrderIndependent(first: DHTNode, views: seq<DHTNode>, first': DHTNode, views': seq<DHTNode>)
    requires forall v :: v in views ==> v.peer == first.peer
    requires multiset([first] + views) == multiset([first'] + views')
    requires TopRank(first, views) > 0
    requires forall v, w :: v in [first] + views && w in [first] + views && Proven(v) && Rank(v) == Rank(w) ==> v == w
    ensures MergeAll(first, views) == MergeAll(first', views')
  {
    var all, all' := [first] + views, [first'] + views';
    assert forall v :: v in all <==> v in multiset(all);
    assert forall v :: v in all' <==> v in multiset(all');
    assert forall v :: v in all ==> v.peer == first.peer;
    assert first' in all' && forall v :: v in views' ==> v in all';
    MergeKeepsBest(first, views);
    MergeKeepsBest(first', views');
    SameTopRank(first, views, first', views');
    RankOrder(MergeAll(first, views), first);
  }

  lemma SameTopRank(first: DHTNode, views: seq<DHTNode>, first': DHTNode, views': seq<DHTNode>)
    requires forall v :: v in [first] + views <==> v in [first'] + views'
    ensures TopRank(first, views) == TopRank(first', views')
  {
    TopRankIsMax(first, views);
    TopRankIsMax(first', views');
    assert first in [first] + views && first' in [first'] + views';
    assert forall v :: v in views ==> v in [first] + views;
    assert forall v :: v in views' ==> v in [first'] + views';
  }

  // ---------- merging any number of hints ----------

  ghost predicate Gives(v: DHTNode, a: MultiAddr, t: AddressType) {
    a in TagsOf(v) && TagsOf(v)[a] == t
  }

  /** Some view lists `a`. */
  ghost predicate Offers(views: seq<DHTNode>, a: MultiAddr) {
    exists v :: v in views && a in TagsOf(v)
  }

  /** The strongest tag any view gives to `a`. */
  ghost predicate IsStrongest(views: seq<DHTNode>, a: MultiAddr, t: AddressType) {
    && (exists v :: v in views && Gives(v, a, t))
    && forall v, u :: v in views && Gives(v, a, u) ==> t.Priority() <= u.Priority()
  }

  /** The join of the tag maps of all `views`: every address some view lists, with the strongest tag given to it. */
  ghost predicate IsJoinOf(views: seq<DHTNode>, m: TagMap) {
    && (forall a :: a in m <==> Offers(views, a))
    && (forall a | a in m :: IsStrongest(views, a, m[a]))
  }

  ghost predicate IsGreatestReliability(views: seq<DHTNode>, r: real) {
    && (exists v :: v in views && v.reliability == r)
    && forall v :: v in views ==> v.reliability <= r
  }

  lemma StrongestUnique(views: seq<DHTNode>, views': seq<DHTNode>, a: MultiAddr, t: AddressType, t': AddressType)
    requires forall v :: v in views <==> v in views'
    requires IsStrongest(views, a, t) && IsStrongest(views', a, t')
    ensures t == t'
  {
    var v :| v in views && Gives(v, a, t);
    var v' :| v' in views' && Gives(v', a, t');
    assert t.Priority() == t'.Priority();
  }

  /** A join depends on which views there are, not on their order or number. */
  lemma JoinOfUnique(views: seq<DHTNode>, views': seq<DHTNode>, m: TagMap, m': TagMap)
    requires forall v :: v in views <==> v in views'
    requires IsJoinOf(views, m) && IsJoinOf(views', m')
    ensures m == m'
  {
    forall a ensures a in m <==> a in m' {
      assert Offers(views, a) <==> Offers(views', a);
    }
    forall a | a in m ensures m[a] == m'[a] { StrongestUnique(views, views', a, m[a], m'[a]); }
  }

  lemma JoinOfOne(v: DHTNode)
    ensures IsJoinOf([v], TagsOf(v))
  {
    assert v in [v];
    forall a | a in TagsOf(v) ensures IsStrongest([v], a, TagsOf(v)[a]) {
      assert Gives(v, a, TagsOf(v)[a]);
    }
  }

  lemma JoinOfMore(views: seq<DHTNode>, m: TagMap, v: DHTNode)
    requires IsJoinOf(views, m)
    ensures IsJoinOf(views + [v], Join(m, TagsOf(v)))
  {
    var longer, joined := views + [v], Join(m, TagsOf(v));
    assert forall w :: w in longer <==> w in views || w == v;
    forall a ensures a in joined <==> Offers(longer, a) {
      if a in TagsOf(v) { assert v in longer; }
    }
    forall a | a in joined ensures IsStrongest(longer, a, joined[a]) { StrongestOfMore(views, m, v, a); }
  }

  lemma StrongestOfMore(views: seq<DHTNode>, m: TagMap, v: DHTNode, a: MultiAddr)
    requires IsJoinOf(views, m) && a in Join(m, TagsOf(v))
    ensures IsStrongest(views + [v], a, Join(m, TagsOf(v))[a])
  {
    var longer, t := views + [v], Join(m, TagsOf(v))[a];
    assert forall w :: w in longer <==> w in views || w == v;
    if Gives(v, a, t) {
      assert v in longer;
    } else {
      var w :| w in views && Gives(w, a, m[a]);
      assert w in longer;
    }
    forall w, u | w in longer && Gives(w, a, u) ensures t.Priority() <= u.Priority() {
      if w in views { assert Offers(views, a); }
    }
  }

  /** What merging `views` into one record amounts to. */
  ghost predicate IsBlendOf(views: seq<DHTNode>, node: DHTNode) {
    WellFormedHint(node) && IsJoinOf(views, TagsOf(node)) && IsGreatestReliability(views, node.reliability)
  }

  lemma BlendOne(views: seq<DHTNode>, node: DHTNode, v: DHTNode)
    requires IsBlendOf(views, node) && v.peer == node.peer && !Proven(v)
    ensures IsBlendOf(views + [v], Merged(node, v))
  {
    MergeIsJoin(node, v);
    JoinOfMore(views, TagsOf(node), v);
    MostReliable(views, node.reliability, v);
    assert Merged(node, v).reliability == if v.reliability > node.reliability then v.reliability else node.reliability;
  }

  lemma MostReliable(views: seq<DHTNode>, r: real, v: DHTNode)
    requires IsGreatestReliability(views, r)
    ensures IsGreatestReliability(views + [v], if v.reliability > r then v.reliability else r)
  {
    var longer := views + [v];
    assert v in longer;
    var w :| w in views && w.reliability == r;
    assert w in longer;
  }

  lemma BlendFirst(first: DHTNode)
    requires WellFormedHint(first)
    ensures IsBlendOf([first], first)
  {
    JoinOfOne(first);
    assert first in [first];
  }

  ghost predicate HintsOn(views: seq<DHTNode>, p: Key) {
    forall v :: v in views ==> v.peer == p && !Proven(v)
  }

  /** Merging any list of hints onto a well-formed one joins all their tag maps and keeps the greatest reliability. */
  lemma {:induction false} HintsBlend(first: DHTNode, views: seq<DHTNode>)
    requires WellFormedHint(first) && HintsOn(views, first.peer)
    ensures IsBlendOf([first] + views, MergeAll(first, views)) && MergeAll(first, views).peer == first.peer
    decreases |views|
  {
    if views == [] {
      BlendFirst(first);
      assert [first] + views == [first];
    } else {
      var n := |views| - 1;
      var before, last := views[..n], views[n];
      assert HintsOn(before, first.peer) && last.peer == first.peer && !Proven(last);
      HintsBlend(first, before);
      var merged := MergeAll(first, before);
      BlendOne([first] + before, merged, last);
      MergedKeepsPeer(merged, last);
      assert [first] + views == ([first] + before) + [last];
    }
  }

  lemma BlendUnique(views: seq<DHTNode>, views': seq<DHTNode>, a: DHTNode, b: DHTNode)
    requires forall v :: v in views <==> v in views'
    requires IsBlendOf(views, a) && IsBlendOf(views', b)
    ensures TagsOf(a) == TagsOf(b) && a.reliability == b.reliability
  {
    JoinOfUnique(views, views', TagsOf(a), TagsOf(b));
    var v :| v in views && v.reliability == a.reliability;
    var w :| w in views' && w.reliability == b.reliability;
  }

  /** Every order of merging hints, and any repetition of them, gives the same tags and the same reliability. */
  lemma HintOrderIndependent(first: DHTNode, views: seq<DHTNode>, first': DHTNode, views': seq<DHTNode>)
    requires WellFormedHint(first) && HintsOn(views, first.peer)
    requires WellFormedHint(first') && HintsOn(views', first'.peer)
    requires forall v :: v in [first] + views <==> v in [first'] + views'
    ensures TagsOf(MergeAll(first, views)) == TagsOf(MergeAll(first', views'))
    ensures MergeAll(first, views).reliability == MergeAll(first', views').reliability
  {
    HintsBlend(first, views);
    HintsBlend(first', views');
    BlendUnique([first] + views, [first'] + views', MergeAll(first, views), MergeAll(first', views'));
  }

  // ---------- replacing a proven view ----------

  predicate MayReplace(current: DHTNode, incoming: DHTNode) {
    !VersionLess(OwnerVersion(incoming), OwnerVersion(current))
  }

  /** A view may replace the merge of any views exactly when it may replace each of them;
      one that may not is also ignored by a further merge. */
  lemma MayReplaceMergeIff(first: DHTNode, views: seq<DHTNode>, incoming: DHTNode)
    requires forall v :: v in views ==> v.peer == first.peer
    ensures MayReplace(MergeAll(first, views), incoming) <==>
            MayReplace(first, incoming) && forall v :: v in views ==> MayReplace(v, incoming)
    ensures !MayReplace(MergeAll(first, views), incoming) ==>
              MergeAll(first, views + [incoming]) == MergeAll(first, views)
  {
    MergeKeepsBest(first, views);
    TopRankIsMax(first, views);
    assert (views + [incoming])[..|views|] == views;
    RankOrder(incoming, MergeAll(first, views));
    RankOrder(incoming, first);
    forall v | v in views ensures MayReplace(v, incoming) <==> Rank(incoming) >= Rank(v) { RankOrder(incoming, v); }
    RankOrder(MergeAll(first, views), first);
  }
}
