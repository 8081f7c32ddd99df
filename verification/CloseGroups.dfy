/** Final lookup results and witnessed close groups: many records per peer in,
    one record per peer out, the closest peers first. */
module CloseGroups {
  import opened Keys
  import opened Ranking
  import opened Wrappers
  import opened Addresses
  import opened Sorting
  import opened PeerRecords
  import opened PeerMerge
  import opened ClientRouting

  function PeersOf(nodes: seq<DHTNode>): set<Key> {
    set i | 0 <= i < |nodes| :: nodes[i].peer
  }

  lemma PeersOfSnoc(nodes: seq<DHTNode>, i: nat)
    requires i < |nodes|
    ensures PeersOf(nodes[..i + 1]) == PeersOf(nodes[..i]) + {nodes[i].peer}
  {
    var a, b := nodes[..i], nodes[..i + 1];
    forall p | p in PeersOf(a) ensures p in PeersOf(b) {
      var k :| 0 <= k < |a| && a[k].peer == p;
      assert b[k].peer == p;
    }
    assert b[i].peer == nodes[i].peer;
    forall p | p in PeersOf(b) ensures p in PeersOf(a) || p == nodes[i].peer {
      var k :| 0 <= k < |b| && b[k].peer == p;
      assert k < i ==> a[k].peer == p;
    }
  }

  // ---------- refreshed lookup results ----------

  /** Reports are filed under the peer they describe. */
  ghost predicate WellFiled(subjects: map<Key, Reports>) {
    forall p, r :: p in subjects && r in subjects[p] ==> subjects[p][r].peer == p
  }

  /** Everything the lookup knows about `p`: copies among `nodes` and reports filed under it. */
  ghost predicate IsViewOf(nodes: seq<DHTNode>, subjects: map<Key, Reports>, p: Key, v: DHTNode) {
    || (v in nodes && v.peer == p)
    || (p in subjects && exists r :: r in subjects[p] && subjects[p][r] == v)
  }

  /** `v` is one of the known views of `p`, and none of them outranks it. */
  ghost predicate IsBestView(nodes: seq<DHTNode>, subjects: map<Key, Reports>, p: Key, v: DHTNode) {
    && IsViewOf(nodes, subjects, p, v)
    && forall w :: IsViewOf(nodes, subjects, p, w) ==> Rank(w) <= Rank(v)
  }

  predicate PreferLookupRecord(candidate: DHTNode, existing: DHTNode) {
    || PublishSeq(candidate) > PublishSeq(existing)
    || (PublishSeq(candidate) == PublishSeq(existing) && BestTier(candidate) < BestTier(existing))
  }

  /** A result node brought up to date with the winner of its reports. */
  function RefreshedWith(node: DHTNode, winner: DHTNode): DHTNode {
    if Proven(node) || Proven(winner) then Merged(node, winner) else winner
  }

  ghost predicate IsRefreshed(node: DHTNode, subjects: map<Key, Reports>, text: TextOrder, f: DHTNode) {
    if node.peer !in subjects || subjects[node.peer] == map[] then f == node
    else
      exists r :: IsWinner(node.peer, subjects[node.peer], text, r) && f == RefreshedWith(node, subjects[node.peer][r])
  }

  /** The node and the winner of the reports filed under it are hints, and the winner describes another peer. */
  ghost predicate Displaced(node: DHTNode, subjects: map<Key, Reports>, text: TextOrder) {
    && !Proven(node) && node.peer in subjects
    && exists r :: IsWinner(node.peer, subjects[node.peer], text, r)
                   && !Proven(subjects[node.peer][r]) && subjects[node.peer][r].peer != node.peer
  }

  /** Refreshing changes whom a node describes exactly when a misfiled hint displaces it. */
  lemma RefreshKeepsPeerIff(node: DHTNode, subjects: map<Key, Reports>, text: TextOrder, f: DHTNode)
    requires IsRefreshed(node, subjects, text, f)
    ensures f.peer == node.peer <==> !Displaced(node, subjects, text)
  {
    if node.peer in subjects && subjects[node.peer] != map[] {
      var reports := subjects[node.peer];
      var r :| IsWinner(node.peer, reports, text, r) && f == RefreshedWith(node, reports[r]);
      MergedKeepsPeer(node, reports[r]);
      forall q | IsWinner(node.peer, reports, text, q) ensures q == r { WinnerUnique(node.peer, reports, text, q, r); }
    }
  }

  /** A single misfiled hint takes the place of the node it is filed under. */
  lemma MisfiledHintDisplaces(node: DHTNode, responder: Key, hint: DHTNode, text: TextOrder, f: DHTNode)
    requires !Proven(node) && !Proven(hint) && hint.peer != node.peer
    requires IsRefreshed(node, map[node.peer := map[responder := hint]], text, f)
    ensures f == hint && f.peer != node.peer
  {
    var reports := map[responder := hint];
    assert responder in reports;
  }

  /** No report that is filed under `p` and describes `p` outranks `v`. */
  ghost predicate UnrivalledBy(reports: Reports, p: Key, v: DHTNode) {
    forall q :: q in reports && reports[q].peer == p ==> Rank(reports[q]) <= Rank(v)
  }

  /** Whatever is filed where, a refreshed node still describes its peer and is outranked by no report on it
      exactly when the winner describes that peer, or is ignored for being misfiled and the node itself was
      outranked by none. */
  lemma RefreshedUnrivalledIff(node: DHTNode, reports: Reports, text: TextOrder, r: Key)
    requires IsWinner(node.peer, reports, text, r)
    ensures var f := RefreshedWith(node, reports[r]);
            f.peer == node.peer && UnrivalledBy(reports, node.peer, f) <==>
              || reports[r].peer == node.peer
              || ((Proven(node) || Proven(reports[r])) && UnrivalledBy(reports, node.peer, node))
  {
    WinnerHasTopRank(node.peer, reports, text, r);
    MergedKeepsPeer(node, reports[r]);
    RankOrder(node, reports[r]);
  }

  /** With its reports filed properly, a refreshed node is the best of everything known about its peer. */
  lemma RefreshedIsBest(node: DHTNode, subjects: map<Key, Reports>, text: TextOrder, f: DHTNode)
    requires WellFiled(subjects) && IsRefreshed(node, subjects, text, f)
    ensures f.peer == node.peer && IsBestView([node], subjects, node.peer, f)
  {
    if node.peer in subjects && subjects[node.peer] != map[] {
      var reports := subjects[node.peer];
      var r :| IsWinner(node.peer, reports, text, r) && f == RefreshedWith(node, reports[r]);
      WinnerHasTopRank(node.peer, reports, text, r);
      MergedKeepsPeer(node, reports[r]);
      RankOrder(node, reports[r]);
      assert IsViewOf([node], subjects, node.peer, reports[r]);
    }
    assert IsViewOf([node], subjects, node.peer, node);
  }

  method Refresh(node: DHTNode, subjects: map<Key, Reports>, text: TextOrder) returns (fresh': DHTNode)
    ensures IsRefreshed(node, subjects, text, fresh')
    ensures fresh'.peer == node.peer <==> !Displaced(node, subjects, text)
    ensures WellFiled(subjects) ==> IsBestView([node], subjects, node.peer, fresh')
  {
    fresh' := node;
    if node.peer in subjects {
      var winner := ComputeWinner(node.peer, subjects[node.peer], text);
      if winner.Some? {
        var w := winner.value.1;
        if PublishSeq(node) != 0 || PublishSeq(w) != 0 {
          var record := new PeerRecord(node);
          record.MergeFrom(w);
          fresh' := record.View();
        } else {
          fresh' := w;
        }
        assert fresh' == RefreshedWith(node, w);
      }
    }
    RefreshKeepsPeerIff(node, subjects, text, fresh');
    if WellFiled(subjects) { RefreshedIsBest(node, subjects, text, fresh'); }
  }

  /** What decides between records of equal rank: nothing for proven views, the best tier for hints. */
  function TierOf(node: DHTNode): nat { if Proven(node) then 0 else BestTier(node) }

  /** `v` takes the place of `w`, whichever came first. */
  predicate Supersedes(v: DHTNode, w: DHTNode) {
    Rank(w) < Rank(v) || (Rank(w) == Rank(v) && TierOf(v) < TierOf(w))
  }

  /** Two records of one peer: proven views are merged, hints compete by tier, and a tie keeps the earlier one. */
  method KeepBetter(existing: DHTNode, node: DHTNode) returns (kept: DHTNode)
    requires existing.peer == node.peer
    ensures kept == if Supersedes(node, existing) then node else existing
  {
    MergedKeepsPeer(existing, node);
    RankOrder(existing, node);
    RankOrder(node, existing);
    kept := existing;
    if PublishSeq(node) != 0 || PublishSeq(existing) != 0 {
      var record := new PeerRecord(existing);
      record.MergeFrom(node);
      kept := record.View();
    } else if PreferLookupRecord(node, existing) {
      kept := node;
    }
  }

  /** Record `i` is the first of the records of `p` that none of them supersedes. */
  ghost predicate IsTopAt(nodes: seq<DHTNode>, p: Key, i: nat) {
    && i < |nodes| && nodes[i].peer == p
    && (forall j :: 0 <= j < |nodes| && nodes[j].peer == p ==> !Supersedes(nodes[j], nodes[i]))
    && (forall j :: 0 <= j < i && nodes[j].peer == p ==> Supersedes(nodes[i], nodes[j]))
  }

  ghost predicate IsTop(nodes: seq<DHTNode>, p: Key, v: DHTNode) {
    exists i: nat :: IsTopAt(nodes, p, i) && nodes[i] == v
  }

  lemma TopUnique(nodes: seq<DHTNode>, p: Key, v: DHTNode, w: DHTNode)
    requires IsTop(nodes, p, v) && IsTop(nodes, p, w)
    ensures v == w
  {
    var i: nat :| IsTopAt(nodes, p, i) && nodes[i] == v;
    var j: nat :| IsTopAt(nodes, p, j) && nodes[j] == w;
  }

  lemma TopRanks(nodes: seq<DHTNode>, p: Key, v: DHTNode)
    requires IsTop(nodes, p, v)
    ensures v in nodes && v.peer == p
    ensures forall w :: w in nodes && w.peer == p ==> Rank(w) <= Rank(v)
  {
    var i: nat :| IsTopAt(nodes, p, i) && nodes[i] == v;
    forall w | w in nodes && w.peer == p ensures Rank(w) <= Rank(v) {
      var j :| 0 <= j < |nodes| && nodes[j] == w;
      assert !Supersedes(nodes[j], nodes[i]);
    }
  }

  /** One top record for every peer in `nodes`. */
  ghost predicate AllTop(byPeer: map<Key, DHTNode>, nodes: seq<DHTNode>) {
    && byPeer.Keys == PeersOf(nodes)
    && forall p :: p in byPeer ==> IsTop(nodes, p, byPeer[p])
  }

  lemma PeersOfAppend(nodes: seq<DHTNode>, node: DHTNode)
    ensures PeersOf(nodes + [node]) == PeersOf(nodes) + {node.peer}
  {
    var longer := nodes + [node];
    PeersOfSnoc(longer, |nodes|);
    assert longer[..|nodes|] == nodes && longer[..|nodes| + 1] == longer;
  }

  lemma NotAmong(nodes: seq<DHTNode>, p: Key, w: DHTNode)
    requires p !in PeersOf(nodes) && w in nodes
    ensures w.peer != p
  {
    var k :| 0 <= k < |nodes| && nodes[k] == w;
    assert nodes[k].peer in PeersOf(nodes);
  }

  lemma TopOfOthers(nodes: seq<DHTNode>, node: DHTNode, p: Key, v: DHTNode)
    requires IsTop(nodes, p, v) && node.peer != p
    ensures IsTop(nodes + [node], p, v)
  {
    var i: nat :| IsTopAt(nodes, p, i) && nodes[i] == v;
    assert IsTopAt(nodes + [node], p, i);
  }

  lemma TopOfBoth(nodes: seq<DHTNode>, node: DHTNode, v: DHTNode)
    requires IsTop(nodes, node.peer, v)
    ensures IsTop(nodes + [node], node.peer, if Supersedes(node, v) then node else v)
  {
    var i: nat :| IsTopAt(nodes, node.peer, i) && nodes[i] == v;
    var longer := nodes + [node];
    assert forall j :: 0 <= j < |nodes| ==> longer[j] == nodes[j];
    if Supersedes(node, v) {
      forall j | 0 <= j < |nodes| && nodes[j].peer == node.peer ensures Supersedes(node, nodes[j]) {
        assert !Supersedes(nodes[j], v);
      }
      assert IsTopAt(longer, node.peer, |nodes|);
    } else {
      assert IsTopAt(longer, node.peer, i);
    }
  }

  lemma TopOfOne(nodes: seq<DHTNode>, node: DHTNode)
    requires node.peer !in PeersOf(nodes)
    ensures IsTop(nodes + [node], node.peer, node)
  {
    var longer := nodes + [node];
    forall j | 0 <= j < |nodes| ensures longer[j].peer != node.peer { NotAmong(nodes, node.peer, nodes[j]); }
    assert IsTopAt(longer, node.peer, |nodes|);
  }

  lemma AllTopStep(byPeer: map<Key, DHTNode>, nodes: seq<DHTNode>, node: DHTNode, kept: DHTNode)
    requires AllTop(byPeer, nodes)
    requires kept == if node.peer in byPeer && !Supersedes(node, byPeer[node.peer]) then byPeer[node.peer] else node
    ensures kept.peer == node.peer && AllTop(byPeer[node.peer := kept], nodes + [node])
  {
    PeersOfAppend(nodes, node);
    if node.peer in byPeer {
      TopRanks(nodes, node.peer, byPeer[node.peer]);
      TopOfBoth(nodes, node, byPeer[node.peer]);
    } else {
      TopOfOne(nodes, node);
    }
    forall p | p in byPeer && p != node.peer ensures IsTop(nodes + [node], p, byPeer[p]) {
      TopOfOthers(nodes, node, p, byPeer[p]);
    }
  }

  /** If refreshing made each node the best view of its peer, the top refreshed record of a peer is the
      best of everything known about it. */
  lemma TopIsBestView(best: seq<DHTNode>, subjects: map<Key, Reports>, refreshed: seq<DHTNode>, p: Key, v: DHTNode)
    requires |refreshed| == |best| && IsTop(refreshed, p, v)
    requires forall i :: 0 <= i < |best| ==>
               refreshed[i].peer == best[i].peer && IsBestView([best[i]], subjects, best[i].peer, refreshed[i])
    ensures IsBestView(best, subjects, p, v)
  {
    TopRanks(refreshed, p, v);
    var i :| 0 <= i < |refreshed| && refreshed[i] == v;
    assert IsBestView([best[i]], subjects, p, v);
    forall w | IsViewOf(best, subjects, p, w) ensures Rank(w) <= Rank(v) {
      if w in best && w.peer == p {
        var j :| 0 <= j < |best| && best[j] == w;
        assert IsViewOf([best[j]], subjects, p, w);
        assert refreshed[j] in refreshed;
      } else {
        assert IsViewOf([best[i]], subjects, p, w);
      }
    }
  }

  lemma SamePeers(best: seq<DHTNode>, refreshed: seq<DHTNode>)
    requires |refreshed| == |best| && forall i :: 0 <= i < |best| ==> refreshed[i].peer == best[i].peer
    ensures PeersOf(refreshed) == PeersOf(best)
  {
    assert forall i :: 0 <= i < |best| ==> refreshed[i].peer in PeersOf(refreshed) && best[i].peer in PeersOf(best);
  }

  /** The closest peers of the refreshed nodes, in order, each by its top record. */
  ghost predicate ListsTop(key: Key, count: nat, refreshed: seq<DHTNode>, result: seq<DHTNode>) {
    var peers := NearestK(key, PeersOf(refreshed), count);
    |result| == |peers| && forall i :: 0 <= i < |result| ==> IsTop(refreshed, peers[i], result[i])
  }

  ghost predicate AllRefreshed(
      best: seq<DHTNode>, subjects: map<Key, Reports>, text: TextOrder, refreshed: seq<DHTNode>)
  {
    |refreshed| == |best| && forall i :: 0 <= i < |best| ==> IsRefreshed(best[i], subjects, text, refreshed[i])
  }

  /** The nodes keep their peers exactly when none of them is displaced. */
  lemma PeersKeptIff(best: seq<DHTNode>, subjects: map<Key, Reports>, text: TextOrder, refreshed: seq<DHTNode>)
    requires AllRefreshed(best, subjects, text, refreshed)
    ensures (forall i :: 0 <= i < |best| ==> refreshed[i].peer == best[i].peer) <==>
            (forall i :: 0 <= i < |best| ==> !Displaced(best[i], subjects, text))
  {
    forall i | 0 <= i < |best| ensures refreshed[i].peer == best[i].peer <==> !Displaced(best[i], subjects, text) {
      RefreshKeepsPeerIff(best[i], subjects, text, refreshed[i]);
    }
  }

  /** With reports filed properly: exactly the closest peers of the input, each by a view nothing known outranks. */
  lemma WellFiledResult(best: seq<DHTNode>, subjects: map<Key, Reports>, text: TextOrder, key: Key, count: nat,
                        refreshed: seq<DHTNode>, result: seq<DHTNode>)
    requires WellFiled(subjects) && AllRefreshed(best, subjects, text, refreshed)
    requires ListsTop(key, count, refreshed, result)
    ensures ListsBest(key, count, best, subjects, result)
  {
    forall i | 0 <= i < |best|
      ensures refreshed[i].peer == best[i].peer && IsBestView([best[i]], subjects, best[i].peer, refreshed[i])
    {
      RefreshedIsBest(best[i], subjects, text, refreshed[i]);
    }
    SamePeers(best, refreshed);
    var peers := NearestK(key, PeersOf(best), count);
    forall i | 0 <= i < |result| ensures result[i].peer == peers[i] && IsBestView(best, subjects, peers[i], result[i]) {
      TopRanks(refreshed, peers[i], result[i]);
      TopIsBestView(best, subjects, refreshed, peers[i], result[i]);
    }
  }

  lemma AllRefreshedSnoc(best: seq<DHTNode>, subjects: map<Key, Reports>, text: TextOrder,
                         refreshed: seq<DHTNode>, i: nat, node: DHTNode)
    requires i < |best| && AllRefreshed(best[..i], subjects, text, refreshed)
    requires IsRefreshed(best[i], subjects, text, node)
    ensures AllRefreshed(best[..i + 1], subjects, text, refreshed + [node])
  {
    forall k | 0 <= k < i + 1 ensures IsRefreshed(best[..i + 1][k], subjects, text, (refreshed + [node])[k]) {
      if k < i { assert IsRefreshed(best[..i][k], subjects, text, refreshed[k]); }
    }
  }

  /** The refreshed nodes so far, and one top record for each of their peers. */
  ghost predicate Collected(best: seq<DHTNode>, subjects: map<Key, Reports>, text: TextOrder,
                            refreshed: seq<DHTNode>, byPeer: map<Key, DHTNode>)
  {
    AllRefreshed(best, subjects, text, refreshed) && AllTop(byPeer, refreshed)
  }

  lemma CollectStep(best: seq<DHTNode>, subjects: map<Key, Reports>, text: TextOrder, refreshed: seq<DHTNode>,
                    byPeer: map<Key, DHTNode>, i: nat, node: DHTNode, kept: DHTNode)
    requires i < |best| && Collected(best[..i], subjects, text, refreshed, byPeer)
    requires IsRefreshed(best[i], subjects, text, node)
    requires kept == if node.peer in byPeer && !Supersedes(node, byPeer[node.peer]) then byPeer[node.peer] else node
    ensures Collected(best[..i + 1], subjects, text, refreshed + [node], byPeer[node.peer := kept])
  {
    AllTopStep(byPeer, refreshed, node, kept);
    AllRefreshedSnoc(best, subjects, text, refreshed, i, node);
  }

  method CollectRefreshed(best: seq<DHTNode>, subjects: map<Key, Reports>, text: TextOrder)
    returns (byPeer: map<Key, DHTNode>, ghost refreshed: seq<DHTNode>)
    ensures Collected(best, subjects, text, refreshed, byPeer)
  {
    byPeer, refreshed := map[], [];
    for i := 0 to |best|
      invariant Collected(best[..i], subjects, text, refreshed, byPeer)
    {
      var node := Refresh(best[i], subjects, text);
      var kept := node;
      if node.peer in byPeer {
        TopRanks(refreshed, node.peer, byPeer[node.peer]);
        kept := KeepBetter(byPeer[node.peer], node);
      }
      CollectStep(best, subjects, text, refreshed, byPeer, i, node, kept);
      byPeer := byPeer[node.peer := kept];
      refreshed := refreshed + [node];
    }
    assert best[..|best|] == best;
  }

  lemma NearestListsTop(key: Key, count: nat, byPeer: map<Key, DHTNode>, refreshed: seq<DHTNode>)
    requires AllTop(byPeer, refreshed)
    ensures ListsTop(key, count, refreshed, NearestEntries(key, byPeer, count))
  {
    NearestInMap(key, byPeer, count);
  }

  /** Exactly the closest peers of the input, in order, each by a view nothing known about it outranks. */
  ghost predicate ListsBest(
      key: Key, count: nat, best: seq<DHTNode>, subjects: map<Key, Reports>, result: seq<DHTNode>)
  {
    var peers := NearestK(key, PeersOf(best), count);
    && |result| == |peers|
    && forall i :: 0 <= i < |result| ==> result[i].peer == peers[i] && IsBestView(best, subjects, peers[i], result[i])
  }

  /** No record of the peer lists an address of a better tier than the best one `v` lists. */
  ghost predicate BestTiered(nodes: seq<DHTNode>, v: DHTNode) {
    forall w, t :: w in nodes && w.peer == v.peer && t in TypedAddresses(w) ==>
      exists u :: u in TypedAddresses(v) && u.1.Priority() <= t.1.Priority()
  }

  /** Hints compete by tier: a listed hint has the best tier among the copies of its peer. */
  lemma TopHintIsBestTiered(nodes: seq<DHTNode>, p: Key, v: DHTNode)
    requires IsTop(nodes, p, v) && !Proven(v)
    ensures BestTiered(nodes, v)
  {
    TopRanks(nodes, p, v);
    var i: nat :| IsTopAt(nodes, p, i) && nodes[i] == v;
    forall w, t | w in nodes && w.peer == p && t in TypedAddresses(w)
      ensures exists u :: u in TypedAddresses(v) && u.1.Priority() <= t.1.Priority()
    {
      var j :| 0 <= j < |nodes| && nodes[j] == w;
      RankOrder(w, v);
      assert !Supersedes(nodes[j], nodes[i]);
      assert BestTier(v) <= BestTier(w);
    }
  }

  lemma ListedHintsAreBestTiered(key: Key, count: nat, refreshed: seq<DHTNode>, result: seq<DHTNode>)
    requires ListsTop(key, count, refreshed, result)
    ensures forall v :: v in result && !Proven(v) ==> BestTiered(refreshed, v)
  {
    var peers := NearestK(key, PeersOf(refreshed), count);
    forall v | v in result && !Proven(v) ensures BestTiered(refreshed, v) {
      var i :| 0 <= i < |result| && result[i] == v;
      TopHintIsBestTiered(refreshed, peers[i], v);
    }
  }

  /** `apply_lookup_report_winners`, whatever is filed where. */
  method ApplyLookupReportWinners(
      best: seq<DHTNode>, subjects: map<Key, Reports>, key: Key, count: nat, text: TextOrder)
    returns (result: seq<DHTNode>, ghost refreshed: seq<DHTNode>)
    ensures AllRefreshed(best, subjects, text, refreshed) && ListsTop(key, count, refreshed, result)
    ensures forall v :: v in result && !Proven(v) ==> BestTiered(refreshed, v)
    ensures WellFiled(subjects) ==> ListsBest(key, count, best, subjects, result)
  {
    var byPeer;
    byPeer, refreshed := CollectRefreshed(best, subjects, text);
    NearestListsTop(key, count, byPeer, refreshed);
    result := NearestEntries(key, byPeer, count);
    ListedHintsAreBestTiered(key, count, refreshed, result);
    if WellFiled(subjects) { WellFiledResult(best, subjects, text, key, count, refreshed, result); }
  }

  lemma RefreshedUnique(node: DHTNode, subjects: map<Key, Reports>, text: TextOrder, f: DHTNode, g: DHTNode)
    requires IsRefreshed(node, subjects, text, f) && IsRefreshed(node, subjects, text, g)
    ensures f == g
  {
    if node.peer in subjects && subjects[node.peer] != map[] {
      var reports := subjects[node.peer];
      var r :| IsWinner(node.peer, reports, text, r) && f == RefreshedWith(node, reports[r]);
      var q :| IsWinner(node.peer, reports, text, q) && g == RefreshedWith(node, reports[q]);
      WinnerUnique(node.peer, reports, text, r, q);
    }
  }

  lemma TopListUnique(key: Key, count: nat, refreshed: seq<DHTNode>, a: seq<DHTNode>, b: seq<DHTNode>)
    requires ListsTop(key, count, refreshed, a) && ListsTop(key, count, refreshed, b)
    ensures a == b
  {
    var peers := NearestK(key, PeersOf(refreshed), count);
    forall i | 0 <= i < |peers| ensures a[i] == b[i] { TopUnique(refreshed, peers[i], a[i], b[i]); }
  }

  /** The result is determined by the input, hint copies of a peer included: no map order shows in it. */
  lemma ResultDetermined(best: seq<DHTNode>, subjects: map<Key, Reports>, text: TextOrder, key: Key, count: nat,
                         f: seq<DHTNode>, a: seq<DHTNode>, g: seq<DHTNode>, b: seq<DHTNode>)
    requires AllRefreshed(best, subjects, text, f) && ListsTop(key, count, f, a)
    requires AllRefreshed(best, subjects, text, g) && ListsTop(key, count, g, b)
    ensures a == b
  {
    forall i | 0 <= i < |best| ensures f[i] == g[i] { RefreshedUnique(best[i], subjects, text, f[i], g[i]); }
    assert f == g;
    TopListUnique(key, count, f, a, b);
  }

  // ---------- witnessed close groups ----------

  /** Merge every record into the one kept for its peer. */
  function Gathered(nodes: seq<DHTNode>): map<Key, DHTNode> {
    if nodes == [] then map[]
    else
      var m, last := Gathered(nodes[..|nodes| - 1]), nodes[|nodes| - 1];
      m[last.peer := if last.peer in m then Merged(m[last.peer], last) else last]
  }

  /** `v` is a record of `p` that no record in `nodes` outranks, and one of them if proven. */
  ghost predicate IsKept(nodes: seq<DHTNode>, p: Key, v: DHTNode) {
    && v.peer == p
    && (Proven(v) ==> v in nodes)
    && forall w :: w in nodes && w.peer == p ==> Rank(w) <= Rank(v)
  }

  lemma MergedIsKept(nodes: seq<DHTNode>, last: DHTNode, v: DHTNode)
    requires IsKept(nodes, last.peer, v)
    ensures IsKept(nodes + [last], last.peer, Merged(v, last))
  {
    MergedKeepsPeer(v, last);
    RankOrder(v, last);
    RankOrder(Merged(v, last), v);
  }

  lemma FirstIsKept(nodes: seq<DHTNode>, last: DHTNode)
    requires last.peer !in PeersOf(nodes)
    ensures IsKept(nodes + [last], last.peer, last)
  {
    forall w | w in nodes ensures w.peer != last.peer {
      var k :| 0 <= k < |nodes| && nodes[k] == w;
      assert nodes[k].peer in PeersOf(nodes);
    }
  }

  /** One record per peer reported; if any record of the peer is proven, the best of them. */
  lemma {:induction false} GatheredKeepsBest(nodes: seq<DHTNode>)
    ensures Gathered(nodes).Keys == PeersOf(nodes)
    ensures forall p :: p in Gathered(nodes) ==> IsKept(nodes, p, Gathered(nodes)[p])
    decreases |nodes|
  {
    if nodes != [] {
      var n := |nodes| - 1;
      var before, last := nodes[..n], nodes[n];
      var m := Gathered(before);
      GatheredKeepsBest(before);
      PeersOfSnoc(nodes, n);
      assert nodes[..n + 1] == nodes && nodes == before + [last];
      if last.peer in m {
        MergedIsKept(before, last, m[last.peer]);
      } else {
        FirstIsKept(before, last);
      }
      forall p | p in m && p != last.peer ensures IsKept(nodes, p, m[p]) {
      }
    }
  }

  /** The records of `p`, in order. */
  function OfPeer(nodes: seq<DHTNode>, p: Key): seq<DHTNode> {
    if nodes == [] then []
    else
      var last := nodes[|nodes| - 1];
      OfPeer(nodes[..|nodes| - 1], p) + if last.peer == p then [last] else []
  }

  lemma {:induction false} OfPeerHolds(nodes: seq<DHTNode>, p: Key)
    ensures forall v :: v in OfPeer(nodes, p) <==> v in nodes && v.peer == p
    decreases |nodes|
  {
    if nodes != [] {
      var n := |nodes| - 1;
      OfPeerHolds(nodes[..n], p);
      assert nodes == nodes[..n] + [nodes[n]];
    }
  }

  lemma FoldSnoc(own: seq<DHTNode>, last: DHTNode)
    requires own != []
    ensures MergeAll((own + [last])[0], (own + [last])[1..]) == Merged(MergeAll(own[0], own[1..]), last)
  {
    var more := (own + [last])[1..];
    assert more[..|more| - 1] == own[1..] && more[|more| - 1] == last;
  }

  /** Gathering folds `merge_from` over the records of each peer. */
  lemma {:induction false} GatheredIsFold(nodes: seq<DHTNode>, p: Key)
    ensures p in Gathered(nodes) <==> OfPeer(nodes, p) != []
    ensures p in Gathered(nodes) ==> Gathered(nodes)[p] == MergeAll(OfPeer(nodes, p)[0], OfPeer(nodes, p)[1..])
    decreases |nodes|
  {
    if nodes != [] {
      var n := |nodes| - 1;
      GatheredIsFold(nodes[..n], p);
      var own, last := OfPeer(nodes[..n], p), nodes[n];
      if last.peer != p {
        assert OfPeer(nodes, p) == own;
      } else if own == [] {
        assert OfPeer(nodes, p) == [last] && [last][1..] == [];
      } else {
        FoldSnoc(own, last);
        assert OfPeer(nodes, p) == own + [last];
      }
    }
  }

  ghost predicate AllHints(nodes: seq<DHTNode>) {
    forall v :: v in nodes ==> WellFormedHint(v)
  }

  lemma GatheredBlends(nodes: seq<DHTNode>, p: Key)
    requires AllHints(nodes) && p in Gathered(nodes)
    ensures IsBlendOf(OfPeer(nodes, p), Gathered(nodes)[p])
  {
    GatheredIsFold(nodes, p);
    OfPeerHolds(nodes, p);
    var own := OfPeer(nodes, p);
    assert own[0] in own && own == [own[0]] + own[1..];
    forall v | v in own[1..] ensures v in own {
    }
    HintsBlend(own[0], own[1..]);
  }

  /** Gathering hints in any order, and with any repetition, keeps the same tags and reliability for each peer. */
  lemma GatheredOrderIndependent(nodes: seq<DHTNode>, nodes': seq<DHTNode>, p: Key)
    requires AllHints(nodes) && (forall v :: v in nodes <==> v in nodes')
    ensures p in Gathered(nodes) <==> p in Gathered(nodes')
    ensures p in Gathered(nodes) ==>
              && TagsOf(Gathered(nodes)[p]) == TagsOf(Gathered(nodes')[p])
              && Gathered(nodes)[p].reliability == Gathered(nodes')[p].reliability
  {
    OfPeerHolds(nodes, p);
    OfPeerHolds(nodes', p);
    GatheredIsFold(nodes, p);
    GatheredIsFold(nodes', p);
    var own, own' := OfPeer(nodes, p), OfPeer(nodes', p);
    assert own != [] ==> own[0] in own';
    assert own' != [] ==> own'[0] in own;
    if own != [] {
      GatheredBlends(nodes, p);
      GatheredBlends(nodes', p);
      BlendUnique(own, own', Gathered(nodes)[p], Gathered(nodes')[p]);
    }
  }

  method MergeWitnessedNode(nodes: map<Key, DHTNode>, node: DHTNode) returns (merged: map<Key, DHTNode>)
    ensures merged == nodes[node.peer := if node.peer in nodes then Merged(nodes[node.peer], node) else node]
  {
    if node.peer in nodes {
      var record := new PeerRecord(nodes[node.peer]);
      record.MergeFrom(node);
      merged := nodes[node.peer := record.View()];
    } else {
      merged := nodes[node.peer := node];
    }
  }

  method GatherInto(known: map<Key, DHTNode>, ghost before: seq<DHTNode>, nodes: seq<DHTNode>)
    returns (byPeer: map<Key, DHTNode>)
    requires known == Gathered(before)
    ensures byPeer == Gathered(before + nodes)
  {
    byPeer := known;
    assert before + nodes[..0] == before;
    for i := 0 to |nodes|
      invariant byPeer == Gathered(before + nodes[..i])
    {
      byPeer := MergeWitnessedNode(byPeer, nodes[i]);
      var longer := before + nodes[..i + 1];
      assert longer[..|longer| - 1] == before + nodes[..i];
    }
    assert nodes[..|nodes|] == nodes;
  }

  /** `sort_dedup_witnessed_nodes`. */
  method SortDedupWitnessed(nodes: seq<DHTNode>, key: Key, count: nat) returns (r: seq<DHTNode>)
    ensures r == NearestEntries(key, Gathered(nodes), count)
  {
    var byPeer := GatherInto(map[], [], nodes);
    assert [] + nodes == nodes;
    r := NearestEntries(key, byPeer, count);
  }

  datatype ResponderView = ResponderView(responder: Key, closest: seq<DHTNode>)

  /** What a responder's view is built from: its answer, and itself when it is known. */
  function SelfInclusive(responder: Key, closest: seq<DHTNode>, known: map<Key, DHTNode>): seq<DHTNode> {
    closest + if responder in known then [known[responder]] else []
  }

  /** `self_inclusive_responder_view`. */
  method SelfInclusiveView(
      responder: Key, closest: seq<DHTNode>, known: map<Key, DHTNode>, key: Key, count: nat)
    returns (r: seq<DHTNode>)
    ensures r == NearestEntries(key, Gathered(SelfInclusive(responder, closest, known)), count)
  {
    var view := GatherInto(map[], [], closest);
    assert [] + closest == closest;
    if responder in known {
      var all := closest + [known[responder]];
      assert all[..|all| - 1] == closest;
      view := MergeWitnessedNode(view, known[responder]);
    } else {
      assert closest + [] == closest;
    }
    r := NearestEntries(key, view, count);
  }

  datatype WitnessedCloseGroup = WitnessedCloseGroup(
    target: Key, k: nat, initialClosest: seq<DHTNode>, responderViews: seq<ResponderView>)

  function Flatten(views: seq<ResponderView>): seq<DHTNode> {
    if views == [] then [] else Flatten(views[..|views| - 1]) + views[|views| - 1].closest
  }

  /** Records that make a responder known: the truncated initial list, then every answer. */
  function Transcript(key: Key, count: nat, initial: seq<DHTNode>, views: seq<ResponderView>): seq<DHTNode> {
    NearestEntries(key, Gathered(initial), count) + Flatten(views)
  }

  function ViewOf(key: Key, count: nat, known: map<Key, DHTNode>, v: ResponderView): ResponderView {
    ResponderView(v.responder, NearestEntries(key, Gathered(SelfInclusive(v.responder, v.closest, known)), count))
  }

  function ByResponder(key: Key): ResponderView -> nat {
    (v: ResponderView) => Distance(key, v.responder)
  }

  lemma FlattenSnoc(initial: seq<DHTNode>, views: seq<ResponderView>, i: nat)
    requires i < |views|
    ensures initial + Flatten(views[..i + 1]) == (initial + Flatten(views[..i])) + views[i].closest
  {
    assert views[..i + 1][..i] == views[..i];
  }

  method KnownNodes(initial: seq<DHTNode>, views: seq<ResponderView>) returns (known: map<Key, DHTNode>)
    ensures known == Gathered(initial + Flatten(views))
  {
    known := GatherInto(map[], [], initial);
    assert [] + initial == initial == initial + Flatten(views[..0]);
    for i := 0 to |views|
      invariant known == Gathered(initial + Flatten(views[..i]))
    {
      FlattenSnoc(initial, views, i);
      known := GatherInto(known, initial + Flatten(views[..i]), views[i].closest);
    }
    assert views[..|views|] == views;
  }

  function ViewMaker(key: Key, count: nat, known: map<Key, DHTNode>): ResponderView -> ResponderView {
    (v: ResponderView) => ViewOf(key, count, known, v)
  }

  method BuildViews(key: Key, count: nat, known: map<Key, DHTNode>, views: seq<ResponderView>)
    returns (built: seq<ResponderView>)
    ensures built == Mapped(views, ViewMaker(key, count, known))
  {
    built := [];
    ghost var make := ViewMaker(key, count, known);
    for i := 0 to |views|
      invariant |built| == i && forall k :: 0 <= k < i ==> built[k] == make(views[k])
    {
      var closest := SelfInclusiveView(views[i].responder, views[i].closest, known, key, count);
      built := built + [ResponderView(views[i].responder, closest)];
    }
  }

  // ---------- what makes a responder known ----------

  /** A responder is known when it is among the closest of the initial peers, or some answer describes it. */
  ghost predicate IsKnown(key: Key, count: nat, initial: seq<DHTNode>, views: seq<ResponderView>, responder: Key) {
    || responder in NearestK(key, PeersOf(initial), count)
    || exists i, j :: && 0 <= i < |views| && 0 <= j < |views[i].closest|
                      && views[i].closest[j].peer == responder
  }

  /** `w` is a record of `p` that counts: in the initial list, if `p` is among its closest, or in an answer. */
  ghost predicate IsRecordOf(
      key: Key, count: nat, initial: seq<DHTNode>, views: seq<ResponderView>, p: Key, w: DHTNode)
  {
    && w.peer == p
    && ((w in initial && p in NearestK(key, PeersOf(initial), count)) || Answers(views, w))
  }

  ghost predicate Answers(views: seq<ResponderView>, w: DHTNode) {
    exists i :: 0 <= i < |views| && w in views[i].closest
  }

  lemma AnswersSnoc(views: seq<ResponderView>, w: DHTNode)
    requires views != []
    ensures var n := |views| - 1;
            Answers(views, w) <==> Answers(views[..n], w) || w in views[n].closest
  {
    var n := |views| - 1;
    if i :| 0 <= i < |views| && w in views[i].closest { assert i < n ==> w in views[..n][i].closest; }
    if i :| 0 <= i < n && w in views[..n][i].closest { assert w in views[i].closest; }
  }

  lemma {:induction false} FlattenHolds(views: seq<ResponderView>, w: DHTNode)
    ensures w in Flatten(views) <==> Answers(views, w)
    decreases |views|
  {
    if views != [] {
      FlattenHolds(views[..|views| - 1], w);
      AnswersSnoc(views, w);
    }
  }

  /** The initial list, truncated: one record for each of its closest peers. */
  ghost predicate ListsKept(key: Key, count: nat, initial: seq<DHTNode>, listed: seq<DHTNode>) {
    var peers := NearestK(key, PeersOf(initial), count);
    |listed| == |peers| && forall i :: 0 <= i < |peers| ==> IsKept(initial, peers[i], listed[i])
  }

  lemma EntriesAreKept(key: Key, count: nat, nodes: seq<DHTNode>)
    ensures ListsKept(key, count, nodes, NearestEntries(key, Gathered(nodes), count))
  {
    GatheredKeepsBest(nodes);
    NearestInMap(key, Gathered(nodes), count);
  }

  /** Every record that counts is in the transcript or outranked by one of its peer's that is. */
  lemma TranscriptCovers(key: Key, count: nat, initial: seq<DHTNode>, views: seq<ResponderView>, p: Key, w: DHTNode)
    requires IsRecordOf(key, count, initial, views, p, w)
    ensures exists e :: e in Transcript(key, count, initial, views) && e.peer == p && Rank(w) <= Rank(e)
  {
    var peers, top := NearestK(key, PeersOf(initial), count), NearestEntries(key, Gathered(initial), count);
    EntriesAreKept(key, count, initial);
    FlattenHolds(views, w);
    if w in initial && p in peers {
      var i :| 0 <= i < |peers| && peers[i] == p;
      assert top[i] in top && IsKept(initial, p, top[i]);
      assert top[i] in Transcript(key, count, initial, views);
    } else {
      assert w in Transcript(key, count, initial, views);
    }
  }

  lemma TranscriptPeer(key: Key, count: nat, initial: seq<DHTNode>, views: seq<ResponderView>, e: DHTNode)
    requires e in Transcript(key, count, initial, views)
    ensures IsKnown(key, count, initial, views, e.peer)
    ensures Proven(e) ==> IsRecordOf(key, count, initial, views, e.peer, e)
  {
    var peers, top := NearestK(key, PeersOf(initial), count), NearestEntries(key, Gathered(initial), count);
    EntriesAreKept(key, count, initial);
    FlattenHolds(views, e);
    if e in top {
      var i :| 0 <= i < |top| && top[i] == e;
      assert IsKept(initial, peers[i], e);
      assert peers[i] in peers;
    } else {
      var i :| 0 <= i < |views| && e in views[i].closest;
      var j :| 0 <= j < |views[i].closest| && views[i].closest[j] == e;
      assert views[i].closest[j].peer == e.peer;
    }
  }

  lemma KnownHasRecord(key: Key, count: nat, initial: seq<DHTNode>, views: seq<ResponderView>, p: Key)
    requires IsKnown(key, count, initial, views, p)
    ensures exists w :: IsRecordOf(key, count, initial, views, p, w)
  {
    if p in NearestK(key, PeersOf(initial), count) {
      NearestKIsNearest(key, PeersOf(initial), count);
      assert p in Elements(NearestK(key, PeersOf(initial), count));
      var i :| 0 <= i < |initial| && initial[i].peer == p;
      assert IsRecordOf(key, count, initial, views, p, initial[i]);
    } else {
      var i, j :| && 0 <= i < |views| && 0 <= j < |views[i].closest| && views[i].closest[j].peer == p;
      assert IsRecordOf(key, count, initial, views, p, views[i].closest[j]);
    }
  }

  lemma RecordIsKnown(key: Key, count: nat, initial: seq<DHTNode>, views: seq<ResponderView>, p: Key, w: DHTNode)
    ensures IsRecordOf(key, count, initial, views, p, w) ==> IsKnown(key, count, initial, views, p)
  {
    if i :| 0 <= i < |views| && w in views[i].closest {
      var j :| 0 <= j < |views[i].closest| && views[i].closest[j] == w;
      assert views[i].closest[j].peer == w.peer;
    }
  }

  lemma GatheredIsKnown(key: Key, count: nat, initial: seq<DHTNode>, views: seq<ResponderView>, p: Key)
    requires p in PeersOf(Transcript(key, count, initial, views))
    ensures IsKnown(key, count, initial, views, p)
  {
    var all := Transcript(key, count, initial, views);
    var k :| 0 <= k < |all| && all[k].peer == p;
    TranscriptPeer(key, count, initial, views, all[k]);
  }

  lemma KnownIsGathered(key: Key, count: nat, initial: seq<DHTNode>, views: seq<ResponderView>, p: Key)
    requires IsKnown(key, count, initial, views, p)
    ensures p in PeersOf(Transcript(key, count, initial, views))
  {
    var all := Transcript(key, count, initial, views);
    KnownHasRecord(key, count, initial, views, p);
    var w :| IsRecordOf(key, count, initial, views, p, w);
    TranscriptCovers(key, count, initial, views, p, w);
    var e :| e in all && e.peer == p && Rank(w) <= Rank(e);
    var k :| 0 <= k < |all| && all[k] == e;
    assert all[k].peer in PeersOf(all);
  }

  /** Gathering the transcript knows just the responders that are known. */
  lemma TranscriptKnows(key: Key, count: nat, initial: seq<DHTNode>, views: seq<ResponderView>, p: Key)
    ensures p in Gathered(Transcript(key, count, initial, views)) <==> IsKnown(key, count, initial, views, p)
  {
    GatheredKeepsBest(Transcript(key, count, initial, views));
    if p in PeersOf(Transcript(key, count, initial, views)) { GatheredIsKnown(key, count, initial, views, p); }
    if IsKnown(key, count, initial, views, p) { KnownIsGathered(key, count, initial, views, p); }
  }

  /** It knows each by a record of its own that no record that counts outranks. */
  lemma KnownByBest(key: Key, count: nat, initial: seq<DHTNode>, views: seq<ResponderView>, p: Key)
    requires p in Gathered(Transcript(key, count, initial, views))
    ensures var known := Gathered(Transcript(key, count, initial, views))[p];
            && known.peer == p
            && (Proven(known) ==> IsRecordOf(key, count, initial, views, p, known))
            && forall w :: IsRecordOf(key, count, initial, views, p, w) ==> Rank(w) <= Rank(known)
  {
    var all := Transcript(key, count, initial, views);
    var known := Gathered(all)[p];
    GatheredKeepsBest(all);
    assert IsKept(all, p, known);
    if Proven(known) { TranscriptPeer(key, count, initial, views, known); }
    forall w | IsRecordOf(key, count, initial, views, p, w) ensures Rank(w) <= Rank(known) {
      TranscriptCovers(key, count, initial, views, p, w);
    }
  }

  function EligiblePeers(closest: seq<DHTNode>, responder: Key, known: bool): set<Key> {
    PeersOf(closest) + if known then {responder} else {}
  }

  lemma SelfInclusivePeers(responder: Key, closest: seq<DHTNode>, known: map<Key, DHTNode>)
    requires responder in known ==> known[responder].peer == responder
    ensures PeersOf(SelfInclusive(responder, closest, known)) ==
            EligiblePeers(closest, responder, responder in known)
  {
    if responder in known {
      var all := closest + [known[responder]];
      PeersOfSnoc(all, |closest|);
      assert all[..|closest|] == closest && all[..|closest| + 1] == all;
    } else {
      assert closest + [] == closest;
    }
  }

  /** What is shown for the answer `given`: exactly the closest of the peers it reports, plus the responder when
      known, each by a record that no record in the answer outranks; and the responder itself by one that no
      record of it that counts outranks.  A proven record is one of those. */
  ghost predicate ShowsAnswer(key: Key, count: nat, viewCount: nat, initial: seq<DHTNode>, views: seq<ResponderView>,
                              given: ResponderView, v: ResponderView)
  {
    var peers := NearestK(key, EligiblePeers(given.closest, given.responder,
                                             IsKnown(key, count, initial, views, given.responder)), viewCount);
    && v.responder == given.responder
    && |v.closest| == |peers|
    && forall j :: 0 <= j < |peers| ==>
         && v.closest[j].peer == peers[j]
         && ShowsRecord(key, count, initial, views, given, v.closest[j])
  }

  ghost predicate ShowsRecord(key: Key, count: nat, initial: seq<DHTNode>, views: seq<ResponderView>,
                              given: ResponderView, shown: DHTNode)
  {
    && (forall w :: w in given.closest && w.peer == shown.peer ==> Rank(w) <= Rank(shown))
    && (shown.peer == given.responder ==>
          forall w :: IsRecordOf(key, count, initial, views, shown.peer, w) ==> Rank(w) <= Rank(shown))
    && (Proven(shown) ==>
          || shown in given.closest
          || (shown.peer == given.responder && IsRecordOf(key, count, initial, views, shown.peer, shown)))
  }

  /** What is kept of an answer and the responder's own record. */
  lemma KeptOfBoth(responder: Key, closest: seq<DHTNode>, known: map<Key, DHTNode>, shown: DHTNode)
    requires IsKept(SelfInclusive(responder, closest, known), shown.peer, shown)
    requires responder in known ==> known[responder].peer == responder
    ensures forall w :: w in closest && w.peer == shown.peer ==> Rank(w) <= Rank(shown)
    ensures responder in known && shown.peer == responder ==> Rank(known[responder]) <= Rank(shown)
    ensures Proven(shown) ==> shown in closest || (responder in known && shown == known[responder])
  {
    var all := SelfInclusive(responder, closest, known);
    assert forall w :: w in closest ==> w in all;
    if responder in known { assert all[|closest|] == known[responder]; }
  }

  lemma KeptShowsRecord(key: Key, count: nat, initial: seq<DHTNode>, views: seq<ResponderView>,
                        given: ResponderView, shown: DHTNode)
    requires var known := Gathered(Transcript(key, count, initial, views));
             IsKept(SelfInclusive(given.responder, given.closest, known), shown.peer, shown)
    ensures ShowsRecord(key, count, initial, views, given, shown)
  {
    var known := Gathered(Transcript(key, count, initial, views));
    TranscriptKnows(key, count, initial, views, given.responder);
    if given.responder in known { KnownByBest(key, count, initial, views, given.responder); }
    KeptOfBoth(given.responder, given.closest, known, shown);
    forall w ensures IsRecordOf(key, count, initial, views, given.responder, w) ==> given.responder in known {
      RecordIsKnown(key, count, initial, views, given.responder, w);
    }
  }

  lemma ViewListsClosest(key: Key, count: nat, initial: seq<DHTNode>, views: seq<ResponderView>,
                         given: ResponderView, viewCount: nat)
    ensures ShowsAnswer(key, count, viewCount, initial, views, given,
                        ViewOf(key, viewCount, Gathered(Transcript(key, count, initial, views)), given))
  {
    var known := Gathered(Transcript(key, count, initial, views));
    TranscriptKnows(key, count, initial, views, given.responder);
    if given.responder in known { KnownByBest(key, count, initial, views, given.responder); }
    SelfInclusivePeers(given.responder, given.closest, known);
    var all := SelfInclusive(given.responder, given.closest, known);
    EntriesAreKept(key, viewCount, all);
    var peers, listed := NearestK(key, PeersOf(all), viewCount), NearestEntries(key, Gathered(all), viewCount);
    NearestKIsNearest(key, PeersOf(all), viewCount);
    forall j | 0 <= j < |peers|
      ensures listed[j].peer == peers[j] && ShowsRecord(key, count, initial, views, given, listed[j])
    {
      assert peers[j] in Elements(peers) && IsKept(all, peers[j], listed[j]);
      KeptShowsRecord(key, count, initial, views, given, listed[j]);
    }
  }

  /** A known responder is missing from its own view only if enough closer peers were reported. */
  lemma MissingResponder(key: Key, closest: seq<DHTNode>, responder: Key, viewCount: nat)
    requires responder !in NearestK(key, EligiblePeers(closest, responder, true), viewCount)
    ensures var closer := set p | p in PeersOf(closest) && Distance(key, p) < Distance(key, responder);
            |closer| >= viewCount
  {
    var eligible := EligiblePeers(closest, responder, true);
    var listed := Elements(NearestK(key, eligible, viewCount));
    NearestKIsNearest(key, eligible, viewCount);
    var closer := set p | p in PeersOf(closest) && Distance(key, p) < Distance(key, responder);
    assert responder !in listed;
    assert listed <= closer;
    Cardinality(listed, closer);
    assert listed < eligible;
    if |eligible| < viewCount { FullSubset(listed, eligible); }
  }

  /** The group keeps exactly the views of the answers, ordered by the responder's distance. */
  lemma GroupIsOrdered(key: Key, count: nat, known: map<Key, DHTNode>, views: seq<ResponderView>)
    ensures var make := ViewMaker(key, count, known);
            var sorted := StableSort(Mapped(views, make), ByResponder(key));
            && |sorted| == |views|
            && SortedBy(sorted, ByResponder(key))
            && forall v :: v in sorted <==> exists i :: 0 <= i < |views| && v == make(views[i])
  {
    SortedImage(views, ViewMaker(key, count, known), ByResponder(key));
  }

  /** One view for every answer, closest responder first. */
  ghost predicate ShowsAnswers(key: Key, count: nat, viewCount: nat, initial: seq<DHTNode>,
                               views: seq<ResponderView>, shown: seq<ResponderView>)
  {
    && |shown| == |views|
    && (forall i, j :: 0 <= i < j < |shown| ==>
          Distance(key, shown[i].responder) <= Distance(key, shown[j].responder))
    && (forall v :: v in shown ==>
          exists i :: 0 <= i < |views| && ShowsAnswer(key, count, viewCount, initial, views, views[i], v))
    && (forall i :: 0 <= i < |views| ==>
          exists v :: v in shown && ShowsAnswer(key, count, viewCount, initial, views, views[i], v))
  }

  lemma SortedViewsShow(key: Key, count: nat, viewCount: nat, initial: seq<DHTNode>, views: seq<ResponderView>)
    ensures ShowsAnswers(key, count, viewCount, initial, views,
              StableSort(Mapped(views, ViewMaker(key, viewCount, Gathered(Transcript(key, count, initial, views)))),
                         ByResponder(key)))
  {
    var known := Gathered(Transcript(key, count, initial, views));
    var make := ViewMaker(key, viewCount, known);
    var shown := StableSort(Mapped(views, make), ByResponder(key));
    GroupIsOrdered(key, viewCount, known, views);
    forall i, j | 0 <= i < j < |shown|
      ensures Distance(key, shown[i].responder) <= Distance(key, shown[j].responder)
    {
      assert ByResponder(key)(shown[i]) <= ByResponder(key)(shown[j]);
    }
    forall i | 0 <= i < |views|
      ensures make(views[i]) in shown && ShowsAnswer(key, count, viewCount, initial, views, views[i], make(views[i]))
    {
      ViewListsClosest(key, count, initial, views, views[i], viewCount);
    }
  }

  /** What a group says about the initial list and the answers it was built from. */
  ghost predicate Witnesses(key: Key, count: nat, viewCount: nat, initial: seq<DHTNode>, views: seq<ResponderView>,
                            group: WitnessedCloseGroup)
  {
    && group.target == key && group.k == count
    && ListsKept(key, count, initial, group.initialClosest)
    && ShowsAnswers(key, count, viewCount, initial, views, group.responderViews)
  }

  function GroupOf(key: Key, count: nat, viewCount: nat, initial: seq<DHTNode>, views: seq<ResponderView>)
    : WitnessedCloseGroup
  {
    var known := Gathered(Transcript(key, count, initial, views));
    WitnessedCloseGroup(key, count, NearestEntries(key, Gathered(initial), count),
                        StableSort(Mapped(views, ViewMaker(key, viewCount, known)), ByResponder(key)))
  }

  lemma GroupWitnesses(key: Key, count: nat, viewCount: nat, initial: seq<DHTNode>, views: seq<ResponderView>)
    ensures Witnesses(key, count, viewCount, initial, views, GroupOf(key, count, viewCount, initial, views))
  {
    EntriesAreKept(key, count, initial);
    SortedViewsShow(key, count, viewCount, initial, views);
  }

  /** `build_witnessed_close_group`. */
  method BuildWitnessedCloseGroup(
      key: Key, count: nat, viewCount: nat, initial: seq<DHTNode>, views: seq<ResponderView>)
    returns (group: WitnessedCloseGroup)
    ensures group == GroupOf(key, count, viewCount, initial, views)
    ensures Witnesses(key, count, viewCount, initial, views, group)
  {
    var initialClosest := SortDedupWitnessed(initial, key, count);
    var known := KnownNodes(initialClosest, views);
    var built := BuildViews(key, viewCount, known, views);
    group := WitnessedCloseGroup(key, count, initialClosest, StableSort(built, ByResponder(key)));
    GroupWitnesses(key, count, viewCount, initial, views);
  }
}
