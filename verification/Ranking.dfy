/** Closest-first listings of finite sets of peers.

    The source collects a hash map's values in arbitrary order, sorts them by
    XOR distance and truncates.  Distances never tie, so the outcome is a
    function of the set alone (`AscendingUnique`); `ByDistance` is that function. */
module Ranking {
  import opened Keys

  function Min(a: nat, b: nat): nat { if a < b then a else b }

  function Elements<T>(xs: seq<T>): set<T> { set x | x in xs }

  lemma Cardinality<T>(a: set<T>, b: set<T>)
    requires a <= b
    ensures |a| <= |b|
  {
    assert b == a + (b - a);
  }

  ghost predicate Ascending(target: Key, xs: seq<Key>) {
    forall i, j :: 0 <= i < j < |xs| ==> Distance(target, xs[i]) < Distance(target, xs[j])
  }

  ghost predicate IsNearest(target: Key, s: set<Key>, p: Key) {
    p in s && forall q :: q in s ==> Distance(target, p) <= Distance(target, q)
  }

  lemma {:induction false} NearestExists(target: Key, s: set<Key>)
    requires s != {}
    ensures exists p :: IsNearest(target, s, p)
    decreases s
  {
    var p :| p in s;
    var rest := s - {p};
    assert forall q :: q in s ==> q == p || q in rest;
    if rest == {} {
      assert IsNearest(target, s, p);
    } else {
      NearestExists(target, rest);
      var r :| IsNearest(target, rest, r);
      assert IsNearest(target, s, p) || IsNearest(target, s, r);
    }
  }

  function Nearest(target: Key, s: set<Key>): (p: Key)
    requires s != {}
    ensures IsNearest(target, s, p)
  {
    AllDistancesInjective(target);
    NearestExists(target, s);
    var p :| p in s && forall q :: q in s ==> Distance(target, p) <= Distance(target, q);
    p
  }

  ghost predicate IsFarthest(target: Key, s: set<Key>, p: Key) {
    p in s && forall q :: q in s ==> Distance(target, q) <= Distance(target, p)
  }

  lemma {:induction false} FarthestExists(target: Key, s: set<Key>)
    requires s != {}
    ensures exists p :: IsFarthest(target, s, p)
    decreases s
  {
    var p :| p in s;
    var rest := s - {p};
    assert forall q :: q in s ==> q == p || q in rest;
    if rest == {} {
      assert IsFarthest(target, s, p);
    } else {
      FarthestExists(target, rest);
      var r :| IsFarthest(target, rest, r);
      assert IsFarthest(target, s, p) || IsFarthest(target, s, r);
    }
  }

  function Farthest(target: Key, s: set<Key>): (p: Key)
    requires s != {}
    ensures IsFarthest(target, s, p)
  {
    AllDistancesInjective(target);
    FarthestExists(target, s);
    var p :| p in s && forall q :: q in s ==> Distance(target, q) <= Distance(target, p);
    p
  }

  function ByDistance(target: Key, s: set<Key>): (xs: seq<Key>)
    ensures |xs| == |s|
    decreases s
  {
    if s == {} then []
    else var p := Nearest(target, s); [p] + ByDistance(target, s - {p})
  }

  lemma {:induction false} ByDistanceSorts(target: Key, s: set<Key>)
    ensures Ascending(target, ByDistance(target, s))
    ensures Elements(ByDistance(target, s)) == s
    decreases s
  {
    if s != {} {
      var p := Nearest(target, s);
      ByDistanceSorts(target, s - {p});
      AscendingCons(target, s, p, ByDistance(target, s - {p}));
    }
  }

  lemma AscendingCons(target: Key, s: set<Key>, p: Key, rest: seq<Key>)
    requires IsNearest(target, s, p) && Ascending(target, rest) && Elements(rest) == s - {p}
    ensures Ascending(target, [p] + rest)
    ensures Elements([p] + rest) == s
  {
    var xs := [p] + rest;
    forall j | 0 <= j < |rest| ensures Distance(target, p) < Distance(target, rest[j]) {
      assert rest[j] in Elements(rest);
      DistanceInjective(target, p, rest[j]);
    }
    forall x ensures x in xs <==> x in s {
      assert x in xs <==> x == p || x in rest;
      assert x in rest <==> x in Elements(rest);
    }
  }

  /** Any strictly ascending listing of a set is `ByDistance` of it. */
  lemma {:induction false} AscendingUnique(target: Key, xs: seq<Key>, ys: seq<Key>)
    requires Ascending(target, xs) && Ascending(target, ys)
    requires Elements(xs) == Elements(ys)
    ensures xs == ys
    decreases |xs|
  {
    assert forall i :: 0 <= i < |xs| ==> xs[i] in Elements(xs);
    assert forall i :: 0 <= i < |ys| ==> ys[i] in Elements(ys);
    if xs != [] && ys != [] {
      AscendingHead(target, xs, ys[0]);
      AscendingHead(target, ys, xs[0]);
      DistanceInjective(target, xs[0], ys[0]);
      AscendingTail(target, xs);
      AscendingTail(target, ys);
      AscendingUnique(target, xs[1..], ys[1..]);
    }
  }

  lemma AscendingHead(target: Key, xs: seq<Key>, p: Key)
    requires Ascending(target, xs) && p in xs
    ensures Distance(target, xs[0]) <= Distance(target, p)
  {
  }

  lemma LastIsFarthest(target: Key, xs: seq<Key>, p: Key)
    requires Ascending(target, xs) && p in xs
    ensures Distance(target, p) <= Distance(target, xs[|xs| - 1])
  {
  }

  lemma AscendingTail(target: Key, xs: seq<Key>)
    requires Ascending(target, xs) && xs != []
    ensures Ascending(target, xs[1..])
    ensures Elements(xs[1..]) == Elements(xs) - {xs[0]}
  {
    assert forall x :: x in xs <==> x == xs[0] || x in xs[1..];
  }

  /** `r` is the set of the `k` closest members of `s` (all of `s` when it is smaller). */
  ghost predicate IsNearestSet(target: Key, s: set<Key>, k: nat, r: set<Key>) {
    && r <= s
    && |r| == Min(k, |s|)
    && forall p, q :: p in r && q in s && q !in r ==> Distance(target, p) < Distance(target, q)
  }

  /** The sort-then-truncate idiom of the source. */
  function NearestK(target: Key, s: set<Key>, k: nat): (xs: seq<Key>)
    ensures |xs| == Min(k, |s|)
  {
    ByDistance(target, s)[..Min(k, |s|)]
  }

  lemma NearestKIsNearest(target: Key, s: set<Key>, k: nat)
    ensures Ascending(target, NearestK(target, s, k))
    ensures IsNearestSet(target, s, k, Elements(NearestK(target, s, k)))
  {
    ByDistanceSorts(target, s);
    AscendingPrefix(target, ByDistance(target, s), Min(k, |s|));
  }

  lemma AscendingPrefix(target: Key, xs: seq<Key>, n: nat)
    requires Ascending(target, xs) && n <= |xs|
    ensures Ascending(target, xs[..n])
    ensures Elements(xs[..n]) <= Elements(xs) && |Elements(xs[..n])| == n
    ensures forall p, q :: p in Elements(xs[..n]) && q in Elements(xs) && q !in Elements(xs[..n])
              ==> Distance(target, p) < Distance(target, q)
  {
    var front := xs[..n];
    AscendingDistinct(target, front);
    forall p, q | p in front && q in xs && q !in front
      ensures Distance(target, p) < Distance(target, q)
    {
      var i :| 0 <= i < n && front[i] == p;
      var j :| 0 <= j < |xs| && xs[j] == q;
      assert n <= j;
    }
  }

  lemma {:induction false} AscendingDistinct(target: Key, xs: seq<Key>)
    requires Ascending(target, xs)
    ensures |Elements(xs)| == |xs|
    decreases |xs|
  {
    if xs != [] {
      AscendingTail(target, xs);
      AscendingDistinct(target, xs[1..]);
      assert xs[0] in Elements(xs);
      assert xs[0] !in Elements(xs[1..]);
    }
  }

  /** There is only one set of `k` closest members. */
  lemma NearestSetUnique(target: Key, s: set<Key>, k: nat, r: set<Key>, r': set<Key>)
    requires IsNearestSet(target, s, k, r) && IsNearestSet(target, s, k, r')
    ensures r == r'
  {
    assert r == (r - r') + (r * r');
    assert r' == (r' - r) + (r * r');
    assert |r - r'| == |r' - r|;
    assert forall p, q :: p in r - r' && q in r' - r ==>
        Distance(target, p) < Distance(target, q) && Distance(target, q) < Distance(target, p);
    assert r - r' == {} || r' - r == {};
  }

  lemma FullSubset(r: set<Key>, s: set<Key>)
    requires r <= s && |s| <= |r|
    ensures r == s
  {
    assert s == r + (s - r);
    assert |s| == |r| + |s - r|;
  }

  /** Room left: the newcomer joins. */
  lemma NearestSetGrows(target: Key, s: set<Key>, k: nat, r: set<Key>, p: Key)
    requires IsNearestSet(target, s, k, r) && |r| < k
    ensures IsNearestSet(target, s + {p}, k, r + {p})
  {
    FullSubset(r, s);
  }

  /** Full, and the newcomer is farther than every member: nothing changes. */
  lemma NearestSetKeeps(target: Key, s: set<Key>, k: nat, r: set<Key>, p: Key)
    requires IsNearestSet(target, s, k, r) && |r| == k
    requires forall q :: q in r ==> Distance(target, q) < Distance(target, p)
    ensures IsNearestSet(target, s + {p}, k, r)
  {
    if p in s { assert s + {p} == s; } else { assert |s + {p}| == |s| + 1; }
  }

  /** Full, and the newcomer is closer than the farthest member: they change places. */
  lemma NearestSetSwaps(target: Key, s: set<Key>, k: nat, r: set<Key>, far: Key, p: Key)
    requires IsNearestSet(target, s, k, r) && |r| == k
    requires IsFarthest(target, r, far) && Distance(target, p) < Distance(target, far) && p !in r
    ensures IsNearestSet(target, s + {p}, k, r - {far} + {p})
  {
    var r' := r - {far} + {p};
    assert p !in s;
    assert |r'| == |r|;
    assert |s + {p}| == |s| + 1;
    forall q | q in r && q != far ensures Distance(target, q) < Distance(target, far) {
      DistanceInjective(target, q, far);
    }
  }

  /** Peers retained once `p` is offered to a queue holding `r`. */
  function Admit(target: Key, capacity: nat, r: set<Key>, p: Key): set<Key> {
    if p in r || |r| < capacity then r + {p}
    else if r == {} || Distance(target, Farthest(target, r)) <= Distance(target, p) then r
    else r - {Farthest(target, r)} + {p}
  }

  lemma AdmitKeepsNearest(target: Key, s: set<Key>, k: nat, r: set<Key>, p: Key)
    requires IsNearestSet(target, s, k, r)
    ensures IsNearestSet(target, s + {p}, k, Admit(target, k, r, p))
  {
    if p in r {
      assert s + {p} == s && r + {p} == r;
    } else if |r| < k {
      NearestSetGrows(target, s, k, r, p);
    } else if r == {} {
      NearestSetKeeps(target, s, k, r, p);
    } else {
      var far := Farthest(target, r);
      DistanceInjective(target, far, p);
      if Distance(target, far) <= Distance(target, p) {
        NearestSetKeeps(target, s, k, r, p);
      } else {
        NearestSetSwaps(target, s, k, r, far, p);
      }
    }
  }

  lemma AdmitBounds(target: Key, k: nat, r: set<Key>, p: Key)
    requires |r| <= k
    ensures Admit(target, k, r, p) <= r + {p}
    ensures |Admit(target, k, r, p)| <= k
  {
    if p in r { assert r + {p} == r; }
  }

  function Gather<V>(m: map<Key, V>, xs: seq<Key>): (views: seq<V>)
    requires forall i :: 0 <= i < |xs| ==> xs[i] in m
    ensures |views| == |xs|
    ensures forall i :: 0 <= i < |xs| ==> views[i] == m[xs[i]]
  {
    seq(|xs|, i requires 0 <= i < |xs| => m[xs[i]])
  }

  lemma NearestInMap<V>(target: Key, m: map<Key, V>, k: nat)
    ensures forall i :: 0 <= i < |NearestK(target, m.Keys, k)| ==> NearestK(target, m.Keys, k)[i] in m
  {
    var xs := NearestK(target, m.Keys, k);
    NearestKIsNearest(target, m.Keys, k);
    assert forall i :: 0 <= i < |xs| ==> xs[i] in Elements(xs);
  }

  /** The `k` closest entries of a map, closest first: collect the values, sort, truncate. */
  function NearestEntries<V>(target: Key, m: map<Key, V>, k: nat): seq<V> {
    NearestInMap(target, m, k);
    Gather(m, NearestK(target, m.Keys, k))
  }
}
