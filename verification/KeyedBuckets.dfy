/** Buckets kept per key in a bounded least-recently-used cache, whatever a bucket is. */
module KeyedBuckets {
  import opened Wrappers
  import opened Sorting

  const MAX_RATE_LIMIT_KEYS: nat := 100_000

  /** How a bucket is made at an instant, what a call does to it, and whether the call is granted. */
  datatype Limiter<!B> = Limiter(make: nat -> B, spend: (B, nat) -> B, grants: (B, nat) -> bool)

  /** `recency` lists the keys from the least to the most recently used one. */
  datatype Keyed<K, B> = Keyed(buckets: map<K, B>, recency: seq<K>)

  datatype Call<K> = Call(key: K, created: nat, now: nat)

  function Without<K(==)>(xs: seq<K>, k: K): seq<K> {
    if xs == [] then [] else (if xs[0] == k then [] else [xs[0]]) + Without(xs[1..], k)
  }

  lemma {:induction false} WithoutRemoves<K>(xs: seq<K>, k: K)
    requires NoRepeats(xs)
    ensures forall x :: x in xs && x != k ==> x in Without(xs, k)
    ensures forall i :: 0 <= i < |Without(xs, k)| ==> Without(xs, k)[i] in xs && Without(xs, k)[i] != k
    ensures NoRepeats(Without(xs, k))
    ensures |Without(xs, k)| == |xs| - if k in xs then 1 else 0
    decreases |xs|
  {
    if xs != [] {
      WithoutRemoves(xs[1..], k);
      assert xs == [xs[0]] + xs[1..];
      assert xs[0] !in xs[1..];
    }
  }

  /** The key whose bucket a call for `k` pushes out, if any. */
  function Evicted<K(==), B>(e: Keyed<K, B>, k: K): Option<K> {
    if k in e.buckets || |e.recency| < MAX_RATE_LIMIT_KEYS || e.recency == [] then None else Some(e.recency[0])
  }

  /** The bucket a call starts from: the stored one, or a new one. */
  function BucketFor<K(==), B>(lim: Limiter<B>, e: Keyed<K, B>, c: Call<K>): B {
    if c.key in e.buckets then e.buckets[c.key] else lim.make(c.created)
  }

  predicate KeyGranted<K(==), B>(lim: Limiter<B>, e: Keyed<K, B>, c: Call<K>) {
    lim.grants(BucketFor(lim, e, c), c.now)
  }

  /** Only the bucket of the key changes; a full cache forgets its least recently used key. */
  function Called<K(==), B>(lim: Limiter<B>, e: Keyed<K, B>, c: Call<K>): Keyed<K, B> {
    var gone := Evicted(e, c.key);
    var kept := if gone.Some? then e.buckets - {gone.value} else e.buckets;
    Keyed(kept[c.key := lim.spend(BucketFor(lim, e, c), c.now)],
          (if c.key in e.buckets then Without(e.recency, c.key)
           else if gone.Some? then e.recency[1..] else e.recency) + [c.key])
  }

  // ---------- the cache lists its keys ----------

  ghost predicate Listed<K, B>(buckets: map<K, B>, recency: seq<K>) {
    && NoRepeats(recency)
    && (forall k | k in buckets :: k in recency)
    && (forall i :: 0 <= i < |recency| ==> recency[i] in buckets)
  }

  ghost predicate Tidy<K, B>(e: Keyed<K, B>) {
    Listed(e.buckets, e.recency) && |e.recency| <= MAX_RATE_LIMIT_KEYS
  }

  lemma AppendListed<K, B>(buckets: map<K, B>, recency: seq<K>, k: K, b: B)
    requires Listed(buckets, recency) && k !in buckets
    ensures Listed(buckets[k := b], recency + [k])
  {
  }

  lemma RemoveListed<K, B>(buckets: map<K, B>, recency: seq<K>, k: K)
    requires Listed(buckets, recency)
    ensures Listed(buckets - {k}, Without(recency, k))
  {
    WithoutRemoves(recency, k);
    var rest := Without(recency, k);
    forall i | 0 <= i < |rest| ensures rest[i] in buckets && rest[i] != k {
      var j :| 0 <= j < |recency| && recency[j] == rest[i];
    }
  }

  lemma DropFirstListed<K, B>(buckets: map<K, B>, recency: seq<K>)
    requires Listed(buckets, recency) && recency != []
    ensures Listed(buckets - {recency[0]}, recency[1..])
  {
    forall k | k in buckets && k != recency[0] ensures k in recency[1..] {
      var i :| 0 <= i < |recency| && recency[i] == k;
      assert recency[1..][i - 1] == k;
    }
  }

  lemma CalledKeepsTidy<K, B>(lim: Limiter<B>, e: Keyed<K, B>, c: Call<K>)
    requires Tidy(e)
    ensures Tidy(Called(lim, e, c))
  {
    var b := lim.spend(BucketFor(lim, e, c), c.now);
    if c.key in e.buckets {
      RemoveListed(e.buckets, e.recency, c.key);
      WithoutRemoves(e.recency, c.key);
      AppendListed(e.buckets - {c.key}, Without(e.recency, c.key), c.key, b);
      assert (e.buckets - {c.key})[c.key := b] == e.buckets[c.key := b];
    } else if Evicted(e, c.key).Some? {
      DropFirstListed(e.buckets, e.recency);
      AppendListed(e.buckets - {e.recency[0]}, e.recency[1..], c.key, b);
    } else {
      AppendListed(e.buckets, e.recency, c.key, b);
    }
  }

  // ---------- runs ----------

  ghost predicate KeyedRun<K, B>(lim: Limiter<B>, states: seq<Keyed<K, B>>, calls: seq<Call<K>>) {
    && |states| == |calls| + 1
    && forall i :: 0 <= i < |calls| ==> states[i + 1] == Called(lim, states[i], calls[i])
  }

  /** One bucket serving calls at `times`: what becomes of it, and how many calls it grants. */
  function Serve<B>(lim: Limiter<B>, b: B, times: seq<nat>): (B, nat) {
    if times == [] then (b, 0)
    else
      var n := |times| - 1;
      var (before, count) := Serve(lim, b, times[..n]);
      (lim.spend(before, times[n]), count + if lim.grants(before, times[n]) then 1 else 0)
  }

  lemma ServeSnoc<B>(lim: Limiter<B>, b: B, times: seq<nat>, now: nat)
    ensures var (end, count) := Serve(lim, b, times);
            Serve(lim, b, times + [now]) == (lim.spend(end, now), count + if lim.grants(end, now) then 1 else 0)
  {
    assert (times + [now])[..|times|] == times;
  }

  /** Times of the calls for `k`. */
  function TimesFor<K(==)>(calls: seq<Call<K>>, k: K): seq<nat> {
    if calls == [] then []
    else
      var n := |calls| - 1;
      TimesFor(calls[..n], k) + if calls[n].key == k then [calls[n].now] else []
  }

  lemma TimesForSnoc<K>(calls: seq<Call<K>>, k: K, n: nat)
    requires n < |calls|
    ensures TimesFor(calls[..n + 1], k) == TimesFor(calls[..n], k) + if calls[n].key == k then [calls[n].now] else []
  {
    assert calls[..n + 1][..n] == calls[..n];
  }

  /** Grants to `k` among the first `n` calls. */
  ghost function GrantsFor<K, B>(lim: Limiter<B>, states: seq<Keyed<K, B>>, calls: seq<Call<K>>, k: K, n: nat): nat
    requires KeyedRun(lim, states, calls) && n <= |calls|
  {
    if n == 0 then 0
    else GrantsFor(lim, states, calls, k, n - 1)
         + if calls[n - 1].key == k && KeyGranted(lim, states[n - 1], calls[n - 1]) then 1 else 0
  }

  /** A call for another key that does not evict `k` leaves its bucket alone, or still missing. */
  lemma OtherCall<K, B>(lim: Limiter<B>, e: Keyed<K, B>, c: Call<K>, k: K)
    requires c.key != k && Evicted(e, c.key) != Some(k)
    ensures k in Called(lim, e, c).buckets <==> k in e.buckets
    ensures k in e.buckets ==> Called(lim, e, c).buckets[k] == e.buckets[k]
  {
  }

  /** The bucket that serves `k` over a stretch: the stored one, or the one its first call makes. */
  ghost predicate IsOrigin<K, B>(lim: Limiter<B>, e: Keyed<K, B>, calls: seq<Call<K>>, k: K, n: nat, b: B)
    requires n <= |calls|
  {
    if k in e.buckets then b == e.buckets[k]
    else exists i :: 0 <= i < n && IsFirstCall(calls, k, i) && b == lim.make(calls[i].created)
  }

  ghost predicate IsFirstCall<K>(calls: seq<Call<K>>, k: K, i: nat) {
    i < |calls| && calls[i].key == k && forall j :: 0 <= j < i ==> calls[j].key != k
  }

  /** After `n` calls `k` has been served as by bucket `b` alone. */
  ghost predicate ServedAlone<K, B>(lim: Limiter<B>, states: seq<Keyed<K, B>>, calls: seq<Call<K>>, k: K, n: nat, b: B)
    requires KeyedRun(lim, states, calls) && n <= |calls|
  {
    && k in states[n].buckets && IsOrigin(lim, states[0], calls, k, n, b)
    && Serve(lim, b, TimesFor(calls[..n], k)) == (states[n].buckets[k], GrantsFor(lim, states, calls, k, n))
  }

  /** It has not been called and has no bucket. */
  ghost predicate Uncalled<K, B>(states: seq<Keyed<K, B>>, calls: seq<Call<K>>, k: K, n: nat)
    requires n <= |calls| < |states|
  {
    k !in states[0].buckets && k !in states[n].buckets && forall i :: 0 <= i < n ==> calls[i].key != k
  }

  lemma {:induction false} UncalledCounts<K, B>(
      lim: Limiter<B>, states: seq<Keyed<K, B>>, calls: seq<Call<K>>, k: K, n: nat)
    requires KeyedRun(lim, states, calls) && n <= |calls| && forall i :: 0 <= i < n ==> calls[i].key != k
    ensures TimesFor(calls[..n], k) == [] && GrantsFor(lim, states, calls, k, n) == 0
    decreases n
  {
    if n > 0 {
      UncalledCounts(lim, states, calls, k, n - 1);
      TimesForSnoc(calls, k, n - 1);
    }
  }

  /** The call that makes a bucket counts like any other. */
  lemma FirstServed<K, B>(lim: Limiter<B>, states: seq<Keyed<K, B>>, calls: seq<Call<K>>, k: K, n: nat) returns (b: B)
    requires KeyedRun(lim, states, calls) && n < |calls| && calls[n].key == k && Uncalled(states, calls, k, n)
    ensures ServedAlone(lim, states, calls, k, n + 1, b)
  {
    b := lim.make(calls[n].created);
    UncalledCounts(lim, states, calls, k, n);
    TimesForSnoc(calls, k, n);
    ServeSnoc(lim, b, [], calls[n].now);
    assert IsFirstCall(calls, k, n);
    assert states[n + 1] == Called(lim, states[n], calls[n]);
  }

  lemma ServedAgain<K, B>(lim: Limiter<B>, states: seq<Keyed<K, B>>, calls: seq<Call<K>>, k: K, n: nat, b: B)
    requires KeyedRun(lim, states, calls) && n < |calls| && calls[n].key == k
    requires ServedAlone(lim, states, calls, k, n, b)
    ensures ServedAlone(lim, states, calls, k, n + 1, b)
  {
    TimesForSnoc(calls, k, n);
    ServeSnoc(lim, b, TimesFor(calls[..n], k), calls[n].now);
    assert states[n + 1] == Called(lim, states[n], calls[n]);
  }

  lemma NotServed<K, B>(lim: Limiter<B>, states: seq<Keyed<K, B>>, calls: seq<Call<K>>, k: K, n: nat, b: B)
    requires KeyedRun(lim, states, calls) && n < |calls| && calls[n].key != k
    requires Evicted(states[n], calls[n].key) != Some(k)
    ensures Uncalled(states, calls, k, n) ==> Uncalled(states, calls, k, n + 1)
    ensures ServedAlone(lim, states, calls, k, n, b) ==> ServedAlone(lim, states, calls, k, n + 1, b)
  {
    TimesForSnoc(calls, k, n);
    assert TimesFor(calls[..n + 1], k) == TimesFor(calls[..n], k);
    assert states[n + 1] == Called(lim, states[n], calls[n]);
    OtherCall(lim, states[n], calls[n], k);
  }

  /** While its key is not evicted, a keyed bucket behaves as if it were alone, from the call that makes it on. */
  lemma {:induction false} KeyedIsAlone<K, B>(
      lim: Limiter<B>, states: seq<Keyed<K, B>>, calls: seq<Call<K>>, k: K, n: nat) returns (b: B)
    requires KeyedRun(lim, states, calls) && n <= |calls|
    requires forall i :: 0 <= i < n ==> Evicted(states[i], calls[i].key) != Some(k)
    ensures Uncalled(states, calls, k, n) || ServedAlone(lim, states, calls, k, n, b)
    decreases n
  {
    if n == 0 {
      b := if k in states[0].buckets then states[0].buckets[k] else lim.make(0);
    } else {
      b := KeyedIsAlone(lim, states, calls, k, n - 1);
      if calls[n - 1].key != k {
        NotServed(lim, states, calls, k, n - 1, b);
      } else if Uncalled(states, calls, k, n - 1) {
        b := FirstServed(lim, states, calls, k, n - 1);
      } else {
        ServedAgain(lim, states, calls, k, n - 1, b);
      }
    }
  }

  lemma StretchIsRun<K, B>(lim: Limiter<B>, states: seq<Keyed<K, B>>, calls: seq<Call<K>>, m: nat, n: nat)
    requires KeyedRun(lim, states, calls) && m <= n <= |calls|
    ensures KeyedRun(lim, states[m..n + 1], calls[m..n])
  {
    forall i | 0 <= i < n - m ensures states[m..n + 1][i + 1] == Called(lim, states[m..n + 1][i], calls[m..n][i]) {
      assert states[m + i + 1] == Called(lim, states[m + i], calls[m + i]);
    }
  }

  // ---------- who is forgotten ----------

  /** The last of the first `n` calls that was for `k`, or -1. */
  function LastUse<K(==)>(calls: seq<Call<K>>, k: K, n: nat): int
    requires n <= |calls|
  {
    if n == 0 then -1 else if calls[n - 1].key == k then n - 1 else LastUse(calls, k, n - 1)
  }

  lemma {:induction false} LastUseIs<K>(calls: seq<Call<K>>, k: K, n: nat)
    requires n <= |calls|
    ensures -1 <= LastUse(calls, k, n) < n
    ensures LastUse(calls, k, n) >= 0 ==> calls[LastUse(calls, k, n)].key == k
    ensures forall i :: LastUse(calls, k, n) < i < n ==> calls[i].key != k
    decreases n
  {
    if n > 0 { LastUseIs(calls, k, n - 1); }
  }

  ghost predicate UseRises<K>(xs: seq<K>, calls: seq<Call<K>>, n: nat)
    requires n <= |calls|
  {
    && (forall a :: 0 <= a < |xs| ==> LastUse(calls, xs[a], n) >= 0)
    && (forall a, b :: 0 <= a < b < |xs| ==> LastUse(calls, xs[a], n) < LastUse(calls, xs[b], n))
  }

  lemma {:induction false} WithoutHolds<K>(xs: seq<K>, k: K, x: K)
    ensures x in Without(xs, k) <==> x in xs && x != k
    decreases |xs|
  {
    if xs != [] {
      WithoutHolds(xs[1..], k, x);
      assert xs == [xs[0]] + xs[1..];
    }
  }

  lemma RisesTail<K>(xs: seq<K>, calls: seq<Call<K>>, n: nat)
    requires n <= |calls| && UseRises(xs, calls, n) && xs != []
    ensures UseRises(xs[1..], calls, n)
    ensures forall x :: x in xs[1..] ==> LastUse(calls, xs[0], n) < LastUse(calls, x, n)
  {
    forall x | x in xs[1..] ensures LastUse(calls, xs[0], n) < LastUse(calls, x, n) {
      var i :| 0 <= i < |xs[1..]| && xs[1..][i] == x;
      assert x == xs[i + 1];
    }
  }

  lemma RisesCons<K>(x: K, xs: seq<K>, calls: seq<Call<K>>, n: nat)
    requires n <= |calls| && UseRises(xs, calls, n) && LastUse(calls, x, n) >= 0
    requires forall y :: y in xs ==> LastUse(calls, x, n) < LastUse(calls, y, n)
    ensures UseRises([x] + xs, calls, n)
  {
  }

  lemma {:induction false} WithoutRises<K>(xs: seq<K>, k: K, calls: seq<Call<K>>, n: nat)
    requires n <= |calls| && UseRises(xs, calls, n)
    ensures UseRises(Without(xs, k), calls, n)
    decreases |xs|
  {
    if xs != [] {
      RisesTail(xs, calls, n);
      WithoutRises(xs[1..], k, calls, n);
      if xs[0] == k {
        assert Without(xs, k) == Without(xs[1..], k);
      } else {
        forall y | y in Without(xs[1..], k) ensures LastUse(calls, xs[0], n) < LastUse(calls, y, n) {
          WithoutHolds(xs[1..], k, y);
        }
        RisesCons(xs[0], Without(xs[1..], k), calls, n);
      }
    }
  }

  /** A list without the key called, and then that key: last uses rise again. */
  lemma RisesWithCall<K>(xs: seq<K>, calls: seq<Call<K>>, n: nat)
    requires n < |calls| && UseRises(xs, calls, n) && calls[n].key !in xs
    ensures UseRises(xs + [calls[n].key], calls, n + 1)
  {
    forall a | 0 <= a < |xs| ensures LastUse(calls, xs[a], n + 1) == LastUse(calls, xs[a], n) < n {
      LastUseIs(calls, xs[a], n);
    }
  }

  lemma RecencyStep<K, B>(lim: Limiter<B>, e: Keyed<K, B>, calls: seq<Call<K>>, n: nat)
    requires n < |calls| && UseRises(e.recency, calls, n) && Tidy(e)
    ensures UseRises(Called(lim, e, calls[n]).recency, calls, n + 1)
  {
    var k := calls[n].key;
    if k in e.buckets {
      WithoutRises(e.recency, k, calls, n);
      WithoutHolds(e.recency, k, k);
      RisesWithCall(Without(e.recency, k), calls, n);
    } else {
      assert k !in e.recency;
      if Evicted(e, k).Some? {
        RisesTail(e.recency, calls, n);
        RisesWithCall(e.recency[1..], calls, n);
      } else {
        RisesWithCall(e.recency, calls, n);
      }
    }
  }

  /** The cache lists its keys by their last call. */
  lemma {:induction false} RecencyIsLastUse<K, B>(
      lim: Limiter<B>, states: seq<Keyed<K, B>>, calls: seq<Call<K>>, n: nat)
    requires KeyedRun(lim, states, calls) && states[0] == Keyed(map[], []) && n <= |calls|
    ensures UseRises(states[n].recency, calls, n) && Tidy(states[n])
    decreases n
  {
    if n > 0 {
      RecencyIsLastUse(lim, states, calls, n - 1);
      assert states[n] == Called(lim, states[n - 1], calls[n - 1]);
      RecencyStep(lim, states[n - 1], calls, n - 1);
      CalledKeepsTidy(lim, states[n - 1], calls[n - 1]);
    }
  }

  lemma ListedCount<K, B>(buckets: map<K, B>, recency: seq<K>)
    requires Listed(buckets, recency)
    ensures |buckets| == |recency|
    decreases |recency|
  {
    if recency == [] {
      assert buckets == map[];
    } else {
      DropFirstListed(buckets, recency);
      ListedCount(buckets - {recency[0]}, recency[1..]);
      assert (buckets - {recency[0]}).Keys == buckets.Keys - {recency[0]};
      assert |buckets.Keys - {recency[0]}| == |buckets.Keys| - 1;
    }
  }

  /** A call forgets a key exactly when it is for a key without a bucket, the cache is full, and no other key
      in it has gone as long without a call. */
  lemma EvictsLeastRecent<K, B>(
      lim: Limiter<B>, states: seq<Keyed<K, B>>, calls: seq<Call<K>>, n: nat, k: K)
    requires KeyedRun(lim, states, calls) && states[0] == Keyed(map[], []) && n < |calls|
    ensures Evicted(states[n], calls[n].key) == Some(k) <==>
            && calls[n].key !in states[n].buckets && |states[n].buckets| == MAX_RATE_LIMIT_KEYS
            && k in states[n].buckets
            && forall q :: q in states[n].buckets && q != k ==> LastUse(calls, k, n) < LastUse(calls, q, n)
  {
    var e := states[n];
    RecencyIsLastUse(lim, states, calls, n);
    ListedCount(e.buckets, e.recency);
    if e.recency != [] {
      forall q | q in e.buckets && q != e.recency[0]
        ensures LastUse(calls, e.recency[0], n) < LastUse(calls, q, n)
      {
        var i :| 0 <= i < |e.recency| && e.recency[i] == q;
      }
    }
  }
}
