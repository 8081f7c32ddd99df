/** When a rate limiter grants a call and when it denies one, told from the calls before it and their grants. */
module RateDecisions {
  import opened Wrappers
  import opened KeyedBuckets
  import opened RateLimit

  /** Grants to the calls from the `k`-th on, in a run of a new bucket. */
  function GrantsSince(cfg: EngineConfig, created: nat, times: seq<nat>, k: nat): int
    requires k <= |times|
  {
    Run(cfg, NewBucket(cfg, created), times).1 - Run(cfg, NewBucket(cfg, created), times[..k]).1
  }

  /** The last call of the run was granted. */
  predicate LastGranted(cfg: EngineConfig, created: nat, times: seq<nat>)
    requires times != []
  {
    GrantsSince(cfg, created, times, |times| - 1) == 1
  }

  lemma GrantsSinceSnoc(cfg: EngineConfig, created: nat, times: seq<nat>, now: nat, k: nat)
    requires k <= |times|
    ensures var all, g := times + [now], GrantsSince(cfg, created, times + [now], |times|);
            && 0 <= g <= 1
            && (g == 1 <==> Grants(cfg, Run(cfg, NewBucket(cfg, created), times).0, now))
            && GrantsSince(cfg, created, all, k) == GrantsSince(cfg, created, times, k) + g
  {
    var all := times + [now];
    assert all[..|times|] == times && all[..k] == times[..k];
    RunLast(cfg, NewBucket(cfg, created), all);
  }

  lemma OrderedPrefix(b: BucketState, times: seq<nat>, now: nat)
    requires Ordered(b, times + [now])
    ensures Ordered(b, times)
    ensures forall i :: 0 <= i < |times| ==> times[i] <= now
    ensures b.lastUpdate <= now && b.windowStart <= now
  {
    var all := times + [now];
    assert forall i :: 0 <= i < |times| ==> times[i] == all[i];
    assert all[|times|] == now;
  }

  // ---------- the window ----------

  /** The calls of the current window are those from `first` on: it started at the first of them, or at the making
      of the bucket, they are no later than a window length after that, and their grants are what it counts. */
  ghost predicate CountsWindow(cfg: EngineConfig, created: nat, times: seq<nat>, first: nat) {
    && first <= |times|
    && var b := Run(cfg, NewBucket(cfg, created), times).0;
       && ((first == 0 && b.windowStart == created) || (first < |times| && b.windowStart == times[first]))
       && (forall i :: 0 <= i < first ==> times[i] < b.windowStart)
       && (forall i :: first <= i < |times| ==> b.windowStart <= times[i] <= b.windowStart + cfg.window)
       && b.requestsInWindow == GrantsSince(cfg, created, times, first)
  }

  /** A call starts a new window exactly when more than a window length has passed since the current one started. */
  lemma WindowRestartsIff(cfg: EngineConfig, b: BucketState, times: seq<nat>, now: nat)
    ensures var w := Run(cfg, b, times).0.windowStart;
            Run(cfg, b, times + [now]).0.windowStart == if now > w + cfg.window then now else w
  {
    RunLast(cfg, b, times + [now]);
    assert (times + [now])[..|times|] == times;
  }

  /** Over every run the counter is the number of grants since the current window started. */
  lemma {:induction false} WindowCounts(cfg: EngineConfig, created: nat, times: seq<nat>) returns (first: nat)
    requires Ordered(NewBucket(cfg, created), times)
    ensures CountsWindow(cfg, created, times, first)
    decreases |times|
  {
    first := 0;
    if times != [] {
      var n := |times| - 1;
      var before, now := times[..n], times[n];
      assert times == before + [now];
      OrderedPrefix(NewBucket(cfg, created), before, now);
      first := WindowCounts(cfg, created, before);
      first := WindowStep(cfg, created, before, now, first);
    }
  }

  /** What one call does to the window. */
  lemma WindowAfter(cfg: EngineConfig, created: nat, times: seq<nat>, now: nat)
    requires Run(cfg, NewBucket(cfg, created), times).0.windowStart <= now
    ensures var b, b' := Run(cfg, NewBucket(cfg, created), times).0, Run(cfg, NewBucket(cfg, created), times + [now]).0;
            var g := GrantsSince(cfg, created, times + [now], |times|);
            if now > b.windowStart + cfg.window then b'.windowStart == now && b'.requestsInWindow == g
            else b'.windowStart == b.windowStart && b'.requestsInWindow == b.requestsInWindow + g
  {
    assert (times + [now])[..|times|] == times;
    RunLast(cfg, NewBucket(cfg, created), times + [now]);
    GrantsSinceSnoc(cfg, created, times, now, |times|);
  }

  lemma WindowStep(cfg: EngineConfig, created: nat, times: seq<nat>, now: nat, first: nat) returns (first': nat)
    requires CountsWindow(cfg, created, times, first)
    requires Ordered(NewBucket(cfg, created), times + [now])
    ensures CountsWindow(cfg, created, times + [now], first')
  {
    var w := Run(cfg, NewBucket(cfg, created), times).0.windowStart;
    OrderedPrefix(NewBucket(cfg, created), times, now);
    WindowAfter(cfg, created, times, now);
    GrantsSinceSnoc(cfg, created, times, now, first);
    first' := if now > w + cfg.window then |times| else first;
  }

  // ---------- the balance ----------

  /** Tokens at hand for a call at `now`, after calls at `times`. */
  function Level(cfg: EngineConfig, created: nat, times: seq<nat>, now: nat): real {
    Refilled(cfg, Run(cfg, NewBucket(cfg, created), times).0, now).tokens
  }

  lemma LevelFirst(cfg: EngineConfig, created: nat, now: nat)
    requires created <= now
    ensures Level(cfg, created, [], now) == cfg.burstSize as real
  {
    if cfg.Windowed() { FlowIsProduct(cfg, now - created); }
  }

  /** The tokens left by the last call, and what has flowed in since, up to the burst. */
  lemma LevelNext(cfg: EngineConfig, created: nat, times: seq<nat>, last: nat, now: nat)
    requires cfg.Windowed() && last <= now
    ensures var spent := GrantsSince(cfg, created, times + [last], |times|);
            Level(cfg, created, times + [last], now)
            == MinReal(Level(cfg, created, times, last) - spent as real + Flow(cfg, now - last), cfg.burstSize as real)
  {
    var all := times + [last];
    assert all[..|times|] == times;
    RunLast(cfg, NewBucket(cfg, created), all);
    GrantsSinceSnoc(cfg, created, times, last, |times|);
  }

  /** What the calls from the `k`-th on, the one at `now` included, may spend at most. */
  function Allowance(cfg: EngineConfig, times: seq<nat>, now: nat, k: nat): real
    requires cfg.Windowed() && k <= |times|
  {
    cfg.burstSize as real + Flow(cfg, Since((times + [now])[k], now))
  }

  lemma AllowanceNext(cfg: EngineConfig, times: seq<nat>, last: nat, now: nat, k: nat)
    requires cfg.Windowed() && k <= |times| && last <= now && (k < |times| ==> times[k] <= last)
    ensures Allowance(cfg, times + [last], now, k) == Allowance(cfg, times, last, k) + Flow(cfg, now - last)
  {
    var t := (times + [last])[k];
    assert (times + [last] + [now])[k] == t;
    FlowAdds(cfg, last - t, now - last);
  }

  /** No stretch of calls leaves more tokens than its allowance less its grants. */
  lemma {:induction false} LevelAtMost(cfg: EngineConfig, created: nat, times: seq<nat>, now: nat, k: nat)
    requires cfg.Windowed() && Ordered(NewBucket(cfg, created), times + [now]) && k <= |times|
    ensures Level(cfg, created, times, now) + GrantsSince(cfg, created, times, k) as real
            <= Allowance(cfg, times, now, k)
    decreases |times|
  {
    OrderedPrefix(NewBucket(cfg, created), times, now);
    assert times[..|times|] == times;
    if k < |times| {
      var n := |times| - 1;
      var before, last := times[..n], times[n];
      assert times == before + [last];
      LevelAtMost(cfg, created, before, last, k);
      LevelNext(cfg, created, before, last, now);
      AllowanceNext(cfg, before, last, now, k);
      GrantsSinceSnoc(cfg, created, before, last, k);
    }
  }

  /** And one stretch leaves just that. */
  lemma {:induction false} LevelAttained(cfg: EngineConfig, created: nat, times: seq<nat>, now: nat) returns (k: nat)
    requires cfg.Windowed() && Ordered(NewBucket(cfg, created), times + [now])
    ensures k <= |times|
    ensures Level(cfg, created, times, now) + GrantsSince(cfg, created, times, k) as real
            == Allowance(cfg, times, now, k)
    decreases |times|
  {
    OrderedPrefix(NewBucket(cfg, created), times, now);
    assert times[..|times|] == times;
    k := |times|;
    if times == [] {
      LevelFirst(cfg, created, now);
    } else {
      var n := |times| - 1;
      var before, last := times[..n], times[n];
      assert times == before + [last];
      LevelNext(cfg, created, before, last, now);
      if Level(cfg, created, times, now) != cfg.burstSize as real {
        k := LevelAttained(cfg, created, before, last);
        AllowanceNext(cfg, before, last, now, k);
        GrantsSinceSnoc(cfg, created, before, last, k);
      }
    }
  }

  // ---------- the decision ----------

  /** One grant more would put the calls from the `k`-th on, the one at `now` included, over the rate. */
  ghost predicate Overdraws(cfg: EngineConfig, created: nat, times: seq<nat>, now: nat, k: nat)
    requires cfg.Windowed() && k <= |times|
  {
    GrantsSince(cfg, created, times, k) as real + 1.0
    > cfg.burstSize as real + Since((times + [now])[k], now) as real * cfg.Rate()
  }

  lemma ShortIffOverdraws(cfg: EngineConfig, created: nat, times: seq<nat>, now: nat)
    requires cfg.Windowed() && Ordered(NewBucket(cfg, created), times + [now])
    ensures Level(cfg, created, times, now) < 1.0 <==>
            exists k :: 0 <= k <= |times| && Overdraws(cfg, created, times, now, k)
  {
    forall k | 0 <= k <= |times|
      ensures Overdraws(cfg, created, times, now, k) <==>
              GrantsSince(cfg, created, times, k) as real + 1.0 > Allowance(cfg, times, now, k)
    {
      FlowIsProduct(cfg, Since((times + [now])[k], now));
    }
    if k :| 0 <= k <= |times| && Overdraws(cfg, created, times, now, k) {
      LevelAtMost(cfg, created, times, now, k);
    }
    var k := LevelAttained(cfg, created, times, now);
    assert Level(cfg, created, times, now) < 1.0 ==> Overdraws(cfg, created, times, now, k);
  }

  /** The calls from `first` on have spent a window's quota. */
  ghost predicate WindowSpent(cfg: EngineConfig, created: nat, times: seq<nat>, first: nat)
    requires first <= |times|
  {
    GrantsSince(cfg, created, times, first) >= cfg.maxRequests
  }

  lemma QuotaIff(cfg: EngineConfig, created: nat, times: seq<nat>, now: nat) returns (first: nat)
    requires Ordered(NewBucket(cfg, created), times + [now])
    ensures first <= |times| && CountsWindow(cfg, created, times + [now], first)
    ensures Refilled(cfg, Run(cfg, NewBucket(cfg, created), times).0, now).requestsInWindow >= cfg.maxRequests <==>
            WindowSpent(cfg, created, times, first)
  {
    first := WindowCounts(cfg, created, times + [now]);
    GrantsSinceSnoc(cfg, created, times, now, first);
    RunLast(cfg, NewBucket(cfg, created), times + [now]);
    assert (times + [now])[..|times|] == times;
  }

  /** In a run of a bucket a call is denied exactly when its window has spent its quota already, or when one
      grant more would put some stretch of calls that ends with it over the rate. */
  lemma DeniedIff(cfg: EngineConfig, created: nat, times: seq<nat>, now: nat) returns (first: nat)
    requires cfg.Windowed() && Ordered(NewBucket(cfg, created), times + [now])
    ensures first <= |times| && CountsWindow(cfg, created, times + [now], first)
    ensures !LastGranted(cfg, created, times + [now]) <==>
            || WindowSpent(cfg, created, times, first)
            || exists k :: 0 <= k <= |times| && Overdraws(cfg, created, times, now, k)
  {
    first := QuotaIff(cfg, created, times, now);
    ShortIffOverdraws(cfg, created, times, now);
    GrantsSinceSnoc(cfg, created, times, now, |times|);
  }

  /** Without a window length the bucket is always full: only the quota and an empty burst deny. */
  lemma DeniedIffUnwindowed(cfg: EngineConfig, created: nat, times: seq<nat>, now: nat) returns (first: nat)
    requires !cfg.Windowed() && Ordered(NewBucket(cfg, created), times + [now])
    ensures first <= |times| && CountsWindow(cfg, created, times + [now], first)
    ensures !LastGranted(cfg, created, times + [now]) <==>
            WindowSpent(cfg, created, times, first) || cfg.burstSize == 0
  {
    first := QuotaIff(cfg, created, times, now);
    GrantsSinceSnoc(cfg, created, times, now, |times|);
  }

  // ---------- nobody who waits is denied ----------

  /** The first call to a bucket is granted, and so is any call more than a window length after the one before. */
  lemma IdleIsGranted(cfg: EngineConfig, created: nat, times: seq<nat>, now: nat)
    requires cfg.maxRequests >= 1 && cfg.burstSize >= 1 && Ordered(NewBucket(cfg, created), times + [now])
    requires times != [] ==> now > times[|times| - 1] + cfg.window
    ensures LastGranted(cfg, created, times + [now])
  {
    OrderedPrefix(NewBucket(cfg, created), times, now);
    GrantsSinceSnoc(cfg, created, times, now, |times|);
    if times == [] {
      NewIsGranted(cfg, created, now);
    } else {
      RunKeepsOk(cfg, NewBucket(cfg, created), times);
      RunLast(cfg, NewBucket(cfg, created), times);
      WaitedIsGranted(cfg, Run(cfg, NewBucket(cfg, created), times).0, now);
    }
  }

  // ---------- by key ----------

  /** A stored bucket was last used by a call for its key. */
  lemma {:induction false} BucketLastUsed<K>(
      cfg: EngineConfig, states: seq<Keyed<K, BucketState>>, calls: seq<Call<K>>, k: K, n: nat)
    requires KeyedRun(Tokens(cfg), states, calls) && states[0] == Keyed(map[], []) && n <= |calls|
    ensures k in states[n].buckets ==> IsTimeFor(calls, k, n, states[n].buckets[k].lastUpdate)
    decreases n
  {
    if n > 0 {
      BucketLastUsed(cfg, states, calls, k, n - 1);
      assert states[n] == Called(Tokens(cfg), states[n - 1], calls[n - 1]);
      if k in states[n].buckets && calls[n - 1].key != k {
        assert k in states[n - 1].buckets && states[n].buckets[k] == states[n - 1].buckets[k];
      }
    }
  }

  /** In any run of the engine, a call for a key whose earlier calls are all more than a window length past is
      granted, evictions or not. */
  lemma KeyedIdleIsGranted<K>(cfg: EngineConfig, states: seq<Keyed<K, BucketState>>, calls: seq<Call<K>>, n: nat)
    requires KeyedRun(Tokens(cfg), states, calls) && Timely(calls) && states[0] == Keyed(map[], [])
    requires cfg.maxRequests >= 1 && cfg.burstSize >= 1 && n < |calls|
    requires forall i :: 0 <= i < n && calls[i].key == calls[n].key ==> calls[n].now > calls[i].now + cfg.window
    ensures KeyGranted(Tokens(cfg), states[n], calls[n])
  {
    var k, now := calls[n].key, calls[n].now;
    BucketLastUsed(cfg, states, calls, k, n);
    RunInRange(cfg, states, calls, n);
    if k in states[n].buckets {
      WaitedIsGranted(cfg, states[n].buckets[k], now);
    } else {
      NewIsGranted(cfg, calls[n].created, now);
    }
  }

  /** Over a stretch that begins without a bucket for the key and does not evict it, the bucket that meets
      a call is the one the key's first call made. */
  lemma KeyedOrigin<K>(cfg: EngineConfig, states: seq<Keyed<K, BucketState>>, calls: seq<Call<K>>, n: nat)
    returns (i: nat)
    requires KeyedRun(Tokens(cfg), states, calls) && n < |calls| && calls[n].key !in states[0].buckets
    requires forall i :: 0 <= i < n ==> Evicted(states[i], calls[i].key) != Some(calls[n].key)
    ensures i <= n && IsFirstCall(calls, calls[n].key, i)
    ensures BucketFor(Tokens(cfg), states[n], calls[n])
         == Run(cfg, NewBucket(cfg, calls[i].created), TimesFor(calls[..n], calls[n].key)).0
  {
    var k := calls[n].key;
    var b := KeyedIsAlone(Tokens(cfg), states, calls, k, n);
    if Uncalled(states, calls, k, n) {
      UncalledCounts(Tokens(cfg), states, calls, k, n);
      i := n;
    } else {
      assert IsOrigin(Tokens(cfg), states[0], calls, k, n, b);
      var first :| 0 <= first < n && IsFirstCall(calls, k, first) && b == NewBucket(cfg, calls[first].created);
      i := first;
    }
  }

  lemma KeyedOrdered<K>(calls: seq<Call<K>>, k: K, n: nat, i: nat, b: BucketState)
    requires Timely(calls) && n < |calls| && calls[n].key == k && b.windowStart == b.lastUpdate
    requires i <= n && IsFirstCall(calls, k, i) && b.lastUpdate == calls[i].created
    ensures Ordered(b, TimesFor(calls[..n], k) + [calls[n].now])
  {
    var some := calls[..n + 1];
    TimesForSnoc(calls, k, n);
    assert Timely(some) && IsFirstCall(some, k, i);
    OrderedFrom(b, some, k, i);
  }

  /** Over such a stretch a call is decided as the last one of a run of the key's own bucket. */
  lemma KeyedDecidesAlone<K>(cfg: EngineConfig, states: seq<Keyed<K, BucketState>>, calls: seq<Call<K>>, n: nat)
    returns (created: nat)
    requires KeyedRun(Tokens(cfg), states, calls) && Timely(calls) && n < |calls|
    requires calls[n].key !in states[0].buckets
    requires forall i :: 0 <= i < n ==> Evicted(states[i], calls[i].key) != Some(calls[n].key)
    ensures var times := TimesFor(calls[..n], calls[n].key) + [calls[n].now];
            && Ordered(NewBucket(cfg, created), times)
            && (KeyGranted(Tokens(cfg), states[n], calls[n]) <==> LastGranted(cfg, created, times))
  {
    var i := KeyedOrigin(cfg, states, calls, n);
    created := calls[i].created;
    KeyedOrdered(calls, calls[n].key, n, i, NewBucket(cfg, created));
    var before := TimesFor(calls[..n], calls[n].key);
    GrantsSinceSnoc(cfg, created, before, calls[n].now, |before|);
  }
}
