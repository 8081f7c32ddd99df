/** Token buckets over exact reals and a nanosecond clock that never runs backwards. */
module RateLimit {
  import opened Wrappers
  import opened KeyedBuckets

  datatype EngineConfig = EngineConfig(window: nat, maxRequests: nat, burstSize: nat) {
    predicate Windowed() { window > 0 }

    /** Tokens per nanosecond. */
    function Rate(): real
      requires Windowed()
    {
      maxRequests as real / window as real
    }
  }

  datatype BucketState = BucketState(tokens: real, lastUpdate: nat, requestsInWindow: nat, windowStart: nat)

  function NewBucket(cfg: EngineConfig, now: nat): BucketState {
    BucketState(cfg.burstSize as real, now, 0, now)
  }

  /** Tokens that flow in during `elapsed` nanoseconds: one `Rate()` for each. */
  function Flow(cfg: EngineConfig, elapsed: nat): real
    requires cfg.Windowed()
  {
    if elapsed == 0 then 0.0 else Flow(cfg, elapsed - 1) + cfg.Rate()
  }

  lemma {:induction false} FlowIsProduct(cfg: EngineConfig, elapsed: nat)
    requires cfg.Windowed()
    ensures Flow(cfg, elapsed) == elapsed as real * cfg.Rate()
    ensures Flow(cfg, elapsed) >= 0.0
  {
    if elapsed > 0 {
      FlowIsProduct(cfg, elapsed - 1);
      Unroll(elapsed as real, cfg.Rate());
    }
  }

  lemma Unroll(n: real, r: real)
    ensures n * r == (n - 1.0) * r + r
  {
  }

  lemma {:induction false} FlowAdds(cfg: EngineConfig, m: nat, n: nat)
    requires cfg.Windowed()
    ensures Flow(cfg, m + n) == Flow(cfg, m) + Flow(cfg, n)
    decreases n
  {
    if n > 0 { FlowAdds(cfg, m, n - 1); }
  }

  function MinReal(a: real, b: real): real { if a < b then a else b }

  /** Tokens after `elapsed` nanoseconds.  Without a window the rate is infinite or not a number,
      and the minimum with the burst size turns either into a full bucket. */
  function Refill(cfg: EngineConfig, tokens: real, elapsed: nat): real {
    if cfg.Windowed() then MinReal(tokens + Flow(cfg, elapsed), cfg.burstSize as real) else cfg.burstSize as real
  }

  /** The same by one multiplication, as the source computes it. */
  function RefillAtRate(cfg: EngineConfig, tokens: real, elapsed: nat): real {
    if !cfg.Windowed() then cfg.burstSize as real
    else MinReal(tokens + elapsed as real * cfg.Rate(), cfg.burstSize as real)
  }

  lemma RefillIsProduct(cfg: EngineConfig, tokens: real, elapsed: nat)
    ensures RefillAtRate(cfg, tokens, elapsed) == Refill(cfg, tokens, elapsed)
  {
    if cfg.Windowed() { FlowIsProduct(cfg, elapsed); }
  }

  /** Time since an instant; zero for one that has not come yet. */
  function Since(earlier: nat, now: nat): nat { if now < earlier then 0 else now - earlier }

  /** The bucket after the window check and the refill, before the decision. */
  function Refilled(cfg: EngineConfig, b: BucketState, now: nat): BucketState {
    var renew := Since(b.windowStart, now) > cfg.window;
    BucketState(Refill(cfg, b.tokens, Since(b.lastUpdate, now)), now,
                if renew then 0 else b.requestsInWindow,
                if renew then now else b.windowStart)
  }

  predicate Grants(cfg: EngineConfig, b: BucketState, now: nat) {
    var r := Refilled(cfg, b, now);
    r.tokens >= 1.0 && r.requestsInWindow < cfg.maxRequests
  }

  function Consumed(cfg: EngineConfig, b: BucketState, now: nat): BucketState {
    var r := Refilled(cfg, b, now);
    if Grants(cfg, b, now) then r.(tokens := r.tokens - 1.0, requestsInWindow := r.requestsInWindow + 1) else r
  }

  class Bucket {
    var tokens: real
    var lastUpdate: nat
    var requestsInWindow: nat
    var windowStart: nat

    function View(): BucketState
      reads this
    {
      BucketState(tokens, lastUpdate, requestsInWindow, windowStart)
    }

    constructor (cfg: EngineConfig, now: nat)
      ensures View() == NewBucket(cfg, now)
    {
      tokens, lastUpdate, requestsInWindow, windowStart := cfg.burstSize as real, now, 0, now;
    }

    method TryConsume(cfg: EngineConfig, now: nat) returns (granted: bool)
      modifies this
      ensures View() == Consumed(cfg, old(View()), now)
      ensures granted == Grants(cfg, old(View()), now)
      ensures cfg.maxRequests >= 1 && cfg.burstSize >= 1 && BucketOk(cfg, old(View()))
              && now > old(lastUpdate) + cfg.window ==>
                granted
    {
      if cfg.maxRequests >= 1 && cfg.burstSize >= 1 && BucketOk(cfg, View()) && now > lastUpdate + cfg.window {
        WaitedIsGranted(cfg, View(), now);
      }
      if Since(windowStart, now) > cfg.window {
        windowStart := now;
        requestsInWindow := 0;
      }
      RefillIsProduct(cfg, tokens, Since(lastUpdate, now));
      tokens := RefillAtRate(cfg, tokens, Since(lastUpdate, now));
      lastUpdate := now;
      if tokens >= 1.0 && requestsInWindow < cfg.maxRequests {
        tokens := tokens - 1.0;
        requestsInWindow := requestsInWindow + 1;
        granted := true;
      } else {
        granted := false;
      }
    }
  }

  // ---------- nobody who waits is denied ----------

  lemma WindowOfFlow(cfg: EngineConfig, elapsed: nat)
    requires cfg.Windowed() && elapsed >= cfg.window && cfg.maxRequests >= 1
    ensures Flow(cfg, elapsed) >= 1.0
  {
    var more := elapsed - cfg.window;
    FlowIsProduct(cfg, cfg.window);
    FlowIsProduct(cfg, more);
    FlowAdds(cfg, cfg.window, more);
    WindowTimesRate(cfg);
  }

  lemma WindowTimesRate(cfg: EngineConfig)
    requires cfg.Windowed()
    ensures cfg.window as real * cfg.Rate() == cfg.maxRequests as real
  {
  }

  lemma WaitedIsGranted(cfg: EngineConfig, b: BucketState, now: nat)
    requires cfg.maxRequests >= 1 && cfg.burstSize >= 1 && BucketOk(cfg, b) && now > b.lastUpdate + cfg.window
    ensures Grants(cfg, b, now)
  {
    if cfg.Windowed() { WindowOfFlow(cfg, now - b.lastUpdate); }
  }

  lemma NewIsGranted(cfg: EngineConfig, created: nat, now: nat)
    requires cfg.maxRequests >= 1 && cfg.burstSize >= 1 && created <= now
    ensures Grants(cfg, NewBucket(cfg, created), now)
  {
    if cfg.Windowed() { FlowIsProduct(cfg, now - created); }
  }

  // ---------- runs of one bucket ----------

  ghost predicate BucketOk(cfg: EngineConfig, b: BucketState) {
    && 0.0 <= b.tokens <= cfg.burstSize as real
    && b.requestsInWindow <= cfg.maxRequests
    && b.windowStart <= b.lastUpdate
  }

  /** Call times never decrease and start no earlier than the bucket's last update. */
  predicate Ordered(b: BucketState, times: seq<nat>) {
    && (times != [] ==> b.lastUpdate <= times[0] && b.windowStart <= times[0])
    && forall i, j :: 0 <= i < j < |times| ==> times[i] <= times[j]
  }

  /** A token bucket as a limiter. */
  function Tokens(cfg: EngineConfig): Limiter<BucketState> {
    Limiter((now: nat) => NewBucket(cfg, now),
            (b: BucketState, now: nat) => Consumed(cfg, b, now),
            (b: BucketState, now: nat) => Grants(cfg, b, now))
  }

  /** Calls at `times`: the bucket they leave, and how many of them were granted. */
  function Run(cfg: EngineConfig, b: BucketState, times: seq<nat>): (BucketState, nat) {
    Serve(Tokens(cfg), b, times)
  }

  lemma RunLast(cfg: EngineConfig, b: BucketState, times: seq<nat>)
    requires times != []
    ensures var n := |times| - 1;
            var (before, count) := Run(cfg, b, times[..n]);
            var granted := if Grants(cfg, before, times[n]) then 1 else 0;
            && Run(cfg, b, times) == (Consumed(cfg, before, times[n]), count + granted)
            && Run(cfg, b, times).0.lastUpdate == times[n]
  {
  }

  lemma StepKeepsOk(cfg: EngineConfig, b: BucketState, now: nat)
    requires BucketOk(cfg, b) && b.lastUpdate <= now
    ensures BucketOk(cfg, Consumed(cfg, b, now))
  {
    if cfg.Windowed() { FlowIsProduct(cfg, now - b.lastUpdate); }
  }

  /** Tokens stay between zero and the burst size over every run. */
  lemma {:induction false} RunKeepsOk(cfg: EngineConfig, b: BucketState, times: seq<nat>)
    requires BucketOk(cfg, b) && Ordered(b, times)
    ensures BucketOk(cfg, Run(cfg, b, times).0)
    decreases |times|
  {
    if times != [] {
      var n := |times| - 1;
      RunKeepsOk(cfg, b, times[..n]);
      RunLast(cfg, b, times);
      if n > 0 { RunLast(cfg, b, times[..n]); }
      StepKeepsOk(cfg, Run(cfg, b, times[..n]).0, times[n]);
    }
  }

  lemma OneCall(cfg: EngineConfig, b: BucketState, now: nat)
    requires cfg.Windowed() && BucketOk(cfg, b) && b.lastUpdate <= now
    ensures var granted := if Grants(cfg, b, now) then 1.0 else 0.0;
            && Consumed(cfg, b, now).tokens + granted <= cfg.burstSize as real
            && Consumed(cfg, b, now).tokens + granted <= b.tokens + Flow(cfg, now - b.lastUpdate)
  {
  }

  /** Grants plus remaining tokens never exceed the burst plus what flowed in since the first call. */
  lemma {:induction false} Inflow(cfg: EngineConfig, b: BucketState, times: seq<nat>)
    requires cfg.Windowed() && BucketOk(cfg, b) && Ordered(b, times) && times != []
    ensures var (end, count) := Run(cfg, b, times);
            count as real + end.tokens <=
              cfg.burstSize as real + Flow(cfg, times[|times| - 1] - times[0])
    decreases |times|
  {
    var n := |times| - 1;
    var before := Run(cfg, b, times[..n]);
    RunKeepsOk(cfg, b, times[..n]);
    RunLast(cfg, b, times);
    if n > 0 { RunLast(cfg, b, times[..n]); }
    OneCall(cfg, before.0, times[n]);
    if n > 0 {
      Inflow(cfg, b, times[..n]);
      FlowAdds(cfg, times[n - 1] - times[0], times[n] - times[n - 1]);
    }
  }

  lemma GrantsWithinFlow(cfg: EngineConfig, b: BucketState, times: seq<nat>)
    requires cfg.Windowed() && BucketOk(cfg, b) && Ordered(b, times) && times != []
    ensures Run(cfg, b, times).1 as real <=
            cfg.burstSize as real + Flow(cfg, times[|times| - 1] - times[0])
  {
    Inflow(cfg, b, times);
    RunKeepsOk(cfg, b, times);
  }

  /** `count` grants over `length` nanoseconds: at most the burst plus the rate times the length. */
  ghost predicate WithinRate(cfg: EngineConfig, count: nat, length: nat)
    requires cfg.Windowed()
  {
    count as real <= cfg.burstSize as real + length as real * cfg.Rate()
  }

  lemma FlowForm(cfg: EngineConfig, count: nat, length: nat)
    requires cfg.Windowed() && count as real <= cfg.burstSize as real + Flow(cfg, length)
    ensures WithinRate(cfg, count, length)
  {
    FlowIsProduct(cfg, length);
  }

  /** Any stretch of calls stays within the rate. */
  lemma GrantsWithinRate(cfg: EngineConfig, b: BucketState, times: seq<nat>)
    requires cfg.Windowed() && BucketOk(cfg, b) && Ordered(b, times) && times != []
    ensures WithinRate(cfg, Run(cfg, b, times).1, times[|times| - 1] - times[0])
  {
    GrantsWithinFlow(cfg, b, times);
    FlowForm(cfg, Run(cfg, b, times).1, times[|times| - 1] - times[0]);
  }

  /** Within one window length at most one renewal happens, so at most two quotas are spent. */
  lemma {:induction false} WindowQuota(cfg: EngineConfig, b: BucketState, times: seq<nat>)
    requires BucketOk(cfg, b) && Ordered(b, times) && times != []
    requires times[|times| - 1] - times[0] <= cfg.window
    ensures var (end, count) := Run(cfg, b, times);
            && end.requestsInWindow <= cfg.maxRequests
            && if end.windowStart < times[0] then count <= end.requestsInWindow
               else count <= cfg.maxRequests + end.requestsInWindow
    decreases |times|
  {
    var n := |times| - 1;
    RunKeepsOk(cfg, b, times);
    RunKeepsOk(cfg, b, times[..n]);
    RunLast(cfg, b, times);
    if n > 0 {
      RunLast(cfg, b, times[..n]);
      WindowQuota(cfg, b, times[..n]);
    }
  }

  lemma GrantsWithinTwoQuotas(cfg: EngineConfig, b: BucketState, times: seq<nat>)
    requires BucketOk(cfg, b) && Ordered(b, times) && times != []
    requires times[|times| - 1] - times[0] <= cfg.window
    ensures Run(cfg, b, times).1 <= 2 * cfg.maxRequests
  {
    WindowQuota(cfg, b, times);
  }

  // ---------- the keyed engine ----------

  lemma IdleKeyIsGranted<K>(cfg: EngineConfig, e: Keyed<K, BucketState>, c: Call<K>)
    ensures cfg.maxRequests >= 1 && cfg.burstSize >= 1 && c.created <= c.now && c.key !in e.buckets ==>
              KeyGranted(Tokens(cfg), e, c)
    ensures cfg.maxRequests >= 1 && cfg.burstSize >= 1 && c.key in e.buckets && BucketOk(cfg, e.buckets[c.key])
            && c.now > e.buckets[c.key].lastUpdate + cfg.window ==>
              KeyGranted(Tokens(cfg), e, c)
  {
    if cfg.maxRequests >= 1 && cfg.burstSize >= 1 {
      if c.key !in e.buckets {
        if c.created <= c.now { NewIsGranted(cfg, c.created, c.now); }
      } else if BucketOk(cfg, e.buckets[c.key]) && c.now > e.buckets[c.key].lastUpdate + cfg.window {
        WaitedIsGranted(cfg, e.buckets[c.key], c.now);
      }
    }
  }

  class Engine<K(==)> {
    const cfg: EngineConfig
    var keyed: Keyed<K, BucketState>

    ghost predicate Valid()
      reads this
    {
      Tidy(keyed)
    }

    constructor (cfg: EngineConfig)
      ensures Valid() && this.cfg == cfg && keyed == Keyed(map[], [])
    {
      this.cfg := cfg;
      keyed := Keyed(map[], []);
    }

    method TryConsumeKey(key: K, created: nat, now: nat) returns (granted: bool)
      requires Valid()
      modifies this
      ensures Valid()
      ensures granted == KeyGranted(Tokens(cfg), old(keyed), Call(key, created, now))
      ensures keyed == Called(Tokens(cfg), old(keyed), Call(key, created, now))
      ensures cfg.maxRequests >= 1 && cfg.burstSize >= 1 && created <= now && key !in old(keyed.buckets) ==> granted
      ensures cfg.maxRequests >= 1 && cfg.burstSize >= 1 && key in old(keyed.buckets)
              && BucketOk(cfg, old(keyed.buckets)[key]) && now > old(keyed.buckets)[key].lastUpdate + cfg.window ==>
                granted
    {
      IdleKeyIsGranted(cfg, keyed, Call(key, created, now));
      CalledKeepsTidy(Tokens(cfg), keyed, Call(key, created, now));
      var buckets, recency := keyed.buckets, keyed.recency;
      if key in buckets {
        var state := buckets[key];
        granted := Grants(cfg, state, now);
        buckets := buckets[key := Consumed(cfg, state, now)];
        recency := Without(recency, key) + [key];
      } else {
        var state := NewBucket(cfg, created);
        granted := Grants(cfg, state, now);
        if |recency| >= MAX_RATE_LIMIT_KEYS && recency != [] {
          buckets := buckets - {recency[0]};
          recency := recency[1..];
        }
        buckets := buckets[key := Consumed(cfg, state, now)];
        recency := recency + [key];
      }
      keyed := Keyed(buckets, recency);
    }
  }

  // ---------- keyed runs ----------

  /** The clock never runs backwards: not from call to call, and not within one. */
  ghost predicate Timely<K>(calls: seq<Call<K>>) {
    && (forall i :: 0 <= i < |calls| ==> calls[i].created <= calls[i].now)
    && (forall i, j :: 0 <= i < j < |calls| ==> calls[i].now <= calls[j].created)
  }

  /** Every bucket is in range and was used no later than `clock`. */
  ghost predicate AllInRange<K>(cfg: EngineConfig, e: Keyed<K, BucketState>, clock: nat) {
    forall k | k in e.buckets :: BucketOk(cfg, e.buckets[k]) && e.buckets[k].lastUpdate <= clock
  }

  lemma CalledInRange<K>(cfg: EngineConfig, e: Keyed<K, BucketState>, c: Call<K>, clock: nat)
    requires AllInRange(cfg, e, clock) && clock <= c.created <= c.now
    ensures AllInRange(cfg, Called(Tokens(cfg), e, c), c.now)
  {
    var b := BucketFor(Tokens(cfg), e, c);
    assert BucketOk(cfg, b) && b.lastUpdate <= c.now;
    StepKeepsOk(cfg, b, c.now);
  }

  /** Up to when the first `n` calls have gone. */
  function ClockAt<K>(calls: seq<Call<K>>, n: nat): nat
    requires n <= |calls|
  {
    if n == 0 then 0 else calls[n - 1].now
  }

  lemma {:induction false} RunInRange<K>(
      cfg: EngineConfig, states: seq<Keyed<K, BucketState>>, calls: seq<Call<K>>, n: nat)
    requires KeyedRun(Tokens(cfg), states, calls) && Timely(calls) && states[0] == Keyed(map[], []) && n <= |calls|
    ensures AllInRange(cfg, states[n], ClockAt(calls, n))
    decreases n
  {
    if n > 0 {
      RunInRange(cfg, states, calls, n - 1);
      CalledInRange(cfg, states[n - 1], calls[n - 1], ClockAt(calls, n - 1));
    }
  }

  /** Length of a stretch of call times. */
  function Span(times: seq<nat>): nat {
    if times == [] then 0 else Since(times[0], times[|times| - 1])
  }

  ghost predicate Rising(times: seq<nat>) {
    forall i, j :: 0 <= i < j < |times| ==> times[i] <= times[j]
  }

  /** The bounds one bucket keeps over calls at `times`. */
  ghost predicate Bounded(cfg: EngineConfig, times: seq<nat>, count: nat) {
    && Rising(times)
    && (times == [] ==> count == 0)
    && (cfg.Windowed() ==> WithinRate(cfg, count, Span(times)))
    && (Span(times) <= cfg.window ==> count <= 2 * cfg.maxRequests)
  }

  lemma NoCalls(cfg: EngineConfig)
    ensures Bounded(cfg, [], 0)
  {
  }

  lemma BoundsOf(cfg: EngineConfig, b: BucketState, times: seq<nat>)
    requires BucketOk(cfg, b) && Ordered(b, times)
    ensures Bounded(cfg, times, Run(cfg, b, times).1)
  {
    if times == [] {
      NoCalls(cfg);
    } else {
      if cfg.Windowed() { GrantsWithinRate(cfg, b, times); }
      if Span(times) <= cfg.window { GrantsWithinTwoQuotas(cfg, b, times); }
    }
  }

  lemma RisingSnoc(times: seq<nat>, now: nat)
    requires Rising(times) && forall t :: t in times ==> t <= now
    ensures Rising(times + [now]) && Rising(times + [])
  {
    assert times + [] == times;
    assert forall i :: 0 <= i < |times| ==> times[i] in times;
  }

  /** The time of a call for `k` among the first `n`. */
  ghost predicate IsTimeFor<K>(calls: seq<Call<K>>, k: K, n: nat, t: nat) {
    exists i :: 0 <= i < n && i < |calls| && calls[i].key == k && calls[i].now == t
  }

  /** Call times of one key rise with the clock. */
  lemma {:induction false} TimesRise<K>(calls: seq<Call<K>>, k: K, n: nat)
    requires Timely(calls) && n <= |calls|
    ensures Rising(TimesFor(calls[..n], k))
    ensures forall t :: t in TimesFor(calls[..n], k) ==> IsTimeFor(calls, k, n, t)
    decreases n
  {
    if n > 0 {
      TimesRise(calls, k, n - 1);
      TimesForSnoc(calls, k, n - 1);
      var before := TimesFor(calls[..n - 1], k);
      forall t | t in before ensures t <= calls[n - 1].now && IsTimeFor(calls, k, n, t) {
        var i :| 0 <= i < n - 1 && calls[i].key == k && calls[i].now == t;
      }
      assert calls[n - 1].key == k ==> IsTimeFor(calls, k, n, calls[n - 1].now);
      RisingSnoc(before, calls[n - 1].now);
    }
  }

  /** No call for `k` is earlier than the first call of all, or than the making of its own bucket. */
  lemma NotBefore<K>(calls: seq<Call<K>>, k: K, i: nat, t: nat)
    requires Timely(calls) && IsTimeFor(calls, k, |calls|, t) && (i == 0 || IsFirstCall(calls, k, i))
    ensures i < |calls| && calls[i].created <= t
  {
    var j :| 0 <= j < |calls| && calls[j].key == k && calls[j].now == t;
    if i < j { assert calls[i].now <= calls[j].created; }
  }

  lemma OrderedFrom<K>(b: BucketState, calls: seq<Call<K>>, k: K, i: nat)
    requires Timely(calls) && (i == 0 || IsFirstCall(calls, k, i)) && b.windowStart <= b.lastUpdate
    requires i < |calls| ==> b.lastUpdate <= calls[i].created
    ensures Ordered(b, TimesFor(calls, k))
  {
    assert calls[..|calls|] == calls;
    TimesRise(calls, k, |calls|);
    var times := TimesFor(calls, k);
    if times != [] {
      assert times[0] in times;
      NotBefore(calls, k, i, times[0]);
    }
  }

  lemma OriginOrdered<K>(cfg: EngineConfig, e: Keyed<K, BucketState>, clock: nat,
                         calls: seq<Call<K>>, k: K, b: BucketState)
    requires AllInRange(cfg, e, clock) && Timely(calls) && (calls != [] ==> clock <= calls[0].created)
    requires IsOrigin(Tokens(cfg), e, calls, k, |calls|, b)
    ensures BucketOk(cfg, b) && Ordered(b, TimesFor(calls, k))
  {
    if k in e.buckets {
      OrderedFrom(b, calls, k, 0);
    } else {
      var i :| 0 <= i < |calls| && IsFirstCall(calls, k, i) && b == NewBucket(cfg, calls[i].created);
      OrderedFrom(b, calls, k, i);
    }
  }

  lemma StretchWithinBounds<K>(
      cfg: EngineConfig, states: seq<Keyed<K, BucketState>>, calls: seq<Call<K>>, k: K, clock: nat)
    requires KeyedRun(Tokens(cfg), states, calls) && Timely(calls)
    requires AllInRange(cfg, states[0], clock) && (calls != [] ==> clock <= calls[0].created)
    requires forall i :: 0 <= i < |calls| ==> Evicted(states[i], calls[i].key) != Some(k)
    ensures Bounded(cfg, TimesFor(calls, k), GrantsFor(Tokens(cfg), states, calls, k, |calls|))
  {
    var n := |calls|;
    assert calls[..n] == calls;
    var b := KeyedIsAlone(Tokens(cfg), states, calls, k, n);
    if Uncalled(states, calls, k, n) {
      UncalledCounts(Tokens(cfg), states, calls, k, n);
      NoCalls(cfg);
    } else {
      OriginOrdered(cfg, states[0], clock, calls, k, b);
      BoundsOf(cfg, b, TimesFor(calls, k));
    }
  }

  lemma StretchTimely<K>(calls: seq<Call<K>>, m: nat, n: nat)
    requires Timely(calls) && m <= n <= |calls|
    ensures Timely(calls[m..n])
    ensures m < n ==> ClockAt(calls, m) <= calls[m..n][0].created
  {
  }

  /** In any run of the engine, the calls for a key over any stretch that does not evict it, the call that
      makes its bucket included, keep the bounds of one bucket. */
  lemma KeyedWithinBounds<K>(
      cfg: EngineConfig, states: seq<Keyed<K, BucketState>>, calls: seq<Call<K>>, k: K, m: nat, n: nat)
    requires KeyedRun(Tokens(cfg), states, calls) && Timely(calls) && states[0] == Keyed(map[], [])
    requires m <= n <= |calls| && forall i :: m <= i < n ==> Evicted(states[i], calls[i].key) != Some(k)
    ensures KeyedRun(Tokens(cfg), states[m..n + 1], calls[m..n])
    ensures Bounded(cfg, TimesFor(calls[m..n], k), GrantsFor(Tokens(cfg), states[m..n + 1], calls[m..n], k, n - m))
  {
    var part, some := states[m..n + 1], calls[m..n];
    StretchIsRun(Tokens(cfg), states, calls, m, n);
    StretchTimely(calls, m, n);
    RunInRange(cfg, states, calls, m);
    forall i | 0 <= i < |some| ensures Evicted(part[i], some[i].key) != Some(k) {
      assert part[i] == states[m + i] && some[i] == calls[m + i];
    }
    StretchWithinBounds(cfg, part, some, k, ClockAt(calls, m));
  }
}
