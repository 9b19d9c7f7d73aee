/** The LLM cost backstop of internal/llmlimit/llmlimit.go: a lazily refilled token bucket, a
    concurrency semaphore and one pair of them per cluster. Tokens are exact: one token is TOKEN
    units, so `callsPerMinute` units flow in per nanosecond. */
module Limiter {
  import opened Common

  const TOKEN: nat := 60 * SECOND

  datatype Config = Config(rate: nat, burst: nat, slots: nat) {
    predicate Valid() { rate > 0 && burst > 0 && slots > 0 }
    function Max(): nat { burst * TOKEN }
  }

  /** New: None is the nil limiter that never throttles. */
  function NewConfig(callsPerMinute: int, burst: int, maxConcurrent: int): (c: Option<Config>)
    ensures c.None? <==> callsPerMinute <= 0 || maxConcurrent <= 0
    ensures c.Some? ==> c.value.Valid() && c.value.rate == callsPerMinute && c.value.slots == maxConcurrent
    ensures c.Some? ==> c.value.burst == (if burst > 0 then burst else callsPerMinute)
  {
    if callsPerMinute <= 0 || maxConcurrent <= 0 then None
    else Some(Config(callsPerMinute, if burst <= 0 then callsPerMinute else burst, maxConcurrent))
  }

  function Min(a: int, b: int): int { if a <= b then a else b }

  // ---- tokens ----

  datatype Tokens = Tokens(level: int, last: Time)

  /** The continuous bucket: what the level has become by time `t`, capped. */
  function Level(c: Config, k: Tokens, t: Time): int { Min(c.Max(), k.level + c.rate * (t - k.last)) }

  /** The mutex-protected part of Acquire. */
  function Draw(c: Config, k: Tokens, t: Time): (Tokens, bool) {
    var level := Level(c, k, t);
    if level < TOKEN then (Tokens(level, t), false) else (Tokens(level - TOKEN, t), true)
  }

  predicate Sound(c: Config, k: Tokens) { 0 <= k.level <= c.Max() }

  lemma RefillSplit(rate: nat, a: Time, b: Time, d: Time)
    ensures rate * (d - a) == rate * (b - a) + rate * (d - b)
    ensures a <= b ==> 0 <= rate * (b - a)
  {
    assert d - a == (b - a) + (d - b);
  }

  lemma LevelSound(c: Config, k: Tokens, t: Time)
    requires Sound(c, k) && k.last <= t
    ensures 0 <= Level(c, k, t) <= c.Max()
  {
    RefillSplit(c.rate, k.last, t, t);
  }

  /** The level always stays between zero and the burst. */
  lemma DrawSound(c: Config, k: Tokens, t: Time)
    requires Sound(c, k) && k.last <= t
    ensures Sound(c, Draw(c, k, t).0)
  {
    LevelSound(c, k, t);
  }

  /** The lazy bucket is the continuous one: a refused draw changes nothing about any later level, a
      granted one takes exactly one token out of it. */
  lemma {:induction false} DrawRefines(c: Config, k: Tokens, t: Time, later: Time)
    requires k.last <= t <= later
    ensures var (k', ok) := Draw(c, k, t);
            Level(c, k', later) == if ok then Min(c.Max(), Level(c, k, t) - TOKEN + c.rate * (later - t)) else Level(c, k, later)
  {
    RefillSplit(c.rate, k.last, t, later);
    RefillSplit(c.rate, t, later, later);
  }

  // ---- the rate bound ----

  predicate Ordered(times: seq<Time>, start: Time) {
    times == [] || (start <= times[0] && Ordered(times[1..], times[0]))
  }

  function Latest(times: seq<Time>, start: Time): Time {
    if times == [] then start else Latest(times[1..], times[0])
  }

  function Grants(c: Config, k: Tokens, times: seq<Time>): nat
    decreases |times|
  {
    if times == [] then 0
    else
      var (k', ok) := Draw(c, k, times[0]);
      (if ok then 1 else 0) + Grants(c, k', times[1..])
  }

  /** Draws from `start` on are paid for by the level at `start` and the refill since. */
  lemma {:induction false} DrawBound(c: Config, k: Tokens, times: seq<Time>, start: Time)
    requires Sound(c, k) && k.last <= start && Ordered(times, start)
    ensures TOKEN * Grants(c, k, times) <= Level(c, k, start) + c.rate * (Latest(times, start) - start)
    decreases |times|
  {
    if times == [] {
      LevelSound(c, k, start);
    } else {
      var t := times[0];
      var (k', ok) := Draw(c, k, t);
      DrawSound(c, k, t);
      DrawBound(c, k', times[1..], t);
      RefillSplit(c.rate, k.last, start, t);
      RefillSplit(c.rate, start, t, Latest(times[1..], t));
      DrawRefines(c, k, t, t);
    }
  }

  /** In every interval, at most burst tokens plus the refill of the interval are granted. */
  lemma {:induction false} RateBound(c: Config, k: Tokens, times: seq<Time>)
    requires Sound(c, k) && times != [] && Ordered(times, k.last)
    ensures TOKEN * Grants(c, k, times) <= c.burst * TOKEN + c.rate * (Latest(times, times[0]) - times[0])
  {
    DrawBound(c, k, times, times[0]);
  }

  // ---- one limiter, called in sequence ----

  datatype Bucket = Bucket(tokens: Tokens, inUse: nat)

  /** A limiter as New makes it: full, with every slot free. */
  function NewBucket(c: Config, now: Time): Bucket { Bucket(Tokens(c.Max(), now), 0) }

  function TryAcquire(c: Config, b: Bucket, now: Time): (Bucket, bool) {
    if b.inUse >= c.slots then (b, false)
    else
      var (k, ok) := Draw(c, b.tokens, now);
      (Bucket(k, if ok then b.inUse + 1 else b.inUse), ok)
  }

  function GiveUp(b: Bucket): Bucket { if b.inUse > 0 then b.(inUse := b.inUse - 1) else b }

  class Limiter {
    const config: Config
    var level: int
    var last: Time
    var inUse: nat

    function View(): Bucket
      reads this
    {
      Bucket(Tokens(level, last), inUse)
    }

    constructor (c: Config, now: Time)
      ensures config == c && View() == NewBucket(c, now)
    {
      config, level, last, inUse := c, c.burst * TOKEN, now, 0;
    }

    method Acquire(now: Time) returns (ok: bool)
      modifies this
      ensures (View(), ok) == TryAcquire(config, old(View()), now)
    {
      if inUse >= config.slots {
        return false;
      }
      inUse := inUse + 1;
      level := level + config.rate * (now - last);
      if level > config.burst * TOKEN {
        level := config.burst * TOKEN;
      }
      last := now;
      if level < TOKEN {
        inUse := inUse - 1;
        return false;
      }
      level := level - TOKEN;
      return true;
    }

    method Release()
      modifies this
      ensures View() == GiveUp(old(View()))
    {
      if inUse > 0 {
        inUse := inUse - 1;
      }
    }
  }

  datatype Call = Acquire(at: Time) | Release(at: Time)

  function Step(c: Config, b: Bucket, call: Call): (Bucket, bool) {
    match call
    case Acquire(at) => TryAcquire(c, b, at)
    case Release(_) => (GiveUp(b), true)
  }

  predicate InTime(calls: seq<Call>, start: Time) {
    calls == [] || (start <= calls[0].at && InTime(calls[1..], calls[0].at))
  }

  function Outcomes(c: Config, b: Bucket, calls: seq<Call>): (r: seq<bool>)
    ensures |r| == |calls|
    decreases |calls|
  {
    if calls == [] then []
    else
      var (b', ok) := Step(c, b, calls[0]);
      [ok] + Outcomes(c, b', calls[1..])
  }

  /** Two limiters no caller can tell apart from `now` on. */
  ghost predicate Alike(c: Config, a: Bucket, b: Bucket, now: Time) {
    a.inUse == b.inUse && a.tokens.last <= now && b.tokens.last <= now &&
    forall t :: now <= t ==> Level(c, a.tokens, t) == Level(c, b.tokens, t)
  }

  lemma {:induction false} StepAlike(c: Config, a: Bucket, b: Bucket, call: Call, now: Time)
    requires Alike(c, a, b, now) && now <= call.at
    ensures Step(c, a, call).1 == Step(c, b, call).1
    ensures Alike(c, Step(c, a, call).0, Step(c, b, call).0, call.at)
  {
    if call.Acquire? && a.inUse < c.slots {
      var a', b' := Step(c, a, call).0, Step(c, b, call).0;
      forall t | call.at <= t ensures Level(c, a'.tokens, t) == Level(c, b'.tokens, t) {
        DrawRefines(c, a.tokens, call.at, t);
        DrawRefines(c, b.tokens, call.at, t);
      }
    }
  }

  lemma {:induction false} RunAlike(c: Config, a: Bucket, b: Bucket, calls: seq<Call>, now: Time)
    requires Alike(c, a, b, now) && InTime(calls, now)
    ensures Outcomes(c, a, calls) == Outcomes(c, b, calls)
    decreases |calls|
  {
    if calls != [] {
      StepAlike(c, a, b, calls[0], now);
      RunAlike(c, Step(c, a, calls[0]).0, Step(c, b, calls[0]).0, calls[1..], calls[0].at);
    }
  }

  lemma {:induction false} RefusalLeavesAlike(c: Config, b: Bucket, call: Call)
    requires call.Acquire? && b.tokens.last <= call.at && !Step(c, b, call).1
    ensures Alike(c, Step(c, b, call).0, b, call.at)
  {
    var b' := Step(c, b, call).0;
    if b.inUse < c.slots {
      forall t | call.at <= t ensures Level(c, b'.tokens, t) == Level(c, b.tokens, t) {
        DrawRefines(c, b.tokens, call.at, t);
      }
    }
  }

  function Without<T>(s: seq<T>, i: nat): seq<T>
    requires i < |s|
  {
    s[..i] + s[i + 1..]
  }

  lemma WithoutLater<T>(s: seq<T>, i: nat)
    requires 0 < i < |s|
    ensures Without(s, i) == [s[0]] + Without(s[1..], i - 1)
  {
  }

  /** A refused call leaves no trace: without it every other call of the run has the same outcome. */
  lemma {:induction false} RefusedCallInvisible(c: Config, b: Bucket, calls: seq<Call>, i: nat, start: Time)
    requires b.tokens.last <= start && InTime(calls, start) && i < |calls|
    requires calls[i].Acquire? && !Outcomes(c, b, calls)[i]
    ensures Outcomes(c, b, Without(calls, i)) == Without(Outcomes(c, b, calls), i)
    decreases |calls|
  {
    var (b', ok) := Step(c, b, calls[0]);
    var rest := calls[1..];
    if i == 0 {
      RefusalLeavesAlike(c, b, calls[0]);
      RunAlike(c, b', b, rest, calls[0].at);
      assert Without(calls, 0) == rest && Without(Outcomes(c, b, calls), 0) == Outcomes(c, b', rest);
    } else {
      RefusedCallInvisible(c, b', rest, i - 1, calls[0].at);
      WithoutLater(calls, i);
      WithoutLater(Outcomes(c, b, calls), i);
      var fewer := Without(rest, i - 1);
      assert ([calls[0]] + fewer)[1..] == fewer;
    }
  }

  // ---- exactly when a call is granted ----

  /** The limiter before call `n`. */
  function BucketAt(c: Config, b: Bucket, calls: seq<Call>, n: nat): Bucket
    requires n <= |calls|
  {
    if n == 0 then b else Step(c, BucketAt(c, b, calls, n - 1), calls[n - 1]).0
  }

  /** Call `n` asked for a grant and got it. */
  predicate GrantedAt(c: Config, b: Bucket, calls: seq<Call>, n: nat)
    requires n < |calls|
  {
    calls[n].Acquire? && Step(c, BucketAt(c, b, calls, n), calls[n]).1
  }

  /** How many of the calls from `i` up to `n` were granted. */
  function GrantsBetween(c: Config, b: Bucket, calls: seq<Call>, i: nat, n: nat): nat
    requires i <= n <= |calls|
    decreases n - i
  {
    if i == n then 0 else GrantsBetween(c, b, calls, i, n - 1) + (if GrantedAt(c, b, calls, n - 1) then 1 else 0)
  }

  ghost predicate Timely(calls: seq<Call>, start: Time) {
    (forall i | 0 <= i < |calls| :: start <= calls[i].at) &&
    (forall i, j | 0 <= i < j < |calls| :: calls[i].at <= calls[j].at)
  }

  lemma {:induction false} LastInPast(c: Config, b: Bucket, calls: seq<Call>, n: nat)
    requires Timely(calls, b.tokens.last) && n < |calls|
    ensures BucketAt(c, b, calls, n).tokens.last <= calls[n].at
  {
    if n > 0 {
      LastInPast(c, b, calls, n - 1);
      assert calls[n - 1].at <= calls[n].at;
    }
  }

  /** The level at a later time, whatever the call did: refilled, minus a token for a grant, capped. */
  lemma {:induction false} LevelStep(c: Config, b: Bucket, call: Call, later: Time)
    requires b.tokens.last <= call.at <= later
    ensures Level(c, Step(c, b, call).0.tokens, later) ==
            Min(c.Max(), Level(c, b.tokens, call.at) - (if call.Acquire? && Step(c, b, call).1 then TOKEN else 0) + c.rate * (later - call.at))
  {
    DrawRefines(c, b.tokens, call.at, later);
    RefillSplit(c.rate, b.tokens.last, call.at, later);
    RefillSplit(c.rate, call.at, later, later);
  }

  /** The level found by call `n`. */
  function LevelAt(c: Config, b: Bucket, calls: seq<Call>, n: nat): int
    requires n < |calls|
  {
    Level(c, BucketAt(c, b, calls, n).tokens, calls[n].at)
  }

  /** What would be left for call `n` of a bucket that was full at call `i`, were it never to overflow. */
  function Balance(c: Config, b: Bucket, calls: seq<Call>, i: nat, n: nat): int
    requires i <= n < |calls|
  {
    c.burst * TOKEN + c.rate * (calls[n].at - calls[i].at) - TOKEN * GrantsBetween(c, b, calls, i, n)
  }

  lemma {:induction false} BalanceStep(c: Config, b: Bucket, calls: seq<Call>, i: nat, n: nat)
    requires i < n < |calls|
    ensures Balance(c, b, calls, i, n) ==
            Balance(c, b, calls, i, n - 1) - (if GrantedAt(c, b, calls, n - 1) then TOKEN else 0) +
            c.rate * (calls[n].at - calls[n - 1].at)
  {
    RefillSplit(c.rate, calls[i].at, calls[n - 1].at, calls[n].at);
  }

  lemma {:induction false} LevelFollows(c: Config, b: Bucket, calls: seq<Call>, n: nat)
    requires Timely(calls, b.tokens.last) && 0 < n < |calls|
    ensures LevelAt(c, b, calls, n) ==
            Min(c.Max(), LevelAt(c, b, calls, n - 1) - (if GrantedAt(c, b, calls, n - 1) then TOKEN else 0) +
                         c.rate * (calls[n].at - calls[n - 1].at))
  {
    LastInPast(c, b, calls, n - 1);
    assert calls[n - 1].at <= calls[n].at;
    LevelStep(c, BucketAt(c, b, calls, n - 1), calls[n - 1], calls[n].at);
  }

  /** No earlier call leaves less than the level. */
  lemma {:induction false} LevelAtMost(c: Config, b: Bucket, calls: seq<Call>, i: nat, n: nat)
    requires Timely(calls, b.tokens.last) && i <= n < |calls|
    ensures LevelAt(c, b, calls, n) <= Balance(c, b, calls, i, n)
    decreases n
  {
    if i < n {
      LevelAtMost(c, b, calls, i, n - 1);
      LevelFollows(c, b, calls, n);
      BalanceStep(c, b, calls, i, n);
    }
  }

  /** And the last one that found the bucket full leaves exactly the level. */
  lemma {:induction false} LevelReached(c: Config, made: Time, calls: seq<Call>, n: nat) returns (i: nat)
    requires Timely(calls, made) && n < |calls|
    ensures i <= n && LevelAt(c, NewBucket(c, made), calls, n) == Balance(c, NewBucket(c, made), calls, i, n)
  {
    var b := NewBucket(c, made);
    if n == 0 {
      i := 0;
      RefillSplit(c.rate, made, calls[0].at, calls[0].at);
    } else {
      LevelFollows(c, b, calls, n);
      i := LevelReached(c, made, calls, n - 1);
      BalanceStep(c, b, calls, i, n);
      if LevelAt(c, b, calls, n) == c.Max() {
        i := n;
      }
    }
  }

  /** One more grant at `n` keeps the stretch from call `i` on within burst and refill. */
  predicate Affordable(c: Config, b: Bucket, calls: seq<Call>, i: nat, n: nat)
    requires i <= n < |calls|
  {
    TOKEN * (GrantsBetween(c, b, calls, i, n) + 1) <= c.burst * TOKEN + c.rate * (calls[n].at - calls[i].at)
  }

  /** The lazy bucket is the greedy regulator, said without levels: in every run from a new limiter, a
      call is granted exactly when a slot is free and granting it keeps every stretch of the run that ends
      with it within the burst plus the refill of the stretch. */
  lemma {:induction false} GrantedIffAffordable(c: Config, made: Time, calls: seq<Call>, n: nat)
    requires Timely(calls, made) && n < |calls| && calls[n].Acquire?
    ensures var b := NewBucket(c, made);
            GrantedAt(c, b, calls, n) <==>
            BucketAt(c, b, calls, n).inUse < c.slots && forall i | 0 <= i <= n :: Affordable(c, b, calls, i, n)
  {
    var b := NewBucket(c, made);
    var least := LevelReached(c, made, calls, n);
    forall i | 0 <= i <= n ensures LevelAt(c, b, calls, n) >= TOKEN ==> Affordable(c, b, calls, i, n) {
      LevelAtMost(c, b, calls, i, n);
      OneMore(GrantsBetween(c, b, calls, i, n));
    }
    OneMore(GrantsBetween(c, b, calls, least, n));
    assert Affordable(c, b, calls, least, n) ==> LevelAt(c, b, calls, n) >= TOKEN;
  }

  lemma OneMore(n: nat)
    ensures TOKEN * (n + 1) == TOKEN * n + TOKEN
  {
  }

  /** Slots in use are grants not yet released, as long as nobody releases without a grant. */
  lemma {:induction false} InUseCounts(c: Config, b: Bucket, calls: seq<Call>, n: nat)
    requires b.inUse == 0 && n <= |calls|
    requires forall k | 0 <= k < n && calls[k].Release? :: Releases(calls, k) < GrantsBetween(c, b, calls, 0, k)
    ensures BucketAt(c, b, calls, n).inUse == GrantsBetween(c, b, calls, 0, n) - Releases(calls, n)
  {
    if n > 0 {
      InUseCounts(c, b, calls, n - 1);
    }
  }

  function Releases(calls: seq<Call>, n: nat): nat
    requires n <= |calls|
  {
    if n == 0 then 0 else Releases(calls, n - 1) + (if calls[n - 1].Release? then 1 else 0)
  }

  /** A spike of calls at one instant on a new limiter is granted up to the burst and the slots, and
      refused from there on. */
  lemma {:induction false} SpikeGranted(c: Config, made: Time, calls: seq<Call>, at: Time, n: nat)
    requires made <= at && n <= |calls| && forall i | 0 <= i < |calls| :: calls[i] == Acquire(at)
    ensures GrantsBetween(c, NewBucket(c, made), calls, 0, n) == Min(n, Min(c.burst, c.slots))
  {
    if n > 0 {
      SpikeGranted(c, made, calls, at, n - 1);
      SpikeNext(c, made, calls, at, n - 1);
    }
  }

  lemma {:induction false} SpikeNext(c: Config, made: Time, calls: seq<Call>, at: Time, m: nat)
    requires made <= at && m < |calls| && forall i | 0 <= i < |calls| :: calls[i] == Acquire(at)
    ensures var b := NewBucket(c, made);
            GrantedAt(c, b, calls, m) <==> GrantsBetween(c, b, calls, 0, m) < Min(c.burst, c.slots)
  {
    var b := NewBucket(c, made);
    GrantedIffAffordable(c, made, calls, m);
    InUseCounts(c, b, calls, m);
    NoReleases(calls, m);
    SpikeAffordable(c, b, calls, at, m);
  }

  lemma {:induction false} SpikeAffordable(c: Config, b: Bucket, calls: seq<Call>, at: Time, m: nat)
    requires m < |calls| && forall i | 0 <= i < |calls| :: calls[i].at == at
    ensures (forall i | 0 <= i <= m :: Affordable(c, b, calls, i, m)) <==> GrantsBetween(c, b, calls, 0, m) < c.burst
  {
    forall i | 0 <= i <= m
      ensures Affordable(c, b, calls, i, m) <==> GrantsBetween(c, b, calls, i, m) < c.burst
      ensures GrantsBetween(c, b, calls, i, m) <= GrantsBetween(c, b, calls, 0, m)
    {
      AffordableAtOnce(c, b, calls, i, m);
      FewerLater(c, b, calls, i, m);
    }
  }

  lemma {:induction false} AffordableAtOnce(c: Config, b: Bucket, calls: seq<Call>, i: nat, m: nat)
    requires i <= m < |calls| && calls[i].at == calls[m].at
    ensures Affordable(c, b, calls, i, m) <==> GrantsBetween(c, b, calls, i, m) < c.burst
  {
    Cancel(GrantsBetween(c, b, calls, i, m) + 1, c.burst);
    assert c.rate * (calls[m].at - calls[i].at) == 0;
  }

  lemma NoReleases(calls: seq<Call>, n: nat)
    requires n <= |calls| && forall i | 0 <= i < n :: calls[i].Acquire?
    ensures Releases(calls, n) == 0
  {
  }

  lemma {:induction false} FewerLater(c: Config, b: Bucket, calls: seq<Call>, i: nat, n: nat)
    requires i <= n <= |calls|
    ensures GrantsBetween(c, b, calls, i, n) <= GrantsBetween(c, b, calls, 0, n)
    decreases n - i
  {
    if i < n {
      FewerLater(c, b, calls, i, n - 1);
    }
  }

  lemma Cancel(a: nat, b: nat)
    ensures TOKEN * a <= b * TOKEN <==> a <= b
  {
  }

  /** The same in terms of what the caller is told. */
  lemma {:induction false} OutcomeAt(c: Config, b: Bucket, calls: seq<Call>, n: nat)
    requires n < |calls|
    ensures Outcomes(c, b, calls)[n] == Step(c, BucketAt(c, b, calls, n), calls[n]).1
    decreases n
  {
    if n > 0 {
      var b', rest := Step(c, b, calls[0]).0, calls[1..];
      OutcomeAt(c, b', rest, n - 1);
      BucketShift(c, b, calls, n);
    }
  }

  lemma {:induction false} BucketShift(c: Config, b: Bucket, calls: seq<Call>, n: nat)
    requires 0 < n <= |calls|
    ensures BucketAt(c, b, calls, n) == BucketAt(c, Step(c, b, calls[0]).0, calls[1..], n - 1)
  {
    if n > 1 {
      BucketShift(c, b, calls, n - 1);
    }
  }

  // ---- the pool ----

  class Pool {
    const config: Config
    var buckets: map<string, Limiter>

    ghost predicate Valid()
      reads this, buckets.Values
    {
      (forall k | k in buckets :: buckets[k].config == config) &&
      (forall j, k | j in buckets && k in buckets && j != k :: buckets[j] != buckets[k])
    }

    ghost function View(): map<string, Bucket>
      reads this, buckets.Values
    {
      map k | k in buckets :: buckets[k].View()
    }

    constructor (c: Config)
      ensures Valid() && config == c && View() == map[]
    {
      config, buckets := c, map[];
    }

    /** Pool.bucket: the cluster's limiter, made on first use. */
    method Open(cluster: string, now: Time) returns (b: Limiter)
      requires Valid()
      modifies this
      ensures Valid() && cluster in buckets && b == buckets[cluster]
      ensures cluster in old(buckets) ==> buckets == old(buckets)
      ensures cluster !in old(buckets) ==> fresh(b) && buckets == old(buckets)[cluster := b]
      ensures View() == Opened(config, old(View()), cluster, now)
    {
      if cluster in buckets {
        b := buckets[cluster];
        assert View() == old(View());
        return;
      }
      b := new Limiter(config, now);
      buckets := buckets[cluster := b];
    }

    twostate lemma NoneChanged()
      requires old(Valid()) && buckets == old(buckets)
      requires forall k | k in buckets :: unchanged(buckets[k])
      ensures Valid() && View() == old(View())
    {
    }

    twostate lemma OnlyOneChanged(cluster: string)
      requires old(Valid()) && cluster in buckets && buckets == old(buckets)
      requires forall k | k in buckets && buckets[k] != buckets[cluster] :: unchanged(buckets[k])
      ensures Valid() && View() == old(View())[cluster := buckets[cluster].View()]
    {
    }

    method Acquire(cluster: string, found: Time, now: Time) returns (ok: bool)
      requires Valid()
      modifies this, buckets.Values
      ensures Valid() && fresh(buckets.Values - old(buckets.Values))
      ensures var m := Opened(config, old(View()), cluster, found);
              ok == TryAcquire(config, m[cluster], now).1 &&
              View() == m[cluster := TryAcquire(config, m[cluster], now).0]
    {
      var b := Open(cluster, found);
      label Opened:
      ok := b.Acquire(now);
      OnlyOneChanged@Opened(cluster);
    }

    method Release(cluster: string, now: Time)
      requires Valid()
      modifies this, buckets.Values
      ensures Valid() && fresh(buckets.Values - old(buckets.Values))
      ensures var m := Opened(config, old(View()), cluster, now);
              View() == m[cluster := GiveUp(m[cluster])]
    {
      var b := Open(cluster, now);
      label Opened:
      b.Release();
      OnlyOneChanged@Opened(cluster);
    }
  }

  function Opened(c: Config, m: map<string, Bucket>, cluster: string, now: Time): (r: map<string, Bucket>)
    ensures cluster in r
  {
    if cluster in m then m else m[cluster := NewBucket(c, now)]
  }

  /** A step of a pool run. Finding (or making) a cluster's limiter and calling it are separate
      steps, so other callers may come in between. */
  datatype PoolStep = Open(cluster: string, at: Time) | Use(cluster: string, call: Call)

  function When(s: PoolStep): Time { if s.Open? then s.at else s.call.at }

  predicate StepsInTime(steps: seq<PoolStep>, start: Time) {
    steps == [] || (start <= When(steps[0]) && StepsInTime(steps[1..], When(steps[0])))
  }

  /** The calls of one cluster and what the pool answers them. */
  function CallsOf(steps: seq<PoolStep>, cluster: string): seq<Call> {
    if steps == [] then []
    else (if steps[0].Use? && steps[0].cluster == cluster then [steps[0].call] else []) + CallsOf(steps[1..], cluster)
  }

  function AnswersTo(c: Config, m: map<string, Bucket>, steps: seq<PoolStep>, cluster: string): seq<bool>
    decreases |steps|
  {
    if steps == [] then []
    else
      var s := steps[0];
      var m' := Opened(c, m, s.cluster, When(s));
      if s.Open? then AnswersTo(c, m', steps[1..], cluster)
      else
        var (b, ok) := Step(c, m'[s.cluster], s.call);
        (if s.cluster == cluster then [ok] else []) + AnswersTo(c, m'[s.cluster := b], steps[1..], cluster)
  }

  /** The pool's limiter for the cluster, or the one it would make now, looks like `lone`. */
  ghost predicate Mirrors(c: Config, m: map<string, Bucket>, cluster: string, lone: Bucket, now: Time) {
    Alike(c, if cluster in m then m[cluster] else NewBucket(c, now), lone, now)
  }

  lemma {:induction false} MirrorsLater(c: Config, m: map<string, Bucket>, cluster: string, lone: Bucket, now: Time, later: Time)
    requires Mirrors(c, m, cluster, lone, now) && now <= later
    ensures Mirrors(c, m, cluster, lone, later)
  {
    if cluster !in m {
      forall t | later <= t ensures Level(c, NewBucket(c, later).tokens, t) == Level(c, lone.tokens, t) {
        RefillSplit(c.rate, later, t, t);
        RefillSplit(c.rate, now, t, t);
        assert Level(c, NewBucket(c, now).tokens, t) == c.Max();
      }
    }
  }

  lemma {:induction false} PoolFollows(c: Config, m: map<string, Bucket>, steps: seq<PoolStep>, cluster: string, lone: Bucket, now: Time)
    requires Mirrors(c, m, cluster, lone, now) && StepsInTime(steps, now)
    ensures AnswersTo(c, m, steps, cluster) == Outcomes(c, lone, CallsOf(steps, cluster))
    decreases |steps|
  {
    if steps != [] {
      var s, at := steps[0], When(steps[0]);
      MirrorsLater(c, m, cluster, lone, now, at);
      var m' := Opened(c, m, s.cluster, at);
      assert Mirrors(c, m', cluster, lone, at);
      if s.Open? {
        PoolFollows(c, m', steps[1..], cluster, lone, at);
        assert CallsOf(steps, cluster) == CallsOf(steps[1..], cluster);
      } else {
        var (b, ok) := Step(c, m'[s.cluster], s.call);
        if s.cluster == cluster {
          StepAlike(c, m'[cluster], lone, s.call, at);
          PoolFollows(c, m'[cluster := b], steps[1..], cluster, Step(c, lone, s.call).0, at);
          assert CallsOf(steps, cluster) == [s.call] + CallsOf(steps[1..], cluster);
          assert ([s.call] + CallsOf(steps[1..], cluster))[1..] == CallsOf(steps[1..], cluster);
        } else {
          PoolFollows(c, m'[s.cluster := b], steps[1..], cluster, lone, at);
          assert CallsOf(steps, cluster) == CallsOf(steps[1..], cluster);
        }
      }
    }
  }

  /** However the clusters' calls interleave, each cluster is answered as by a limiter of its own that
      sees only its calls, whenever before them that limiter was made. */
  lemma {:induction false} ClustersIsolated(c: Config, steps: seq<PoolStep>, cluster: string, made: Time, start: Time)
    requires StepsInTime(steps, start) && made <= start
    ensures AnswersTo(c, map[], steps, cluster) == Outcomes(c, NewBucket(c, made), CallsOf(steps, cluster))
  {
    assert Mirrors(c, map[], cluster, NewBucket(c, made), start) by {
      forall t | start <= t ensures Level(c, NewBucket(c, start).tokens, t) == Level(c, NewBucket(c, made).tokens, t) {
        RefillSplit(c.rate, start, t, t);
        RefillSplit(c.rate, made, t, t);
      }
    }
    PoolFollows(c, map[], steps, cluster, NewBucket(c, made), start);
  }

  // ---- concurrent callers of one limiter ----

  /** Where a caller is: it has taken a slot and not yet drawn, was refused a token and still has to
      return its slot, or holds a grant. */
  datatype Caller = Drawing | Returning | Holding

  datatype Shared = Shared(occupied: nat, tokens: Tokens, callers: map<nat, Caller>)

  datatype Move = TakeSlot(r: nat) | DrawToken(r: nat, at: Time) | ReturnSlot(r: nat) | Finish(r: nat)

  /** A returning caller blocks while the channel is empty; everything else never waits. */
  predicate CanMove(c: Config, s: Shared, move: Move) {
    match move
    case TakeSlot(r) => r !in s.callers
    case DrawToken(r, at) => r in s.callers && s.callers[r].Drawing? && s.tokens.last <= at
    case ReturnSlot(r) => r in s.callers && s.callers[r].Returning? && s.occupied > 0
    case Finish(r) => r in s.callers && s.callers[r].Holding?
  }

  function Moved(c: Config, s: Shared, move: Move): Shared
    requires CanMove(c, s, move)
  {
    match move
    case TakeSlot(r) =>
      if s.occupied >= c.slots then s else s.(occupied := s.occupied + 1, callers := s.callers[r := Drawing])
    case DrawToken(r, at) =>
      var (k, ok) := Draw(c, s.tokens, at);
      s.(tokens := k, callers := s.callers[r := if ok then Holding else Returning])
    case ReturnSlot(r) => s.(occupied := s.occupied - 1, callers := s.callers - {r})
    case Finish(r) => s.(occupied := if s.occupied > 0 then s.occupied - 1 else 0, callers := s.callers - {r})
  }

  /** Occupied slots are exactly the callers inside Acquire or holding a grant. */
  ghost predicate SlotsAccounted(c: Config, s: Shared) {
    s.occupied == |s.callers| <= c.slots && Sound(c, s.tokens)
  }

  lemma {:induction false} MoveKeepsSlots(c: Config, s: Shared, move: Move)
    requires SlotsAccounted(c, s) && CanMove(c, s, move)
    ensures SlotsAccounted(c, Moved(c, s, move))
  {
    var s' := Moved(c, s, move);
    match move
    case TakeSlot(r) =>
      assert s'.callers == s.callers || s'.callers.Keys == s.callers.Keys + {r};
    case DrawToken(r, at) =>
      DrawSound(c, s.tokens, at);
      assert s'.callers.Keys == s.callers.Keys;
    case ReturnSlot(r) =>
      assert s'.callers.Keys == s.callers.Keys - {r};
    case Finish(r) =>
      assert s'.callers.Keys == s.callers.Keys - {r} && r in s.callers.Keys;
  }

  /** A caller whom nobody disturbs gets what one call of Acquire gives. */
  lemma {:induction false} MovesAreAcquire(c: Config, s: Shared, r: nat, at: Time)
    requires r !in s.callers && s.tokens.last <= at
    ensures var s1 := Moved(c, s, TakeSlot(r));
            var (b, ok) := TryAcquire(c, Bucket(s.tokens, s.occupied), at);
            if r !in s1.callers then !ok && s1 == s
            else
              CanMove(c, s1, DrawToken(r, at)) &&
              var s2 := Moved(c, s1, DrawToken(r, at));
              if s2.callers[r].Holding? then ok && Bucket(s2.tokens, s2.occupied) == b
              else
                CanMove(c, s2, ReturnSlot(r)) &&
                var s3 := Moved(c, s2, ReturnSlot(r));
                !ok && Bucket(s3.tokens, s3.occupied) == b && s3.callers == s.callers
  {
    var s1 := Moved(c, s, TakeSlot(r));
    if r in s1.callers {
      var s2 := Moved(c, s1, DrawToken(r, at));
      assert s2.callers - {r} == s.callers;
    }
  }

  /** A refused caller never waits to give its slot back. */
  lemma {:induction false} ReturnNeverBlocks(c: Config, s: Shared, r: nat)
    requires SlotsAccounted(c, s) && r in s.callers && s.callers[r].Returning?
    ensures CanMove(c, s, ReturnSlot(r))
  {
    assert s.callers.Keys != {};
  }

  predicate Schedule(c: Config, s: Shared, moves: seq<Move>)
    decreases |moves|
  {
    moves == [] || (CanMove(c, s, moves[0]) && Schedule(c, Moved(c, s, moves[0]), moves[1..]))
  }

  function Final(c: Config, s: Shared, moves: seq<Move>): Shared
    requires Schedule(c, s, moves)
    decreases |moves|
  {
    if moves == [] then s else Final(c, Moved(c, s, moves[0]), moves[1..])
  }

  /** The instants at which callers drew, in order. */
  function DrawTimes(moves: seq<Move>): seq<Time> {
    if moves == [] then []
    else (if moves[0].DrawToken? then [moves[0].at] else []) + DrawTimes(moves[1..])
  }

  /** Grants handed out along a schedule. */
  function GrantsIn(c: Config, s: Shared, moves: seq<Move>): nat
    requires Schedule(c, s, moves)
    decreases |moves|
  {
    if moves == [] then 0
    else
      (if moves[0].DrawToken? && Draw(c, s.tokens, moves[0].at).1 then 1 else 0) +
      GrantsIn(c, Moved(c, s, moves[0]), moves[1..])
  }

  lemma {:induction false} GrantsAreDraws(c: Config, s: Shared, moves: seq<Move>)
    requires SlotsAccounted(c, s) && Schedule(c, s, moves)
    ensures GrantsIn(c, s, moves) == Grants(c, s.tokens, DrawTimes(moves)) && Ordered(DrawTimes(moves), s.tokens.last)
    ensures SlotsAccounted(c, Final(c, s, moves))
    decreases |moves|
  {
    if moves != [] {
      MoveKeepsSlots(c, s, moves[0]);
      GrantsAreDraws(c, Moved(c, s, moves[0]), moves[1..]);
      var rest := DrawTimes(moves[1..]);
      if moves[0].DrawToken? {
        assert DrawTimes(moves) == [moves[0].at] + rest && ([moves[0].at] + rest)[1..] == rest;
      } else {
        assert DrawTimes(moves) == rest;
      }
    }
  }

  /** From any state of any interleaving and for as long as one looks: the slots stay accounted for,
      and the grants are at most the burst plus the refill between the first and the last draw. */
  lemma {:induction false} ConcurrentBounds(c: Config, s: Shared, moves: seq<Move>)
    requires SlotsAccounted(c, s) && Schedule(c, s, moves)
    ensures SlotsAccounted(c, Final(c, s, moves))
    ensures var times := DrawTimes(moves);
            times == [] || TOKEN * GrantsIn(c, s, moves) <= c.burst * TOKEN + c.rate * (Latest(times, times[0]) - times[0])
  {
    GrantsAreDraws(c, s, moves);
    if DrawTimes(moves) != [] {
      RateBound(c, s.tokens, DrawTimes(moves));
    }
  }

  /** A limiter as New makes it, seen by concurrent callers. */
  function Untouched(c: Config, now: Time): Shared { Shared(0, Tokens(c.Max(), now), map[]) }

  /** So in every interleaving from a new limiter, whatever happened before, every stretch of it obeys
      the rate and the concurrency ceiling. */
  lemma {:induction false} EveryInterval(c: Config, made: Time, history: seq<Move>, moves: seq<Move>)
    requires Schedule(c, Untouched(c, made), history)
    requires Schedule(c, Final(c, Untouched(c, made), history), moves)
    ensures var s := Final(c, Untouched(c, made), history);
            var times := DrawTimes(moves);
            Final(c, s, moves).occupied <= c.slots &&
            (times == [] || TOKEN * GrantsIn(c, s, moves) <= c.burst * TOKEN + c.rate * (Latest(times, times[0]) - times[0]))
  {
    ConcurrentBounds(c, Untouched(c, made), history);
    ConcurrentBounds(c, Final(c, Untouched(c, made), history), moves);
  }
}
