/** Freshness and single use of requests: internal/auth/replay.go over the TTL store.
    A verification reads the clock twice: once to judge the timestamp (`judged`) and once, not
    earlier, inside the store (`claim`). The distance between the two is the lag. */
module Replay {
  import opened Common
  import opened Text
  import opened Store
  import opened Identity

  const MIN_NONCE := 32

  /** The settings of a ReplayGuard. */
  datatype Guard = Guard(window: Time, nonceTtl: Time, prefix: string)

  /** NewReplayGuard: a window that is not positive becomes five minutes, and a nonce lives for twice
      the window. */
  function NewGuard(window: Time, prefix: string): (g: Guard)
    ensures 0 < g.window < g.nonceTtl == 2 * g.window && g.prefix == prefix
    ensures g.window == if window > 0 then window else 300 * SECOND
  {
    var w := if window <= 0 then 5 * MINUTE else window;
    Guard(w, 2 * w, prefix)
  }

  function NonceKey(g: Guard, id: string, nonce: string): string {
    g.prefix + "nonce:" + id + ":" + nonce
  }

  datatype Verdict =
    Accepted | Anonymous | MissingTimestamp | BadTimestamp | ClockSkew | MissingNonce | BadNonce | NonceReused

  predicate NonceWellFormed(nonce: string) {
    |nonce| >= MIN_NONCE && |nonce| % 2 == 0 && IsHex(nonce)
  }

  /** The checks that do not touch the store, in order; Accepted means none of them objects. */
  function Precheck(g: Guard, id: Option<Identity>, ts: string, nonce: string, judged: Time): Verdict {
    if id.None? then Anonymous
    else if ts == "" then MissingTimestamp
    else if ParseInt(ts).None? then BadTimestamp
    else
      var delta := judged - ParseInt(ts).value * SECOND;
      if delta > g.window || delta < -g.window then ClockSkew
      else if nonce == "" then MissingNonce
      else if !NonceWellFormed(nonce) then BadNonce
      else Accepted
  }

  function Decide(g: Guard, m: Items, id: Option<Identity>, ts: string, nonce: string, judged: Time, claim: Time): Verdict {
    var v := Precheck(g, id, ts, nonce, judged);
    if v != Accepted then v
    else if Live(m, NonceKey(g, Name(id.value), nonce), claim) then NonceReused else Accepted
  }

  function Record(g: Guard, m: Items, id: Option<Identity>, ts: string, nonce: string, judged: Time, claim: Time): Items {
    if Precheck(g, id, ts, nonce, judged) != Accepted then m
    else PutNX(m, NonceKey(g, Name(id.value), nonce), "\U{1}", g.nonceTtl, claim)
  }

  /** ReplayGuard.Verify */
  method Verify(g: Guard, store: Memory, id: Option<Identity>, ts: string, nonce: string, judged: Time, claim: Time)
    returns (v: Verdict)
    modifies store
    ensures v == Decide(g, old(store.items), id, ts, nonce, judged, claim)
    ensures store.items == Record(g, old(store.items), id, ts, nonce, judged, claim)
  {
    if id.None? {
      return Anonymous;
    }
    if ts == "" {
      return MissingTimestamp;
    }
    var unix := ParseInt(ts);
    if unix.None? {
      return BadTimestamp;
    }
    var delta := judged - unix.value * SECOND;
    if delta > g.window || delta < -g.window {
      return ClockSkew;
    }
    if nonce == "" {
      return MissingNonce;
    }
    if |nonce| < MIN_NONCE || |nonce| % 2 != 0 || !IsHex(nonce) {
      return BadNonce;
    }
    var claimed := store.SetNX(NonceKey(g, Name(id.value), nonce), "\U{1}", g.nonceTtl, claim);
    return if claimed then Accepted else NonceReused;
  }

  /** A timestamp that counts seconds since the epoch and lies within the window of `judged`. */
  predicate Fresh(g: Guard, ts: string, judged: Time) {
    ParseInt(ts).Some? &&
    ParseInt(ts).value * SECOND - g.window <= judged <= ParseInt(ts).value * SECOND + g.window
  }

  /** At least 16 bytes in hexadecimal. */
  predicate GoodNonce(nonce: string) {
    |nonce| >= 32 && |nonce| % 2 == 0 && forall i | 0 <= i < |nonce| :: nonce[i] in "0123456789abcdefABCDEF"
  }

  lemma {:induction false} GoodNonceIff(nonce: string)
    ensures GoodNonce(nonce) <==> NonceWellFormed(nonce)
  {
    forall c: char ensures c in "0123456789abcdefABCDEF" <==> IsHexDigit(c) {
      HexAlphabet(c);
    }
  }

  lemma {:induction false} HexAlphabet(c: char)
    ensures c in "0123456789abcdefABCDEF" <==> IsHexDigit(c)
  {
    var all := "0123456789abcdefABCDEF";
    if IsDigit(c) {
      assert all[(c - '0') as int] == c;
    } else if 'a' <= c <= 'f' {
      assert all[(c - 'a') as int + 10] == c;
    } else if 'A' <= c <= 'F' {
      assert all[(c - 'A') as int + 16] == c;
    }
  }

  /** Exactly which requests are accepted: those of an identity, with a timestamp within the window on
      either side, a good nonce, and no live claim on that nonce. The order of the checks shows only in
      what the others are told. */
  lemma {:induction false} AcceptedIff(g: Guard, m: Items, id: Option<Identity>, ts: string, nonce: string, judged: Time, claim: Time)
    ensures Decide(g, m, id, ts, nonce, judged, claim) == Accepted <==>
            id.Some? && Fresh(g, ts, judged) && GoodNonce(nonce) && !Live(m, NonceKey(g, Name(id.value), nonce), claim)
    ensures Decide(g, m, id, ts, nonce, judged, claim) == NonceReused <==>
            id.Some? && Fresh(g, ts, judged) && GoodNonce(nonce) && Live(m, NonceKey(g, Name(id.value), nonce), claim)
    ensures Decide(g, m, id, ts, nonce, judged, claim) == ClockSkew <==> id.Some? && ParseInt(ts).Some? && !Fresh(g, ts, judged)
    ensures Decide(g, m, id, ts, nonce, judged, claim) in {MissingNonce, BadNonce} <==>
            id.Some? && Fresh(g, ts, judged) && !GoodNonce(nonce)
    ensures Decide(g, m, id, ts, nonce, judged, claim) in {MissingTimestamp, BadTimestamp} <==> id.Some? && ParseInt(ts).None?
  {
    GoodNonceIff(nonce);
  }

  /** Only acceptance changes the store, by a claim that runs for the ttl. */
  lemma {:induction false} RecordIff(g: Guard, m: Items, id: Option<Identity>, ts: string, nonce: string, judged: Time, claim: Time)
    ensures Record(g, m, id, ts, nonce, judged, claim) ==
            if Decide(g, m, id, ts, nonce, judged, claim) != Accepted then m
            else m[NonceKey(g, Name(id.value), nonce) := Item("\U{1}", if g.nonceTtl <= 0 then None else Some(claim + g.nonceTtl))]
  {
  }

  /** Identity names may hold any character, but a nonce holds no colon, so the key of a
      well-formed nonce determines both. */
  lemma {:induction false} NonceKeyUnique(g: Guard, id: string, nonce: string, id': string, nonce': string)
    requires NonceWellFormed(nonce) && NonceWellFormed(nonce')
    ensures NonceKey(g, id, nonce) == NonceKey(g, id', nonce') <==> id == id' && nonce == nonce'
  {
    HexFree(nonce, ':');
    HexFree(nonce', ':');
    if NonceKey(g, id, nonce) == NonceKey(g, id', nonce') {
      var start := g.prefix + "nonce:";
      CutLastUnique(start + id, nonce, start + id', nonce', ':');
      assert (start + id)[|start|..] == id && (start + id')[|start|..] == id';
    }
  }

  // ---- whole runs ----

  /** A verification, or any other operation on the same store (a sweep included). */
  datatype Event =
    | Check(id: Option<Identity>, ts: string, nonce: string, judged: Time, claim: Time)
    | Other(op: Op, at: Time)

  function At(e: Event): Time { if e.Check? then e.claim else e.at }

  predicate InNamespace(g: Guard, key: string) { g.prefix + "nonce:" <= key }

  /** Store instants do not decrease, no lag is negative or above `lag`, and other components stay
      out of the nonce namespace. */
  ghost predicate Proper(g: Guard, run: seq<Event>, lag: Time) {
    (forall i, j | 0 <= i < j < |run| :: At(run[i]) <= At(run[j])) &&
    (forall i | 0 <= i < |run| && run[i].Check? :: run[i].judged <= run[i].claim <= run[i].judged + lag) &&
    (forall i, key | 0 <= i < |run| && run[i].Other? && InNamespace(g, key) :: !Touches(run[i].op, key))
  }

  function Next(g: Guard, m: Items, e: Event): Items {
    match e
    case Check(id, ts, nonce, judged, claim) => Record(g, m, id, ts, nonce, judged, claim)
    case Other(op, at) => Effect(m, op, at)
  }

  /** The store just before event `n` of a run that began with an empty store. */
  function Before(g: Guard, run: seq<Event>, n: nat): Items
    requires n <= |run|
  {
    if n == 0 then map[] else Next(g, Before(g, run, n - 1), run[n - 1])
  }

  predicate AcceptedAt(g: Guard, run: seq<Event>, n: nat) {
    n < |run| && run[n].Check? &&
    Decide(g, Before(g, run, n), run[n].id, run[n].ts, run[n].nonce, run[n].judged, run[n].claim) == Accepted
  }

  function KeyOf(g: Guard, e: Event): string
    requires e.Check? && e.id.Some?
  {
    NonceKey(g, Name(e.id.value), e.nonce)
  }

  lemma KeyInNamespace(g: Guard, id: string, nonce: string)
    ensures InNamespace(g, NonceKey(g, id, nonce))
  {
  }

  ghost predicate Held(m: Items, key: string, deadline: Option<Time>) {
    key in m && m[key].expiresAt == deadline
  }

  /** When a claim made at an accepted check runs out, if ever. */
  function Deadline(g: Guard, e: Event): Option<Time> { Expiry(g.nonceTtl, At(e)) }

  lemma {:induction false} ClaimTaken(g: Guard, m: Items, e: Event)
    requires e.Check? && Decide(g, m, e.id, e.ts, e.nonce, e.judged, e.claim) == Accepted
    ensures Held(Next(g, m, e), KeyOf(g, e), Deadline(g, e))
  {
  }

  /** An event that cannot end a claim on `key`: not after the deadline, and not another user's write. */
  predicate Harmless(e: Event, key: string, deadline: Option<Time>) {
    (deadline.None? || At(e) <= deadline.value) && (e.Other? ==> !Touches(e.op, key))
  }

  lemma {:induction false} EventHolds(g: Guard, m: Items, e: Event, key: string, deadline: Option<Time>)
    requires Held(m, key, deadline) && Harmless(e, key, deadline)
    ensures Held(Next(g, m, e), key, deadline)
  {
    if e.Other? {
      UntouchedStays(m, e.op, e.at, key);
    }
  }

  /** A claimed nonce stays in the store until its time is over: later events, none of which writes
      its key otherwise than by a verification, keep it. */
  lemma {:induction false} ClaimHolds(g: Guard, run: seq<Event>, i: nat, n: nat)
    requires AcceptedAt(g, run, i) && i < n <= |run|
    requires forall k | i < k < n :: Harmless(run[k], KeyOf(g, run[i]), Deadline(g, run[i]))
    ensures Held(Before(g, run, n), KeyOf(g, run[i]), Deadline(g, run[i]))
  {
    ClaimTaken(g, Before(g, run, i), run[i]);
    HoldsOn(g, run, i + 1, n, KeyOf(g, run[i]), Deadline(g, run[i]));
  }

  lemma {:induction false} HoldsOn(g: Guard, run: seq<Event>, i: nat, n: nat, key: string, deadline: Option<Time>)
    requires i <= n <= |run| && Held(Before(g, run, i), key, deadline)
    requires forall k | i <= k < n :: Harmless(run[k], key, deadline)
    ensures Held(Before(g, run, n), key, deadline)
  {
    var states := Trace(g, run);
    TraceSteps(g, run, states, i, n, key, deadline);
    StaysHeld(states, i, n, key, deadline);
  }

  /** The stores of a run, one after the other. */
  ghost function Trace(g: Guard, run: seq<Event>): (states: seq<Items>)
    ensures |states| == |run| + 1 && forall k | 0 <= k <= |run| :: states[k] == Before(g, run, k)
  {
    seq(|run| + 1, k requires 0 <= k <= |run| => Before(g, run, k))
  }

  lemma {:induction false} TraceSteps(g: Guard, run: seq<Event>, states: seq<Items>, i: nat, n: nat, key: string, deadline: Option<Time>)
    requires states == Trace(g, run) && i <= n <= |run|
    requires forall k | i <= k < n :: Harmless(run[k], key, deadline)
    ensures forall k | i < k <= n :: Held(states[k - 1], key, deadline) ==> Held(states[k], key, deadline)
  {
    forall k | i < k <= n ensures Held(states[k - 1], key, deadline) ==> Held(states[k], key, deadline) {
      StepHolds(g, run, k - 1, key, deadline);
    }
  }

  lemma {:induction false} StepHolds(g: Guard, run: seq<Event>, i: nat, key: string, deadline: Option<Time>)
    requires i < |run| && Harmless(run[i], key, deadline)
    ensures Held(Before(g, run, i), key, deadline) ==> Held(Before(g, run, i + 1), key, deadline)
  {
    if Held(Before(g, run, i), key, deadline) {
      EventHolds(g, Before(g, run, i), run[i], key, deadline);
    }
  }

  lemma {:induction false} StaysHeld(states: seq<Items>, i: nat, n: nat, key: string, deadline: Option<Time>)
    requires i <= n < |states| && Held(states[i], key, deadline)
    requires forall k | i < k <= n :: Held(states[k - 1], key, deadline) ==> Held(states[k], key, deadline)
    ensures Held(states[n], key, deadline)
  {
    if i < n {
      StaysHeld(states, i, n - 1, key, deadline);
      assert Held(states[n - 1], key, deadline);
    }
  }

  /** Same identity and same nonce. */
  predicate SameNonce(e: Event, f: Event)
    requires e.Check? && e.id.Some? && f.Check? && f.id.Some?
  {
    Name(e.id.value) == Name(f.id.value) && e.nonce == f.nonce
  }

  /** Two accepted requests of one identity with one nonce are strictly more than the nonce's ttl apart
      in store time; with a ttl that never ends there are no two. */
  lemma {:induction false} AcceptedApart(g: Guard, run: seq<Event>, lag: Time, i: nat, j: nat)
    requires Proper(g, run, lag) && i < j
    requires AcceptedAt(g, run, i) && AcceptedAt(g, run, j) && SameNonce(run[i], run[j])
    ensures g.nonceTtl > 0 && run[j].claim > run[i].claim + g.nonceTtl
  {
    if g.nonceTtl <= 0 || run[j].claim <= run[i].claim + g.nonceTtl {
      KeyInNamespace(g, Name(run[i].id.value), run[i].nonce);
      forall k | i < k < j ensures Harmless(run[k], KeyOf(g, run[i]), Deadline(g, run[i])) {
        assert At(run[k]) <= At(run[j]);
      }
      ClaimHolds(g, run, i, j);
      assert false;
    }
  }

  /** No (identity, timestamp, nonce) triple is accepted twice. */
  ghost predicate SingleUse(g: Guard, run: seq<Event>) {
    forall i: nat, j: nat | i < j && AcceptedAt(g, run, i) && AcceptedAt(g, run, j) ::
      !(SameNonce(run[i], run[j]) && ParseInt(run[i].ts) == ParseInt(run[j].ts))
  }

  /** The nonce outlives every instant at which its request can still be claimed. */
  predicate Outlives(g: Guard, lag: Time) {
    g.nonceTtl <= 0 || g.nonceTtl >= 2 * g.window + lag
  }

  lemma {:induction false} SingleUseIfOutlives(g: Guard, run: seq<Event>, lag: Time)
    requires Proper(g, run, lag) && Outlives(g, lag)
    ensures SingleUse(g, run)
  {
    forall i: nat, j: nat | i < j && AcceptedAt(g, run, i) && AcceptedAt(g, run, j)
      ensures !(SameNonce(run[i], run[j]) && ParseInt(run[i].ts) == ParseInt(run[j].ts))
    {
      ClaimedInWindow(g, run, lag, i);
      ClaimedInWindow(g, run, lag, j);
      if SameNonce(run[i], run[j]) {
        AcceptedApart(g, run, lag, i, j);
      }
    }
  }

  /** A request is claimed at most a window away from its timestamp, and later by at most the lag. */
  lemma {:induction false} ClaimedInWindow(g: Guard, run: seq<Event>, lag: Time, i: nat)
    requires Proper(g, run, lag) && AcceptedAt(g, run, i)
    ensures ParseInt(run[i].ts).Some?
    ensures var at := ParseInt(run[i].ts).value * SECOND; at - g.window <= run[i].claim <= at + g.window + lag
  {
  }

  /** Claimed at the first instant of its window, and again judged at the last one and claimed `lag`
      later. */
  function LaggingReplay(g: Guard, lag: Time, id: Identity, ts: string, nonce: string): seq<Event>
    requires ParseInt(ts).Some?
  {
    var at := ParseInt(ts).value * SECOND;
    [Check(Some(id), ts, nonce, at - g.window, at - g.window), Check(Some(id), ts, nonce, at + g.window, at + g.window + lag)]
  }

  /** When the nonce does not outlive that, the same request gets through twice. */
  lemma {:induction false} LagAllowsReplay(g: Guard, lag: Time, id: Identity, ts: string, nonce: string)
    requires g.window > 0 && lag >= 0 && !Outlives(g, lag) && ParseInt(ts).Some? && NonceWellFormed(nonce)
    ensures Proper(g, LaggingReplay(g, lag, id, ts, nonce), lag) && !SingleUse(g, LaggingReplay(g, lag, id, ts, nonce))
  {
    var run := LaggingReplay(g, lag, id, ts, nonce);
    assert ts != "";
    assert Before(g, run, 0) == map[];
    assert AcceptedAt(g, run, 0);
    assert Before(g, run, 1) == Next(g, Before(g, run, 0), run[0]);
    assert AcceptedAt(g, run, 1);
    assert SameNonce(run[0], run[1]);
  }

  lemma SomeRequest() returns (ts: string, nonce: string)
    ensures ParseInt(ts).Some? && NonceWellFormed(nonce)
  {
    ts, nonce := FormatInt(0), seq(MIN_NONCE, i => 'a');
    ParseFormat(0);
  }

  /** Exactly when a guard with any window and any nonce ttl keeps its promise: every proper run is single
      use if and only if the ttl is at least two windows plus the lag (or endless). */
  lemma {:induction false} SingleUseIff(g: Guard, lag: Time)
    requires g.window > 0 && lag >= 0
    ensures (forall run :: Proper(g, run, lag) ==> SingleUse(g, run)) <==> Outlives(g, lag)
  {
    if Outlives(g, lag) {
      forall run | Proper(g, run, lag) ensures SingleUse(g, run) {
        SingleUseIfOutlives(g, run, lag);
      }
    } else {
      var ts, nonce := SomeRequest();
      LagAllowsReplay(g, lag, Identity("", "c"), ts, nonce);
    }
  }

  /** So for the guard as it is built, with a ttl of two windows: if and only if the freshness reading and
      the claim share one instant. */
  lemma {:induction false} SingleUseIffNoLag(window: Time, prefix: string, lag: Time)
    requires lag >= 0
    ensures var g := NewGuard(window, prefix);
            (forall run :: Proper(g, run, lag) ==> SingleUse(g, run)) <==> lag == 0
  {
    SingleUseIff(NewGuard(window, prefix), lag);
  }

  /** The spacing is tight: exactly one ttl after a claim the nonce is still refused, one instant later
      it is accepted again for a request with a fresh timestamp. */
  lemma {:induction false} SpacingTight(g: Guard, m: Items, id: Identity, ts: string, nonce: string, judged: Time, first: Time)
    requires g.nonceTtl > 0 && Precheck(g, Some(id), ts, nonce, judged) == Accepted
    requires Held(m, NonceKey(g, Name(id), nonce), Some(first + g.nonceTtl))
    ensures Decide(g, m, Some(id), ts, nonce, judged, first + g.nonceTtl) == NonceReused
    ensures Decide(g, m, Some(id), ts, nonce, judged, first + g.nonceTtl + 1) == Accepted
  {
  }
}
