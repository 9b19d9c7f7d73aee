/** Duplicate suppression, internal/dedup/dedup.go, over the TTL store. */
module Dedup {
  import opened Common
  import opened Text
  import opened Store

  /** SHA-256 in hexadecimal, as a function of the text it digests. */
  type Digest = string -> string

  ghost predicate HexDigests(sha: Digest) {
    forall s: string :: IsHex(sha(s)) && sha(s) != ""
  }

  function RawKey(a: Alert): string {
    a.clusterId + "|" + a.alertName + "|" + a.namespace + "|" + a.podName
  }

  /** The resolved key pins the firing time too. */
  function RawResolvedKey(a: Alert): string { RawKey(a) + "|" + FormatInt(a.firedAt) }

  function FiringKey(sha: Digest, a: Alert): string { "dedup:" + sha(RawKey(a)) }

  function ResolvedKey(sha: Digest, a: Alert): string { "dedup:resolved:" + sha(RawResolvedKey(a)) }

  /** Deduplicator: drops an alert whose key is already claimed; fails open when the store does. */
  class Deduplicator {
    const window: Time
    const store: Memory
    const sha: Digest

    constructor (window: Time, store: Memory, sha: Digest)
      ensures this.window == window && this.store == store && this.sha == sha
    {
      this.window, this.store, this.sha := window, store, sha;
    }

    method IsDuplicate(a: Alert, outage: bool, now: Time) returns (dup: bool)
      modifies store
      ensures dup == (!outage && Live(old(store.items), FiringKey(sha, a), now))
      ensures store.items == if outage then old(store.items) else PutNX(old(store.items), FiringKey(sha, a), "1", window, now)
    {
      if outage {
        return false;
      }
      var claimed := store.SetNX("dedup:" + sha(RawKey(a)), "1", window, now);
      return !claimed;
    }

    method IsDuplicateResolved(a: Alert, outage: bool, now: Time) returns (dup: bool)
      modifies store
      ensures dup == (!outage && Live(old(store.items), ResolvedKey(sha, a), now))
      ensures store.items == if outage then old(store.items) else PutNX(old(store.items), ResolvedKey(sha, a), "1", window, now)
    {
      if outage {
        return false;
      }
      var claimed := store.SetNX("dedup:resolved:" + sha(RawResolvedKey(a)), "1", window, now);
      return !claimed;
    }
  }

  // ---- key spaces ----

  /** Keys of the store's other users: nonces and bootstrap markers under any prefix, the two cache
      layers, feedback and incident records. */
  ghost predicate Foreign(key: string) {
    (exists prefix, rest :: key == prefix + "nonce:" + rest) ||
    (exists prefix, rest :: key == prefix + "bootstrap:used:" + rest) ||
    "cache:" <= key || "vec:" <= key || "fb:" <= key || "incident:" <= key
  }

  lemma {:induction false} FiringKeyChars(sha: Digest, a: Alert)
    requires HexDigests(sha)
    ensures FiringKey(sha, a)[0] == 'd' && forall c | c in "nrt" :: c !in FiringKey(sha, a)
  {
    forall c | c in "nrt" ensures c !in FiringKey(sha, a) {
      HexFree(sha(RawKey(a)), c);
    }
  }

  lemma {:induction false} ResolvedKeyChars(sha: Digest, a: Alert)
    requires HexDigests(sha)
    ensures ResolvedKey(sha, a)[0] == 'd' && 'n' !in ResolvedKey(sha, a) && 't' !in ResolvedKey(sha, a)
    ensures 'r' in ResolvedKey(sha, a)
  {
    HexFree(sha(RawResolvedKey(a)), 'n');
    HexFree(sha(RawResolvedKey(a)), 't');
    assert ResolvedKey(sha, a)[6] == 'r';
  }

  lemma {:induction false} ForeignChars(key: string)
    requires Foreign(key)
    ensures 'n' in key || 't' in key || key[0] != 'd'
  {
    if prefix, rest :| key == prefix + "nonce:" + rest {
      assert key[|prefix|] == 'n';
    } else if prefix, rest :| key == prefix + "bootstrap:used:" + rest {
      assert key[|prefix| + 3] == 't';
    }
  }

  /** Firing keys, resolved keys and everybody else's keys are three disjoint sets. */
  lemma {:induction false} KeySpacesDisjoint(sha: Digest, a: Alert, b: Alert, key: string)
    requires HexDigests(sha) && Foreign(key)
    ensures FiringKey(sha, a) != ResolvedKey(sha, b) && FiringKey(sha, a) != key && ResolvedKey(sha, b) != key
  {
    FiringKeyChars(sha, a);
    assert 'n' in "nrt" && 'r' in "nrt" && 't' in "nrt";
    ResolvedKeyChars(sha, b);
    ForeignChars(key);
  }

  // ---- whole runs against a greedy filter ----

  datatype Event =
    | Fire(alert: Alert, outage: bool, at: Time)
    | Resolve(alert: Alert, outage: bool, at: Time)
    | Other(op: Op, at: Time)

  predicate IsAlert(e: Event) { !e.Other? }

  function Key(sha: Digest, e: Event): string
    requires IsAlert(e)
  {
    if e.Fire? then FiringKey(sha, e.alert) else ResolvedKey(sha, e.alert)
  }

  /** Two alerts the filter identifies: same kind, same digest. */
  predicate SameSlot(sha: Digest, e: Event, f: Event) {
    match (e, f)
    case (Fire(a, _, _), Fire(b, _, _)) => sha(RawKey(a)) == sha(RawKey(b))
    case (Resolve(a, _, _), Resolve(b, _, _)) => sha(RawResolvedKey(a)) == sha(RawResolvedKey(b))
    case _ => false
  }

  /** A window that is not positive never closes. */
  predicate Within(window: Time, earlier: Time, later: Time) {
    window <= 0 || later <= earlier + window
  }

  /** The filter, without any store: an alert passes unless an alert of its slot that passed and was
      recorded lies within the window. Only alerts that passed count, so duplicates never extend it. */
  ghost predicate Passes(window: Time, sha: Digest, run: seq<Event>, n: nat)
    decreases n, 1
  {
    n < |run| && IsAlert(run[n]) && (run[n].outage || !Covered(window, sha, run, n, run[n], run[n].at))
  }

  ghost predicate Recorded(window: Time, sha: Digest, run: seq<Event>, j: nat)
    decreases j, 2
  {
    Passes(window, sha, run, j) && !run[j].outage
  }

  ghost predicate Covers(window: Time, sha: Digest, run: seq<Event>, j: nat, e: Event, t: Time)
    decreases j, 3
  {
    j < |run| && Recorded(window, sha, run, j) && SameSlot(sha, run[j], e) && Within(window, run[j].at, t)
  }

  /** A recorded alert of the slot of `e`, before event `n`, is within the window at time `t`. */
  ghost predicate Covered(window: Time, sha: Digest, run: seq<Event>, n: nat, e: Event, t: Time)
    decreases n, 0
  {
    exists j: nat :: j < n && Covers(window, sha, run, j, e, t)
  }

  function Next(window: Time, sha: Digest, m: Items, e: Event): Items {
    if e.Other? then Effect(m, e.op, e.at)
    else if e.outage then m
    else PutNX(m, Key(sha, e), "1", window, e.at)
  }

  function Before(window: Time, sha: Digest, run: seq<Event>, n: nat): Items
    requires n <= |run|
  {
    if n == 0 then map[] else Next(window, sha, Before(window, sha, run, n - 1), run[n - 1])
  }

  /** Times do not decrease and the store's other users write only foreign keys. */
  ghost predicate Proper(run: seq<Event>) {
    (forall i, j | 0 <= i < j < |run| :: run[i].at <= run[j].at) &&
    (forall i, key | 0 <= i < |run| && run[i].Other? && Touches(run[i].op, key) :: Foreign(key))
  }

  lemma {:induction false} SlotIsKey(sha: Digest, e: Event, f: Event)
    requires HexDigests(sha) && IsAlert(e) && IsAlert(f)
    ensures SameSlot(sha, e, f) <==> Key(sha, e) == Key(sha, f)
  {
    Prepend("dedup:", sha(RawKey(e.alert)), sha(RawKey(f.alert)));
    Prepend("dedup:resolved:", sha(RawResolvedKey(e.alert)), sha(RawResolvedKey(f.alert)));
    assert "cache:" <= "cache:";
    KeySpacesDisjoint(sha, e.alert, f.alert, "cache:");
    KeySpacesDisjoint(sha, f.alert, e.alert, "cache:");
  }

  lemma {:induction false} OtherLeavesSlot(sha: Digest, m: Items, op: Op, at: Time, e: Event, t: Time)
    requires HexDigests(sha) && IsAlert(e) && at <= t
    requires forall key | Touches(op, key) :: Foreign(key)
    ensures Live(Effect(m, op, at), Key(sha, e), t) <==> Live(m, Key(sha, e), t)
  {
    var key := Key(sha, e);
    if Touches(op, key) {
      KeySpacesDisjoint(sha, e.alert, e.alert, key);
    }
    UntouchedStays(m, op, at, key);
  }

  lemma {:induction false} AlertMovesSlot(window: Time, sha: Digest, m: Items, last: Event, e: Event, t: Time)
    requires HexDigests(sha) && IsAlert(e) && IsAlert(last) && last.at <= t
    ensures Live(Next(window, sha, m, last), Key(sha, e), t) <==>
            if SameSlot(sha, last, e) && !last.outage && !Live(m, Key(sha, last), last.at) then Within(window, last.at, t)
            else Live(m, Key(sha, e), t)
  {
    SlotIsKey(sha, last, e);
  }

  /** What the store holds for the slot of `e` before event `n`: it is live at a later time exactly
      while a recorded alert of that slot is within the window. */
  lemma {:induction false} StoreTracksSlot(window: Time, sha: Digest, run: seq<Event>, n: nat, e: Event, t: Time)
    requires HexDigests(sha) && Proper(run) && n <= |run| && IsAlert(e)
    requires n > 0 ==> run[n - 1].at <= t
    ensures Live(Before(window, sha, run, n), Key(sha, e), t) <==> Covered(window, sha, run, n, e, t)
    decreases n, 0
  {
    if n > 0 {
      var last, m := run[n - 1], Before(window, sha, run, n - 1);
      StoreTracksSlot(window, sha, run, n - 1, e, t);
      if last.Other? {
        OtherLeavesSlot(sha, m, last.op, last.at, e, t);
      } else {
        AcceptedIffPasses(window, sha, run, n - 1);
        AlertMovesSlot(window, sha, m, last, e, t);
        if SameSlot(sha, last, e) {
          StoreTracksSlot(window, sha, run, n - 1, last, last.at);
          NewestCovers(window, sha, run, n - 1, e, t);
        }
      }
      CoveredStep(window, sha, run, n - 1, e, t);
    }
  }

  lemma CoveredStep(window: Time, sha: Digest, run: seq<Event>, n: nat, e: Event, t: Time)
    ensures Covered(window, sha, run, n + 1, e, t) <==> Covered(window, sha, run, n, e, t) || Covers(window, sha, run, n, e, t)
  {
  }

  /** When an alert is recorded, no earlier alert of its slot covers any later time. */
  lemma {:induction false} NewestCovers(window: Time, sha: Digest, run: seq<Event>, n: nat, e: Event, t: Time)
    requires n < |run| && IsAlert(run[n]) && SameSlot(sha, run[n], e) && run[n].at <= t
    ensures Recorded(window, sha, run, n) ==> !Covered(window, sha, run, n, e, t)
  {
    if Recorded(window, sha, run, n) {
      assert Passes(window, sha, run, n);
      assert !Covered(window, sha, run, n, run[n], run[n].at);
      forall j: nat | j < n ensures !Covers(window, sha, run, j, e, t) {
        assert !Covers(window, sha, run, j, run[n], run[n].at);
      }
    }
  }

  /** Whatever else the store is used for and whenever it is swept, the deduplicator's verdict on
      every alert is the greedy filter's: `Live` is what IsDuplicate and IsDuplicateResolved report. */
  lemma {:induction false} AcceptedIffPasses(window: Time, sha: Digest, run: seq<Event>, n: nat)
    requires HexDigests(sha) && Proper(run) && n < |run| && IsAlert(run[n])
    ensures Passes(window, sha, run, n) <==>
            run[n].outage || !Live(Before(window, sha, run, n), Key(sha, run[n]), run[n].at)
    decreases n, 1
  {
    StoreTracksSlot(window, sha, run, n, run[n], run[n].at);
  }

  // ---- what the key identifies ----

  predicate PipeFree(a: Alert) {
    '|' !in a.clusterId && '|' !in a.alertName && '|' !in a.namespace && '|' !in a.podName
  }

  predicate SameTarget(a: Alert, b: Alert) {
    a.clusterId == b.clusterId && a.alertName == b.alertName && a.namespace == b.namespace && a.podName == b.podName
  }

  lemma {:induction false} RawKeyPieces(a: Alert)
    ensures Split(RawKey(a), '|') ==
            Split(a.clusterId, '|') + Split(a.alertName, '|') + Split(a.namespace, '|') + Split(a.podName, '|')
  {
    SplitJoined(a.clusterId, a.alertName, '|');
    SplitJoined(a.clusterId + "|" + a.alertName, a.namespace, '|');
    SplitJoined(a.clusterId + "|" + a.alertName + "|" + a.namespace, a.podName, '|');
  }

  lemma {:induction false} FieldPieces(a: Alert)
    ensures |Split(RawKey(a), '|')| >= 4
    ensures |Split(RawKey(a), '|')| == 4 <==> PipeFree(a)
    ensures PipeFree(a) ==> Split(RawKey(a), '|') == [a.clusterId, a.alertName, a.namespace, a.podName]
  {
    RawKeyPieces(a);
    SplitOne(a.clusterId, '|');
    SplitOne(a.alertName, '|');
    SplitOne(a.namespace, '|');
    SplitOne(a.podName, '|');
  }

  /** The same text under another division: a separator inside a field can be read as the one
      between two fields. */
  lemma {:induction false} OtherReading(a: Alert) returns (b: Alert)
    requires !PipeFree(a)
    ensures RawKey(a) == RawKey(b) && !SameTarget(a, b) && b.firedAt == a.firedAt
  {
    if '|' in a.clusterId {
      var u, v := Cut(a.clusterId);
      b := a.(clusterId := u, alertName := v + "|" + a.alertName);
      assert RawKey(a) == u + "|" + v + "|" + a.alertName + "|" + a.namespace + "|" + a.podName;
    } else if '|' in a.alertName {
      var u, v := Cut(a.alertName);
      b := a.(clusterId := a.clusterId + "|" + u, alertName := v);
      assert RawKey(a) == a.clusterId + "|" + u + "|" + v + "|" + a.namespace + "|" + a.podName;
    } else if '|' in a.namespace {
      var u, v := Cut(a.namespace);
      b := a.(alertName := a.alertName + "|" + u, namespace := v);
      assert RawKey(a) == a.clusterId + "|" + a.alertName + "|" + u + "|" + v + "|" + a.podName;
    } else {
      var u, v := Cut(a.podName);
      b := a.(namespace := a.namespace + "|" + u, podName := v);
      assert RawKey(a) == a.clusterId + "|" + a.alertName + "|" + a.namespace + "|" + u + "|" + v;
    }
  }

  lemma Cut(s: string) returns (u: string, v: string)
    requires '|' in s
    ensures s == u + "|" + v && |u| < |s| && |v| < |s|
  {
    var i := IndexOf(s, '|');
    u, v := s[..i], s[i + 1..];
  }

  /** Exactly when an alert's digested text stands for nothing but its own cluster, alert, namespace
      and pod (and, for the resolved text, firing time): when none of the four holds the separator. */
  lemma {:induction false} RawKeyIdentifiesIff(a: Alert)
    requires Int64(a.firedAt)
    ensures (forall b :: RawKey(a) == RawKey(b) ==> SameTarget(a, b)) <==> PipeFree(a)
    ensures (forall b: Alert | Int64(b.firedAt) :: RawResolvedKey(a) == RawResolvedKey(b) ==> SameTarget(a, b) && a.firedAt == b.firedAt) <==>
            PipeFree(a)
  {
    if PipeFree(a) {
      FieldPieces(a);
      forall b | RawKey(a) == RawKey(b) ensures SameTarget(a, b) {
        FieldPieces(b);
      }
      forall b: Alert | Int64(b.firedAt) && RawResolvedKey(a) == RawResolvedKey(b) ensures RawKey(a) == RawKey(b) && a.firedAt == b.firedAt {
        ResolvedParts(a, b);
      }
    } else {
      var b := OtherReading(a);
      assert RawResolvedKey(a) == RawResolvedKey(b);
    }
  }

  lemma {:induction false} ResolvedParts(a: Alert, b: Alert)
    requires Int64(a.firedAt) && Int64(b.firedAt) && RawResolvedKey(a) == RawResolvedKey(b)
    ensures RawKey(a) == RawKey(b) && a.firedAt == b.firedAt
  {
    FormatIntChars(a.firedAt, '|');
    FormatIntChars(b.firedAt, '|');
    CutLastUnique(RawKey(a), FormatInt(a.firedAt), RawKey(b), FormatInt(b.firedAt), '|');
    ParseFormat(a.firedAt);
    ParseFormat(b.firedAt);
  }
}
