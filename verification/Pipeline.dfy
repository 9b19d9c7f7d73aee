/** From an incident to at most one evaluation and at most one silence: internal/pipeline/pipeline.go
    and the guards of internal/silence/alertmanager.go. */
module Pipeline {
  import opened Common
  import opened Text
  import opened Limiter
  import opened Evaluator
  import LlmCache
  import Correlator
  import Dedup
  import Store

  // ---- entry ----

  /** Where an alert goes: nowhere, straight to the receivers, into the correlator, or on to its own
      evaluation. */
  datatype Disposition = Dropped | Announced | Correlated | Single

  /** Process: resolved alerts bypass correlation, and both kinds are deduplicated first, each with its
      own key. */
  method Process(dd: Dedup.Deduplicator, correlator: Correlator.Correlator, correlating: bool, a: Alert, outage: bool, now: Time)
    returns (d: Disposition)
    modifies dd.store, correlator
    ensures d == Dropped <==>
            !outage && Store.Live(old(dd.store.items), if a.status == "resolved" then Dedup.ResolvedKey(dd.sha, a)
                                                       else Dedup.FiringKey(dd.sha, a), now)
    ensures d == Announced ==> a.status == "resolved"
    ensures d in {Correlated, Single} ==> a.status != "resolved" && (d == Correlated <==> correlating)
    ensures dd.store.items == if outage then old(dd.store.items)
                              else Store.PutNX(old(dd.store.items), if a.status == "resolved" then Dedup.ResolvedKey(dd.sha, a)
                                                                    else Dedup.FiringKey(dd.sha, a), "1", dd.window, now)
    ensures correlator.View() == if d == Correlated then Correlator.AddTo(old(correlator.View()), a) else old(correlator.View())
  {
    if a.status == "resolved" {
      var dup := dd.IsDuplicateResolved(a, outage, now);
      return if dup then Dropped else Announced;
    }
    var dup := dd.IsDuplicate(a, outage, now);
    if dup {
      return Dropped;
    }
    if correlating {
      correlator.Add(a);
      return Correlated;
    }
    return Single;
  }

  // ---- evaluation under the cost backstop ----

  function InUse(m: map<string, Bucket>, cluster: string): nat {
    if cluster in m then m[cluster].inUse else 0
  }

  /** When the limiter is found, asked and given its slot back. */
  datatype Turn = Turn(found: Time, acquired: Time, released: Time)

  /** The cluster's limiter, made on first use, grants a call. */
  predicate Admits(c: Config, m: map<string, Bucket>, cluster: string, turn: Turn) {
    TryAcquire(c, Opened(c, m, cluster, turn.found)[cluster], turn.acquired).1
  }

  /** The pool after one evaluation that nobody disturbs. */
  function Evaluated(c: Config, m: map<string, Bucket>, cluster: string, turn: Turn): map<string, Bucket> {
    var found := Opened(c, m, cluster, turn.found);
    var (b, ok) := TryAcquire(c, found[cluster], turn.acquired);
    found[cluster := if ok then GiveUp(b) else b]
  }

  /** Every cluster has as many slots in use as before. */
  ghost predicate SlotsKept(before: map<string, Bucket>, after: map<string, Bucket>) {
    forall k :: InUse(after, k) == InUse(before, k)
  }

  lemma {:induction false} EvaluatedKeepsSlots(c: Config, m: map<string, Bucket>, cluster: string, turn: Turn)
    ensures SlotsKept(m, Evaluated(c, m, cluster, turn))
  {
  }

  /** evaluateIncident: `verdict` is what the model would say (None for an error). Without a pool
      nothing is throttled. */
  method EvaluateIncident(pool: Pool?, verdict: Option<Analysis>, cluster: string, turn: Turn)
    returns (analysis: Option<Analysis>, called: bool)
    requires pool != null ==> pool.Valid()
    modifies pool, if pool == null then {} else pool.buckets.Values
    ensures pool != null ==> pool.Valid() && pool.View() == Evaluated(pool.config, old(pool.View()), cluster, turn)
    ensures pool != null ==> SlotsKept(old(pool.View()), pool.View())
    ensures called == (pool == null || Admits(pool.config, old(pool.View()), cluster, turn))
    ensures analysis == if called then verdict else None
  {
    if pool != null {
      EvaluatedKeepsSlots(pool.config, pool.View(), cluster, turn);
      var ok := pool.Acquire(cluster, turn.found, turn.acquired);
      if !ok {
        return None, false;
      }
      // the model is called between these two; the deferred release runs on success and on error
      pool.Release(cluster, turn.released);
    }
    return verdict, true;
  }

  /** The cache has an answer for the alert. */
  ghost predicate Hit(cache: LlmCache.Cache, items: Store.Items, a: Alert, tokens: seq<string>, now: Time)
    requires LlmCache.Usable(cache.tools)
  {
    cache.enabled &&
    (LlmCache.ExactHit(cache.tools, items, a, now).Some? ||
     (cache.semantic && LlmCache.SemanticHit(cache.tools, items, tokens, cache.threshold, now)))
  }

  method LookUp(cache: LlmCache.Cache, a: Alert, tokens: seq<string>, now: Time) returns (cached: Option<Analysis>)
    requires LlmCache.Usable(cache.tools)
    ensures cached.Some? <==> Hit(cache, cache.store.items, a, tokens, now)
  {
    cached := cache.Get(a, tokens, now);
  }

  /** The store after an evaluation: a fresh analysis is cached. */
  function Remembered(cache: LlmCache.Cache, items: Store.Items, a: Alert, tokens: seq<string>, answer: Option<Analysis>, at: Time)
    : Store.Items
    requires LlmCache.Usable(cache.tools)
  {
    if answer.Some? && cache.enabled
    then LlmCache.Stored(cache.tools, items, a, tokens, answer.value, cache.semantic, cache.ttl, at) else items
  }

  method Remember(cache: LlmCache.Cache, a: Alert, tokens: seq<string>, answer: Option<Analysis>, at: Time)
    requires LlmCache.Usable(cache.tools)
    modifies cache.store
    ensures cache.store.items == Remembered(cache, old(cache.store.items), a, tokens, answer, at)
  {
    if answer.Some? {
      cache.Set(a, tokens, answer.value, at);
    }
  }

  /** evaluate: the cache first, then the model under the backstop, and a fresh analysis is cached. */
  method EvaluateAlert(cache: LlmCache.Cache, pool: Pool?, a: Alert, tokens: seq<string>, verdict: Option<Analysis>,
                       looked: Time, turn: Turn, stored: Time) returns (analysis: Option<Analysis>, called: bool)
    requires LlmCache.Usable(cache.tools) && (pool != null ==> pool.Valid())
    modifies cache.store, pool, if pool == null then {} else pool.buckets.Values
    ensures pool != null ==> pool.Valid() && SlotsKept(old(pool.View()), pool.View())
    ensures Hit(cache, old(cache.store.items), a, tokens, looked) ==>
              analysis.Some? && !called && (pool != null ==> pool.View() == old(pool.View()))
    ensures !Hit(cache, old(cache.store.items), a, tokens, looked) ==>
              analysis == (if called then verdict else None) &&
              called == (pool == null || Admits(pool.config, old(pool.View()), a.clusterId, turn)) &&
              (pool != null ==> pool.View() == Evaluated(pool.config, old(pool.View()), a.clusterId, turn))
    ensures cache.store.items == Remembered(cache, old(cache.store.items), a, tokens, if called then verdict else None, stored)
  {
    var cached := LookUp(cache, a, tokens, looked);
    if cached.Some? {
      return cached, false;
    }
    analysis, called := EvaluateIncident(pool, verdict, a.clusterId, turn);
    label Asked:
    Remember(cache, a, tokens, analysis, stored);
    if pool != null {
      pool.NoneChanged@Asked();
    }
  }

  /** An alert that got a fresh analysis is answered from the cache, without the model, for as long as the entry
      lives, whatever else happens to the store. */
  lemma {:induction false} NextTimeFromCache(
    cache: LlmCache.Cache, items: Store.Items, a: Alert, tokens: seq<string>, answer: Analysis, at: Time,
    calls: seq<Store.Call>, tokens': seq<string>, now: Time)
    requires LlmCache.Usable(cache.tools) && cache.enabled
    requires cache.tools.codec.decodeAnalysis(cache.tools.codec.encodeAnalysis(answer)) == Some(answer)
    requires Store.Ordered(calls, at) && (cache.ttl <= 0 || now <= at + cache.ttl)
    requires forall i | 0 <= i < |calls| :: calls[i].at <= now && !Store.Touches(calls[i].op, LlmCache.ExactKey(cache.tools, a))
    ensures Hit(cache, LlmCache.After(Remembered(cache, items, a, tokens, Some(answer), at), calls), a, tokens', now)
    // a throttled or failed evaluation leaves nothing behind
    ensures Remembered(cache, items, a, tokens, None, at) == items
  {
    LlmCache.SameAlertHits(cache.tools, items, a, tokens, answer, cache.semantic, cache.ttl, at, calls, now);
  }

  // ---- any number of evaluations at once ----

  /** The pool, and which evaluation holds a slot of which cluster. */
  datatype Evaluations = Evaluations(pool: map<string, Bucket>, holding: map<nat, string>)

  /** An evaluation finds its limiter, asks it, and after the model has answered or failed gives its slot
      back; others act between any two of these. */
  datatype EvalStep = Find(cluster: string, at: Time) | Take(r: nat, cluster: string, at: Time) | GiveBack(r: nat, at: Time)

  predicate CanStep(s: Evaluations, step: EvalStep) {
    match step
    case Find(_, _) => true
    case Take(r, _, _) => r !in s.holding
    case GiveBack(r, _) => r in s.holding
  }

  function Stepped(c: Config, s: Evaluations, step: EvalStep): Evaluations
    requires CanStep(s, step)
  {
    match step
    case Find(cluster, at) => s.(pool := Opened(c, s.pool, cluster, at))
    case Take(r, cluster, at) =>
      var m := Opened(c, s.pool, cluster, at);
      var (b, ok) := TryAcquire(c, m[cluster], at);
      Evaluations(m[cluster := b], if ok then s.holding[r := cluster] else s.holding)
    case GiveBack(r, at) =>
      var m := Opened(c, s.pool, s.holding[r], at);
      Evaluations(m[s.holding[r] := GiveUp(m[s.holding[r]])], s.holding - {r})
  }

  function Holders(holding: map<nat, string>, cluster: string): set<nat> {
    set r | r in holding && holding[r] == cluster
  }

  /** The cluster's slots in use are exactly those of its evaluations under way. */
  predicate BalancedFor(c: Config, s: Evaluations, cluster: string) {
    InUse(s.pool, cluster) == |Holders(s.holding, cluster)| <= c.slots
  }

  ghost predicate Balanced(c: Config, s: Evaluations) {
    forall cluster :: BalancedFor(c, s, cluster)
  }

  lemma {:induction false} TakeBalanced(c: Config, s: Evaluations, r: nat, own: string, at: Time, cluster: string)
    requires BalancedFor(c, s, cluster) && r !in s.holding
    ensures BalancedFor(c, Stepped(c, s, Take(r, own, at)), cluster)
  {
    var s' := Stepped(c, s, Take(r, own, at));
    if cluster == own && r in s'.holding {
      assert Holders(s'.holding, cluster) == Holders(s.holding, cluster) + {r};
    } else {
      assert Holders(s'.holding, cluster) == Holders(s.holding, cluster);
    }
  }

  lemma {:induction false} GiveBackBalanced(c: Config, s: Evaluations, r: nat, at: Time, cluster: string)
    requires BalancedFor(c, s, cluster) && r in s.holding
    ensures BalancedFor(c, Stepped(c, s, GiveBack(r, at)), cluster)
  {
    var s' := Stepped(c, s, GiveBack(r, at));
    if cluster == s.holding[r] {
      assert r in Holders(s.holding, cluster);
      assert Holders(s'.holding, cluster) == Holders(s.holding, cluster) - {r};
    } else {
      assert Holders(s'.holding, cluster) == Holders(s.holding, cluster);
    }
  }

  lemma {:induction false} StepBalanced(c: Config, s: Evaluations, step: EvalStep)
    requires Balanced(c, s) && CanStep(s, step)
    ensures Balanced(c, Stepped(c, s, step))
  {
    match step
    case Find(own, at) =>
      forall cluster ensures BalancedFor(c, Stepped(c, s, step), cluster) {
        assert BalancedFor(c, s, cluster);
      }
    case Take(r, own, at) =>
      forall cluster ensures BalancedFor(c, Stepped(c, s, step), cluster) {
        TakeBalanced(c, s, r, own, at, cluster);
      }
    case GiveBack(r, at) =>
      forall cluster ensures BalancedFor(c, Stepped(c, s, step), cluster) {
        GiveBackBalanced(c, s, r, at, cluster);
      }
  }

  predicate Possible(c: Config, s: Evaluations, steps: seq<EvalStep>)
    decreases |steps|
  {
    steps == [] || (CanStep(s, steps[0]) && Possible(c, Stepped(c, s, steps[0]), steps[1..]))
  }

  function After(c: Config, s: Evaluations, steps: seq<EvalStep>): Evaluations
    requires Possible(c, s, steps)
    decreases |steps|
  {
    if steps == [] then s else After(c, Stepped(c, s, steps[0]), steps[1..])
  }

  lemma {:induction false} RunBalanced(c: Config, s: Evaluations, steps: seq<EvalStep>)
    requires Balanced(c, s) && Possible(c, s, steps)
    ensures Balanced(c, After(c, s, steps))
    decreases |steps|
  {
    if steps != [] {
      StepBalanced(c, s, steps[0]);
      RunBalanced(c, Stepped(c, s, steps[0]), steps[1..]);
    }
  }

  const IDLE := Evaluations(map[], map[])

  /** However evaluations of all clusters interleave, each cluster's slots in use are as many as its
      evaluations under way and within the ceiling; when none is under way, none is in use. */
  lemma {:induction false} SlotsBalanced(c: Config, steps: seq<EvalStep>)
    requires Possible(c, IDLE, steps)
    ensures var s := After(c, IDLE, steps);
            (forall cluster :: BalancedFor(c, s, cluster)) &&
            (s.holding == map[] ==> forall cluster :: InUse(s.pool, cluster) == 0)
  {
    forall cluster ensures BalancedFor(c, IDLE, cluster) {
      assert Holders(IDLE.holding, cluster) == {};
    }
    RunBalanced(c, IDLE, steps);
    var s := After(c, IDLE, steps);
    if s.holding == map[] {
      forall cluster ensures InUse(s.pool, cluster) == 0 {
        assert BalancedFor(c, s, cluster);
        assert Holders(s.holding, cluster) == {};
      }
    }
  }

  /** An evaluation left to itself takes these steps: they do to the pool what the two methods above do. */
  lemma {:induction false} StepsAreEvaluation(c: Config, s: Evaluations, r: nat, cluster: string, turn: Turn)
    requires r !in s.holding
    ensures var s1 := Stepped(c, s, Find(cluster, turn.found));
            var s2 := Stepped(c, s1, Take(r, cluster, turn.acquired));
            var s3 := if r in s2.holding then Stepped(c, s2, GiveBack(r, turn.released)) else s2;
            (r in s2.holding <==> Admits(c, s.pool, cluster, turn)) && s3.pool == Evaluated(c, s.pool, cluster, turn) &&
            s3.holding == s.holding
  {
    var s1 := Stepped(c, s, Find(cluster, turn.found));
    var s2 := Stepped(c, s1, Take(r, cluster, turn.acquired));
    if r in s2.holding {
      var s3 := Stepped(c, s2, GiveBack(r, turn.released));
      assert s3.holding == s.holding;
    }
  }

  // ---- silencing ----

  /** `allowed` is None when no alert name is excluded. */
  datatype SilenceClient = SilenceClient(enabled: bool, allowed: Option<set<string>>)

  /** NewClient: blank names are dropped, but a list of nothing else still excludes everything. */
  method NewClient(enabled: bool, allowlist: seq<string>) returns (c: SilenceClient)
    ensures c.enabled == enabled
    ensures c.allowed.None? <==> allowlist == []
    ensures c.allowed.Some? ==>
              forall name :: name in c.allowed.value <==>
                name != "" && exists i | 0 <= i < |allowlist| :: TrimSpace(allowlist[i]) == name
  {
    if |allowlist| == 0 {
      return SilenceClient(enabled, None);
    }
    var allowed: set<string> := {};
    for n := 0 to |allowlist|
      invariant forall name :: name in allowed <==> name != "" && exists i | 0 <= i < n :: TrimSpace(allowlist[i]) == name
    {
      var name := TrimSpace(allowlist[n]);
      if name != "" {
        allowed := allowed + {name};
      }
    }
    return SilenceClient(enabled, Some(allowed));
  }

  const CRITICAL := "critical"

  /** strings.EqualFold against "critical", none of whose letters folds outside ASCII. */
  predicate FoldsToCritical(severity: string) {
    |severity| == |CRITICAL| && forall i | 0 <= i < |CRITICAL| :: LowerChar(severity[i]) == CRITICAL[i]
  }

  datatype Silence = Silence(alertName: string, namespace: string)

  /** CreateSilence: what is posted, if anything. */
  function CreateSilence(c: SilenceClient, a: Alert): Option<Silence> {
    if !c.enabled || FoldsToCritical(a.severity) || (c.allowed.Some? && a.alertName !in c.allowed.value) then None
    else Some(Silence(a.alertName, a.namespace))
  }

  /** maybeSilence */
  function MaybeSilence(c: SilenceClient, a: Alert, analysis: Option<Analysis>): Option<Silence> {
    if analysis.None? || !analysis.value.silence || analysis.value.confidence == "low" then None
    else CreateSilence(c, a)
  }

  lemma {:induction false} FoldsIff(severity: string)
    ensures FoldsToCritical(severity) <==> Lower(severity) == "critical"
  {
    if FoldsToCritical(severity) {
      assert forall i | 0 <= i < |severity| :: Lower(severity)[i] == CRITICAL[i];
    }
  }

  /** Exactly when a silence is posted, and for what: the model asked for it without low confidence, silencing
      is on, the alert is not critical in any case, its name is allowed, and the silence is for this alert's own
      name and namespace. */
  lemma {:induction false} SilenceIff(c: SilenceClient, a: Alert, analysis: Option<Analysis>, posted: Silence)
    ensures MaybeSilence(c, a, analysis) == Some(posted) <==>
            analysis.Some? && analysis.value.silence && analysis.value.confidence != "low" && c.enabled &&
            Lower(a.severity) != "critical" && (c.allowed.Some? ==> a.alertName in c.allowed.value) &&
            posted.alertName == a.alertName && posted.namespace == a.namespace
  {
    FoldsIff(a.severity);
  }

  lemma CriticalFolds()
    ensures FoldsToCritical(CRITICAL)
  {
  }

  /** A silence on behalf of the representative means no member is critical. */
  lemma {:induction false} NeverSilencesCritical(c: SilenceClient, alerts: seq<Alert>, i: nat, analysis: Option<Analysis>)
    requires Correlator.IsRepresentative(alerts, i) && MaybeSilence(c, alerts[i], analysis).Some?
    ensures forall a | a in alerts :: a.severity != CRITICAL
    ensures analysis.value.confidence != "low" && analysis.value.silence && c.enabled
  {
    CriticalFolds();
    assert alerts[i].severity != CRITICAL;
  }

  /** The analysis of a group around its representative: a group of one as a single alert, a larger one
      without the cache. */
  method EvaluateGroup(cache: LlmCache.Cache, pool: Pool?, alerts: seq<Alert>, rep: Alert, tokens: Alert -> seq<string>,
                       verdict: Option<Analysis>, looked: Time, turn: Turn, stored: Time) returns (analysis: Option<Analysis>)
    requires LlmCache.Usable(cache.tools) && (pool != null ==> pool.Valid())
    modifies cache.store, pool, if pool == null then {} else pool.buckets.Values
    ensures pool != null ==> pool.Valid() && SlotsKept(old(pool.View()), pool.View())
    ensures |alerts| != 1 ==> cache.store.items == old(cache.store.items)
    ensures if |alerts| == 1 && Hit(cache, old(cache.store.items), rep, tokens(rep), looked) then analysis.Some?
            else analysis == if pool == null || Admits(pool.config, old(pool.View()), rep.clusterId, turn) then verdict else None
  {
    var called;
    if |alerts| == 1 {
      analysis, called := EvaluateAlert(cache, pool, rep, tokens(rep), verdict, looked, turn, stored);
    } else {
      analysis, called := EvaluateIncident(pool, verdict, rep.clusterId, turn);
    }
  }

  /** processIncident, as far as evaluation and silencing go: the group gets one analysis, a group of
      one as a single alert does, and the representative decides about the silence. */
  method ProcessIncident(c: SilenceClient, cache: LlmCache.Cache, pool: Pool?, alerts: seq<Alert>, tokens: Alert -> seq<string>,
                         verdict: Option<Analysis>, looked: Time, turn: Turn, stored: Time)
    returns (posted: Option<Silence>, analysis: Option<Analysis>)
    requires LlmCache.Usable(cache.tools) && (pool != null ==> pool.Valid())
    modifies cache.store, pool, if pool == null then {} else pool.buckets.Values
    ensures pool != null ==> pool.Valid()
    ensures alerts == [] ==> posted.None? && analysis.None?
    ensures pool != null ==> SlotsKept(old(pool.View()), pool.View())
    // only a group of one is answered from the cache or written to it
    ensures |alerts| != 1 ==> cache.store.items == old(cache.store.items)
    // the representative's cluster pays for the model's verdict, which is had exactly when its limiter grants
    // the call, and the representative decides about the silence
    ensures alerts != [] ==>
              exists i: nat :: Correlator.IsRepresentative(alerts, i) && posted == MaybeSilence(c, alerts[i], analysis) &&
                if |alerts| == 1 && Hit(cache, old(cache.store.items), alerts[i], tokens(alerts[i]), looked) then analysis.Some?
                else analysis == if pool == null || Admits(pool.config, old(pool.View()), alerts[i].clusterId, turn) then verdict else None
    ensures posted.Some? ==> forall a | a in alerts :: a.severity != CRITICAL
  {
    var best := Correlator.Representative(alerts);
    if best.None? {
      return None, None;
    }
    var rep := best.value;
    ghost var i: nat :| Correlator.IsRepresentative(alerts, i) && rep == alerts[i];
    analysis := EvaluateGroup(cache, pool, alerts, rep, tokens, verdict, looked, turn, stored);
    posted := MaybeSilence(c, rep, analysis);
    if posted.Some? {
      NeverSilencesCritical(c, alerts, i, analysis);
    }
  }

  // ---- what the severity spelling does to a group ----

  /** A representative without a rank is the first of a group without ranks. */
  lemma {:induction false} UnrankedRepresentative(alerts: seq<Alert>, i: nat)
    requires Correlator.IsRepresentative(alerts, i)
    ensures Correlator.SeverityRank(alerts[i].severity) == 0 <==> forall a | a in alerts :: Correlator.SeverityRank(a.severity) == 0
    ensures Correlator.SeverityRank(alerts[i].severity) == 0 ==> i == 0
    ensures alerts[i].severity == CRITICAL <==> exists a | a in alerts :: a.severity == CRITICAL
  {
    forall a | a in alerts ensures Correlator.SeverityRank(a.severity) <= Correlator.SeverityRank(alerts[i].severity) {
      var j :| 0 <= j < |alerts| && alerts[j] == a;
    }
    assert alerts[i] in alerts;
    if i > 0 {
      assert Correlator.SeverityRank(alerts[0].severity) < Correlator.SeverityRank(alerts[i].severity);
    }
  }

  /** A severity that folds to critical without being spelled so has no rank. */
  lemma {:induction false} FoldedRank(severity: string)
    ensures FoldsToCritical(severity) ==> severity == CRITICAL || Correlator.SeverityRank(severity) == 0
  {
    assert |"warning"| == 7 && |"info"| == 4;
  }

  /** The client refuses every spelling of critical, but only for the representative, and that is
      chosen by exact spelling. So, everything else permitting, a group escapes being silenced exactly
      when some member is spelled "critical", or the first member is some other spelling of it and no
      member has a rank. */
  lemma {:induction false} GroupSilencedIff(c: SilenceClient, alerts: seq<Alert>, i: nat, analysis: Analysis)
    requires Correlator.IsRepresentative(alerts, i)
    requires c.enabled && (c.allowed.Some? ==> alerts[i].alertName in c.allowed.value)
    requires analysis.silence && analysis.confidence != "low"
    ensures MaybeSilence(c, alerts[i], Some(analysis)).None? <==>
            (exists a | a in alerts :: a.severity == CRITICAL) ||
            (FoldsToCritical(alerts[0].severity) && forall a | a in alerts :: Correlator.SeverityRank(a.severity) == 0)
  {
    CriticalFolds();
    FoldedRank(alerts[i].severity);
    UnrankedRepresentative(alerts, i);
  }

  /** So a capital letter is enough: a group of a warning and an alert spelled "Critical" is silenced. */
  lemma {:induction false} CapitalCriticalSilenced(c: SilenceClient, a: Alert, b: Alert, analysis: Analysis)
    requires a.severity == "Critical" && b.severity == "warning"
    requires c.enabled && c.allowed.None? && analysis.silence && analysis.confidence != "low"
    ensures FoldsToCritical(a.severity) && Correlator.IsRepresentative([a, b], 1)
    ensures MaybeSilence(c, b, Some(analysis)).Some?
  {
    assert |b.severity| == 7;
  }
}
