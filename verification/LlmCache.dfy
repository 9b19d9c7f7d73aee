/** The two-layer analysis cache of internal/llmcache/llmcache.go over the TTL store. */
module LlmCache {
  import opened Common
  import opened Text
  import opened Store
  import opened Embedding
  import opened Evaluator
  import opened Dedup

  datatype Entry = Entry(vec: Vector, analysis: Analysis)

  /** JSON for the two kinds of stored value; decoding yields None for malformed text and for an entry
      without an analysis. */
  datatype Codec = Codec(
    encodeAnalysis: Analysis -> string,
    decodeAnalysis: string -> Option<Analysis>,
    encodeEntry: Entry -> string,
    decodeEntry: string -> Option<Entry>)

  // ---- the scan ----

  /** How well one stored value matches; malformed values do not match at all. */
  function Score(query: Vector, raw: string, codec: Codec, sqrt: Root): real
    requires IsRoot(sqrt)
  {
    var e := codec.decodeEntry(raw);
    if e.None? then 0.0 else Similarity(query, e.value.vec, sqrt)
  }

  /** The best score, never below zero. */
  function BestScore(query: Vector, vals: seq<string>, codec: Codec, sqrt: Root): real
    requires IsRoot(sqrt)
  {
    if vals == [] then 0.0
    else
      var best, s := BestScore(query, vals[..|vals| - 1], codec, sqrt), Score(query, vals[|vals| - 1], codec, sqrt);
      if s > best then s else best
  }

  /** It is the maximum: at least every score, and reached by one of them unless none is positive. */
  lemma {:induction false} BestScoreIsMaximum(query: Vector, vals: seq<string>, codec: Codec, sqrt: Root)
    requires IsRoot(sqrt)
    ensures var best := BestScore(query, vals, codec, sqrt);
            best >= 0.0 && (forall v | v in vals :: Score(query, v, codec, sqrt) <= best) &&
            (best > 0.0 ==> exists v | v in vals :: Score(query, v, codec, sqrt) == best)
  {
    if vals != [] {
      var n := |vals| - 1;
      BestScoreIsMaximum(query, vals[..n], codec, sqrt);
      assert vals == vals[..n] + [vals[n]];
    }
  }

  /** So the order in which the store lists the values does not matter. */
  lemma {:induction false} BestScoreUnordered(query: Vector, vals: seq<string>, vals': seq<string>, codec: Codec, sqrt: Root)
    requires IsRoot(sqrt) && multiset(vals) == multiset(vals')
    ensures BestScore(query, vals, codec, sqrt) == BestScore(query, vals', codec, sqrt)
  {
    BestScoreIsMaximum(query, vals, codec, sqrt);
    BestScoreIsMaximum(query, vals', codec, sqrt);
    assert forall v :: v in vals <==> v in multiset(vals);
    assert forall v :: v in vals' <==> v in multiset(vals');
  }

  /** semanticLookup over the listed values. */
  method SemanticLookup(query: Vector, vals: seq<string>, codec: Codec, threshold: real, sqrt: Root)
    returns (hit: Option<Analysis>, similarity: real)
    requires IsRoot(sqrt)
    ensures hit.Some? <==> BestScore(query, vals, codec, sqrt) > 0.0 && BestScore(query, vals, codec, sqrt) >= threshold
    ensures hit.Some? ==> similarity == BestScore(query, vals, codec, sqrt)
    ensures hit.Some? ==> exists v | v in vals ::
              Score(query, v, codec, sqrt) == similarity && codec.decodeEntry(v).Some? &&
              codec.decodeEntry(v).value.analysis == hit.value
  {
    var best: Option<Analysis> := None;
    var bestSim := 0.0;
    for i := 0 to |vals|
      invariant bestSim == BestScore(query, vals[..i], codec, sqrt)
      invariant best.Some? <==> bestSim > 0.0
      invariant best.Some? ==> exists v | v in vals[..i] ::
                  Score(query, v, codec, sqrt) == bestSim && codec.decodeEntry(v).Some? &&
                  codec.decodeEntry(v).value.analysis == best.value
    {
      BestScoreIsMaximum(query, vals[..i], codec, sqrt);
      assert vals[..i + 1] == vals[..i] + [vals[i]] && vals[..i + 1][..i] == vals[..i];
      var e := codec.decodeEntry(vals[i]);
      if e.None? {
        continue;
      }
      var sim := Cosine(query, e.value.vec, sqrt);
      if sim > bestSim {
        bestSim := sim;
        best := Some(e.value.analysis);
        assert vals[i] in vals[..i + 1];
      }
    }
    assert vals[..|vals|] == vals;
    if best.Some? && bestSim >= threshold {
      return best, bestSim;
    }
    return None, 0.0;
  }

  // ---- the cache ----

  /** What the cache asks of its surroundings: digest, embedder, square root and JSON. */
  datatype Tools = Tools(sha: Digest, hashes: Hashes, dim: nat, sqrt: Root, codec: Codec)

  ghost predicate Usable(k: Tools) { k.dim > 0 && IsRoot(k.sqrt) }

  function ExactKey(k: Tools, a: Alert): string { "cache:" + k.sha(RawKey(a)) }

  function VecKey(k: Tools, a: Alert): string { "vec:" + k.sha(RawKey(a)) }

  function Query(k: Tools, tokens: seq<string>): Vector
    requires Usable(k)
  {
    Embedded(k.hashes, k.dim, tokens, k.sqrt)
  }

  /** The values the semantic layer scans, in some order. */
  ghost predicate Lists(vals: seq<string>, items: Items, now: Time) {
    multiset(vals) == Values(Matching(items, "vec:", now))
  }

  ghost predicate SemanticHit(k: Tools, items: Items, tokens: seq<string>, threshold: real, now: Time)
    requires Usable(k)
  {
    forall vals | Lists(vals, items, now) ::
      var best := BestScore(Query(k, tokens), vals, k.codec, k.sqrt); best > 0.0 && best >= threshold
  }

  /** `analysis` comes from a listed entry that scores best. */
  ghost predicate BestEntry(k: Tools, items: Items, tokens: seq<string>, now: Time, analysis: Analysis)
    requires Usable(k)
  {
    exists vals, v | Lists(vals, items, now) && v in vals :: ScoresBest(k, tokens, vals, v, analysis)
  }

  ghost predicate ScoresBest(k: Tools, tokens: seq<string>, vals: seq<string>, v: string, analysis: Analysis)
    requires Usable(k)
  {
    Score(Query(k, tokens), v, k.codec, k.sqrt) == BestScore(Query(k, tokens), vals, k.codec, k.sqrt) &&
    k.codec.decodeEntry(v).Some? && k.codec.decodeEntry(v).value.analysis == analysis
  }

  class Cache {
    const enabled: bool
    const semantic: bool
    const ttl: Time
    const threshold: real
    const store: Memory
    const tools: Tools

    constructor (enabled: bool, semantic: bool, ttl: Time, threshold: real, store: Memory, tools: Tools)
      ensures this.enabled == enabled && this.semantic == semantic && this.ttl == ttl
      ensures this.threshold == threshold && this.store == store && this.tools == tools
    {
      this.enabled, this.semantic, this.ttl := enabled, semantic, ttl;
      this.threshold, this.store, this.tools := threshold, store, tools;
    }

    /** Get: `tokens` are the tokens of the alert's signature. */
    method Get(a: Alert, tokens: seq<string>, now: Time) returns (r: Option<Analysis>)
      requires Usable(tools)
      ensures !enabled ==> r.None?
      ensures enabled && ExactHit(tools, store.items, a, now).Some? ==> r == ExactHit(tools, store.items, a, now)
      ensures enabled && ExactHit(tools, store.items, a, now).None? ==>
                (r.Some? <==> semantic && SemanticHit(tools, store.items, tokens, threshold, now)) &&
                (r.Some? ==> BestEntry(tools, store.items, tokens, now, r.value))
    {
      if !enabled {
        return None;
      }
      var data := store.Get("cache:" + tools.sha(RawKey(a)), now);
      if data.Some? {
        var exact := tools.codec.decodeAnalysis(data.value);
        if exact.Some? {
          return exact;
        }
      }
      if semantic {
        var vals := store.ListByPrefix("vec:", now);
        var sim;
        r, sim := SemanticLookup(Query(tools, tokens), vals, tools.codec, threshold, tools.sqrt);
        forall other | Lists(other, store.items, now)
          ensures BestScore(Query(tools, tokens), other, tools.codec, tools.sqrt) ==
                  BestScore(Query(tools, tokens), vals, tools.codec, tools.sqrt)
        {
          BestScoreUnordered(Query(tools, tokens), other, vals, tools.codec, tools.sqrt);
        }
        assert Lists(vals, store.items, now);
        if r.Some? {
          ghost var v :| v in vals && ScoresBest(tools, tokens, vals, v, r.value);
        }
        return;
      }
      return None;
    }

    method Set(a: Alert, tokens: seq<string>, analysis: Analysis, now: Time)
      requires Usable(tools)
      modifies store
      ensures store.items == if enabled then Stored(tools, old(store.items), a, tokens, analysis, semantic, ttl, now) else old(store.items)
    {
      if !enabled {
        return;
      }
      store.Set("cache:" + tools.sha(RawKey(a)), tools.codec.encodeAnalysis(analysis), ttl, now);
      if semantic {
        store.Set("vec:" + tools.sha(RawKey(a)), tools.codec.encodeEntry(Entry(Query(tools, tokens), analysis)), ttl, now);
      }
    }
  }

  function ExactHit(k: Tools, items: Items, a: Alert, now: Time): Option<Analysis> {
    var data := Lookup(items, ExactKey(k, a), now);
    if data.None? then None else k.codec.decodeAnalysis(data.value)
  }

  function Stored(k: Tools, items: Items, a: Alert, tokens: seq<string>, analysis: Analysis, semantic: bool, ttl: Time, now: Time): Items
    requires Usable(k)
  {
    var items := Put(items, ExactKey(k, a), k.codec.encodeAnalysis(analysis), ttl, now);
    if semantic then Put(items, VecKey(k, a), k.codec.encodeEntry(Entry(Query(k, tokens), analysis)), ttl, now) else items
  }

  // ---- a cached signature is found again ----

  lemma {:induction false} ListedValue(m: Items, key: string)
    requires key in m
    ensures m[key].val in Values(m)
  {
    ValuesRemove(m, key);
  }

  lemma {:induction false} EntrySurvives(m: Items, key: string, calls: seq<Call>, start: Time, until: Time)
    requires key in m && Ordered(calls, start)
    requires forall i | 0 <= i < |calls| :: calls[i].at <= until && !Touches(calls[i].op, key)
    requires m[key].expiresAt.None? || until <= m[key].expiresAt.value
    ensures key in After(m, calls) && After(m, calls)[key] == m[key]
    decreases |calls|
  {
    if calls != [] {
      UntouchedStays(m, calls[0].op, calls[0].at, key);
      EntrySurvives(Effect(m, calls[0].op, calls[0].at), key, calls[1..], calls[0].at, until);
    }
  }

  /** The store after a sequence of operations. */
  function After(m: Items, calls: seq<Call>): Items
    decreases |calls|
  {
    if calls == [] then m else After(Effect(m, calls[0].op, calls[0].at), calls[1..])
  }

  /** An alert that was cached is an exact hit as long as the entry lives, with the analysis that was
      stored. */
  lemma {:induction false} SameAlertHits(
    k: Tools, items: Items, a: Alert, tokens: seq<string>, analysis: Analysis, semantic: bool, ttl: Time, stored: Time,
    calls: seq<Call>, now: Time)
    requires Usable(k) && k.codec.decodeAnalysis(k.codec.encodeAnalysis(analysis)) == Some(analysis)
    requires Ordered(calls, stored) && (ttl <= 0 || now <= stored + ttl)
    requires forall i | 0 <= i < |calls| :: calls[i].at <= now && !Touches(calls[i].op, ExactKey(k, a))
    ensures ExactHit(k, After(Stored(k, items, a, tokens, analysis, semantic, ttl, stored), calls), a, now) == Some(analysis)
  {
    assert ExactKey(k, a)[0] != VecKey(k, a)[0];
    EntrySurvives(Stored(k, items, a, tokens, analysis, semantic, ttl, stored), ExactKey(k, a), calls, stored, now);
  }

  /** An exact hit belongs to the alert's own key: caching another alert changes it exactly when the two
      digests agree, and then the other's analysis is found. */
  lemma {:induction false} OthersLeaveExactHit(
    k: Tools, items: Items, a: Alert, b: Alert, tokens: seq<string>, analysis: Analysis, semantic: bool, ttl: Time, stored: Time, now: Time)
    requires Usable(k) && k.codec.decodeAnalysis(k.codec.encodeAnalysis(analysis)) == Some(analysis)
    requires stored <= now && (ttl <= 0 || now <= stored + ttl)
    ensures ExactHit(k, Stored(k, items, b, tokens, analysis, semantic, ttl, stored), a, now) ==
            if k.sha(RawKey(a)) == k.sha(RawKey(b)) then Some(analysis) else ExactHit(k, items, a, now)
  {
    Prepend("cache:", k.sha(RawKey(a)), k.sha(RawKey(b)));
    assert ExactKey(k, a)[0] != VecKey(k, b)[0];
  }

  lemma {:induction false} EntryKept(m: Items, key: string, calls: seq<Call>)
    requires forall i | 0 <= i < |calls| :: !Touches(calls[i].op, key)
    ensures key in After(m, calls) ==> key in m && After(m, calls)[key] == m[key]
    decreases |calls|
  {
    if calls != [] {
      UntouchedStays(m, calls[0].op, calls[0].at, key);
      EntryKept(Effect(m, calls[0].op, calls[0].at), key, calls[1..]);
    }
  }

  /** A cached analysis does not outlive its ttl: unless the alert is cached again, there is no exact hit
      after that, swept or not. */
  lemma {:induction false} ExactHitEnds(
    k: Tools, items: Items, a: Alert, tokens: seq<string>, analysis: Analysis, semantic: bool, ttl: Time, stored: Time,
    calls: seq<Call>, now: Time)
    requires Usable(k) && ttl > 0 && now > stored + ttl
    requires forall i | 0 <= i < |calls| :: !Touches(calls[i].op, ExactKey(k, a))
    ensures ExactHit(k, After(Stored(k, items, a, tokens, analysis, semantic, ttl, stored), calls), a, now) == None
  {
    assert ExactKey(k, a)[0] != VecKey(k, a)[0];
    EntryKept(Stored(k, items, a, tokens, analysis, semantic, ttl, stored), ExactKey(k, a), calls);
  }

  /** An alert whose signature has the tokens of a cached one, in any order, is a semantic hit as long
      as the entry lives, whatever else happened to the store: provided the embedding is not zero and
      the threshold is at most one. */
  lemma {:induction false} SameSignatureHits(
    k: Tools, items: Items, a: Alert, tokens: seq<string>, analysis: Analysis, ttl: Time, stored: Time,
    calls: seq<Call>, tokens': seq<string>, threshold: real, now: Time)
    requires Usable(k) && threshold <= 1.0
    requires k.codec.decodeEntry(k.codec.encodeEntry(Entry(Query(k, tokens), analysis))) == Some(Entry(Query(k, tokens), analysis))
    requires multiset(tokens) == multiset(tokens')
    requires exists i | 0 <= i < k.dim :: Counts(k.hashes, k.dim, tokens)[i] != 0.0
    requires Ordered(calls, stored) && (ttl <= 0 || now <= stored + ttl)
    requires forall i | 0 <= i < |calls| :: calls[i].at <= now && !Touches(calls[i].op, VecKey(k, a))
    ensures SemanticHit(k, After(Stored(k, items, a, tokens, analysis, true, ttl, stored), calls), tokens', threshold, now)
  {
    var m, key := Stored(k, items, a, tokens, analysis, true, ttl, stored), VecKey(k, a);
    EntrySurvives(m, key, calls, stored, now);
    var m' := After(m, calls);
    var raw := k.codec.encodeEntry(Entry(Query(k, tokens), analysis));
    OrderIrrelevant(k.hashes, k.dim, tokens, tokens', k.sqrt);
    var counts := Counts(k.hashes, k.dim, tokens);
    DotSelfZero(counts);
    EmbeddedUnit(counts, k.sqrt);
    SelfSimilarity(Query(k, tokens), k.sqrt);
    assert Score(Query(k, tokens'), raw, k.codec, k.sqrt) == 1.0;
    assert key in Matching(m', "vec:", now);
    ListedValue(Matching(m', "vec:", now), key);
    forall vals | Lists(vals, m', now)
      ensures var best := BestScore(Query(k, tokens'), vals, k.codec, k.sqrt); best > 0.0 && best >= threshold
    {
      BestScoreIsMaximum(Query(k, tokens'), vals, k.codec, k.sqrt);
      assert raw in multiset(vals);
      assert raw in vals;
    }
  }
}
