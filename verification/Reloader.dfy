/** The stat-then-read caches of internal/auth/tenants_reloader.go and internal/auth/tls.go. A loader
    stats the file, compares the modification time with the cached one, reads, parses and stores; a
    writer and other loaders act between any two of these. The certificate loader reads a second file,
    the key, whose time nobody looks at. */
module Reloader {
  import opened Common

  /** The watched file. Every write strictly raises `mtime`. */
  datatype File = File(mtime: Time, content: string)

  /** What a loader makes of the watched file and the key file; the tenants loader has no key file and
      ignores the second text. */
  type Parser<!S> = (string, string) -> Option<S>

  /** At most one result can be had from a watched file, whatever the key file holds: a certificate has
      one matching key, and a pair that does not match is refused. */
  ghost predicate Determined<S>(parse: Parser<S>) {
    forall c, k, k' | parse(c, k).Some? && parse(c, k').Some? :: parse(c, k) == parse(c, k')
  }

  datatype Cached<S> = Cached(snapshot: S, mtime: Time)

  /** A cached entry serves as long as the file is not newer. */
  predicate UpToDate<S>(cached: Option<Cached<S>>, mtime: Time) {
    cached.Some? && mtime <= cached.value.mtime
  }

  // ---- one call, given what the file system answers ----

  datatype Outcome<S> = Changed | Unchanged | Failed | Serving(snapshot: S)

  /** TenantsReloader: `stat` and `data` are the answers of the file system (None for an error),
      `parse` reads the tenants file. */
  class TenantsReloader<S> {
    const parse: string -> Option<S>
    var cached: Option<Cached<S>>

    constructor (parse: string -> Option<S>)
      ensures this.parse == parse && cached == None
    {
      this.parse, cached := parse, None;
    }

    /** reload: on any failure the previous snapshot stays. */
    method Reload(stat: Option<Time>, data: Option<string>) returns (r: Outcome<S>)
      modifies this
      ensures r in {Changed, Unchanged, Failed}
      ensures r.Changed? <==> stat.Some? && !UpToDate(old(cached), stat.value) && data.Some? && parse(data.value).Some?
      ensures r.Unchanged? <==> stat.Some? && UpToDate(old(cached), stat.value)
      ensures cached == if r.Changed? then Some(Cached(parse(data.value).value, stat.value)) else old(cached)
    {
      if stat.None? {
        return Failed;
      }
      if cached.Some? && !(stat.value > cached.value.mtime) {
        return Unchanged;
      }
      if data.None? {
        return Failed;
      }
      var parsed := parse(data.value);
      if parsed.None? {
        return Failed;
      }
      cached := Some(Cached(parsed.value, stat.value));
      return Changed;
    }

    method Current() returns (s: Option<S>)
      ensures s == if cached.Some? then Some(cached.value.snapshot) else None
    {
      if cached.Some? {
        return Some(cached.value.snapshot);
      }
      return None;
    }
  }

  /** certReloader: a failed reload serves the cached key pair when there is one. */
  class CertReloader<S> {
    const parse: Parser<S>
    var cached: Option<Cached<S>>

    constructor (parse: Parser<S>)
      ensures this.parse == parse && cached == None
    {
      this.parse, cached := parse, None;
    }

    method GetCertificate(stat: Option<Time>, stat2: Option<Time>, cert: Option<string>, key: Option<string>) returns (r: Option<S>)
      modifies this
      ensures stat.None? || UpToDate(old(cached), stat.value) ==>
                cached == old(cached) && r == if cached.Some? then Some(cached.value.snapshot) else None
      ensures stat.Some? && !UpToDate(old(cached), stat.value) ==>
                (cached, r) == LoadSpec(parse, old(cached), stat2, cert, key)
    {
      if stat.None? {
        return if cached.Some? then Some(cached.value.snapshot) else None;
      }
      if cached.Some? && !(stat.value > cached.value.mtime) {
        return Some(cached.value.snapshot);
      }
      r := Load(stat2, cert, key);
    }

    method Load(stat: Option<Time>, cert: Option<string>, key: Option<string>) returns (r: Option<S>)
      modifies this
      ensures (cached, r) == LoadSpec(parse, old(cached), stat, cert, key)
    {
      if stat.None? {
        return None;
      }
      if cert.None? || key.None? || parse(cert.value, key.value).None? {
        return if cached.Some? then Some(cached.value.snapshot) else None;
      }
      cached := Some(Cached(parse(cert.value, key.value).value, stat.value));
      return Some(cached.value.snapshot);
    }
  }

  function LoadSpec<S>(parse: Parser<S>, cached: Option<Cached<S>>, stat: Option<Time>, cert: Option<string>, key: Option<string>)
    : (Option<Cached<S>>, Option<S>)
  {
    if stat.None? then (cached, None)
    else if cert.Some? && key.Some? && parse(cert.value, key.value).Some? then
      (Some(Cached(parse(cert.value, key.value).value, stat.value)), parse(cert.value, key.value))
    else (cached, if cached.Some? then Some(cached.value.snapshot) else None)
  }

  // ---- any number of loaders and a writer, interleaved ----

  /** How far a loader is, and the time it carries: it has statted, has found the file newer than the
      cache, or has read and parsed successfully. */
  datatype Loader<S> = Statted(mtime: Time) | Decided(mtime: Time) | Parsed(mtime: Time, snapshot: S)

  datatype State<S> = State(file: File, key: string, cached: Option<Cached<S>>, loaders: map<nat, Loader<S>>)

  datatype Step =
    | Write(file: File)
    | WriteKey(key: string)
    | Stat(l: nat)
    | Decide(l: nat)
    | Restat(l: nat)
    | Read(l: nat, content: string, key: string)
    | Fail(l: nat)
    | Store(l: nat)

  /** A read between writes may return a mixture, so `content` is arbitrary unless the file still is the
      one that was statted, and `key` is arbitrary throughout. The certificate loader stats once more
      after its decision, without deciding again. */
  predicate Enabled<S>(s: State<S>, step: Step, parse: Parser<S>) {
    match step
    case Write(file) => file.mtime > s.file.mtime
    case WriteKey(_) => true
    case Stat(l) => l !in s.loaders
    case Decide(l) => l in s.loaders && s.loaders[l].Statted?
    case Restat(l) => l in s.loaders && s.loaders[l].Decided?
    case Read(l, content, key) =>
      l in s.loaders && s.loaders[l].Decided? && parse(content, key).Some? &&
      (s.file.mtime == s.loaders[l].mtime ==> content == s.file.content)
    case Fail(l) => l in s.loaders
    case Store(l) => l in s.loaders && s.loaders[l].Parsed?
  }

  function Next<S>(s: State<S>, step: Step, parse: Parser<S>): State<S>
    requires Enabled(s, step, parse)
  {
    match step
    case Write(file) => s.(file := file)
    case WriteKey(key) => s.(key := key)
    case Stat(l) => s.(loaders := s.loaders[l := Statted(s.file.mtime)])
    case Decide(l) =>
      if UpToDate(s.cached, s.loaders[l].mtime) then s.(loaders := s.loaders - {l})
      else s.(loaders := s.loaders[l := Decided(s.loaders[l].mtime)])
    case Restat(l) => s.(loaders := s.loaders[l := Decided(s.file.mtime)])
    case Read(l, content, key) => s.(loaders := s.loaders[l := Parsed(s.loaders[l].mtime, parse(content, key).value)])
    case Fail(l) => s.(loaders := s.loaders - {l})
    case Store(l) =>
      s.(cached := Some(Cached(s.loaders[l].snapshot, s.loaders[l].mtime)), loaders := s.loaders - {l})
  }

  /** The snapshot is what the content gives with some key. */
  ghost predicate ParsedFrom<S>(snapshot: S, content: string, parse: Parser<S>) {
    exists key :: parse(content, key) == Some(snapshot)
  }

  /** Nothing carries a time later than the file's, and whatever carries the file's own time carries
      a parse of the file's own content. */
  ghost predicate Coherent<S>(s: State<S>, parse: Parser<S>) {
    (s.cached.Some? ==>
       s.cached.value.mtime <= s.file.mtime &&
       (s.cached.value.mtime == s.file.mtime ==> ParsedFrom(s.cached.value.snapshot, s.file.content, parse))) &&
    forall l | l in s.loaders ::
      s.loaders[l].mtime <= s.file.mtime &&
      (s.loaders[l].Parsed? && s.loaders[l].mtime == s.file.mtime ==> ParsedFrom(s.loaders[l].snapshot, s.file.content, parse))
  }

  lemma {:induction false} StepCoherent<S>(s: State<S>, step: Step, parse: Parser<S>)
    requires Coherent(s, parse) && Enabled(s, step, parse)
    ensures Coherent(Next(s, step, parse), parse)
    // only a successful store changes what is served
    ensures Next(s, step, parse).cached != s.cached ==> step.Store?
  {
    if step.Read? {
      assert ParsedFrom(parse(step.content, step.key).value, step.content, parse);
    }
  }

  predicate Feasible<S>(s: State<S>, run: seq<Step>, parse: Parser<S>)
    decreases |run|
  {
    run == [] || (Enabled(s, run[0], parse) && Feasible(Next(s, run[0], parse), run[1..], parse))
  }

  function End<S>(s: State<S>, run: seq<Step>, parse: Parser<S>): State<S>
    requires Feasible(s, run, parse)
    decreases |run|
  {
    if run == [] then s else End(Next(s, run[0], parse), run[1..], parse)
  }

  lemma {:induction false} RunKeepsCoherent<S>(s: State<S>, run: seq<Step>, parse: Parser<S>)
    requires Coherent(s, parse) && Feasible(s, run, parse)
    ensures Coherent(End(s, run, parse), parse)
    decreases |run|
  {
    if run != [] {
      StepCoherent(s, run[0], parse);
      RunKeepsCoherent(Next(s, run[0], parse), run[1..], parse);
    }
  }

  /** In every interleaving of writes to either file, torn reads, failures and any number of loaders:
      whenever the cached time is the watched file's, the cached snapshot is a parse of the current file,
      and if the current pair parses it is the parse of the current pair. */
  lemma {:induction false} RunCoherent<S>(s: State<S>, run: seq<Step>, parse: Parser<S>)
    requires Coherent(s, parse) && Feasible(s, run, parse)
    ensures var e := End(s, run, parse);
            e.cached.Some? && e.cached.value.mtime == e.file.mtime ==>
              ParsedFrom(e.cached.value.snapshot, e.file.content, parse) &&
              (Determined(parse) && parse(e.file.content, e.key).Some? ==>
                 parse(e.file.content, e.key) == Some(e.cached.value.snapshot))
  {
    RunKeepsCoherent(s, run, parse);
  }

  /** A quiet load catches up: with no write or other store in between, it leaves the current file
      served. */
  lemma {:induction false} PollCatchesUp<S>(s: State<S>, l: nat, parse: Parser<S>)
    requires Coherent(s, parse) && Determined(parse) && l !in s.loaders && parse(s.file.content, s.key).Some?
    ensures var now := Some(Cached(parse(s.file.content, s.key).value, s.file.mtime));
            var s1 := Next(s, Stat(l), parse);
            var s2 := Next(s1, Decide(l), parse);
            if l in s2.loaders then
              Enabled(s2, Read(l, s.file.content, s.key), parse) &&
              (var s3 := Next(s2, Read(l, s.file.content, s.key), parse);
               Enabled(s3, Store(l), parse) && Next(s3, Store(l), parse).cached == now)
            else s2.cached == now
  {
  }

  /** Which writes a loader can notice: the served snapshot being current, a rewritten file is loaded
      again exactly when its time is later. A rewrite that keeps the time is never noticed, and then
      the cached time is the file's while the snapshot is not. */
  lemma {:induction false} NoticedIffLater<S>(s: State<S>, content: string, mtime: Time, l: nat, parse: Parser<S>)
    requires Coherent(s, parse) && l !in s.loaders && s.cached.Some? && s.cached.value.mtime == s.file.mtime
    ensures var s' := s.(file := File(mtime, content));
            l in Next(Next(s', Stat(l), parse), Decide(l), parse).loaders <==> mtime > s.file.mtime
    ensures mtime == s.file.mtime && !ParsedFrom(s.cached.value.snapshot, content, parse) ==>
              !Coherent(s.(file := File(mtime, content)), parse)
  {
  }

  /** One undisturbed call of GetCertificate is a passage through these steps, and does to the cache what it
      does: an unchanged file ends it, a pair that reads and matches is restatted, read and stored, and any
      other pair fails and leaves the cache, which is then served. */
  lemma {:induction false} StepsAreGetCertificate<S>(s: State<S>, l: nat, parse: Parser<S>)
    requires l !in s.loaders
    ensures var s1 := Next(s, Stat(l), parse);
            var s2 := Next(s1, Decide(l), parse);
            if UpToDate(s.cached, s.file.mtime) then s2 == s
            else
              Enabled(s2, Restat(l), parse) &&
              var s3 := Next(s2, Restat(l), parse);
              var (cached, served) := LoadSpec(parse, s.cached, Some(s.file.mtime), Some(s.file.content), Some(s.key));
              if parse(s.file.content, s.key).Some? then
                Enabled(s3, Read(l, s.file.content, s.key), parse) &&
                var s4 := Next(s3, Read(l, s.file.content, s.key), parse);
                Enabled(s4, Store(l), parse) &&
                Next(s4, Store(l), parse) == s.(cached := cached) && served == parse(s.file.content, s.key)
              else Enabled(s3, Fail(l), parse) && Next(s3, Fail(l), parse) == s.(cached := cached) && cached == s.cached &&
                   served == if s.cached.Some? then Some(s.cached.value.snapshot) else None
  {
    var s1 := Next(s, Stat(l), parse);
    assert s1.loaders - {l} == s.loaders;
    var s2 := Next(s1, Decide(l), parse);
    if !UpToDate(s.cached, s.file.mtime) {
      var s3 := Next(s2, Restat(l), parse);
      assert s3.loaders - {l} == s.loaders;
    }
  }

  /** When a file cannot be read, the load keeps the cache and serves it, except that a certificate file that
      cannot even be statted again serves nothing. */
  lemma {:induction false} UnreadableKeeps<S>(parse: Parser<S>, cached: Option<Cached<S>>, stat: Option<Time>, cert: Option<string>, key: Option<string>)
    requires stat.None? || cert.None? || key.None?
    ensures LoadSpec(parse, cached, stat, cert, key) ==
            (cached, if stat.Some? && cached.Some? then Some(cached.value.snapshot) else None)
  {
  }

  // ---- can an older snapshot replace a newer one? ----

  function CachedTime<S>(s: State<S>): Option<Time> {
    if s.cached.Some? then Some(s.cached.value.mtime) else None
  }

  predicate NotBack(before: Option<Time>, after: Option<Time>) {
    before.Some? ==> after.Some? && before.value <= after.value
  }

  /** Along the whole run the cached time never goes back. */
  predicate Forward<S>(s: State<S>, run: seq<Step>, parse: Parser<S>)
    requires Feasible(s, run, parse)
    decreases |run|
  {
    run == [] ||
    (NotBack(CachedTime(s), CachedTime(Next(s, run[0], parse))) && Forward(Next(s, run[0], parse), run[1..], parse))
  }

  /** At no point of the run are more than `n` loaders under way. */
  predicate AtMost<S>(s: State<S>, run: seq<Step>, n: nat, parse: Parser<S>)
    requires Feasible(s, run, parse)
    decreases |run|
  {
    |s.loaders| <= n && (run == [] || AtMost(Next(s, run[0], parse), run[1..], n, parse))
  }

  /** A loader that has decided carries a later time than the cache. */
  ghost predicate Ahead<S>(s: State<S>) {
    forall l | l in s.loaders && !s.loaders[l].Statted? :: s.cached.None? || s.cached.value.mtime < s.loaders[l].mtime
  }

  lemma OnlyOne<S>(loaders: map<nat, Loader<S>>, l: nat)
    requires l in loaders && |loaders| <= 1
    ensures loaders - {l} == map[]
  {
    assert (loaders - {l}).Keys == loaders.Keys - {l};
    assert |loaders.Keys - {l}| == 0;
  }

  lemma {:induction false} StepAhead<S>(s: State<S>, step: Step, parse: Parser<S>)
    requires Coherent(s, parse) && Ahead(s) && |s.loaders| <= 1 && Enabled(s, step, parse)
    ensures Ahead(Next(s, step, parse)) && NotBack(CachedTime(s), CachedTime(Next(s, step, parse)))
  {
    if step.Store? {
      OnlyOne(s.loaders, step.l);
    }
  }

  lemma {:induction false} LoneLoaderForward<S>(s: State<S>, run: seq<Step>, parse: Parser<S>)
    requires Coherent(s, parse) && Ahead(s) && Feasible(s, run, parse) && AtMost(s, run, 1, parse)
    ensures Forward(s, run, parse)
    decreases |run|
  {
    if run != [] {
      StepAhead(s, run[0], parse);
      StepCoherent(s, run[0], parse);
      LoneLoaderForward(Next(s, run[0], parse), run[1..], parse);
    }
  }

  lemma {:induction false} Cons<S>(s: State<S>, step: Step, rest: seq<Step>, n: nat, parse: Parser<S>)
    requires Enabled(s, step, parse) && |s.loaders| <= n
    requires Feasible(Next(s, step, parse), rest, parse) && AtMost(Next(s, step, parse), rest, n, parse)
    ensures Feasible(s, [step] + rest, parse) && AtMost(s, [step] + rest, n, parse)
    ensures Forward(s, [step] + rest, parse) ==> Forward(Next(s, step, parse), rest, parse)
  {
    assert ([step] + rest)[1..] == rest;
  }

  /** The steps of the certificate loader from its first stat to a successful parse. */
  function Loading(l: nat, content: string, key: string): seq<Step> {
    [Stat(l)] + ([Decide(l)] + ([Restat(l)] + [Read(l, content, key)]))
  }

  lemma LoadingThen(l: nat, content: string, key: string, rest: seq<Step>)
    ensures Loading(l, content, key) + rest == [Stat(l)] + ([Decide(l)] + ([Restat(l)] + ([Read(l, content, key)] + rest)))
  {
  }

  /** The state they lead to when the file does not change meanwhile. */
  function Loaded<S>(s: State<S>, l: nat, snapshot: S): State<S> {
    s.(loaders := s.loaders[l := Parsed(s.file.mtime, snapshot)])
  }

  lemma {:induction false} DecidingLeadsTo<S>(s: State<S>, l: nat, rest: seq<Step>, n: nat, parse: Parser<S>)
    requires l !in s.loaders && |s.loaders| < n && !UpToDate(s.cached, s.file.mtime)
    requires var s' := s.(loaders := s.loaders[l := Decided(s.file.mtime)]);
             Feasible(s', rest, parse) && AtMost(s', rest, n, parse)
    ensures var run := [Stat(l)] + ([Decide(l)] + rest);
            Feasible(s, run, parse) && AtMost(s, run, n, parse) &&
            (Forward(s, run, parse) ==> Forward(s.(loaders := s.loaders[l := Decided(s.file.mtime)]), rest, parse))
  {
    var s1 := Next(s, Stat(l), parse);
    assert Next(s1, Decide(l), parse) == s.(loaders := s.loaders[l := Decided(s.file.mtime)]);
    assert s1.loaders.Keys == s.loaders.Keys + {l};
    Cons(s1, Decide(l), rest, n, parse);
    Cons(s, Stat(l), [Decide(l)] + rest, n, parse);
  }

  lemma {:induction false} ReadingLeadsTo<S>(s: State<S>, l: nat, key: string, rest: seq<Step>, n: nat, parse: Parser<S>)
    requires l in s.loaders && s.loaders[l].Decided? && |s.loaders| <= n && parse(s.file.content, key).Some?
    requires var s' := Loaded(s, l, parse(s.file.content, key).value); Feasible(s', rest, parse) && AtMost(s', rest, n, parse)
    ensures var run := [Restat(l)] + ([Read(l, s.file.content, key)] + rest);
            Feasible(s, run, parse) && AtMost(s, run, n, parse) &&
            (Forward(s, run, parse) ==> Forward(Loaded(s, l, parse(s.file.content, key).value), rest, parse))
  {
    var s1 := Next(s, Restat(l), parse);
    var last := Read(l, s.file.content, key);
    assert Next(s1, last, parse) == Loaded(s, l, parse(s.file.content, key).value);
    assert s1.loaders.Keys == s.loaders.Keys;
    Cons(s1, last, rest, n, parse);
    Cons(s, Restat(l), [last] + rest, n, parse);
  }

  lemma {:induction false} LoadingLeadsTo<S>(s: State<S>, l: nat, key: string, rest: seq<Step>, n: nat, parse: Parser<S>)
    requires l !in s.loaders && |s.loaders| < n && !UpToDate(s.cached, s.file.mtime) && parse(s.file.content, key).Some?
    requires Feasible(Loaded(s, l, parse(s.file.content, key).value), rest, parse)
    requires AtMost(Loaded(s, l, parse(s.file.content, key).value), rest, n, parse)
    ensures var run := Loading(l, s.file.content, key) + rest;
            Feasible(s, run, parse) && AtMost(s, run, n, parse) &&
            (Forward(s, run, parse) ==> Forward(Loaded(s, l, parse(s.file.content, key).value), rest, parse))
  {
    var decided := s.(loaders := s.loaders[l := Decided(s.file.mtime)]);
    var reading := [Restat(l)] + ([Read(l, s.file.content, key)] + rest);
    assert decided.loaders.Keys == s.loaders.Keys + {l};
    assert Loaded(decided, l, parse(s.file.content, key).value) == Loaded(s, l, parse(s.file.content, key).value);
    ReadingLeadsTo(decided, l, key, rest, n, parse);
    DecidingLeadsTo(s, l, reading, n, parse);
    LoadingThen(l, s.file.content, key, rest);
  }

  /** Two handshakes that both find the certificate changed; the first is slow to store, a newer
      certificate arrives meanwhile, and the second loads and stores that. */
  function SlowStore(first: File, second: File, key: string): seq<Step> {
    Loading(0, first.content, key) + ([Write(second)] + (Loading(1, second.content, key) + [Store(1), Store(0)]))
  }

  /** Then the first store puts the older pair back. */
  lemma {:induction false} ConcurrentLoadersRegress<S>(cached: Cached<S>, first: File, second: File, key: string, parse: Parser<S>)
    requires cached.mtime < first.mtime < second.mtime && parse(first.content, key).Some? && parse(second.content, key).Some?
    ensures var s := State(first, key, Some(cached), map[]);
            var run := SlowStore(first, second, key);
            Coherent(s, parse) && Feasible(s, run, parse) && AtMost(s, run, 2, parse) && !Forward(s, run, parse)
  {
    var s := State(first, key, Some(cached), map[]);
    var one := Loaded(s, 0, parse(first.content, key).value);
    var written := Next(one, Write(second), parse);
    var both := Loaded(written, 1, parse(second.content, key).value);
    StoresRegress(both, parse);
    LoadingLeadsTo(written, 1, key, [Store(1), Store(0)], 2, parse);
    var rest := Loading(1, second.content, key) + [Store(1), Store(0)];
    Cons(one, Write(second), rest, 2, parse);
    LoadingLeadsTo(s, 0, key, [Write(second)] + rest, 2, parse);
  }

  lemma {:induction false} StoresRegress<S>(s: State<S>, parse: Parser<S>)
    requires s.loaders.Keys == {0, 1} && s.loaders[0].Parsed? && s.loaders[1].Parsed? && s.loaders[0].mtime < s.loaders[1].mtime
    ensures Feasible(s, [Store(1), Store(0)], parse) && AtMost(s, [Store(1), Store(0)], 2, parse)
    ensures !Forward(s, [Store(1), Store(0)], parse)
  {
    var s1 := Next(s, Store(1), parse);
    var s2 := Next(s1, Store(0), parse);
    assert s1.loaders.Keys == {0} && s2.loaders.Keys == {};
    Cons(s1, Store(0), [], 2, parse);
    Cons(s, Store(1), [Store(0)], 2, parse);
    assert [Store(1)] + [Store(0)] == [Store(1), Store(0)] && [Store(0)] + [] == [Store(0)];
  }

  /** In every run from a coherent state without loaders under way and with never more than `n` of them,
      the cached time never goes back. */
  ghost predicate NeverBack<S(!new)>(n: nat, parse: Parser<S>) {
    forall s: State<S>, run | Coherent(s, parse) && s.loaders == map[] && Feasible(s, run, parse) && AtMost(s, run, n, parse) ::
      Forward(s, run, parse)
  }

  /** For a parser that accepts something at all, that is so if and only if loaders never overlap: it holds
      of the tenants poll, which is alone, and of handshakes one at a time, and of nothing more. */
  lemma {:induction false} NeverBackIffAlone<S(!new)>(n: nat, content: string, key: string, parse: Parser<S>)
    requires parse(content, key).Some?
    ensures NeverBack(n, parse) <==> n <= 1
  {
    if n <= 1 {
      forall s: State<S>, run | Coherent(s, parse) && s.loaders == map[] && Feasible(s, run, parse) && AtMost(s, run, n, parse)
        ensures Forward(s, run, parse)
      {
        AtMostMore(s, run, n, 1, parse);
        LoneLoaderForward(s, run, parse);
      }
    } else {
      var first, second := File(1, content), File(2, content);
      var cached := Cached(parse(content, key).value, 0);
      ConcurrentLoadersRegress(cached, first, second, key, parse);
      AtMostMore(State(first, key, Some(cached), map[]), SlowStore(first, second, key), 2, n, parse);
    }
  }

  lemma {:induction false} AtMostMore<S>(s: State<S>, run: seq<Step>, n: nat, m: nat, parse: Parser<S>)
    requires Feasible(s, run, parse) && AtMost(s, run, n, parse) && n <= m
    ensures AtMost(s, run, m, parse)
    decreases |run|
  {
    if run != [] {
      AtMostMore(Next(s, run[0], parse), run[1..], n, m, parse);
    }
  }
}
