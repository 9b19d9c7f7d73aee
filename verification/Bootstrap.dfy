/** The one-time bootstrap token, internal/auth/bootstrap.go: the handler over the store, and the
    protocol of concurrent handlers that check, claim, sign and possibly roll back. */
module Bootstrap {
  import opened Common
  import opened Text
  import opened Store
  import opened Identity

  const DAY: Time := 24 * HOUR

  function UsedKey(prefix: string, cluster: string): string { prefix + "bootstrap:used:" + cluster }

  predicate TokenExpired(expiresAt: Option<Time>, now: Time) {
    expiresAt.Some? && now > expiresAt.value
  }

  /** The marker lives for the rest of the bootstrap window, and at least a day. */
  function MarkerTtl(expiresAt: Option<Time>, now: Time): Time {
    if expiresAt.Some? && expiresAt.value - now > DAY then expiresAt.value - now else DAY
  }

  datatype Input = Input(clusterId: string, token: string, csr: string)

  /** Crashed: the signer panicked, so neither an answer nor a rollback followed. */
  datatype Outcome = Granted(leaf: Leaf) | Invalid | Unauthorized | Internal | Crashed

  /** Tenant known, not revoked, window open, and the token's digest is the configured one. */
  predicate Eligible(tenants: Tenants, input: Input, sha: string -> string, now: Time) {
    Active(tenants, input.clusterId) &&
    (var t := tenants[input.clusterId];
     !TokenExpired(t.bootstrapExpiresAt, now) &&
     TrimPrefix(Lower(t.tokenHash), "sha256:") == sha(input.token))
  }

  /** What a request that cannot claim the token is told, and None for one that can. */
  function Refusal(items: Items, key: string, tenants: Option<Tenants>, input: Input, sha: string -> string,
                   checked: Time, claim: Time): Option<Outcome> {
    if input.clusterId == "" || input.token == "" || input.csr == "" then Some(Invalid)
    else if tenants.None? then Some(Internal)
    else if !Eligible(tenants.value, input, sha, checked) || Live(items, key, claim) then Some(Unauthorized)
    else None
  }

  /** The answer and the store afterwards: a refused request leaves the store alone, a granted one
      leaves the marker, a request whose signing fails leaves none, and one whose signing panics
      leaves its marker behind. */
  function Handled(items: Items, prefix: string, tenants: Option<Tenants>, input: Input, sha: string -> string,
                   csrGood: bool, max: Time, at: Readings): (Outcome, Items)
  {
    var key := UsedKey(prefix, input.clusterId);
    var refusal := Refusal(items, key, tenants, input, sha, at.checked, at.claim);
    if refusal.Some? then (refusal.value, items)
    else if !csrGood then (Invalid, items - {key})
    else
      var t := tenants.value[input.clusterId];
      var leaf := Sign(Identity(t.tenantId, t.clusterId), t.certDuration, max, at.signed);
      (if leaf.Some? then Granted(leaf.value) else Crashed,
       Put(items, key, "\U{1}", MarkerTtl(t.bootstrapExpiresAt, at.timed), at.claim))
  }

  /** The clock readings of one request: for the window, for the marker's ttl, in the store and in the
      signer. */
  datatype Readings = Readings(checked: Time, timed: Time, claim: Time, signed: Time)

  /** BootstrapHandler.Issue. `csrGood` says whether the signer can use the CSR. */
  method Issue(prefix: string, store: Memory, tenants: Option<Tenants>, input: Input, sha: string -> string,
               csrGood: bool, max: Time, at: Readings) returns (r: Outcome)
    modifies store
    ensures (r, store.items) == Handled(old(store.items), prefix, tenants, input, sha, csrGood, max, at)
    ensures r.Granted? ==> Active(tenants.value, input.clusterId)
  {
    if input.clusterId == "" || input.token == "" || input.csr == "" {
      return Invalid;
    }
    if tenants.None? {
      return Internal;
    }
    if input.clusterId !in tenants.value {
      return Unauthorized;
    }
    var tenant := tenants.value[input.clusterId];
    if tenant.revoked {
      return Unauthorized;
    }
    if TokenExpired(tenant.bootstrapExpiresAt, at.checked) {
      return Unauthorized;
    }
    if TrimPrefix(Lower(tenant.tokenHash), "sha256:") != sha(input.token) {
      return Unauthorized;
    }
    var key := UsedKey(prefix, input.clusterId);
    var claimed := store.SetNX(key, "\U{1}", MarkerTtl(tenant.bootstrapExpiresAt, at.timed), at.claim);
    if !claimed {
      return Unauthorized;
    }
    if !csrGood {
      store.Delete(key);
      assert store.items == old(store.items) - {key};
      return Invalid;
    }
    var leaf := Sign(Identity(tenant.tenantId, tenant.clusterId), tenant.certDuration, max, at.signed);
    return if leaf.Some? then Granted(leaf.value) else Crashed;
  }

  /** Exactly which requests are granted a leaf, and whose: all fields filled, a snapshot, the cluster in it
      and not revoked, the window open, the digest of the token the configured one (whatever its case and with
      or without the "sha256:"), no live marker, a usable CSR and an identity that can be signed. */
  lemma {:induction false} GrantedIff(items: Items, prefix: string, tenants: Option<Tenants>, input: Input, sha: string -> string,
                                      csrGood: bool, max: Time, at: Readings)
    ensures var (outcome, _) := Handled(items, prefix, tenants, input, sha, csrGood, max, at);
            outcome.Granted? <==>
            input.clusterId != "" && input.token != "" && input.csr != "" && tenants.Some? &&
            input.clusterId in tenants.value && csrGood &&
            var t := tenants.value[input.clusterId];
            !t.revoked && (t.bootstrapExpiresAt.Some? ==> at.checked <= t.bootstrapExpiresAt.value) &&
            DigestMatches(Lower(t.tokenHash), sha(input.token)) &&
            !Live(items, prefix + "bootstrap:used:" + input.clusterId, at.claim) && Names(Identity(t.tenantId, t.clusterId)).Some?
    ensures var (outcome, after) := Handled(items, prefix, tenants, input, sha, csrGood, max, at);
            outcome.Granted? ==>
            var t := tenants.value[input.clusterId];
            Some(outcome.leaf) == Sign(Identity(t.tenantId, t.clusterId), t.certDuration, max, at.signed) &&
            Live(after, prefix + "bootstrap:used:" + input.clusterId, at.claim)
  {
    if tenants.Some? && input.clusterId in tenants.value {
      var hash := Lower(tenants.value[input.clusterId].tokenHash);
      DigestIff(hash, sha(input.token));
    }
  }

  /** The configured text is the digest, or the digest after "sha256:". */
  predicate DigestMatches(configured: string, digest: string) {
    configured == "sha256:" + digest || (configured == digest && !("sha256:" <= configured))
  }

  lemma {:induction false} DigestIff(hash: string, digest: string)
    ensures TrimPrefix(hash, "sha256:") == digest <==> DigestMatches(hash, digest)
  {
    if "sha256:" <= hash {
      assert hash == "sha256:" + hash[|"sha256:"|..];
    }
    assert ("sha256:" + digest)[|"sha256:"|..] == digest;
  }

  /** Markers are per cluster: a request leaves every other cluster's marker, and every other key, alone. */
  lemma {:induction false} MarkersApart(items: Items, prefix: string, tenants: Option<Tenants>, input: Input, sha: string -> string,
                                        csrGood: bool, max: Time, at: Readings, key: string, other: string)
    ensures UsedKey(prefix, input.clusterId) == UsedKey(prefix, other) <==> input.clusterId == other
    ensures var (_, after) := Handled(items, prefix, tenants, input, sha, csrGood, max, at);
            key != UsedKey(prefix, input.clusterId) ==>
              (key in after <==> key in items) && (key in items ==> after[key] == items[key])
  {
    Prepend(prefix + "bootstrap:used:", input.clusterId, other);
  }

  // ---- concurrent requests for one tenant entry ----

  /** The fixed tenant entry's window, the marker key, and how long after its window check a request
      may reach the store. */
  datatype Setup = Setup(expiresAt: Option<Time>, key: string, lag: Time)

  datatype Phase = Checked(at: Time) | Holding

  datatype State = State(now: Time, items: Items, phase: map<nat, Phase>, issued: set<nat>)

  /** The atomic steps of requests with the right token, and of the rest of the system. */
  datatype Action =
    | Check(r: nat)
    | Claim(r: nat, timed: Time)
    | SignOk(r: nat)
    | SignFail(r: nat)
    | Other(op: Op)

  datatype Step = Step(action: Action, at: Time)

  predicate Enabled(c: Setup, s: State, step: Step) {
    s.now <= step.at &&
    match step.action
    case Check(r) => r !in s.phase && r !in s.issued && !TokenExpired(c.expiresAt, step.at)
    case Claim(r, timed) =>
      r in s.phase && s.phase[r].Checked? && s.phase[r].at <= timed <= step.at <= s.phase[r].at + c.lag
    case SignOk(r) => r in s.phase && s.phase[r].Holding?
    case SignFail(r) => r in s.phase && s.phase[r].Holding?
    case Other(op) => !Touches(op, c.key)
  }

  function Next(c: Setup, s: State, step: Step): State
    requires Enabled(c, s, step)
  {
    var s := s.(now := step.at);
    match step.action
    case Check(r) => s.(phase := s.phase[r := Checked(step.at)])
    case Claim(r, timed) =>
      if Live(s.items, c.key, step.at) then s.(phase := s.phase - {r})
      else s.(phase := s.phase[r := Holding],
              items := PutNX(s.items, c.key, "\U{1}", MarkerTtl(c.expiresAt, timed), step.at))
    case SignOk(r) => s.(phase := s.phase - {r}, issued := s.issued + {r})
    case SignFail(r) => s.(phase := s.phase - {r}, items := s.items - {c.key})
    case Other(op) => s.(items := Effect(s.items, op, step.at))
  }

  function Start(now: Time): State { State(now, map[], map[], {}) }

  predicate Feasible(c: Setup, s: State, run: seq<Step>)
    decreases |run|
  {
    run == [] || (Enabled(c, s, run[0]) && Feasible(c, Next(c, s, run[0]), run[1..]))
  }

  function End(c: Setup, s: State, run: seq<Step>): State
    requires Feasible(c, s, run)
    decreases |run|
  {
    if run == [] then s else End(c, Next(c, s, run[0]), run[1..])
  }

  lemma {:induction false} FeasibleCons(c: Setup, s: State, step: Step, rest: seq<Step>)
    requires Enabled(c, s, step) && Feasible(c, Next(c, s, step), rest)
    ensures Feasible(c, s, [step] + rest) && End(c, s, [step] + rest) == End(c, Next(c, s, step), rest)
  {
    assert ([step] + rest)[1..] == rest;
  }

  /** The steps of one request do to the store, and issue, what one undisturbed call of the handler
      does. A request that fails the checks before the claim takes no step. */
  lemma {:induction false} StepsAreIssue(c: Setup, s: State, r: nat, prefix: string, tenants: Tenants, input: Input, sha: string -> string,
                                         csrGood: bool, max: Time, at: Readings)
    requires Eligible(tenants, input, sha, at.checked) && input.clusterId != "" && input.token != "" && input.csr != ""
    requires c.key == UsedKey(prefix, input.clusterId) && c.expiresAt == tenants[input.clusterId].bootstrapExpiresAt
    requires r !in s.phase && r !in s.issued
    requires s.now <= at.checked <= at.timed <= at.claim <= at.checked + c.lag && at.claim <= at.signed
    ensures Enabled(c, s, Step(Check(r), at.checked))
    ensures var s1 := Next(c, s, Step(Check(r), at.checked));
            Enabled(c, s1, Step(Claim(r, at.timed), at.claim)) &&
            var s2 := Next(c, s1, Step(Claim(r, at.timed), at.claim));
            var (outcome, items) := Handled(s.items, prefix, Some(tenants), input, sha, csrGood, max, at);
            match outcome
            case Granted(_) => Enabled(c, s2, Step(SignOk(r), at.signed)) && Next(c, s2, Step(SignOk(r), at.signed)).items == items
            case Invalid => Enabled(c, s2, Step(SignFail(r), at.signed)) && Next(c, s2, Step(SignFail(r), at.signed)).items == items
            case Crashed => r in s2.phase && s2.phase[r].Holding? && s2.items == items
            case Unauthorized => r !in s2.phase && s2.items == items
            case Internal => false
  {
    var s1 := Next(c, s, Step(Check(r), at.checked));
    var s2 := Next(c, s1, Step(Claim(r, at.timed), at.claim));
    assert s1.items == s.items;
    if !Live(s.items, c.key, at.claim) {
      assert s2.items - {c.key} == s.items - {c.key};
    }
  }

  /** Requests that hold the token now or have already been issued a leaf. */
  function Owners(s: State): set<nat> {
    (set r | r in s.phase && s.phase[r].Holding?) + s.issued
  }

  /** At most one owner; while the window is open its marker outlives the window, and no request
      checked too late is waiting to claim. */
  ghost predicate Safe(c: Setup, s: State)
    requires c.expiresAt.Some?
  {
    s.phase.Keys !! s.issued &&
    (forall a, b | a in Owners(s) && b in Owners(s) :: a == b) &&
    (forall r | r in s.phase && s.phase[r].Checked? :: s.phase[r].at <= s.now && s.phase[r].at <= c.expiresAt.value) &&
    (Owners(s) != {} ==>
       s.now > c.expiresAt.value ||
       (c.key in s.items && s.items[c.key].expiresAt.Some? && s.items[c.key].expiresAt.value >= c.expiresAt.value))
  }

  lemma {:induction false} SafeStep(c: Setup, s: State, step: Step)
    requires c.expiresAt.Some? && c.lag == 0 && Safe(c, s) && Enabled(c, s, step)
    ensures Safe(c, Next(c, s, step))
  {
    var s' := Next(c, s, step);
    match step.action
    case Check(r) =>
      assert Owners(s') == Owners(s);
    case Claim(r, timed) =>
      if Live(s.items, c.key, step.at) {
        assert Owners(s') == Owners(s);
      } else {
        assert Owners(s) == {};
        assert Owners(s') == {r};
      }
    case SignOk(r) =>
      assert r in Owners(s);
      assert Owners(s') == Owners(s);
    case SignFail(r) =>
      assert r in Owners(s);
      assert Owners(s') <= Owners(s) - {r};
      assert Owners(s') == {};
    case Other(op) =>
      assert Owners(s') == Owners(s);
      UntouchedStays(s.items, op, step.at, c.key);
  }

  lemma {:induction false} SafeRun(c: Setup, s: State, run: seq<Step>)
    requires c.expiresAt.Some? && c.lag == 0 && Safe(c, s) && Feasible(c, s, run)
    ensures Safe(c, End(c, s, run))
    decreases |run|
  {
    if run != [] {
      SafeStep(c, s, run[0]);
      SafeRun(c, Next(c, s, run[0]), run[1..]);
    }
  }

  /** Over all interleavings, at most one leaf is issued, and a request that rolls back is the only
      owner, so it deletes nobody else's marker. */
  lemma {:induction false} OneLeaf(c: Setup, now: Time, run: seq<Step>)
    requires c.expiresAt.Some? && c.lag == 0 && Feasible(c, Start(now), run)
    ensures var s := End(c, Start(now), run);
            (forall a, b | a in s.issued && b in s.issued :: a == b) &&
            (forall r: nat, at | Enabled(c, s, Step(SignFail(r), at)) :: Owners(s) == {r})
  {
    SafeRun(c, Start(now), run);
    var s := End(c, Start(now), run);
    assert forall a | a in s.issued :: a in Owners(s);
    forall r: nat, at | Enabled(c, s, Step(SignFail(r), at)) ensures Owners(s) == {r} {
      assert r in Owners(s);
    }
  }

  /** A failed signing gives the token back: after the rollback a request that checks and claims at
      one instant within the window becomes the holder. */
  lemma {:induction false} RollbackFreesToken(c: Setup, s: State, r: nat, at: Time, next: nat, later: Time)
    requires Enabled(c, s, Step(SignFail(r), at)) && at <= later && c.lag >= 0
    requires next !in s.phase && next !in s.issued && !TokenExpired(c.expiresAt, later)
    ensures var run := [Step(SignFail(r), at), Step(Check(next), later), Step(Claim(next, later), later)];
            Feasible(c, s, run) && next in End(c, s, run).phase && End(c, s, run).phase[next].Holding?
  {
    var a, b, d := Step(SignFail(r), at), Step(Check(next), later), Step(Claim(next, later), later);
    var s1 := Next(c, s, a);
    var s2 := Next(c, s1, b);
    FeasibleCons(c, s2, d, []);
    FeasibleCons(c, s1, b, [d]);
    FeasibleCons(c, s, a, [b, d]);
    assert [a] + [b, d] == [a, b, d] && [b] + [d] == [b, d] && [d] + [] == [d];
  }

  // ---- exactly when a second leaf is impossible ----

  /** Two requests in turn, each checking, claiming and signing. */
  function TwoRequests(first: Time, check2: Time, claim2: Time): seq<Step> {
    [Step(Check(1), first), Step(Claim(1, first), first), Step(SignOk(1), first),
     Step(Check(2), check2), Step(Claim(2, check2), claim2), Step(SignOk(2), claim2)]
  }

  lemma {:induction false} Turn(c: Setup, s: State, r: nat, check: Time, claim: Time, rest: seq<Step>) returns (s': State)
    requires r !in s.phase && r !in s.issued && s.now <= check <= claim <= check + c.lag
    requires !TokenExpired(c.expiresAt, check) && !Live(s.items, c.key, claim)
    ensures s' == State(claim, Put(s.items, c.key, "\U{1}", MarkerTtl(c.expiresAt, check), claim), s.phase, s.issued + {r})
    ensures Feasible(c, s', rest) ==>
              var run := [Step(Check(r), check), Step(Claim(r, check), claim), Step(SignOk(r), claim)] + rest;
              Feasible(c, s, run) && End(c, s, run) == End(c, s', rest)
  {
    var a, b, d := Step(Check(r), check), Step(Claim(r, check), claim), Step(SignOk(r), claim);
    var s1 := Next(c, s, a);
    var s2 := Next(c, s1, b);
    s' := Next(c, s2, d);
    assert s'.phase == s.phase;
    if Feasible(c, s', rest) {
      FeasibleCons(c, s2, d, rest);
      FeasibleCons(c, s1, b, [d] + rest);
      FeasibleCons(c, s, a, [b] + ([d] + rest));
      assert [a] + ([b] + ([d] + rest)) == [a, b, d] + rest;
    }
  }

  lemma {:induction false} TwoLeaves(c: Setup, first: Time, check2: Time, claim2: Time)
    requires c.lag >= 0 && first <= check2 <= claim2 <= check2 + c.lag
    requires !TokenExpired(c.expiresAt, first) && !TokenExpired(c.expiresAt, check2)
    requires first + MarkerTtl(c.expiresAt, first) < claim2
    ensures Feasible(c, Start(first), TwoRequests(first, check2, claim2))
    ensures {1, 2} <= End(c, Start(first), TwoRequests(first, check2, claim2)).issued
  {
    var tail := [Step(Check(2), check2), Step(Claim(2, check2), claim2), Step(SignOk(2), claim2)];
    var s1 := Turn(c, Start(first), 1, first, first, tail);
    var s2 := Turn(c, s1, 2, check2, claim2, []);
    assert tail + [] == tail;
    assert TwoRequests(first, check2, claim2) == [Step(Check(1), first), Step(Claim(1, first), first), Step(SignOk(1), first)] + tail;
  }

  ghost predicate NeverTwo(c: Setup) {
    forall now, run | Feasible(c, Start(now), run) ::
      forall a, b | a in End(c, Start(now), run).issued && b in End(c, Start(now), run).issued :: a == b
  }

  /** A second leaf is impossible in every interleaving if and only if the entry has an expiry and
      the window check and the claim share one instant. */
  lemma {:induction false} OneLeafIff(c: Setup)
    requires c.lag >= 0
    ensures NeverTwo(c) <==> c.expiresAt.Some? && c.lag == 0
  {
    if c.expiresAt.Some? && c.lag == 0 {
      forall now, run | Feasible(c, Start(now), run)
        ensures forall a, b | a in End(c, Start(now), run).issued && b in End(c, Start(now), run).issued :: a == b
      {
        OneLeaf(c, now, run);
      }
    } else if c.expiresAt.None? {
      TwoLeaves(c, 0, DAY + 1, DAY + 1);
      assert 1 in End(c, Start(0), TwoRequests(0, DAY + 1, DAY + 1)).issued;
    } else {
      var e := c.expiresAt.value;
      TwoLeaves(c, e - DAY, e, e + 1);
      assert 1 in End(c, Start(e - DAY), TwoRequests(e - DAY, e, e + 1)).issued;
    }
  }
}
