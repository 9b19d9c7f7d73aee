/** The two transports from an authenticated identity to the pipeline: the interceptors of
    internal/grpcsrv/interceptors.go, the tail of authenticate and the order of handle in
    internal/signedsrv/server.go, and the cluster binding of internal/ingest/handler.go. */
module Gateway {
  import opened Common
  import opened Text
  import opened Store
  import opened Identity
  import Replay
  import Bootstrap
  import Dedup

  // ---- one request on each transport ----

  datatype Code = Ok | InvalidArgument | Unauthenticated | PermissionDenied | NotFound | FailedPrecondition | Unavailable | Internal

  /** grpcToHTTP: the HTTP status of a gRPC code. */
  function HttpStatus(code: Code): int {
    match code
    case Ok => 200
    case InvalidArgument => 400
    case Unauthenticated => 401
    case PermissionDenied => 403
    case NotFound => 404
    case FailedPrecondition => 412
    case Unavailable => 503
    case Internal => 500
  }

  predicate ClientFault(v: Replay.Verdict) {
    v.MissingTimestamp? || v.BadTimestamp? || v.MissingNonce? || v.BadNonce?
  }

  /** RevocationInterceptor, then ReplayInterceptor. */
  method GrpcAdmit(g: Replay.Guard, store: Memory, tenants: Option<Tenants>, id: Option<Identity>, ts: string, nonce: string,
                   judged: Time, claim: Time) returns (code: Code)
    modifies store
    ensures code == AdmitCode(g, old(store.items), tenants, id, ts, nonce, judged, claim)
    ensures store.items == AdmitEffect(g, old(store.items), tenants, id, ts, nonce, judged, claim)
  {
    if id.None? {
      return Unauthenticated;
    }
    if tenants.None? {
      return Internal;
    }
    if id.value.clusterId !in tenants.value {
      return PermissionDenied;
    }
    if tenants.value[id.value.clusterId].revoked {
      return PermissionDenied;
    }
    var v := Replay.Verify(g, store, id, ts, nonce, judged, claim);
    if v != Replay.Accepted {
      code := Unauthenticated;
      if ClientFault(v) {
        code := InvalidArgument;
      }
      return;
    }
    return Ok;
  }

  /** The tail of authenticate, once the signature has given an identity. */
  method HttpAdmit(g: Replay.Guard, store: Memory, tenants: Option<Tenants>, id: Identity, ts: string, nonce: string,
                   judged: Time, claim: Time) returns (status: int)
    modifies store
    // the same verdict and the same store as the other transport
    ensures status == HttpStatus(AdmitCode(g, old(store.items), tenants, Some(id), ts, nonce, judged, claim))
    ensures store.items == AdmitEffect(g, old(store.items), tenants, Some(id), ts, nonce, judged, claim)
  {
    if tenants.None? {
      return 500;
    }
    if id.clusterId !in tenants.value {
      return 403;
    }
    if tenants.value[id.clusterId].revoked {
      return 403;
    }
    var v := Replay.Verify(g, store, Some(id), ts, nonce, judged, claim);
    if v != Replay.Accepted {
      status := 401;
      if ClientFault(v) {
        status := 400;
      }
      return;
    }
    return 200;
  }

  function AdmitCode(g: Replay.Guard, m: Items, tenants: Option<Tenants>, id: Option<Identity>, ts: string, nonce: string,
                     judged: Time, claim: Time): Code {
    if id.None? then Unauthenticated
    else if tenants.None? then Internal
    else if !Active(tenants.value, id.value.clusterId) then PermissionDenied
    else
      var v := Replay.Decide(g, m, id, ts, nonce, judged, claim);
      if v == Replay.Accepted then Ok else if ClientFault(v) then InvalidArgument else Unauthenticated
  }

  /** Only an active tenant's request reaches the nonce store. */
  function AdmitEffect(g: Replay.Guard, m: Items, tenants: Option<Tenants>, id: Option<Identity>, ts: string, nonce: string,
                       judged: Time, claim: Time): Items {
    if id.None? || tenants.None? || !Active(tenants.value, id.value.clusterId) then m
    else Replay.Record(g, m, id, ts, nonce, judged, claim)
  }

  /** The codes of admission, each with exactly what leads to it. */
  lemma {:induction false} AdmitMeaning(g: Replay.Guard, m: Items, tenants: Option<Tenants>, id: Option<Identity>, ts: string, nonce: string,
                                        judged: Time, claim: Time)
    ensures var code := AdmitCode(g, m, tenants, id, ts, nonce, judged, claim);
            var active := id.Some? && tenants.Some? && id.value.clusterId in tenants.value && !tenants.value[id.value.clusterId].revoked;
            var fresh' := Replay.Fresh(g, ts, judged);
            var used := id.Some? && Live(m, Replay.NonceKey(g, Name(id.value), nonce), claim);
            (code == Ok <==> active && fresh' && Replay.GoodNonce(nonce) && !used) &&
            (code == Internal <==> id.Some? && tenants.None?) &&
            (code == PermissionDenied <==> id.Some? && tenants.Some? && !active) &&
            (code == InvalidArgument <==> active && (ParseInt(ts).None? || (fresh' && !Replay.GoodNonce(nonce)))) &&
            (code == Unauthenticated <==>
               id.None? || (active && ParseInt(ts).Some? && (!fresh' || (Replay.GoodNonce(nonce) && used))))
  {
    Replay.AcceptedIff(g, m, id, ts, nonce, judged, claim);
  }

  /** What the HTTP side answers: 200 for what is admitted and for nothing else, and by kind of refusal. */
  lemma {:induction false} StatusMeaning(code: Code)
    ensures HttpStatus(code) == 200 <==> code == Ok
    ensures HttpStatus(InvalidArgument) == 400 && HttpStatus(Unauthenticated) == 401 && HttpStatus(PermissionDenied) == 403
    ensures HttpStatus(Internal) == 500
    ensures 400 <= HttpStatus(code) < 500 <==> code in {InvalidArgument, Unauthenticated, PermissionDenied, NotFound, FailedPrecondition}
  {
  }

  /** firstMeta: the first value that is not blank, trimmed. */
  method FirstMeta(values: seq<string>) returns (v: string)
    ensures v == FirstFilled(values)
    ensures v == "" <==> forall i | 0 <= i < |values| :: TrimSpace(values[i]) == ""
    ensures v != "" ==> exists i | 0 <= i < |values| :: v == TrimSpace(values[i]) && forall j | 0 <= j < i :: TrimSpace(values[j]) == ""
  {
    for i := 0 to |values|
      invariant FirstFilled(values) == FirstFilled(values[i..])
      invariant forall j | 0 <= j < i :: TrimSpace(values[j]) == ""
    {
      assert values[i..][0] == values[i] && values[i..][1..] == values[i + 1..];
      v := TrimSpace(values[i]);
      if v != "" {
        return;
      }
    }
    return "";
  }

  function FirstFilled(values: seq<string>): string {
    if values == [] then ""
    else if TrimSpace(values[0]) != "" then TrimSpace(values[0]) else FirstFilled(values[1..])
  }

  /** Header.Get reads the first value only. */
  function FirstValue(values: seq<string>): string { if values == [] then "" else TrimSpace(values[0]) }

  /** The transports read the same timestamp or nonce exactly when the first value is filled or no
      value is. */
  lemma {:induction false} SameFieldIff(values: seq<string>)
    ensures FirstFilled(values) == FirstValue(values) <==>
            FirstValue(values) != "" || forall i | 0 <= i < |values| :: TrimSpace(values[i]) == ""
  {
    if values != [] && TrimSpace(values[0]) == "" {
      AllBlankIff(values[1..]);
      assert forall i | 0 < i < |values| :: values[i] == values[1..][i - 1];
      assert forall i | 0 <= i < |values| - 1 :: values[1..][i] == values[i + 1];
    }
  }

  lemma {:induction false} AllBlankIff(values: seq<string>)
    ensures FirstFilled(values) == "" <==> forall i | 0 <= i < |values| :: TrimSpace(values[i]) == ""
  {
    if values != [] {
      AllBlankIff(values[1..]);
      assert forall i | 0 < i < |values| :: values[i] == values[1..][i - 1];
    }
  }

  /** Handler.Ingest: what happens to an admitted request's payload. */
  datatype Ingested = Queued | NoIdentityInContext | WrongCluster

  function Ingest(id: Option<Identity>, payload: Alert): Ingested {
    if id.None? then NoIdentityInContext
    else if payload.clusterId != id.value.clusterId then WrongCluster
    else Queued
  }

  // ---- whole runs: both transports, snapshot reloads, everything else on the store ----

  /** A request after its certificate or signature check, with all values of its two freshness fields.
      `signed` says which transport it came by: the signed one reads the first value of a field and has
      to open a sealed body, the mTLS one reads the first filled value and gets its body plain. */
  datatype Request = Request(signed: bool, id: Identity, timestamps: seq<string>, nonces: seq<string>, payload: Alert, opens: bool) {
    function Field(values: seq<string>): string { if signed then FirstValue(values) else FirstFilled(values) }
    function Ts(): string { Field(timestamps) }
    function Nonce(): string { Field(nonces) }
    predicate Readable() { signed ==> opens }
  }

  /** A request that has passed the tenant lookup on `seen`, and one that has also passed the replay
      check as event `index` of the store's history. */
  datatype Stage = LookedUp(seen: Tenants) | Admitted(seen: Tenants, index: nat)

  datatype Flight = Flight(request: Request, stage: Stage)

  datatype Processed = Processed(request: Request, seen: Tenants, index: nat)

  /** `history` is everything that has happened to the store, which is thus Before(history). */
  datatype State = State(
    tenants: Option<Tenants>,
    history: seq<Replay.Event>,
    flights: map<nat, Flight>,
    processed: seq<Processed>)

  datatype Step =
    | Reload(tenants: Tenants)
    | LookUp(r: nat, request: Request)
    | CheckReplay(r: nat, judged: Time, claim: Time)
    | Handle(r: nat)
    | Elsewhere(op: Op, at: Time)

  function Contents(g: Replay.Guard, s: State): Items { Replay.Before(g, s.history, |s.history|) }

  predicate NotBefore(s: State, at: Time) {
    s.history == [] || Replay.At(s.history[|s.history| - 1]) <= at
  }

  ghost predicate Enabled(g: Replay.Guard, s: State, step: Step, lag: Time) {
    match step
    case Reload(_) => true
    case LookUp(r, _) => r !in s.flights
    case CheckReplay(r, judged, claim) =>
      r in s.flights && s.flights[r].stage.LookedUp? && judged <= claim <= judged + lag && NotBefore(s, claim)
    case Handle(r) => r in s.flights && s.flights[r].stage.Admitted?
    case Elsewhere(op, at) => NotBefore(s, at) && forall key | Replay.InNamespace(g, key) :: !Touches(op, key)
  }

  function CheckEvent(f: Flight, judged: Time, claim: Time): Replay.Event {
    Replay.Check(Some(f.request.id), f.request.Ts(), f.request.Nonce(), judged, claim)
  }

  /** A refused request simply leaves. */
  function Next(g: Replay.Guard, s: State, step: Step, lag: Time): State
    requires Enabled(g, s, step, lag)
  {
    match step
    case Reload(tenants) => s.(tenants := Some(tenants))
    case LookUp(r, request) =>
      if s.tenants.Some? && Active(s.tenants.value, request.id.clusterId)
      then s.(flights := s.flights[r := Flight(request, LookedUp(s.tenants.value))]) else s
    case CheckReplay(r, judged, claim) =>
      var f := s.flights[r];
      var ok := Replay.Decide(g, Contents(g, s), Some(f.request.id), f.request.Ts(), f.request.Nonce(), judged, claim) == Replay.Accepted;
      s.(history := s.history + [CheckEvent(f, judged, claim)],
         flights := if ok then s.flights[r := Flight(f.request, Admitted(f.stage.seen, |s.history|))] else s.flights - {r})
    case Handle(r) =>
      var f := s.flights[r];
      var s := s.(flights := s.flights - {r});
      if f.request.Readable() && Ingest(Some(f.request.id), f.request.payload) == Queued
      then s.(processed := s.processed + [Processed(f.request, f.stage.seen, f.stage.index)]) else s
    case Elsewhere(op, at) => s.(history := s.history + [Replay.Other(op, at)])
  }

  ghost predicate Feasible(g: Replay.Guard, s: State, run: seq<Step>, lag: Time)
    decreases |run|
  {
    run == [] || (Enabled(g, s, run[0], lag) && Feasible(g, Next(g, s, run[0], lag), run[1..], lag))
  }

  ghost function End(g: Replay.Guard, s: State, run: seq<Step>, lag: Time): State
    requires Feasible(g, s, run, lag)
    decreases |run|
  {
    if run == [] then s else End(g, Next(g, s, run[0], lag), run[1..], lag)
  }

  const START := State(None, [], map[], [])

  /** The two steps of a request do to the state what one call of either transport's admission does:
      it is admitted exactly when the code is Ok, and the store ends up the same. */
  lemma {:induction false} StepsAreAdmission(g: Replay.Guard, s: State, r: nat, request: Request, judged: Time, claim: Time, lag: Time)
    requires r !in s.flights && judged <= claim <= judged + lag && NotBefore(s, claim)
    ensures var s1 := Next(g, s, LookUp(r, request), lag);
            var code := AdmitCode(g, Contents(g, s), s.tenants, Some(request.id), request.Ts(), request.Nonce(), judged, claim);
            var after := AdmitEffect(g, Contents(g, s), s.tenants, Some(request.id), request.Ts(), request.Nonce(), judged, claim);
            if r in s1.flights then
              Enabled(g, s1, CheckReplay(r, judged, claim), lag) &&
              (var s2 := Next(g, s1, CheckReplay(r, judged, claim), lag);
               Contents(g, s2) == after && (code == Ok <==> r in s2.flights && s2.flights[r].stage.Admitted?))
            else code != Ok && Contents(g, s1) == after
  {
    var s1 := Next(g, s, LookUp(r, request), lag);
    if r in s1.flights {
      CheckIsVerify(g, s1, r, judged, claim, lag);
    }
  }

  /** Exactly what reaches the pipeline: a request alone on its way is processed iff it is admitted, its body can
      be read and its payload carries the identity's own cluster. */
  lemma {:induction false} ReachesPipelineIff(g: Replay.Guard, s: State, r: nat, request: Request, judged: Time, claim: Time, lag: Time)
    requires r !in s.flights && judged <= claim <= judged + lag && NotBefore(s, claim)
    ensures var e := Passage(g, s, r, request, judged, claim, lag);
            var code := AdmitCode(g, Contents(g, s), s.tenants, Some(request.id), request.Ts(), request.Nonce(), judged, claim);
            e.processed == s.processed +
              if code == Ok && (request.signed ==> request.opens) && request.payload.clusterId == request.id.clusterId
              then [Processed(request, s.tenants.value, |s.history|)] else []
  {
    StepsAreAdmission(g, s, r, request, judged, claim, lag);
  }

  /** The steps of one request that nobody disturbs. */
  ghost function Passage(g: Replay.Guard, s: State, r: nat, request: Request, judged: Time, claim: Time, lag: Time): State
    requires r !in s.flights && judged <= claim <= judged + lag && NotBefore(s, claim)
  {
    var s1 := Next(g, s, LookUp(r, request), lag);
    if r !in s1.flights then s1
    else
      var s2 := Next(g, s1, CheckReplay(r, judged, claim), lag);
      if r !in s2.flights then s2 else Next(g, s2, Handle(r), lag)
  }

  /** The replay step decides and records as the guard does. */
  lemma {:induction false} CheckIsVerify(g: Replay.Guard, s: State, r: nat, judged: Time, claim: Time, lag: Time)
    requires Enabled(g, s, CheckReplay(r, judged, claim), lag)
    ensures var q, s' := s.flights[r].request, Next(g, s, CheckReplay(r, judged, claim), lag);
            Contents(g, s') == Replay.Record(g, Contents(g, s), Some(q.id), q.Ts(), q.Nonce(), judged, claim) &&
            (r in s'.flights <==> Replay.Decide(g, Contents(g, s), Some(q.id), q.Ts(), q.Nonce(), judged, claim) == Replay.Accepted) &&
            (r in s'.flights ==> s'.flights[r].stage.Admitted?)
  {
    ContentsAfter(g, s, CheckEvent(s.flights[r], judged, claim));
  }

  lemma {:induction false} ContentsAfter(g: Replay.Guard, s: State, e: Replay.Event)
    ensures Contents(g, s.(history := s.history + [e])) == Replay.Next(g, Contents(g, s), e)
  {
    BeforeExtends(g, s.history, e, |s.history|);
  }

  /** Event `index` is the accepted replay check of this request. */
  ghost predicate CheckedAt(g: Replay.Guard, history: seq<Replay.Event>, request: Request, index: nat) {
    Replay.AcceptedAt(g, history, index) &&
    history[index].id == Some(request.id) && history[index].ts == request.Ts() && history[index].nonce == request.Nonce()
  }

  ghost predicate Inv(g: Replay.Guard, s: State, lag: Time) {
    Replay.Proper(g, s.history, lag) &&
    (forall r | r in s.flights :: Active(s.flights[r].stage.seen, s.flights[r].request.id.clusterId)) &&
    (forall r | r in s.flights && s.flights[r].stage.Admitted? ::
       CheckedAt(g, s.history, s.flights[r].request, s.flights[r].stage.index)) &&
    (forall q, r | q in s.flights && r in s.flights && q != r && s.flights[q].stage.Admitted? && s.flights[r].stage.Admitted? ::
       s.flights[q].stage.index != s.flights[r].stage.index) &&
    (forall i | 0 <= i < |s.processed| ::
       var p := s.processed[i];
       CheckedAt(g, s.history, p.request, p.index) && Active(p.seen, p.request.id.clusterId) &&
       p.request.payload.clusterId == p.request.id.clusterId &&
       (forall r | r in s.flights && s.flights[r].stage.Admitted? :: s.flights[r].stage.index != p.index)) &&
    (forall i, j | 0 <= i < j < |s.processed| :: s.processed[i].index != s.processed[j].index)
  }

  lemma {:induction false} BeforeExtends(g: Replay.Guard, history: seq<Replay.Event>, e: Replay.Event, n: nat)
    requires n <= |history|
    ensures Replay.Before(g, history + [e], n) == Replay.Before(g, history, n)
  {
    if n > 0 {
      BeforeExtends(g, history, e, n - 1);
    }
  }

  /** Later events do not change what was accepted. */
  lemma {:induction false} CheckedAtExtends(g: Replay.Guard, history: seq<Replay.Event>, e: Replay.Event, request: Request, index: nat)
    requires CheckedAt(g, history, request, index)
    ensures CheckedAt(g, history + [e], request, index)
  {
    BeforeExtends(g, history, e, index);
  }

  lemma {:induction false} ProperExtends(g: Replay.Guard, s: State, e: Replay.Event, lag: Time)
    requires Replay.Proper(g, s.history, lag) && NotBefore(s, Replay.At(e))
    requires e.Check? ==> e.judged <= e.claim <= e.judged + lag
    requires e.Other? ==> forall key | Replay.InNamespace(g, key) :: !Touches(e.op, key)
    ensures Replay.Proper(g, s.history + [e], lag)
  {
    var h, n := s.history + [e], |s.history|;
    forall i, j | 0 <= i < j < |h| ensures Replay.At(h[i]) <= Replay.At(h[j]) {
      if j == n && i < n - 1 {
        assert Replay.At(s.history[i]) <= Replay.At(s.history[n - 1]);
      }
    }
  }

  lemma {:induction false} HistoryStep(g: Replay.Guard, s: State, e: Replay.Event, lag: Time)
    requires Inv(g, s, lag) && Replay.Proper(g, s.history + [e], lag)
    ensures Inv(g, s.(history := s.history + [e]), lag)
  {
    forall r | r in s.flights && s.flights[r].stage.Admitted?
      ensures CheckedAt(g, s.history + [e], s.flights[r].request, s.flights[r].stage.index)
    {
      CheckedAtExtends(g, s.history, e, s.flights[r].request, s.flights[r].stage.index);
    }
    forall i | 0 <= i < |s.processed|
      ensures CheckedAt(g, s.history + [e], s.processed[i].request, s.processed[i].index)
    {
      CheckedAtExtends(g, s.history, e, s.processed[i].request, s.processed[i].index);
    }
  }

  lemma {:induction false} CheckKeeps(g: Replay.Guard, s: State, r: nat, judged: Time, claim: Time, lag: Time)
    requires Inv(g, s, lag) && Enabled(g, s, CheckReplay(r, judged, claim), lag)
    ensures Inv(g, Next(g, s, CheckReplay(r, judged, claim), lag), lag)
  {
    var f := s.flights[r];
    var e := CheckEvent(f, judged, claim);
    ProperExtends(g, s, e, lag);
    HistoryStep(g, s, e, lag);
    BeforeExtends(g, s.history, e, |s.history|);
    var h := s.(history := s.history + [e]);
    var s' := Next(g, s, CheckReplay(r, judged, claim), lag);
    if r in s'.flights {
      assert CheckedAt(g, h.history, f.request, |s.history|);
      AdmitKeeps(g, h, r, |s.history|, lag);
    } else {
      LeaveKeeps(g, h, r, lag);
    }
  }

  /** A flight may be admitted under an index nobody else has. */
  lemma {:induction false} AdmitKeeps(g: Replay.Guard, s: State, r: nat, index: nat, lag: Time)
    requires Inv(g, s, lag) && r in s.flights && CheckedAt(g, s.history, s.flights[r].request, index)
    requires forall q | q in s.flights && s.flights[q].stage.Admitted? :: s.flights[q].stage.index != index
    requires forall i | 0 <= i < |s.processed| :: s.processed[i].index != index
    ensures Inv(g, s.(flights := s.flights[r := Flight(s.flights[r].request, Admitted(s.flights[r].stage.seen, index))]), lag)
  {
  }

  lemma {:induction false} LeaveKeeps(g: Replay.Guard, s: State, r: nat, lag: Time)
    requires Inv(g, s, lag) && r in s.flights
    ensures Inv(g, s.(flights := s.flights - {r}), lag)
  {
  }

  lemma {:induction false} ProcessKeeps(g: Replay.Guard, s: State, p: Processed, lag: Time)
    requires Inv(g, s, lag) && CheckedAt(g, s.history, p.request, p.index) && Active(p.seen, p.request.id.clusterId)
    requires p.request.payload.clusterId == p.request.id.clusterId
    requires forall r | r in s.flights && s.flights[r].stage.Admitted? :: s.flights[r].stage.index != p.index
    requires forall i | 0 <= i < |s.processed| :: s.processed[i].index != p.index
    ensures Inv(g, s.(processed := s.processed + [p]), lag)
  {
  }

  lemma {:induction false} HandleKeeps(g: Replay.Guard, s: State, r: nat, lag: Time)
    requires Inv(g, s, lag) && Enabled(g, s, Handle(r), lag)
    ensures Inv(g, Next(g, s, Handle(r), lag), lag)
  {
    var f := s.flights[r];
    assert CheckedAt(g, s.history, f.request, f.stage.index);
    LeaveKeeps(g, s, r, lag);
    if f.request.Readable() && Ingest(Some(f.request.id), f.request.payload) == Queued {
      ProcessKeeps(g, s.(flights := s.flights - {r}), Processed(f.request, f.stage.seen, f.stage.index), lag);
    }
  }

  lemma {:induction false} StepKeeps(g: Replay.Guard, s: State, step: Step, lag: Time)
    requires Inv(g, s, lag) && Enabled(g, s, step, lag)
    ensures Inv(g, Next(g, s, step, lag), lag)
  {
    match step
    case CheckReplay(r, judged, claim) => CheckKeeps(g, s, r, judged, claim, lag);
    case Handle(r) => HandleKeeps(g, s, r, lag);
    case LookUp(r, request) => LookUpKeeps(g, s, r, request, lag);
    case Elsewhere(op, at) =>
      ProperExtends(g, s, Replay.Other(op, at), lag);
      HistoryStep(g, s, Replay.Other(op, at), lag);
    case Reload(_) =>
  }

  lemma {:induction false} LookUpKeeps(g: Replay.Guard, s: State, r: nat, request: Request, lag: Time)
    requires Inv(g, s, lag) && r !in s.flights
    ensures Inv(g, Next(g, s, LookUp(r, request), lag), lag)
  {
  }

  lemma {:induction false} RunKeeps(g: Replay.Guard, s: State, run: seq<Step>, lag: Time)
    requires Inv(g, s, lag) && Feasible(g, s, run, lag)
    ensures Inv(g, End(g, s, run, lag), lag)
    decreases |run|
  {
    if run != [] {
      StepKeeps(g, s, run[0], lag);
      RunKeeps(g, Next(g, s, run[0], lag), run[1..], lag);
    }
  }

  predicate SameNonce(p: Request, q: Request) { Name(p.id) == Name(q.id) && p.Nonce() == q.Nonce() }

  /** The two requests were claimed more than the nonce's ttl apart. */
  ghost predicate ClaimedApart(g: Replay.Guard, s: State, p: Processed, q: Processed) {
    CheckedAt(g, s.history, p.request, p.index) && CheckedAt(g, s.history, q.request, q.index) && g.nonceTtl > 0 &&
    (var a, b := s.history[p.index].claim, s.history[q.index].claim; b > a + g.nonceTtl || a > b + g.nonceTtl)
  }

  /** Over every run mixing both transports, reloads and other users of the store, and for every lag
      between freshness reading and claim: each request that reaches the pipeline is labelled with its own
      cluster, its tenant was present and unrevoked in the snapshot it read, and two that share identity
      and nonce were claimed more than the nonce's ttl apart. If the ttl covers two windows and the lag, no
      two share identity, timestamp and nonce. */
  lemma {:induction false} OnlyOwnFreshRequests(g: Replay.Guard, run: seq<Step>, lag: Time)
    requires Feasible(g, START, run, lag)
    ensures var s := End(g, START, run, lag);
            (forall i | 0 <= i < |s.processed| ::
               s.processed[i].request.payload.clusterId == s.processed[i].request.id.clusterId &&
               Active(s.processed[i].seen, s.processed[i].request.id.clusterId)) &&
            (forall i, j | 0 <= i < j < |s.processed| && SameNonce(s.processed[i].request, s.processed[j].request) ::
               ClaimedApart(g, s, s.processed[i], s.processed[j]) &&
               (Replay.Outlives(g, lag) ==>
                  ParseInt(s.processed[i].request.Ts()) != ParseInt(s.processed[j].request.Ts())))
  {
    RunKeeps(g, START, run, lag);
    var s := End(g, START, run, lag);
    forall i, j | 0 <= i < j < |s.processed| && SameNonce(s.processed[i].request, s.processed[j].request)
      ensures ClaimedApart(g, s, s.processed[i], s.processed[j])
      ensures Replay.Outlives(g, lag) ==> ParseInt(s.processed[i].request.Ts()) != ParseInt(s.processed[j].request.Ts())
    {
      var p, q := s.processed[i], s.processed[j];
      if p.index < q.index {
        PairApart(g, s, p, q, lag);
      } else {
        PairApart(g, s, q, p, lag);
      }
    }
  }

  lemma {:induction false} PairApart(g: Replay.Guard, s: State, p: Processed, q: Processed, lag: Time)
    requires Replay.Proper(g, s.history, lag) && p.index < q.index && SameNonce(p.request, q.request)
    requires CheckedAt(g, s.history, p.request, p.index) && CheckedAt(g, s.history, q.request, q.index)
    ensures ClaimedApart(g, s, p, q)
    ensures Replay.Outlives(g, lag) ==> ParseInt(p.request.Ts()) != ParseInt(q.request.Ts())
  {
    Replay.AcceptedApart(g, s.history, lag, p.index, q.index);
    if Replay.Outlives(g, lag) {
      Replay.SingleUseIfOutlives(g, s.history, lag);
    }
  }

  /** The default key prefix. */
  const PREFIX := "muthur:"

  /** The store's other users never write into the nonce namespace: not the deduplicator, the cache,
      feedback or incident records, and not the bootstrap handler under the same prefix. So their
      operations are the `Elsewhere` steps above. */
  lemma {:induction false} OthersStayOut(window: Time, sha: Dedup.Digest, a: Alert, cluster: string, rest: string)
    requires Dedup.HexDigests(sha)
    ensures var g := Replay.NewGuard(window, PREFIX);
            !Replay.InNamespace(g, Dedup.FiringKey(sha, a)) && !Replay.InNamespace(g, Dedup.ResolvedKey(sha, a)) &&
            !Replay.InNamespace(g, Bootstrap.UsedKey(PREFIX, cluster)) &&
            (forall start | start in {"cache:", "vec:", "fb:", "incident:"} :: !Replay.InNamespace(g, start + rest))
  {
    var nonce := PREFIX + "nonce:";
    assert nonce[0] == 'm' && nonce[7] == 'n' && |nonce| == 13;
    var used := Bootstrap.UsedKey(PREFIX, cluster);
    assert used[7] == 'b';
    assert Dedup.FiringKey(sha, a)[0] == 'd' && Dedup.ResolvedKey(sha, a)[0] == 'd';
    forall start: string | start in {"cache:", "vec:", "fb:", "incident:"} ensures !(nonce <= start + rest) {
      assert (start + rest)[0] == start[0] && start[0] != 'm';
    }
  }
}
