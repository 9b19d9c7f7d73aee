/** The validate-retry-degrade loop of internal/evaluator/analyzer.go and schema.go over a provider
    that may answer anything, and the OpenAI-compatible provider of openai.go over an endpoint that
    may answer anything. */
module Evaluator {
  import opened Common
  import opened Text

  // ---- the analysis contract ----

  datatype Analysis = Analysis(
    severity: string,
    rootCause: string,
    evidence: string,
    action: string,
    confidence: string,
    grounding: string,
    silence: bool,
    silenceReason: string)

  const SEVERITIES := ["critical", "warning", "info"]
  const CONFIDENCES := ["high", "medium", "low"]
  const GROUNDINGS := ["stated", "inferred"]

  datatype Flaw = Undecodable | BadSeverity | NoRootCause | NoEvidence | NoAction | BadConfidence | BadGrounding

  predicate Conforms(a: Analysis) {
    a.severity in SEVERITIES && a.confidence in CONFIDENCES && a.grounding in GROUNDINGS &&
    TrimSpace(a.rootCause) != "" && TrimSpace(a.evidence) != "" && TrimSpace(a.action) != ""
  }

  method InEnum(allowed: seq<string>, v: string) returns (found: bool)
    ensures found <==> v in allowed
  {
    for i := 0 to |allowed|
      invariant v !in allowed[..i]
    {
      if allowed[i] == v {
        return true;
      }
    }
    return false;
  }

  function FirstFlaw(a: Analysis): Option<Flaw> {
    if a.severity !in SEVERITIES then Some(BadSeverity)
    else if TrimSpace(a.rootCause) == "" then Some(NoRootCause)
    else if TrimSpace(a.evidence) == "" then Some(NoEvidence)
    else if TrimSpace(a.action) == "" then Some(NoAction)
    else if a.confidence !in CONFIDENCES then Some(BadConfidence)
    else if a.grounding !in GROUNDINGS then Some(BadGrounding)
    else None
  }

  /** Which flaw is reported: the first of these six, in this order. */
  lemma {:induction false} FirstFlawMeaning(a: Analysis)
    ensures var severity, confidence, grounding := a.severity in ["critical", "warning", "info"], a.confidence in ["high", "medium", "low"],
                                                   a.grounding in ["stated", "inferred"];
            var cause, evidence, action := TrimSpace(a.rootCause) != "", TrimSpace(a.evidence) != "", TrimSpace(a.action) != "";
            var flaw := FirstFlaw(a);
            (flaw == Some(BadSeverity) <==> !severity) && (flaw == Some(NoRootCause) <==> severity && !cause) &&
            (flaw == Some(NoEvidence) <==> severity && cause && !evidence) &&
            (flaw == Some(NoAction) <==> severity && cause && evidence && !action) &&
            (flaw == Some(BadConfidence) <==> severity && cause && evidence && action && !confidence) &&
            (flaw == Some(BadGrounding) <==> severity && cause && evidence && action && confidence && !grounding) &&
            flaw != Some(Undecodable)
  {
  }

  /** validateAnalysis: no flaw exactly for conforming analyses. */
  method ValidateAnalysis(a: Analysis) returns (flaw: Option<Flaw>)
    ensures flaw == FirstFlaw(a)
    ensures flaw.None? <==> Conforms(a)
  {
    var ok := InEnum(SEVERITIES, a.severity);
    if !ok {
      return Some(BadSeverity);
    }
    if TrimSpace(a.rootCause) == "" {
      return Some(NoRootCause);
    }
    if TrimSpace(a.evidence) == "" {
      return Some(NoEvidence);
    }
    if TrimSpace(a.action) == "" {
      return Some(NoAction);
    }
    ok := InEnum(CONFIDENCES, a.confidence);
    if !ok {
      return Some(BadConfidence);
    }
    ok := InEnum(GROUNDINGS, a.grounding);
    return if ok then None else Some(BadGrounding);
  }

  /** json.Unmarshal into an Analysis. */
  type Decoder = string -> Option<Analysis>

  datatype Judgement = Good(analysis: Analysis) | Bad(flaw: Flaw)

  function Judge(raw: string, decode: Decoder): Judgement {
    var a := decode(raw);
    if a.None? then Bad(Undecodable)
    else if FirstFlaw(a.value).Some? then Bad(FirstFlaw(a.value).value)
    else Good(a.value)
  }

  /** decodeAndValidate */
  method DecodeAndValidate(raw: string, decode: Decoder) returns (j: Judgement)
    ensures j == Judge(raw, decode)
    ensures j.Good? ==> Conforms(j.analysis)
  {
    var a := decode(raw);
    if a.None? {
      return Bad(Undecodable);
    }
    var flaw := ValidateAnalysis(a.value);
    return if flaw.Some? then Bad(flaw.value) else Good(a.value);
  }

  // ---- the loop ----

  datatype Prompt = Prompt(system: string, user: string)

  datatype Answer = TransportError | Raw(text: string)

  datatype Result = Analysed(analysis: Analysis) | CallFailed | Degraded(flaw: Flaw)

  datatype Counters = Counters(callsOk: nat, callsError: nat, validationFailures: nat, retries: nat, degraded: nat)

  /** What the answer to call `i` amounts to: an analysis, a flaw that a corrective retry may still
      repair, or a transport error. */
  function Verdict(answers: nat -> Answer, decode: Decoder, i: nat): Result {
    match answers(i)
    case TransportError => CallFailed
    case Raw(text) => match Judge(text, decode) case Good(a) => Analysed(a) case Bad(flaw) => Degraded(flaw)
  }

  function Verdicts(answers: nat -> Answer, decode: Decoder): nat -> Result {
    (i: nat) => Verdict(answers, decode, i)
  }

  /** The prompt of attempt `i`: the original one, with the correction for the previous flaw alone
      appended to its user half. */
  function Instruction(prompt: Prompt, verdicts: nat -> Result, suffix: Flaw -> string, i: nat): Prompt {
    if i == 0 || !verdicts(i - 1).Degraded? then prompt
    else Prompt(prompt.system, prompt.user + suffix(verdicts(i - 1).flaw))
  }

  /** The loop of run, given what each call's answer amounts to. */
  method Attempts(prompt: Prompt, maxRetries: nat, verdicts: nat -> Result, suffix: Flaw -> string)
    returns (result: Result, sent: seq<Prompt>, n: Counters)
    // at most maxRetries + 1 calls, going on exactly while answers are repairable; the last one decides
    ensures 1 <= |sent| <= maxRetries + 1
    ensures forall i | 0 <= i < |sent| - 1 :: verdicts(i).Degraded?
    ensures verdicts(|sent| - 1).Degraded? ==> |sent| == maxRetries + 1
    ensures result == verdicts(|sent| - 1)
    // the first prompt is the original; every retry is the original with the correction for the previous flaw
    // alone appended to its user half
    ensures forall i | 0 <= i < |sent| :: sent[i] == Instruction(prompt, verdicts, suffix, i)
    ensures sent[0] == prompt
    ensures forall i | 0 < i < |sent| ::
              verdicts(i - 1).Degraded? && sent[i] == Prompt(prompt.system, prompt.user + suffix(verdicts(i - 1).flaw))
    // one call result; failures not followed by a retry are the degraded ones
    ensures n.callsOk + n.callsError == 1 && (n.callsOk == 1 <==> result.Analysed?)
    ensures n.validationFailures == n.retries + n.degraded && (n.degraded == 1 <==> result.Degraded?) && n.degraded <= 1
    ensures n.retries == |sent| - 1
  {
    var instruction := prompt;
    sent, n := [], Counters(0, 0, 0, 0, 0);
    var lastFlaw := Undecodable;
    for attempt := 0 to maxRetries + 1
      invariant |sent| == attempt
      invariant forall i | 0 <= i < attempt :: verdicts(i).Degraded?
      invariant forall i | 0 <= i < attempt :: sent[i] == Instruction(prompt, verdicts, suffix, i)
      invariant attempt <= maxRetries ==> instruction == Instruction(prompt, verdicts, suffix, attempt)
      invariant attempt > 0 ==> verdicts(attempt - 1) == Degraded(lastFlaw)
      invariant n == Counters(0, 0, attempt, if attempt <= maxRetries then attempt else maxRetries, 0)
    {
      sent := sent + [instruction];
      result := verdicts(attempt);
      if result.CallFailed? {
        n := n.(callsError := n.callsError + 1);
        return;
      }
      if result.Analysed? {
        n := n.(callsOk := n.callsOk + 1);
        return;
      }
      lastFlaw := result.flaw;
      n := n.(validationFailures := n.validationFailures + 1);
      if attempt < maxRetries {
        n := n.(retries := n.retries + 1);
        instruction := Prompt(prompt.system, prompt.user + suffix(lastFlaw));
      }
    }
    n := n.(degraded := n.degraded + 1, callsError := n.callsError + 1);
    return Degraded(lastFlaw), sent, n;
  }

  lemma {:induction false} NoFlawIff(a: Analysis)
    ensures FirstFlaw(a).None? <==> Conforms(a)
  {
  }

  /** The verdict on an answer: an analysis exactly when the answer decodes to that one and it conforms, a failed
      call exactly when there was no answer. */
  lemma {:induction false} VerdictIff(answers: nat -> Answer, decode: Decoder, i: nat, a: Analysis)
    ensures Verdict(answers, decode, i) == Analysed(a) <==> answers(i).Raw? && decode(answers(i).text) == Some(a) && Conforms(a)
    ensures Verdict(answers, decode, i).CallFailed? <==> answers(i).TransportError?
  {
    if answers(i).Raw? && decode(answers(i).text).Some? {
      NoFlawIff(decode(answers(i).text).value);
    }
  }

  /** Evaluator.run against any provider; `answers(i)` is what it says to the i-th call: a schema-valid
      analysis or an error, with everything the loop promises about calls, prompts and counters. */
  method Run(prompt: Prompt, maxRetries: nat, answers: nat -> Answer, decode: Decoder, suffix: Flaw -> string)
    returns (result: Result, sent: seq<Prompt>, n: Counters)
    ensures 1 <= |sent| <= maxRetries + 1
    ensures result.Analysed? ==> Conforms(result.analysis)
    ensures forall i | 0 <= i < |sent| - 1 :: Verdicts(answers, decode)(i).Degraded?
    ensures Verdicts(answers, decode)(|sent| - 1).Degraded? ==> |sent| == maxRetries + 1
    ensures result == Verdict(answers, decode, |sent| - 1)
    ensures forall i | 0 <= i < |sent| ::
              sent[i] == Instruction(prompt, Verdicts(answers, decode), suffix, i) && sent[i].system == prompt.system
    ensures sent[0] == prompt && forall i | 0 < i < |sent| :: sent[i].user == prompt.user + suffix(Verdicts(answers, decode)(i - 1).flaw)
    ensures n.callsOk + n.callsError == 1 && (n.callsOk == 1 <==> result.Analysed?)
    ensures n.validationFailures == n.retries + n.degraded && (n.degraded == 1 <==> result.Degraded?) && n.degraded <= 1
    ensures n.retries == |sent| - 1
  {
    result, sent, n := Attempts(prompt, maxRetries, Verdicts(answers, decode), suffix);
    if result.Analysed? {
      VerdictIff(answers, decode, |sent| - 1, result.analysis);
    }
  }

  // ---- the OpenAI-compatible provider ----

  datatype Mode = Schema | JsonObject | Auto

  datatype HttpReply = Content(text: string) | Error(schemaUnsupported: bool)

  function EffectiveMode(mode: Mode, downgraded: bool): Mode {
    if mode.Auto? then (if downgraded then JsonObject else Schema) else mode
  }

  const ATTEMPTS := 3

  /** A provider and the modes of the requests it has sent. */
  datatype Provider = Provider(mode: Mode, downgraded: bool, sent: seq<Mode>)

  /** One complete call from attempt `k` on. `http(k)` is the endpoint's reply to attempt k and
      `cancelled(k)` says whether the caller gave up during the wait before it. */
  function CompleteFrom(p: Provider, http: nat -> HttpReply, cancelled: nat -> bool, k: nat): (Provider, Answer)
    decreases ATTEMPTS - k
  {
    if k >= ATTEMPTS || (k > 0 && cancelled(k)) then (p, TransportError)
    else
      var p' := p.(sent := p.sent + [EffectiveMode(p.mode, p.downgraded)]);
      match http(k)
      case Content(text) => (p', Raw(text))
      case Error(unsupported) =>
        CompleteFrom(p'.(downgraded := p.downgraded || (unsupported && p.mode.Auto?)), http, cancelled, k + 1)
  }

  class OpenAiProvider {
    const mode: Mode
    var downgraded: bool
    ghost var sent: seq<Mode>

    ghost function View(): Provider
      reads this
    {
      Provider(mode, downgraded, sent)
    }

    constructor (mode: Mode)
      ensures View() == Provider(mode, false, [])
    {
      this.mode, downgraded, sent := mode, false, [];
    }

    /** structured: whether the endpoint can still guarantee schema-valid output. */
    predicate Structured()
      reads this
      // it holds exactly while the next request will be in schema mode
      ensures ModesConsistent(View()) ==> (Structured() <==> EffectiveMode(mode, downgraded).Schema?)
    {
      (mode.Schema? || mode.Auto?) && !downgraded
    }

    method Downgrade()
      modifies this`downgraded
      ensures downgraded == (old(downgraded) || mode.Auto?)
    {
      if mode.Auto? && !downgraded {
        downgraded := true;
      }
    }

    method Complete(http: nat -> HttpReply, cancelled: nat -> bool) returns (answer: Answer)
      modifies this
      ensures (View(), answer) == CompleteFrom(old(View()), http, cancelled, 0)
    {
      for k := 0 to ATTEMPTS
        invariant CompleteFrom(old(View()), http, cancelled, 0) == CompleteFrom(View(), http, cancelled, k)
      {
        if k > 0 && cancelled(k) {
          return TransportError;
        }
        sent := sent + [EffectiveMode(mode, downgraded)];
        match http(k)
        case Content(text) =>
          return Raw(text);
        case Error(unsupported) =>
          if unsupported && mode.Auto? {
            Downgrade();
          }
      }
      return TransportError;
    }
  }

  /** Under auto, requests are in schema mode up to a downgrade and in json-object mode ever after;
      otherwise they are all in the configured mode. */
  ghost predicate ModesConsistent(p: Provider) {
    if p.mode.Auto? then
      (forall i | 0 <= i < |p.sent| :: p.sent[i].Schema? || (p.sent[i].JsonObject? && p.downgraded)) &&
      (forall i, j | 0 <= i < j < |p.sent| && p.sent[i].JsonObject? :: p.sent[j].JsonObject?)
    else !p.downgraded && forall i | 0 <= i < |p.sent| :: p.sent[i] == p.mode
  }

  /** A call sends at most three requests, keeps their modes consistent and never undoes a downgrade. */
  lemma {:induction false} CompleteBounded(p: Provider, http: nat -> HttpReply, cancelled: nat -> bool, k: nat)
    requires ModesConsistent(p) && k <= ATTEMPTS
    ensures var p' := CompleteFrom(p, http, cancelled, k).0;
            ModesConsistent(p') && p'.mode == p.mode && (p.downgraded ==> p'.downgraded) &&
            p.sent <= p'.sent && |p'.sent| <= |p.sent| + ATTEMPTS - k
    decreases ATTEMPTS - k
  {
    if k < ATTEMPTS && !(k > 0 && cancelled(k)) {
      SendConsistent(p, false);
      if http(k).Error? {
        SendConsistent(p, http(k).schemaUnsupported);
        CompleteBounded(Sent(p, http(k).schemaUnsupported), http, cancelled, k + 1);
      }
    }
  }

  /** The provider after one more request, which was refused for its schema or not. */
  function Sent(p: Provider, rejected: bool): Provider {
    p.(sent := p.sent + [EffectiveMode(p.mode, p.downgraded)], downgraded := p.downgraded || (rejected && p.mode.Auto?))
  }

  lemma {:induction false} SendConsistent(p: Provider, rejected: bool)
    requires ModesConsistent(p)
    ensures ModesConsistent(Sent(p, rejected))
  {
  }

  /** The endpoint refused the schema of request `k`. */
  predicate Rejected(http: nat -> HttpReply, k: nat) { http(k).Error? && http(k).schemaUnsupported }

  ghost predicate AnyRejected(http: nat -> HttpReply, k: nat, n: nat) {
    exists i: nat | k <= i < n :: Rejected(http, i)
  }

  lemma {:induction false} AnyRejectedFirst(http: nat -> HttpReply, k: nat, n: nat)
    requires k < n
    ensures AnyRejected(http, k, n) <==> Rejected(http, k) || AnyRejected(http, k + 1, n)
  {
  }

  /** The mode of request `j`, had the call begun with request `k`: under auto, json-object once downgraded or
      refused, schema before. */
  ghost predicate ModeFits(p: Provider, http: nat -> HttpReply, k: nat, j: nat, m: Mode) {
    if !p.mode.Auto? then m == p.mode
    else if p.downgraded || AnyRejected(http, k, j) then m == JsonObject else m == Schema
  }

  /** What a call does from request `k` on, `n` being the first request it does not send. */
  ghost predicate CallFits(p: Provider, http: nat -> HttpReply, cancelled: nat -> bool, k: nat, n: nat, p': Provider, answer: Answer) {
    k <= n <= ATTEMPTS && |p'.sent| == |p.sent| + n - k && p'.mode == p.mode &&
    // no request after a cancellation, and another one only after an error
    (forall j: nat | k <= j < n :: j > 0 ==> !cancelled(j)) && (forall j: nat | k <= j < n - 1 :: http(j).Error?) &&
    // the answer is the last request's, an error only if that failed and no more may follow
    (answer.Raw? ==> k < n && http(n - 1) == Content(answer.text)) &&
    (answer.TransportError? ==> (k < n ==> http(n - 1).Error?) && (n == ATTEMPTS || (n > 0 && cancelled(n)))) &&
    // a downgrade happens exactly when an auto provider's schema is refused
    (p'.downgraded <==> p.downgraded || (p.mode.Auto? && AnyRejected(http, k, n))) &&
    (forall x | |p.sent| <= x < |p'.sent| :: ModeFits(p, http, k, k + x - |p.sent|, p'.sent[x]))
  }

  lemma {:induction false} CallStep(p: Provider, http: nat -> HttpReply, cancelled: nat -> bool, k: nat, n: nat, p': Provider, answer: Answer)
    requires k < ATTEMPTS && !(k > 0 && cancelled(k)) && http(k).Error?
    requires var q := p.(sent := p.sent + [EffectiveMode(p.mode, p.downgraded)],
                         downgraded := p.downgraded || (http(k).schemaUnsupported && p.mode.Auto?));
             CallFits(q, http, cancelled, k + 1, n, p', answer) && q.sent <= p'.sent
    ensures CallFits(p, http, cancelled, k, n, p', answer)
  {
    var q := p.(sent := p.sent + [EffectiveMode(p.mode, p.downgraded)],
                downgraded := p.downgraded || (http(k).schemaUnsupported && p.mode.Auto?));
    AnyRejectedFirst(http, k, n);
    forall x | |p.sent| <= x < |p'.sent| ensures ModeFits(p, http, k, k + x - |p.sent|, p'.sent[x]) {
      if x == |p.sent| {
        assert p'.sent[x] == q.sent[x];
      } else {
        assert ModeFits(q, http, k + 1, k + 1 + x - |q.sent|, p'.sent[x]);
        AnyRejectedFirst(http, k, k + x - |p.sent|);
      }
    }
  }

  /** Exactly how a call goes, for any endpoint and any cancellation: it sends up to three requests, stops at the
      first content, answers with that, and fails only after three errors or a cancellation. */
  lemma {:induction false} CompleteMeaning(p: Provider, http: nat -> HttpReply, cancelled: nat -> bool, k: nat) returns (n: nat)
    requires k <= ATTEMPTS
    ensures var (p', answer) := CompleteFrom(p, http, cancelled, k);
            CallFits(p, http, cancelled, k, n, p', answer) && p.sent <= p'.sent
    decreases ATTEMPTS - k
  {
    if k >= ATTEMPTS || (k > 0 && cancelled(k)) {
      n := k;
    } else {
      var sent := p.(sent := p.sent + [EffectiveMode(p.mode, p.downgraded)]);
      if http(k).Content? {
        n := k + 1;
        assert AnyRejected(http, k, n) <==> Rejected(http, k);
      } else {
        var q := sent.(downgraded := p.downgraded || (http(k).schemaUnsupported && p.mode.Auto?));
        n := CompleteMeaning(q, http, cancelled, k + 1);
        var (p', answer) := CompleteFrom(q, http, cancelled, k + 1);
        CallStep(p, http, cancelled, k, n, p', answer);
      }
    }
  }

  // ---- the loop on top of the provider ----

  /** The endpoint's replies and the caller's cancellations, per call of the provider. */
  datatype World = World(http: nat -> (nat -> HttpReply), cancelled: nat -> (nat -> bool))

  /** The provider after `n` calls. */
  function After(mode: Mode, w: World, n: nat): Provider {
    if n == 0 then Provider(mode, false, [])
    else CompleteFrom(After(mode, w, n - 1), w.http(n - 1), w.cancelled(n - 1), 0).0
  }

  function AnswerAt(mode: Mode, w: World, i: nat): Answer {
    CompleteFrom(After(mode, w, i), w.http(i), w.cancelled(i), 0).1
  }

  lemma {:induction false} CallsBounded(mode: Mode, w: World, n: nat)
    ensures var p := After(mode, w, n); p.mode == mode && ModesConsistent(p) && |p.sent| <= ATTEMPTS * n
  {
    if n > 0 {
      CallsBounded(mode, w, n - 1);
      CompleteBounded(After(mode, w, n - 1), w.http(n - 1), w.cancelled(n - 1), 0);
    }
  }

  /** One evaluation over the provider, calls in sequence: a schema-valid analysis or an error after at
      most three requests per allowed call, and under auto no schema request after a downgrade. */
  method Evaluate(prompt: Prompt, maxRetries: nat, mode: Mode, w: World, decode: Decoder, suffix: Flaw -> string)
    returns (result: Result, p: Provider)
    ensures result.Analysed? ==> Conforms(result.analysis)
    ensures exists calls: nat :: 1 <= calls <= maxRetries + 1 && p == After(mode, w, calls) &&
              result == Verdict((i: nat) => AnswerAt(mode, w, i), decode, calls - 1)
    ensures |p.sent| <= ATTEMPTS * (maxRetries + 1)
    ensures p.mode == mode && ModesConsistent(p)
  {
    var answers := (i: nat) => AnswerAt(mode, w, i);
    var sent, n;
    result, sent, n := Run(prompt, maxRetries, answers, decode, suffix);
    p := After(mode, w, |sent|);
    CallsBounded(mode, w, |sent|);
    assert ATTEMPTS * |sent| <= ATTEMPTS * (maxRetries + 1);
  }
}
