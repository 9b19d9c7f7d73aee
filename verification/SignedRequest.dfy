/** The signature base of a request and what a signature over it protects
    (internal/auth/httpsig.go), plus the sealed envelope bound to the same request
    (internal/auth/sealed.go). */
module SignedRequest {
  import opened Common
  import opened Text
  import opened HttpSignature

  // ---- signature base ----

  function ComponentValue(name: string, verb: string, path: string, h: Header): string {
    if name == "@method" then Upper(verb)
    else if name == "@path" then path
    else TrimSpace(Field(h, name))
  }

  /** The values a signature covers, in signing order. */
  function Covered(names: seq<string>, verb: string, path: string, h: Header): (vs: seq<string>)
    ensures |vs| == |names|
    ensures forall i | 0 <= i < |names| :: vs[i] == ComponentValue(names[i], verb, path, h)
  {
    seq(|names|, i requires 0 <= i < |names| => ComponentValue(names[i], verb, path, h))
  }

  /** One `"name": value` line per component, then the parameters without a line break. */
  function BaseText(names: seq<string>, values: seq<string>, params: string): string
    requires |names| == |values|
  {
    if names == [] then Quoted("@signature-params") + ": " + params
    else Quoted(names[0]) + ": " + values[0] + "\n" + BaseText(names[1..], values[1..], params)
  }

  function Base(verb: string, path: string, h: Header, params: string): string {
    BaseText(COMPONENTS, Covered(COMPONENTS, verb, path, h), params)
  }

  function Line(name: string, value: string): string { Quoted(name) + ": " + value + "\n" }

  /** A line is the name between quotes, a colon, a space, the value and a line break. */
  lemma {:induction false} LineText(name: string, value: string)
    ensures Line(name, value) == "\"" + name + "\": " + value + "\n"
  {
    assert "\"" + ": " == "\": ";
  }

  function Lines(names: seq<string>, values: seq<string>): string
    requires |names| == |values|
  {
    if names == [] then ""
    else Lines(names[..|names| - 1], values[..|names| - 1]) + Line(names[|names| - 1], values[|names| - 1])
  }

  lemma {:induction false} LinesSnoc(names: seq<string>, values: seq<string>, i: nat)
    requires |names| == |values| && i < |names|
    ensures Lines(names[..i + 1], values[..i + 1]) == Lines(names[..i], values[..i]) + Line(names[i], values[i])
  {
    assert names[..i + 1][..i] == names[..i] && values[..i + 1][..i] == values[..i];
  }

  lemma {:induction false} LinesFirst(names: seq<string>, values: seq<string>)
    requires |names| == |values| > 0
    ensures Lines(names, values) == Line(names[0], values[0]) + Lines(names[1..], values[1..])
  {
    var n := |names| - 1;
    if n > 0 {
      LinesFirst(names[..n], values[..n]);
      assert names[..n][1..] == names[1..][..n - 1] && values[..n][1..] == values[1..][..n - 1];
    }
  }

  lemma {:induction false} BaseTextIsLines(names: seq<string>, values: seq<string>, params: string)
    requires |names| == |values|
    ensures BaseText(names, values, params) == Lines(names, values) + (Quoted("@signature-params") + ": " + params)
  {
    if names != [] {
      BaseTextIsLines(names[1..], values[1..], params);
      LinesFirst(names, values);
    }
  }

  /** SignatureBase, with the loop that appends one line per component. */
  method SignatureBase(verb: string, path: string, h: Header, params: string) returns (text: string)
    ensures text == Base(verb, path, h, params)
  {
    text := "";
    ghost var values := Covered(COMPONENTS, verb, path, h);
    for i := 0 to |COMPONENTS|
      invariant text == Lines(COMPONENTS[..i], values[..i])
    {
      var c := COMPONENTS[i];
      var v: string;
      if c == "@method" {
        v := Upper(verb);
      } else if c == "@path" {
        v := path;
      } else {
        v := TrimSpace(Field(h, c));
      }
      LinesSnoc(COMPONENTS, values, i);
      text := text + Line(c, v);
    }
    assert COMPONENTS[..|COMPONENTS|] == COMPONENTS && values[..|COMPONENTS|] == values;
    BaseTextIsLines(COMPONENTS, values, params);
    text := text + (Quoted("@signature-params") + ": " + params);
  }

  ghost predicate NewlineFree(values: seq<string>) {
    forall i | 0 <= i < |values| :: '\n' !in values[i]
  }

  /** The base determines every covered value and the parameters, whatever the component names,
      as long as no covered value holds a line break. */
  lemma {:induction false} BaseUnique(names: seq<string>, vs: seq<string>, params: string, vs': seq<string>, params': string)
    requires |names| == |vs| == |vs'|
    requires NewlineFree(vs) && NewlineFree(vs')
    ensures BaseText(names, vs, params) == BaseText(names, vs', params') <==> vs == vs' && params == params'
  {
    if names == [] {
      Prepend(Quoted("@signature-params") + ": ", params, params');
    } else {
      BaseUnique(names[1..], vs[1..], params, vs'[1..], params');
      var start := Quoted(names[0]) + ": ";
      var rest, rest' := BaseText(names[1..], vs[1..], params), BaseText(names[1..], vs'[1..], params');
      LineUnique(start, vs[0], rest, vs'[0], rest');
      assert vs == [vs[0]] + vs[1..] && vs' == [vs'[0]] + vs'[1..];
    }
  }

  lemma {:induction false} LineUnique(start: string, v: string, rest: string, v': string, rest': string)
    requires '\n' !in v && '\n' !in v'
    ensures start + v + "\n" + rest == start + v' + "\n" + rest' <==> v == v' && rest == rest'
  {
    assert start + v + "\n" + rest == start + (v + ['\n'] + rest);
    assert start + v' + "\n" + rest' == start + (v' + ['\n'] + rest');
    Prepend(start, v + ['\n'] + rest, v' + ['\n'] + rest');
    if v + ['\n'] + rest == v' + ['\n'] + rest' {
      CutUnique(v, rest, v', rest', '\n');
    }
  }

  lemma Shift(p: string, x: string, q: string, y: string, z: string, r: string)
    ensures p + x + "\n" + (q + (y + "\n" + q + z) + "\n" + r) == p + (x + "\n" + q + y) + "\n" + (q + z + "\n" + r)
  {
  }

  /** What precedes the value on a component's line. */
  function Start(name: string): string { Quoted(name) + ": " }

  /** Values `i` and `i + 1` as `x`, and `y` and `z` joined by an imitation of the second line's start. */
  function Late(names: seq<string>, vs: seq<string>, i: nat, x: string, y: string, z: string): seq<string>
    requires i + 1 < |names| == |vs|
  {
    vs[i := x][i + 1 := y + "\n" + Start(names[i + 1]) + z]
  }

  /** The same text divided earlier: `x` and `y` joined likewise, and `z`. */
  function Early(names: seq<string>, vs: seq<string>, i: nat, x: string, y: string, z: string): seq<string>
    requires i + 1 < |names| == |vs|
  {
    vs[i := x + "\n" + Start(names[i + 1]) + y][i + 1 := z]
  }

  lemma {:induction false} BaseStart(names: seq<string>, v: seq<string>, params: string)
    requires |names| == |v| >= 2
    ensures BaseText(names, v, params) ==
            Start(names[0]) + v[0] + "\n" + (Start(names[1]) + v[1] + "\n" + BaseText(names[2..], v[2..], params))
  {
    assert names[1..][1..] == names[2..] && v[1..][1..] == v[2..];
    assert BaseText(names[1..], v[1..], params) == Start(names[1]) + v[1] + "\n" + BaseText(names[2..], v[2..], params);
  }

  lemma {:induction false} SameReading(names: seq<string>, vs: seq<string>, i: nat, x: string, y: string, z: string, params: string)
    requires i + 1 < |names| == |vs|
    ensures BaseText(names, Late(names, vs, i, x, y, z), params) == BaseText(names, Early(names, vs, i, x, y, z), params)
    decreases i
  {
    var late, early := Late(names, vs, i, x, y, z), Early(names, vs, i, x, y, z);
    if i == 0 {
      BaseStart(names, late, params);
      BaseStart(names, early, params);
      assert late[2..] == early[2..];
      Shift(Start(names[0]), x, Start(names[1]), y, z, BaseText(names[2..], late[2..], params));
    } else {
      SameReading(names[1..], vs[1..], i - 1, x, y, z, params);
      assert late[1..] == Late(names[1..], vs[1..], i - 1, x, y, z);
      assert early[1..] == Early(names[1..], vs[1..], i - 1, x, y, z);
    }
  }

  /** Without that condition two different lists of the seven covered values share a base, for every pair of
      neighbouring components and whatever the other values: a line break in one value imitates the next
      component's line. */
  lemma {:induction false} LineBreakForgesBase(vs: seq<string>, i: nat, x: string, y: string, z: string, params: string)
    requires i + 1 < |COMPONENTS| == |vs|
    ensures var v, v' := Late(COMPONENTS, vs, i, x, y, z), Early(COMPONENTS, vs, i, x, y, z);
            v != v' && BaseText(COMPONENTS, v, params) == BaseText(COMPONENTS, v', params)
  {
    SameReading(COMPONENTS, vs, i, x, y, z, params);
    var v, v' := Late(COMPONENTS, vs, i, x, y, z), Early(COMPONENTS, vs, i, x, y, z);
    assert |v[i]| < |v'[i]|;
  }

  // ---- signing and verifying ----

  /** The primitives: ECDSA over the base, and base64. */
  datatype Primitives = Primitives(
    sign: string -> string,
    verify: (string, string) -> bool,
    encode: string -> string,
    decode: string -> Option<string>)

  /** The primitives do their work on these two texts: signatures are 64 bytes, base64 decoding
      inverts encoding, and the signature of `text` verifies for `other` only if they are the same
      text. (Asked of the two texts at hand only: 64 bytes cannot tell all texts apart.) */
  ghost predicate Unforged(p: Primitives, text: string, other: string) {
    var bytes := p.sign(text);
    |bytes| == 64 && p.decode(p.encode(bytes)) == Some(bytes) && (p.verify(other, bytes) <==> text == other)
  }

  datatype Verdict = Verified(info: SignatureInfo) | Missing | Malformed | Invalid

  /** SignRequest: sets Signature-Input and Signature from the headers already present. */
  function SignRequest(p: Primitives, verb: string, path: string, h: Header, keyId: string, created: int): Header {
    var params := ParamsText(created, keyId);
    h[SIGNATURE_INPUT := LABEL + "=" + params]
     [SIGNATURE := LABEL + "=:" + p.encode(p.sign(Base(verb, path, h, params))) + ":"]
  }

  /** The parameters of a Signature-Input text. */
  function InputParams(input: string): Option<string> {
    if LABEL + "=" <= input then Some(input[|LABEL| + 1..]) else None
  }

  /** The base64 of a Signature text. */
  function SignatureCode(sig: string): Option<string> {
    if LABEL + "=:" <= sig && |sig| > |LABEL| + 2 && sig[|sig| - 1] == ':' then Some(sig[|LABEL| + 2..|sig| - 1]) else None
  }

  /** VerifyRequest */
  function VerifyRequest(p: Primitives, verb: string, path: string, h: Header, unquote: Unquote): Verdict {
    var input, sig := TrimSpace(Field(h, SIGNATURE_INPUT)), TrimSpace(Field(h, SIGNATURE));
    if input == "" || sig == "" then Missing
    else if InputParams(input).None? then Malformed
    else
      var params := InputParams(input).value;
      var info := Parse(params, unquote);
      if info.None? || SignatureCode(sig).None? then Malformed
      else
        var bytes := p.decode(SignatureCode(sig).value);
        if bytes.None? || |bytes.value| != 64 then Malformed
        else if p.verify(Base(verb, path, h, params), bytes.value) then Verified(info.value)
        else Invalid
  }

  lemma {:induction false} InputParamsIff(input: string, params: string)
    ensures InputParams(input) == Some(params) <==> input == "sig1=" + params
  {
    Unframe("sig1=", params, "");
    assert "sig1=" + params == "sig1=" + params + "";
    if LABEL + "=" <= input {
      assert input == LABEL + "=" + input[|LABEL| + 1..];
    }
  }

  lemma {:induction false} SignatureCodeIff(sig: string, code: string)
    ensures SignatureCode(sig) == Some(code) <==> sig == "sig1=:" + code + ":"
  {
    Unframe("sig1=:", code, ":");
    if SignatureCode(sig).Some? {
      assert sig == LABEL + "=:" + sig[|LABEL| + 2..|sig| - 1] + ":";
    }
  }

  /** Signature-Input reads as `params` and Signature as base64 of `bytes`. */
  predicate Carries(p: Primitives, h: Header, params: string, code: string, bytes: string) {
    TrimSpace(Field(h, "signature-input")) == "sig1=" + params && TrimSpace(Field(h, "signature")) == "sig1=:" + code + ":" &&
    p.decode(code) == Some(bytes)
  }

  /** Exactly which requests verify, for any headers: Signature-Input is the label and well-formed parameters,
      Signature is the label and, between colons, base64 of 64 bytes, and these verify over the base. */
  lemma {:induction false} VerifiedIff(p: Primitives, verb: string, path: string, h: Header, unquote: Unquote, info: SignatureInfo)
    ensures VerifyRequest(p, verb, path, h, unquote) == Verified(info) <==>
            exists params, code, bytes | Carries(p, h, params, code, bytes) ::
              WellFormed(params, unquote, info) && |bytes| == 64 && p.verify(Base(verb, path, h, params), bytes)
  {
    if VerifyRequest(p, verb, path, h, unquote) == Verified(info) {
      var params, code := VerifiedCarries(p, verb, path, h, unquote, info);
      ParserExact(params, unquote, info);
    }
    if params, code, bytes :| Carries(p, h, params, code, bytes) && WellFormed(params, unquote, info) && |bytes| == 64 &&
                              p.verify(Base(verb, path, h, params), bytes) {
      ParserExact(params, unquote, info);
      CarriedVerifies(p, verb, path, h, unquote, info, params, code, bytes);
    }
  }

  lemma {:induction false} VerifiedCarries(p: Primitives, verb: string, path: string, h: Header, unquote: Unquote, info: SignatureInfo)
    returns (params: string, code: string)
    requires VerifyRequest(p, verb, path, h, unquote) == Verified(info)
    ensures Parse(params, unquote) == Some(info) && p.decode(code).Some? && |p.decode(code).value| == 64
    ensures Carries(p, h, params, code, p.decode(code).value) && p.verify(Base(verb, path, h, params), p.decode(code).value)
  {
    var input, sig := TrimSpace(Field(h, SIGNATURE_INPUT)), TrimSpace(Field(h, SIGNATURE));
    params, code := InputParams(input).value, SignatureCode(sig).value;
    InputParamsIff(input, params);
    SignatureCodeIff(sig, code);
  }

  lemma {:induction false} CarriedVerifies(
    p: Primitives, verb: string, path: string, h: Header, unquote: Unquote, info: SignatureInfo, params: string, code: string, bytes: string)
    requires Carries(p, h, params, code, bytes) && Parse(params, unquote) == Some(info) && |bytes| == 64
    requires p.verify(Base(verb, path, h, params), bytes)
    ensures VerifyRequest(p, verb, path, h, unquote) == Verified(info)
  {
    InputParamsIff(TrimSpace(Field(h, SIGNATURE_INPUT)), params);
    SignatureCodeIff(TrimSpace(Field(h, SIGNATURE)), code);
  }

  /** The header framing: labels and delimiters come off as they were put on. */
  lemma {:induction false} VerifyFramed(
    p: Primitives, verb: string, path: string, h: Header, unquote: Unquote, params: string, info: SignatureInfo, bytes: string)
    requires params != "" && !IsSpace(params[|params| - 1]) && Parse(params, unquote) == Some(info)
    requires p.decode(p.encode(bytes)) == Some(bytes) && |bytes| == 64
    requires Field(h, SIGNATURE_INPUT) == LABEL + "=" + params
    requires Field(h, SIGNATURE) == LABEL + "=:" + p.encode(bytes) + ":"
    ensures VerifyRequest(p, verb, path, h, unquote) ==
            if p.verify(Base(verb, path, h, params), bytes) then Verified(info) else Invalid
  {
    InputFrame(params);
    SignatureFrame(p.encode(bytes));
  }

  lemma {:induction false} InputFrame(params: string)
    requires params != "" && !IsSpace(params[|params| - 1])
    ensures var input := LABEL + "=" + params; TrimSpace(input) == input && input != "" && InputParams(input) == Some(params)
  {
    InputParamsIff(LABEL + "=" + params, params);
    TrimSpaceKeeps(LABEL + "=" + params);
  }

  lemma {:induction false} SignatureFrame(code: string)
    ensures var sig := LABEL + "=:" + code + ":"; TrimSpace(sig) == sig && sig != "" && SignatureCode(sig) == Some(code)
  {
    SignatureCodeIff(LABEL + "=:" + code + ":", code);
    TrimSpaceKeeps(LABEL + "=:" + code + ":");
  }

  lemma Unframe(head: string, body: string, tail: string)
    ensures var text := head + body + tail; head <= text && text[|head|..|text| - |tail|] == body
  {
  }

  lemma ParamsTextEnd(created: int, keyId: string)
    ensures var params := ParamsText(created, keyId); params != "" && !IsSpace(params[|params| - 1])
  {
  }

  /** What a signature is to protect, name by name: the method up to case, the path, and five header
      fields up to surrounding white space. */
  predicate SameRequest(verb: string, path: string, h: Header, verb': string, path': string, h': Header) {
    Upper(verb) == Upper(verb') && path == path' &&
    TrimSpace(Field(h, "content-digest")) == TrimSpace(Field(h', "content-digest")) &&
    TrimSpace(Field(h, "x-muthur-timestamp")) == TrimSpace(Field(h', "x-muthur-timestamp")) &&
    TrimSpace(Field(h, "x-muthur-nonce")) == TrimSpace(Field(h', "x-muthur-nonce")) &&
    TrimSpace(Field(h, "x-muthur-cert")) == TrimSpace(Field(h', "x-muthur-cert")) &&
    TrimSpace(Field(h, "x-muthur-hpke-kid")) == TrimSpace(Field(h', "x-muthur-hpke-kid"))
  }

  /** No line break in any of them. */
  predicate OneLine(verb: string, path: string, h: Header) {
    '\n' !in Upper(verb) && '\n' !in path && '\n' !in TrimSpace(Field(h, "content-digest")) &&
    '\n' !in TrimSpace(Field(h, "x-muthur-timestamp")) && '\n' !in TrimSpace(Field(h, "x-muthur-nonce")) &&
    '\n' !in TrimSpace(Field(h, "x-muthur-cert")) && '\n' !in TrimSpace(Field(h, "x-muthur-hpke-kid"))
  }

  lemma {:induction false} CoveredText(verb: string, path: string, h: Header)
    ensures Covered(COMPONENTS, verb, path, h) == [
              Upper(verb), path, TrimSpace(Field(h, "content-digest")), TrimSpace(Field(h, "x-muthur-timestamp")),
              TrimSpace(Field(h, "x-muthur-nonce")), TrimSpace(Field(h, "x-muthur-cert")), TrimSpace(Field(h, "x-muthur-hpke-kid"))]
  {
    var vs := Covered(COMPONENTS, verb, path, h);
    assert vs[0] == Upper(verb) && vs[1] == path;
    assert vs[2] == TrimSpace(Field(h, "content-digest")) && vs[3] == TrimSpace(Field(h, "x-muthur-timestamp"));
    assert vs[4] == TrimSpace(Field(h, "x-muthur-nonce")) && vs[5] == TrimSpace(Field(h, "x-muthur-cert"));
    assert vs[6] == TrimSpace(Field(h, "x-muthur-hpke-kid"));
  }

  /** The covered values are the same exactly when the requests are. */
  lemma {:induction false} CoveredIsRequest(verb: string, path: string, h: Header, verb': string, path': string, h': Header)
    ensures Covered(COMPONENTS, verb, path, h) == Covered(COMPONENTS, verb', path', h') <==> SameRequest(verb, path, h, verb', path', h')
  {
    CoveredText(verb, path, h);
    CoveredText(verb', path', h');
    var v, v' := Covered(COMPONENTS, verb, path, h), Covered(COMPONENTS, verb', path', h');
    assert v == v' ==> forall i | 0 <= i < 7 :: v[i] == v'[i];
  }

  lemma {:induction false} OneLineValues(verb: string, path: string, h: Header)
    requires OneLine(verb, path, h)
    ensures NewlineFree(Covered(COMPONENTS, verb, path, h))
  {
    CoveredText(verb, path, h);
  }

  /** The base, line by line. */
  lemma {:induction false} BaseLiteral(verb: string, path: string, h: Header, params: string)
    ensures Base(verb, path, h, params) ==
            Line("@method", Upper(verb)) + (Line("@path", path) + (Line("content-digest", TrimSpace(Field(h, "content-digest"))) +
            (Line("x-muthur-timestamp", TrimSpace(Field(h, "x-muthur-timestamp"))) + BaseTail(h, params))))
  {
    var vs := Covered(COMPONENTS, verb, path, h);
    CoveredText(verb, path, h);
    MiddleLiteral(vs, h, params);
    FromComponent(vs, params, 0);
    FromComponent(vs, params, 1);
    assert COMPONENTS[0..] == COMPONENTS && vs[0..] == vs;
  }

  lemma {:induction false} MiddleLiteral(vs: seq<string>, h: Header, params: string)
    requires |vs| == 7 && vs[2] == TrimSpace(Field(h, "content-digest")) && vs[3] == TrimSpace(Field(h, "x-muthur-timestamp"))
    requires vs[4] == TrimSpace(Field(h, "x-muthur-nonce")) && vs[5] == TrimSpace(Field(h, "x-muthur-cert"))
    requires vs[6] == TrimSpace(Field(h, "x-muthur-hpke-kid"))
    ensures BaseText(COMPONENTS[2..], vs[2..], params) ==
            Line("content-digest", vs[2]) + (Line("x-muthur-timestamp", vs[3]) + BaseTail(h, params))
  {
    TailLiteral(vs, h, params);
    FromComponent(vs, params, 2);
    FromComponent(vs, params, 3);
  }

  /** The second half of the base. */
  function BaseTail(h: Header, params: string): string {
    Line("x-muthur-nonce", TrimSpace(Field(h, "x-muthur-nonce"))) + (Line("x-muthur-cert", TrimSpace(Field(h, "x-muthur-cert"))) +
    (Line("x-muthur-hpke-kid", TrimSpace(Field(h, "x-muthur-hpke-kid"))) + (Quoted("@signature-params") + ": " + params)))
  }

  lemma {:induction false} TailLiteral(vs: seq<string>, h: Header, params: string)
    requires |vs| == 7 && vs[4] == TrimSpace(Field(h, "x-muthur-nonce")) && vs[5] == TrimSpace(Field(h, "x-muthur-cert"))
    requires vs[6] == TrimSpace(Field(h, "x-muthur-hpke-kid"))
    ensures BaseText(COMPONENTS[4..], vs[4..], params) == BaseTail(h, params)
  {
    FromComponent(vs, params, 4);
    FromComponent(vs, params, 5);
    FromComponent(vs, params, 6);
    assert COMPONENTS[7..] == [] && vs[7..] == [];
  }

  lemma {:induction false} FromComponent(vs: seq<string>, params: string, i: nat)
    requires |vs| == |COMPONENTS| && i < |COMPONENTS|
    ensures BaseText(COMPONENTS[i..], vs[i..], params) ==
            Line(COMPONENTS[i], vs[i]) + BaseText(COMPONENTS[i + 1..], vs[i + 1..], params)
  {
    assert COMPONENTS[i..][1..] == COMPONENTS[i + 1..] && vs[i..][1..] == vs[i + 1..];
  }

  /** A request that carries the two headers made by SignRequest verifies exactly when its method,
      path and five covered headers read the same as the signed ones; every other request is
      refused as invalid. */
  lemma {:induction false} SignatureBindsRequest(
    p: Primitives, unquote: Unquote, keyId: string, created: int,
    verb: string, path: string, h: Header, verb': string, path': string, h': Header)
    requires UnquotesHex(unquote) && IsHex(keyId) && Int64(created)
    requires var params := ParamsText(created, keyId);
             Unforged(p, Base(verb, path, h, params), Base(verb', path', h', params))
    requires OneLine(verb, path, h) && OneLine(verb', path', h')
    requires var signed := SignRequest(p, verb, path, h, keyId, created);
             Field(h', SIGNATURE_INPUT) == signed[SIGNATURE_INPUT] && Field(h', SIGNATURE) == signed[SIGNATURE]
    ensures VerifyRequest(p, verb', path', h', unquote) ==
            if SameRequest(verb, path, h, verb', path', h')
            then Verified(SignatureInfo(created, keyId)) else Invalid
  {
    var params := ParamsText(created, keyId);
    var text, text' := Base(verb, path, h, params), Base(verb', path', h', params);
    CoveredIsRequest(verb, path, h, verb', path', h');
    OneLineValues(verb, path, h);
    OneLineValues(verb', path', h');
    ParamsTextEnd(created, keyId);
    ParamsRoundTrip(created, keyId, unquote);
    SignedFields(p, verb, path, h, keyId, created);
    VerifyFramed(p, verb', path', h', unquote, params, SignatureInfo(created, keyId), p.sign(text));
    BaseUnique(COMPONENTS, Covered(COMPONENTS, verb, path, h), params, Covered(COMPONENTS, verb', path', h'), params);
  }

  lemma {:induction false} SignedFields(p: Primitives, verb: string, path: string, h: Header, keyId: string, created: int)
    ensures var params := ParamsText(created, keyId);
            var signed := SignRequest(p, verb, path, h, keyId, created);
            signed[SIGNATURE_INPUT] == LABEL + "=" + params &&
            signed[SIGNATURE] == LABEL + "=:" + p.encode(p.sign(Base(verb, path, h, params))) + ":"
  {
    assert |SIGNATURE_INPUT| != |SIGNATURE|;
  }

  // ---- sealed envelope ----

  const VERSION: char := '\U{1}'
  const ENC_SIZE := 32

  function HpkeInfo(path: string): string { "muthur/v1 " + path }

  function SealAad(timestamp: string, nonce: string): string { timestamp + "\n" + nonce }

  /** HPKE to one key: `seal` returns the encapsulation and the ciphertext. */
  datatype Hpke = Hpke(
    seal: (string, string, string) -> (string, string),
    open: (string, string, string, string) -> Option<string>)

  /** Authenticated encryption: what was sealed under (info, aad) opens under those and no other. */
  ghost predicate Authentic(k: Hpke) {
    forall info, aad, plain ::
      var sealed := k.seal(info, aad, plain);
      |sealed.0| == ENC_SIZE &&
      forall info', aad' ::
        k.open(sealed.0, info', aad', sealed.1) == if info == info' && aad == aad' then Some(plain) else None
  }

  datatype Opened = Plain(text: string) | UnknownKey | SealedMalformed

  /** SealRequest: version byte, encapsulation, ciphertext. */
  function SealRequest(k: Hpke, path: string, timestamp: string, nonce: string, plain: string): string {
    var sealed := k.seal(HpkeInfo(path), SealAad(timestamp, nonce), plain);
    [VERSION] + sealed.0 + sealed.1
  }

  /** HPKEKeySet.OpenRequest */
  function OpenRequest(keys: map<string, Hpke>, kid: string, path: string, timestamp: string, nonce: string, body: string): Opened {
    if kid !in keys then UnknownKey
    else if |body| < 1 + ENC_SIZE || body[0] != VERSION then SealedMalformed
    else
      var plain := keys[kid].open(body[1..1 + ENC_SIZE], HpkeInfo(path), SealAad(timestamp, nonce), body[1 + ENC_SIZE..]);
      if plain.Some? then Plain(plain.value) else SealedMalformed
  }

  /** Exactly which bodies open: those addressed to a known key that are the version byte, 32 bytes of
      encapsulation and a ciphertext which that key opens for this path, timestamp and nonce. */
  lemma {:induction false} OpenedIff(keys: map<string, Hpke>, kid: string, path: string, ts: string, nonce: string, body: string, text: string)
    ensures OpenRequest(keys, kid, path, ts, nonce, body) == Plain(text) <==>
            kid in keys &&
            exists enc, ct | |enc| == 32 && body == ['\U{1}'] + enc + ct ::
              keys[kid].open(enc, "muthur/v1 " + path, ts + "\n" + nonce, ct) == Some(text)
  {
    if OpenRequest(keys, kid, path, ts, nonce, body) == Plain(text) {
      var enc, ct := body[1..33], body[33..];
      assert body == [body[0]] + enc + ct;
      assert |enc| == 32 && keys[kid].open(enc, "muthur/v1 " + path, ts + "\n" + nonce, ct) == Some(text);
    }
    if kid in keys {
      forall enc: string, ct: string | |enc| == 32 && body == ['\U{1}'] + enc + ct
        ensures body[1..33] == enc && body[33..] == ct && body[0] == '\U{1}'
      {
      }
    }
  }

  /** The two HPKE inputs determine path, timestamp and nonce. */
  lemma {:induction false} SealInputsUnique(path: string, ts: string, nonce: string, path': string, ts': string, nonce': string)
    requires '\n' !in ts && '\n' !in ts'
    ensures HpkeInfo(path) == HpkeInfo(path') && SealAad(ts, nonce) == SealAad(ts', nonce') <==>
            path == path' && ts == ts' && nonce == nonce'
  {
    Prepend("muthur/v1 ", path, path');
    LineUnique("", ts, nonce, ts', nonce');
    assert "" + ts == ts && "" + ts' == ts';
  }

  /** An envelope opens under its own path, timestamp and nonce and cannot be re-paired with others. */
  lemma {:induction false} EnvelopeBindsRequest(
    keys: map<string, Hpke>, kid: string, path: string, ts: string, nonce: string, plain: string,
    path': string, ts': string, nonce': string)
    requires kid in keys && Authentic(keys[kid])
    requires '\n' !in ts && '\n' !in ts'
    ensures OpenRequest(keys, kid, path', ts', nonce', SealRequest(keys[kid], path, ts, nonce, plain)) ==
            if path == path' && ts == ts' && nonce == nonce' then Plain(plain) else SealedMalformed
    ensures forall other | other !in keys ::
              OpenRequest(keys, other, path', ts', nonce', SealRequest(keys[kid], path, ts, nonce, plain)) == UnknownKey
  {
    var sealed := keys[kid].seal(HpkeInfo(path), SealAad(ts, nonce), plain);
    var body := SealRequest(keys[kid], path, ts, nonce, plain);
    assert |sealed.0| == ENC_SIZE;
    assert body[1..1 + ENC_SIZE] == sealed.0 && body[1 + ENC_SIZE..] == sealed.1;
    SealInputsUnique(path, ts, nonce, path', ts', nonce');
  }
}
