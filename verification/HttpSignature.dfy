/** The signed-request text format of internal/auth/httpsig.go: the fixed-component subset of
    RFC 9421 (section 2.3 parameters, section 2.5 signature base, section 4.1 Signature-Input).
    The ECDSA, base64 and quoting primitives are parameters constrained by the laws they obey. */
module HttpSignature {
  import opened Common
  import opened Text

  const LABEL := "sig1"
  const ALG := "ecdsa-p256-sha256"
  const SIGNATURE_INPUT := "signature-input"
  const SIGNATURE := "signature"

  /** Header fields by lower-cased name; a missing field reads as the empty string. */
  type Header = map<string, string>

  function Field(h: Header, name: string): string { if name in h then h[name] else "" }

  const COMPONENTS: seq<string> := [
    "@method", "@path", "content-digest", "x-muthur-timestamp", "x-muthur-nonce", "x-muthur-cert", "x-muthur-hpke-kid"]

  /** The %q verb for text that needs no escape, as every string quoted here is. */
  function Quoted(s: string): string { "\"" + s + "\"" }

  // ---- signature parameters: printing ----

  function QuotedWords(cs: seq<string>): string {
    if cs == [] then ""
    else if |cs| == 1 then Quoted(cs[0])
    else QuotedWords(cs[..|cs| - 1]) + " " + Quoted(cs[|cs| - 1])
  }

  /** "(" list ")" of the covered components. */
  function CoveredList(): string { "(" + QuotedWords(COMPONENTS) + ")" }

  function Parameter(key: string, value: string): string { key + "=" + value }

  function ParamsText(created: int, keyId: string): string {
    CoveredList() + ";" + Parameter("created", FormatInt(created)) + ";" + Parameter("alg", Quoted(ALG)) + ";" +
    Parameter("keyid", Quoted(keyId))
  }

  lemma {:induction false} WordsSnoc(cs: seq<string>, c: string)
    requires cs != []
    ensures QuotedWords(cs + [c]) == QuotedWords(cs) + " " + Quoted(c)
  {
    assert (cs + [c])[..|cs|] == cs;
  }

  /** The covered list, word by word. */
  lemma {:induction false} CoveredListText()
    ensures CoveredList() ==
            "(" + (Quoted("@method") + " " + Quoted("@path") + " " + Quoted("content-digest") + " " + Quoted("x-muthur-timestamp") + " " +
                   Quoted("x-muthur-nonce") + " " + Quoted("x-muthur-cert") + " " + Quoted("x-muthur-hpke-kid")) + ")"
  {
    var two := ["@method"] + ["@path"];
    var three := two + ["content-digest"];
    var four := three + ["x-muthur-timestamp"];
    var five := four + ["x-muthur-nonce"];
    var six := five + ["x-muthur-cert"];
    assert COMPONENTS == six + ["x-muthur-hpke-kid"];
    WordsSnoc(["@method"], "@path");
    WordsSnoc(two, "content-digest");
    WordsSnoc(three, "x-muthur-timestamp");
    WordsSnoc(four, "x-muthur-nonce");
    WordsSnoc(five, "x-muthur-cert");
    WordsSnoc(six, "x-muthur-hpke-kid");
  }

  /** The loop of signatureParams over the components. */
  method WriteWords(cs: seq<string>) returns (text: string)
    ensures text == QuotedWords(cs)
  {
    text := "";
    for i := 0 to |cs|
      invariant text == QuotedWords(cs[..i])
    {
      assert cs[..i + 1][..i] == cs[..i];
      if i > 0 {
        text := text + " ";
      }
      text := text + Quoted(cs[i]);
    }
    assert cs[..|cs|] == cs;
  }

  /** signatureParams */
  method SignatureParams(created: int, keyId: string) returns (text: string)
    ensures text == ParamsText(created, keyId)
  {
    var words := WriteWords(COMPONENTS);
    text := "(" + words + ")" + ";" + Parameter("created", FormatInt(created)) + ";" + Parameter("alg", Quoted(ALG)) + ";" +
      Parameter("keyid", Quoted(keyId));
  }

  // ---- signature parameters: parsing ----

  datatype SignatureInfo = SignatureInfo(created: int, keyId: string)

  /** strconv.Unquote: what it makes of a quoted literal, None when it rejects it. */
  type Unquote = string -> Option<string>

  /** The one law of Unquote used here: quoted hexadecimal text is given back. */
  ghost predicate UnquotesHex(unquote: Unquote) {
    forall s: string :: IsHex(s) ==> unquote(Quoted(s)) == Some(s)
  }

  /** The reading of one `key=value` segment: the switch of the parser. */
  datatype Segment = Created(n: int) | Alg | KeyId(id: string) | Bad

  function Classify(segment: string, unquote: Unquote): Segment {
    var i := IndexOf(segment, '=');
    if i == |segment| then Bad
    else
      var key, value := segment[..i], segment[i + 1..];
      if key == "created" then
        if ParseInt(value).Some? then Created(ParseInt(value).value) else Bad
      else if key == "alg" then
        if value == Quoted(ALG) then Alg else Bad
      else if key == "keyid" then
        if unquote(value).Some? then KeyId(unquote(value).value) else Bad
      else Bad
  }

  /** What the parser has seen so far. */
  datatype Seen = Seen(created: Option<int>, alg: bool, keyId: Option<string>)

  const NOTHING := Seen(None, false, None)

  /** A repeated or bad segment rejects the whole text. */
  function Accept(seen: Seen, segment: Segment): Option<Seen> {
    match segment
    case Created(n) => if seen.created.Some? then None else Some(seen.(created := Some(n)))
    case Alg => if seen.alg then None else Some(seen.(alg := true))
    case KeyId(id) => if seen.keyId.Some? then None else Some(seen.(keyId := Some(id)))
    case Bad => None
  }

  function Scan(seen: Seen, segments: seq<string>, unquote: Unquote): Option<Seen>
    decreases |segments|
  {
    if segments == [] then Some(seen)
    else if segments[0] == "" then Scan(seen, segments[1..], unquote)
    else
      var next := Accept(seen, Classify(segments[0], unquote));
      if next.None? then None else Scan(next.value, segments[1..], unquote)
  }

  function Finish(scanned: Option<Seen>): Option<SignatureInfo> {
    match scanned
    case Some(Seen(Some(created), true, Some(keyId))) => Some(SignatureInfo(created, keyId))
    case _ => None
  }

  function Parse(params: string, unquote: Unquote): Option<SignatureInfo> {
    var closing := IndexOf(params, ')');
    if params == "" || params[0] != '(' || closing == |params| then None
    else if params[..closing + 1] != CoveredList() then None
    else ParseRest(params[closing + 1..], unquote)
  }

  /** What follows the component list. */
  function ParseRest(rest: string, unquote: Unquote): Option<SignatureInfo> {
    Finish(Scan(NOTHING, Split(rest, ';'), unquote))
  }

  /** The list the parser compares against: what it prints for (0, ""), cut after its ")". */
  method WantedList() returns (list: string)
    ensures list == CoveredList()
  {
    var want := SignatureParams(0, "");
    CoveredListShape();
    ParamsTextStart(0, "");
    PrefixToParen("(" + QuotedWords(COMPONENTS), want);
    list := want[..IndexOf(want, ')') + 1];
  }

  lemma {:induction false} PrefixToParen(body: string, text: string)
    requires ')' !in body && body + ")" <= text
    ensures IndexOf(text, ')') == |body| && text[..|body| + 1] == body + ")"
  {
    var rest := text[|body| + 1..];
    assert text == body + [')'] + rest;
    IndexOfAfter(body, rest, ')');
  }

  /** parseSignatureParams, with its loop, its `seen` set and the record it fills. */
  method ParseSignatureParams(params: string, unquote: Unquote) returns (info: Option<SignatureInfo>)
    ensures info == Parse(params, unquote)
  {
    var closing := IndexOf(params, ')');
    if params == "" || params[0] != '(' || closing == |params| {
      return None;
    }
    var want := WantedList();
    if params[..closing + 1] != want {
      return None;
    }
    info := ParseParameters(params[closing + 1..], unquote);
  }

  method ParseParameters(rest: string, unquote: Unquote) returns (info: Option<SignatureInfo>)
    ensures info == ParseRest(rest, unquote)
  {
    info := ParseSegments(Split(rest, ';'), unquote);
  }

  method ParseSegments(segments: seq<string>, unquote: Unquote) returns (info: Option<SignatureInfo>)
    ensures info == Finish(Scan(NOTHING, segments, unquote))
  {
    var created, keyId := 0, "";
    var seen := map["created" := false, "alg" := false, "keyid" := false];
    for i := 0 to |segments|
      invariant seen.Keys == {"created", "alg", "keyid"}
      invariant Scan(NOTHING, segments, unquote) ==
                Scan(Seen(if seen["created"] then Some(created) else None, seen["alg"],
                          if seen["keyid"] then Some(keyId) else None), segments[i..], unquote)
    {
      if segments[i] == "" {
        continue;
      }
      match Classify(segments[i], unquote)
      case Bad =>
        return None;
      case Created(n) =>
        if seen["created"] {
          return None;
        }
        seen, created := seen["created" := true], n;
      case Alg =>
        if seen["alg"] {
          return None;
        }
        seen := seen["alg" := true];
      case KeyId(id) =>
        if seen["keyid"] {
          return None;
        }
        seen, keyId := seen["keyid" := true], id;
    }
    if !seen["created"] || !seen["alg"] || !seen["keyid"] {
      return None;
    }
    return Some(SignatureInfo(created, keyId));
  }

  lemma ParamsTextStart(created: int, keyId: string)
    ensures CoveredList() <= ParamsText(created, keyId)
  {
    var list := CoveredList();
    Regroup(list, Parameter("created", FormatInt(created)), Parameter("alg", Quoted(ALG)), Parameter("keyid", Quoted(keyId)));
  }

  lemma CoveredListShape()
    ensures ')' !in "(" + QuotedWords(COMPONENTS)
  {
    NoParenthesis(COMPONENTS);
  }

  lemma {:induction false} NoParenthesis(cs: seq<string>)
    requires forall c | c in cs :: ')' !in c
    ensures ')' !in QuotedWords(cs)
  {
    if |cs| > 1 {
      NoParenthesis(cs[..|cs| - 1]);
    }
  }

  // ---- what the parser accepts, said without the parser ----

  /** `segment` is key, "=", value. */
  predicate KeyValue(segment: string, key: string, value: string) {
    segment == Parameter(key, value)
  }

  ghost predicate CreatedSegment(segment: string, n: int) {
    exists v :: KeyValue(segment, "created", v) && ParseInt(v) == Some(n)
  }

  predicate AlgSegment(segment: string) { KeyValue(segment, "alg", Quoted(ALG)) }

  ghost predicate KeyIdSegment(segment: string, unquote: Unquote, id: string) {
    exists v :: KeyValue(segment, "keyid", v) && unquote(v) == Some(id)
  }

  function NonEmpty(segments: seq<string>): seq<string> {
    if segments == [] then []
    else if segments[0] == "" then NonEmpty(segments[1..])
    else [segments[0]] + NonEmpty(segments[1..])
  }

  /** Exactly three segments: one created, one alg and one keyid, in any order. */
  ghost predicate Denotes(segments: seq<string>, unquote: Unquote, info: SignatureInfo) {
    |segments| == 3 &&
    exists c, a, k | 0 <= c < 3 && 0 <= a < 3 && 0 <= k < 3 && c != a && a != k && c != k ::
      CreatedSegment(segments[c], info.created) && AlgSegment(segments[a]) && KeyIdSegment(segments[k], unquote, info.keyId)
  }

  /** The fixed component list followed by ";"-separated segments, empty ones ignored. */
  ghost predicate WellFormed(params: string, unquote: Unquote, info: SignatureInfo) {
    CoveredList() <= params &&
    Denotes(NonEmpty(Split(params[|CoveredList()|..], ';')), unquote, info)
  }

  /** Cutting at the first "=" finds the key and value. */
  lemma {:induction false} KeyValueCut(segment: string, key: string, value: string)
    requires '=' !in key
    ensures KeyValue(segment, key, value) <==>
            (var i := IndexOf(segment, '='); i < |segment| && segment[..i] == key && segment[i + 1..] == value)
  {
    var i := IndexOf(segment, '=');
    if KeyValue(segment, key, value) {
      assert segment == key + ['='] + value;
      IndexOfAfter(key, value, '=');
    }
    if i < |segment| {
      assert segment == segment[..i] + "=" + segment[i + 1..];
    }
  }

  lemma {:induction false} ClassifyCreated(segment: string, unquote: Unquote, n: int)
    ensures Classify(segment, unquote) == Created(n) <==> CreatedSegment(segment, n)
  {
    var i := IndexOf(segment, '=');
    if i < |segment| {
      var value := segment[i + 1..];
      KeyValueCut(segment, "created", value);
      if Classify(segment, unquote) == Created(n) {
        assert KeyValue(segment, "created", value) && ParseInt(value) == Some(n);
      }
    }
    if v :| KeyValue(segment, "created", v) && ParseInt(v) == Some(n) {
      KeyValueCut(segment, "created", v);
      assert segment[..i] == "created" && segment[i + 1..] == v;
    }
  }

  lemma {:induction false} ClassifyAlg(segment: string, unquote: Unquote)
    ensures Classify(segment, unquote) == Alg <==> AlgSegment(segment)
  {
    KeyValueCut(segment, "alg", Quoted(ALG));
  }

  lemma {:induction false} ClassifyKeyId(segment: string, unquote: Unquote, id: string)
    ensures Classify(segment, unquote) == KeyId(id) <==> KeyIdSegment(segment, unquote, id)
  {
    var i := IndexOf(segment, '=');
    if i < |segment| {
      var value := segment[i + 1..];
      KeyValueCut(segment, "keyid", value);
      if Classify(segment, unquote) == KeyId(id) {
        assert KeyValue(segment, "keyid", value) && unquote(value) == Some(id);
      }
    }
    if v :| KeyValue(segment, "keyid", v) && unquote(v) == Some(id) {
      KeyValueCut(segment, "keyid", v);
      assert segment[..i] == "keyid" && segment[i + 1..] == v;
    }
  }

  /** The parser's reading of a segment agrees with the three segment forms. */
  lemma {:induction false} ClassifyMeaning(segment: string, unquote: Unquote)
    ensures forall n :: Classify(segment, unquote) == Created(n) <==> CreatedSegment(segment, n)
    ensures Classify(segment, unquote) == Alg <==> AlgSegment(segment)
    ensures forall id :: Classify(segment, unquote) == KeyId(id) <==> KeyIdSegment(segment, unquote, id)
  {
    forall n ensures Classify(segment, unquote) == Created(n) <==> CreatedSegment(segment, n) {
      ClassifyCreated(segment, unquote, n);
    }
    ClassifyAlg(segment, unquote);
    forall id ensures Classify(segment, unquote) == KeyId(id) <==> KeyIdSegment(segment, unquote, id) {
      ClassifyKeyId(segment, unquote, id);
    }
  }

  lemma {:induction false} ScanSkipsEmpty(seen: Seen, segments: seq<string>, unquote: Unquote)
    ensures Scan(seen, segments, unquote) == Scan(seen, NonEmpty(segments), unquote)
    decreases |segments|
  {
    if segments != [] {
      var next := Accept(seen, Classify(segments[0], unquote));
      if segments[0] == "" {
        ScanSkipsEmpty(seen, segments[1..], unquote);
      } else if next.Some? {
        ScanSkipsEmpty(next.value, segments[1..], unquote);
        assert NonEmpty(segments)[1..] == NonEmpty(segments[1..]);
      }
    }
  }

  function Count(seen: Seen): nat {
    (if seen.created.Some? then 1 else 0) + (if seen.alg then 1 else 0) + (if seen.keyId.Some? then 1 else 0)
  }

  /** A scan that succeeds saw one new parameter per non-empty segment. */
  lemma {:induction false} ScanCounts(seen: Seen, segments: seq<string>, unquote: Unquote)
    requires "" !in segments
    ensures var r := Scan(seen, segments, unquote); r.Some? ==> Count(r.value) == Count(seen) + |segments|
    decreases |segments|
  {
    if segments != [] {
      var next := Accept(seen, Classify(segments[0], unquote));
      if next.Some? {
        ScanCounts(next.value, segments[1..], unquote);
      }
    }
  }

  lemma {:induction false} NonEmptyHasNoEmpty(segments: seq<string>)
    ensures "" !in NonEmpty(segments)
  {
    if segments != [] {
      NonEmptyHasNoEmpty(segments[1..]);
    }
  }

  /** Three classified segments: the scan is three steps of Accept. */
  lemma {:induction false} ScanThree(segments: seq<string>, unquote: Unquote)
    requires |segments| == 3 && "" !in segments
    ensures Finish(Scan(NOTHING, segments, unquote)) == FinishThree(
      Classify(segments[0], unquote), Classify(segments[1], unquote), Classify(segments[2], unquote))
  {
    var one, two := segments[1..], segments[2..];
    assert one[1..] == two && two[1..] == [];
    var s1 := Accept(NOTHING, Classify(segments[0], unquote));
    if s1.Some? {
      var s2 := Accept(s1.value, Classify(one[0], unquote));
      if s2.Some? {
        var s3 := Accept(s2.value, Classify(two[0], unquote));
        assert Scan(s2.value, two, unquote) == s3;
      }
    }
  }

  function FinishThree(x: Segment, y: Segment, z: Segment): Option<SignatureInfo> {
    match (x, y, z)
    case (Created(n), Alg, KeyId(id)) => Some(SignatureInfo(n, id))
    case (Created(n), KeyId(id), Alg) => Some(SignatureInfo(n, id))
    case (Alg, Created(n), KeyId(id)) => Some(SignatureInfo(n, id))
    case (Alg, KeyId(id), Created(n)) => Some(SignatureInfo(n, id))
    case (KeyId(id), Created(n), Alg) => Some(SignatureInfo(n, id))
    case (KeyId(id), Alg, Created(n)) => Some(SignatureInfo(n, id))
    case _ => None
  }

  lemma {:induction false} DenotesThree(segments: seq<string>, unquote: Unquote, info: SignatureInfo)
    requires |segments| == 3
    ensures Denotes(segments, unquote, info) <==>
      FinishThree(Classify(segments[0], unquote), Classify(segments[1], unquote), Classify(segments[2], unquote)) == Some(info)
  {
    ClassifyMeaning(segments[0], unquote);
    ClassifyMeaning(segments[1], unquote);
    ClassifyMeaning(segments[2], unquote);
  }

  /** The parser accepts a text, with a given result, exactly when the text is well formed. */
  lemma {:induction false} ParserExact(params: string, unquote: Unquote, info: SignatureInfo)
    ensures Parse(params, unquote) == Some(info) <==> WellFormed(params, unquote, info)
  {
    var body := "(" + QuotedWords(COMPONENTS);
    var list := CoveredList();
    CoveredListShape();
    if list <= params {
      var rest := params[|list|..];
      PrefixToParen(body, params);
      var segments := Split(rest, ';');
      var filled := NonEmpty(segments);
      NonEmptyHasNoEmpty(segments);
      ScanSkipsEmpty(NOTHING, segments, unquote);
      ScanCounts(NOTHING, filled, unquote);
      if |filled| == 3 {
        ScanThree(filled, unquote);
        DenotesThree(filled, unquote, info);
      }
    } else {
      var closing := IndexOf(params, ')');
      assert closing < |params| ==> params[..closing + 1] <= params;
    }
  }

  // ---- round trip ----

  lemma {:induction false} NonEmptyCons(x: string, rest: seq<string>)
    ensures NonEmpty([x] + rest) == (if x == "" then [] else [x]) + NonEmpty(rest)
  {
    assert ([x] + rest)[1..] == rest;
  }

  lemma {:induction false} SegmentsHead(x: string, y: string)
    requires ';' !in x
    ensures NonEmpty(Split(x + ";" + y, ';')) == (if x == "" then [] else [x]) + NonEmpty(Split(y, ';'))
  {
    SplitHead(x, y, ';');
    NonEmptyCons(x, Split(y, ';'));
  }

  lemma {:induction false} SplitFour(c: string, a: string, k: string)
    requires ';' !in c && ';' !in a && ';' !in k && c != "" && a != "" && k != ""
    ensures NonEmpty(Split(";" + c + ";" + a + ";" + k, ';')) == [c, a, k]
  {
    var ak := a + ";" + k;
    var cak := c + ";" + ak;
    calc {
      NonEmpty(Split(";" + c + ";" + a + ";" + k, ';'));
      { Nest(c, a, k); }
      NonEmpty(Split("" + ";" + cak, ';'));
      { SegmentsHead("", cak); }
      NonEmpty(Split(cak, ';'));
      { SegmentsHead(c, ak); }
      [c] + NonEmpty(Split(ak, ';'));
      { SegmentsHead(a, k); }
      [c] + ([a] + NonEmpty(Split(k, ';')));
      { LastSegment(k); }
      [c] + ([a] + [k]);
    }
  }

  lemma {:induction false} LastSegment(k: string)
    requires ';' !in k && k != ""
    ensures NonEmpty(Split(k, ';')) == [k]
  {
    SplitWhole(k, ';');
    NonEmptyCons(k, []);
    assert [k] + [] == [k];
  }

  lemma Nest(c: string, a: string, k: string)
    ensures ";" + c + ";" + a + ";" + k == "" + ";" + (c + ";" + (a + ";" + k))
  {
  }

  lemma Regroup(l: string, c: string, a: string, k: string)
    ensures l + ";" + c + ";" + a + ";" + k == l + (";" + c + ";" + a + ";" + k)
  {
  }

  /** What the printer writes for any int64 and any hexadecimal key id, the parser reads back. */
  lemma {:induction false} ParamsRoundTrip(created: int, keyId: string, unquote: Unquote)
    requires Int64(created) && IsHex(keyId) && UnquotesHex(unquote)
    ensures Parse(ParamsText(created, keyId), unquote) == Some(SignatureInfo(created, keyId))
  {
    var number := FormatInt(created);
    var c, a, k := Parameter("created", number), Parameter("alg", Quoted(ALG)), Parameter("keyid", Quoted(keyId));
    FormatIntChars(created, ';');
    HexFree(keyId, ';');
    assert ';' !in c && ';' !in k;
    assert ';' !in a;
    SplitFour(c, a, k);
    var rest := ";" + c + ";" + a + ";" + k;
    Regroup(CoveredList(), c, a, k);
    ParseFormat(created);
    assert KeyValue(c, "created", number) && KeyValue(k, "keyid", Quoted(keyId));
    DenotesInOrder(c, a, k, unquote, SignatureInfo(created, keyId));
    ParserExact(CoveredList() + rest, unquote, SignatureInfo(created, keyId));
  }

  lemma DenotesInOrder(c: string, a: string, k: string, unquote: Unquote, info: SignatureInfo)
    requires CreatedSegment(c, info.created) && AlgSegment(a) && KeyIdSegment(k, unquote, info.keyId)
    ensures Denotes([c, a, k], unquote, info)
  {
    var s := [c, a, k];
    assert CreatedSegment(s[0], info.created) && AlgSegment(s[1]) && KeyIdSegment(s[2], unquote, info.keyId);
  }
}
