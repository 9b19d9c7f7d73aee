/** Who a caller is, from tenant configuration to leaf certificate and back:
    internal/auth/identity.go, sign.go and the tenant index of bootstrap.go. */
module Identity {
  import opened Common
  import opened Text

  datatype Identity = Identity(tenantId: string, clusterId: string)

  /** Identity.String */
  function Name(id: Identity): string {
    if id.tenantId == "" then id.clusterId else id.tenantId + "/" + id.clusterId
  }

  /** The first cluster id is something, a slash and the second. */
  predicate EndsIn(c: string, c': string) { |c| > |c'| && c[|c| - |c'| - 1..] == "/" + c' }

  /** Exactly when names tell the identities of two clusters (or of one) apart, whatever their tenants: when
      neither cluster id ends in a slash and the other. */
  lemma {:induction false} NameIdentifiesIff(c: string, c': string)
    ensures (forall t, t' | Name(Identity(t, c)) == Name(Identity(t', c')) :: t == t' && c == c') <==> !EndsIn(c, c') && !EndsIn(c', c)
  {
    if !EndsIn(c, c') && !EndsIn(c', c) {
      forall t, t' | Name(Identity(t, c)) == Name(Identity(t', c')) ensures t == t' && c == c' {
        NamesDiffer(t, c, t', c');
      }
    } else if EndsIn(c, c') {
      var t, t' := NamesAgree(c, c');
    } else {
      var t', t := NamesAgree(c', c);
    }
  }

  lemma {:induction false} NamesDiffer(t: string, c: string, t': string, c': string)
    requires Name(Identity(t, c)) == Name(Identity(t', c')) && !EndsIn(c, c') && !EndsIn(c', c)
    ensures t == t' && c == c'
  {
    if |c| > |c'| {
      LongerEndsIn(t, c, t', c');
    } else if |c'| > |c| {
      LongerEndsIn(t', c', t, c);
    } else {
      TailOfName(t, c);
      TailOfName(t', c');
    }
  }

  lemma {:induction false} LongerEndsIn(t: string, c: string, t': string, c': string)
    requires Name(Identity(t, c)) == Name(Identity(t', c')) && |c| > |c'|
    ensures EndsIn(c, c')
  {
    var name := Name(Identity(t, c));
    TailOfName(t, c);
    TailOfName(t', c');
    assert name[|name| - |c'| - 1..] == "/" + c';
    assert c == name[|name| - |c|..];
    assert c[|c| - |c'| - 1..] == name[|name| - |c'| - 1..];
  }

  lemma {:induction false} TailOfName(t: string, c: string)
    ensures var name := Name(Identity(t, c));
            |name| >= |c| && name[|name| - |c|..] == c &&
            if t == "" then |name| == |c|
            else |name| == |t| + 1 + |c| && name[..|t|] == t && name[|name| - |c| - 1..] == "/" + c
  {
  }

  lemma {:induction false} NamesAgree(c: string, c': string) returns (t: string, t': string)
    requires EndsIn(c, c')
    ensures Name(Identity(t, c)) == Name(Identity(t', c')) && t != t'
  {
    var w := c[..|c| - |c'| - 1];
    assert c == w + ("/" + c');
    t, t' := "t", "t/" + w;
    assert t + "/" + c == t' + "/" + c';
    assert |t'| > |t|;
  }

  // ---- tenants ----

  datatype Tenant = Tenant(
    clusterId: string,
    tenantId: string,
    tokenHash: string,
    bootstrapExpiresAt: Option<Time>,
    revoked: bool,
    certDuration: Time,
    certDurationText: string)

  type Tenants = map<string, Tenant>

  /** Present in the snapshot and not revoked. */
  predicate Active(tenants: Tenants, cluster: string) {
    cluster in tenants && !tenants[cluster].revoked
  }

  /** Entries are filed under their own cluster, as in every index NewTenants builds. */
  ghost predicate Keyed(tenants: Tenants) {
    forall k | k in tenants :: tenants[k].clusterId == k
  }

  /** The duration text is read only when no numeric duration is set. */
  predicate DurationReadable(t: Tenant, parse: string -> Option<Time>) {
    t.certDurationText == "" || t.certDuration != 0 || parse(t.certDurationText).Some?
  }

  function Resolved(t: Tenant, parse: string -> Option<Time>): Tenant
    requires DurationReadable(t, parse)
  {
    if t.certDurationText != "" && t.certDuration == 0 then t.(certDuration := parse(t.certDurationText).value) else t
  }

  function Index(list: seq<Tenant>, parse: string -> Option<Time>): Option<Tenants> {
    if list == [] then Some(map[])
    else
      var n := |list| - 1;
      var idx, t := Index(list[..n], parse), list[n];
      if idx.None? || t.clusterId == "" || t.clusterId in idx.value || !DurationReadable(t, parse) then None
      else Some(idx.value[t.clusterId := Resolved(t, parse)])
  }

  /** NewTenants */
  method NewTenants(list: seq<Tenant>, parse: string -> Option<Time>) returns (index: Option<Tenants>)
    ensures index == Index(list, parse)
  {
    var idx: Tenants := map[];
    for n := 0 to |list|
      invariant Index(list[..n], parse) == Some(idx)
    {
      IndexPrefix(list, parse, n + 1);
      assert list[..n + 1][..n] == list[..n];
      var t := list[n];
      if t.clusterId == "" || t.clusterId in idx {
        return None;
      }
      if t.certDurationText != "" && t.certDuration == 0 {
        var d := parse(t.certDurationText);
        if d.None? {
          return None;
        }
        t := t.(certDuration := d.value);
      }
      idx := idx[t.clusterId := t];
    }
    assert list[..|list|] == list;
    return Some(idx);
  }

  lemma {:induction false} IndexPrefix(list: seq<Tenant>, parse: string -> Option<Time>, n: nat)
    requires n <= |list|
    ensures Index(list[..n], parse).None? ==> Index(list, parse).None?
    decreases |list|
  {
    if n == |list| {
      assert list[..n] == list;
    } else {
      var init := list[..|list| - 1];
      IndexPrefix(init, parse, n);
      assert init[..n] == list[..n];
    }
  }

  predicate Acceptable(list: seq<Tenant>, parse: string -> Option<Time>) {
    (forall i | 0 <= i < |list| :: list[i].clusterId != "" && DurationReadable(list[i], parse)) &&
    (forall i, j | 0 <= i < j < |list| :: list[i].clusterId != list[j].clusterId)
  }

  lemma {:induction false} AcceptableStep(list: seq<Tenant>, parse: string -> Option<Time>)
    requires list != []
    ensures var n := |list| - 1;
            Acceptable(list, parse) <==>
            Acceptable(list[..n], parse) && list[n].clusterId != "" && DurationReadable(list[n], parse) &&
            forall i | 0 <= i < n :: list[i].clusterId != list[n].clusterId
  {
    var n := |list| - 1;
    assert forall i | 0 <= i < n :: list[..n][i] == list[i];
  }

  /** `index` holds every entry of the list and nothing else. */
  ghost predicate Indexes(index: Tenants, list: seq<Tenant>, parse: string -> Option<Time>)
    requires Acceptable(list, parse)
  {
    (forall k | k in index :: exists i | 0 <= i < |list| :: list[i].clusterId == k) &&
    (forall i | 0 <= i < |list| :: list[i].clusterId in index && Entry(index[list[i].clusterId], list[i], parse))
  }

  /** The configured tenant, with its duration text read if there is one and no number. */
  predicate Entry(e: Tenant, t: Tenant, parse: string -> Option<Time>)
    requires DurationReadable(t, parse)
  {
    e.clusterId == t.clusterId && e.tenantId == t.tenantId && e.tokenHash == t.tokenHash && e.revoked == t.revoked &&
    e.bootstrapExpiresAt == t.bootstrapExpiresAt &&
    e.certDuration == if t.certDuration != 0 || t.certDurationText == "" then t.certDuration else parse(t.certDurationText).value
  }

  /** An index exists exactly when every entry names its cluster, no cluster is named twice and every
      duration can be read; it then holds every entry and nothing else. */
  lemma {:induction false} IndexExact(list: seq<Tenant>, parse: string -> Option<Time>)
    ensures Index(list, parse).Some? <==> Acceptable(list, parse)
    ensures Index(list, parse).Some? ==> Indexes(Index(list, parse).value, list, parse) && Keyed(Index(list, parse).value)
  {
    if list != [] {
      var n := |list| - 1;
      IndexExact(list[..n], parse);
      AcceptableStep(list, parse);
      if Acceptable(list[..n], parse) {
        var idx := Index(list[..n], parse).value;
        KnownCluster(idx, list, n, parse);
        if Acceptable(list, parse) {
          IndexesStep(idx, list, parse);
        }
      }
    }
  }

  lemma {:induction false} KnownCluster(idx: Tenants, list: seq<Tenant>, n: nat, parse: string -> Option<Time>)
    requires n < |list| && Acceptable(list[..n], parse) && Indexes(idx, list[..n], parse)
    ensures list[n].clusterId in idx <==> exists i | 0 <= i < n :: list[i].clusterId == list[n].clusterId
  {
    assert forall i | 0 <= i < n :: list[..n][i] == list[i];
  }

  lemma {:induction false} IndexesStep(idx: Tenants, list: seq<Tenant>, parse: string -> Option<Time>)
    requires list != [] && Acceptable(list, parse) && Acceptable(list[..|list| - 1], parse)
    requires Indexes(idx, list[..|list| - 1], parse)
    ensures Indexes(idx[list[|list| - 1].clusterId := Resolved(list[|list| - 1], parse)], list, parse)
  {
    var n := |list| - 1;
    assert forall i | 0 <= i < n :: list[..n][i] == list[i];
  }

  // ---- leaf certificates ----

  datatype Url = Url(scheme: string, host: string, path: string)

  datatype Leaf = Leaf(uris: seq<Url>, commonName: string, notBefore: Time, notAfter: Time)

  const SPIFFE := "spiffe"
  const HOST := "muthur"

  predicate IsControl(c: char) { c < ' ' || c == '\U{7f}' }

  function HexValue(c: char): (v: int)
    requires IsHexDigit(c)
    ensures 0 <= v < 16
  {
    if IsDigit(c) then (c - '0') as int else if 'a' <= c then (c - 'a') as int + 10 else (c - 'A') as int + 10
  }

  /** Percent-decoding; None when a % is not followed by two hexadecimal digits. */
  function Unescape(s: string): Option<string>
    decreases |s|
  {
    if s == "" then Some("")
    else if s[0] != '%' then
      var rest := Unescape(s[1..]);
      if rest.None? then None else Some([s[0]] + rest.value)
    else if |s| < 3 || !IsHexDigit(s[1]) || !IsHexDigit(s[2]) then None
    else
      var rest := Unescape(s[3..]);
      if rest.None? then None else Some([(16 * HexValue(s[1]) + HexValue(s[2])) as char] + rest.value)
  }

  /** What url.Parse makes of the text after the host: the decoded path up to the query. It refuses a
      control character before the fragment and a malformed escape in path or fragment. */
  function ParsePath(s: string): Option<string> {
    var hash := IndexOf(s, '#');
    var main, fragment := s[..hash], if hash < |s| then s[hash + 1..] else "";
    if (exists i | 0 <= i < |main| :: IsControl(main[i])) || Unescape(fragment).None? then None
    else Unescape(main[..IndexOf(main, '?')])
  }

  function Clamp(duration: Time, max: Time): Time {
    if duration <= 0 || duration > max then max else duration
  }

  /** The SPIFFE names of a leaf. The error of url.Parse is dropped, so a text it refuses puts a nil
      name into the template: None. */
  function Names(id: Identity): Option<seq<Url>> {
    if id.tenantId == "" then Some([])
    else
      var path := ParsePath("/" + id.tenantId + "/" + id.clusterId);
      if path.None? then None else Some([Url(SPIFFE, HOST, path.value)])
  }

  /** Signer.Sign for a CSR that checks out. A nil name makes x509 panic, so then nothing comes back,
      neither a leaf nor an error: None. */
  function Sign(id: Identity, duration: Time, max: Time, now: Time): Option<Leaf> {
    var uris := Names(id);
    if uris.None? then None
    else Some(Leaf(uris.value, id.clusterId, now - MINUTE, now + Clamp(duration, max)))
  }

  function TrimSlashesLeft(s: string): string {
    if s != "" && s[0] == '/' then TrimSlashesLeft(s[1..]) else s
  }

  function TrimSlashesRight(s: string): string {
    if s != "" && s[|s| - 1] == '/' then TrimSlashesRight(s[..|s| - 1]) else s
  }

  /** parseSpiffePath */
  function SpiffeIdentity(u: Url): Option<Identity> {
    var segments := Split(TrimSlashesRight(TrimSlashesLeft(u.path)), '/');
    if u.host == HOST && |segments| == 2 && segments[0] != "" && segments[1] != ""
    then Some(Identity(segments[0], segments[1])) else None
  }

  datatype Extracted = Known(id: Identity) | NoIdentity | MalformedSan

  function FirstSpiffe(uris: seq<Url>): Option<Url> {
    if uris == [] then None else if uris[0].scheme == SPIFFE then Some(uris[0]) else FirstSpiffe(uris[1..])
  }

  function Extract(leaf: Leaf): Extracted {
    var u := FirstSpiffe(leaf.uris);
    if u.Some? then
      var id := SpiffeIdentity(u.value);
      if id.Some? then Known(id.value) else MalformedSan
    else
      var cluster := TrimSpace(leaf.commonName);
      if cluster == "" then NoIdentity else Known(Identity("", cluster))
  }

  /** ExtractFromCert, with the loop that stops at the first SPIFFE name. */
  method ExtractFromCert(cert: Option<Leaf>) returns (r: Extracted)
    ensures r == if cert.None? then NoIdentity else Extract(cert.value)
  {
    if cert.None? {
      return NoIdentity;
    }
    var leaf := cert.value;
    var tenant, cluster := "", "";
    for i := 0 to |leaf.uris|
      invariant FirstSpiffe(leaf.uris) == FirstSpiffe(leaf.uris[i..])
      invariant tenant == cluster == ""
    {
      assert leaf.uris[i..][0] == leaf.uris[i] && leaf.uris[i..][1..] == leaf.uris[i + 1..];
      if leaf.uris[i].scheme != SPIFFE {
        continue;
      }
      var id := SpiffeIdentity(leaf.uris[i]);
      if id.None? {
        return MalformedSan;
      }
      tenant, cluster := id.value.tenantId, id.value.clusterId;
      break;
    }
    if cluster == "" {
      cluster := TrimSpace(leaf.commonName);
    }
    if cluster == "" {
      return NoIdentity;
    }
    return Known(Identity(tenant, cluster));
  }

  /** What is on a signed leaf: the cluster as common name, a minute of tolerance before, and the wanted
      duration after if it is positive and within the maximum, else the maximum. */
  lemma {:induction false} SignedLeaf(id: Identity, duration: Time, max: Time, now: Time)
    requires Names(id).Some? && max > 0
    ensures var leaf := Sign(id, duration, max, now);
            leaf.Some? && leaf.value.commonName == id.clusterId && leaf.value.notBefore == now - 60 * SECOND &&
            leaf.value.notAfter == now + (if 0 < duration <= max then duration else max) &&
            (leaf.value.uris == [] <==> id.tenantId == "")
  {
  }

  predicate AllSlashes(s: string) { forall i | 0 <= i < |s| :: s[i] == '/' }

  lemma {:induction false} TrimLeftSlashes(s: string) returns (l: string)
    ensures s == l + TrimSlashesLeft(s) && AllSlashes(l)
  {
    l := "";
    if s != "" && s[0] == '/' {
      l := TrimLeftSlashes(s[1..]);
      assert s == "/" + s[1..];
      l := "/" + l;
    }
  }

  lemma {:induction false} TrimRightSlashes(s: string) returns (r: string)
    ensures s == TrimSlashesRight(s) + r && AllSlashes(r)
  {
    r := "";
    if s != "" && s[|s| - 1] == '/' {
      r := TrimRightSlashes(s[..|s| - 1]);
      assert s == s[..|s| - 1] + "/";
      r := r + "/";
    }
  }

  lemma {:induction false} TrimSlashesBefore(l: string, x: string)
    requires AllSlashes(l) && x != "" && x[0] != '/'
    ensures TrimSlashesLeft(l + x) == x
  {
    if l != "" {
      assert (l + x)[1..] == l[1..] + x;
      TrimSlashesBefore(l[1..], x);
    } else {
      assert l + x == x;
    }
  }

  lemma {:induction false} TrimSlashesAfter(x: string, r: string)
    requires AllSlashes(r) && x != "" && x[|x| - 1] != '/'
    ensures TrimSlashesRight(x + r) == x
  {
    if r != "" {
      var n := |r| - 1;
      assert (x + r)[..|x + r| - 1] == x + r[..n];
      TrimSlashesAfter(x, r[..n]);
    } else {
      assert x + r == x;
    }
  }

  /** The path is tenant, slash, cluster, with any slashes around. */
  ghost predicate Spells(path: string, t: string, c: string) {
    exists l, r | AllSlashes(l) && AllSlashes(r) :: path == l + (t + ['/'] + c) + r
  }

  /** Exactly which SPIFFE names carry which identity. */
  lemma {:induction false} SpiffeIdentityIff(u: Url, t: string, c: string)
    ensures SpiffeIdentity(u) == Some(Identity(t, c)) <==>
            u.host == "muthur" && t != "" && c != "" && '/' !in t && '/' !in c && Spells(u.path, t, c)
  {
    if SpiffeIdentity(u) == Some(Identity(t, c)) {
      var left := TrimSlashesLeft(u.path);
      var inner := TrimSlashesRight(left);
      assert Split(inner, '/') == [t, c];
      TwoPieces(inner, t, c);
      var l := TrimLeftSlashes(u.path);
      var r := TrimRightSlashes(left);
      assert u.path == l + (t + ['/'] + c) + r;
    }
    if t != "" && c != "" && '/' !in t && '/' !in c && Spells(u.path, t, c) {
      var l, r :| AllSlashes(l) && AllSlashes(r) && u.path == l + (t + ['/'] + c) + r;
      SpelledIsRead(l, t, c, r);
    }
  }

  lemma {:induction false} SpelledIsRead(l: string, t: string, c: string, r: string)
    requires AllSlashes(l) && AllSlashes(r) && t != "" && c != "" && '/' !in t && '/' !in c
    ensures Split(TrimSlashesRight(TrimSlashesLeft(l + (t + ['/'] + c) + r)), '/') == [t, c]
  {
    var inner := t + ['/'] + c;
    assert inner[0] == t[0] && inner[|inner| - 1] == c[|c| - 1];
    assert l + inner + r == l + (inner + r);
    assert (inner + r)[0] == inner[0];
    TrimSlashesBefore(l, inner + r);
    TrimSlashesAfter(inner, r);
    SplitTwo(t, c);
  }

  predicate NoSpiffe(uris: seq<Url>) { forall k | 0 <= k < |uris| :: uris[k].scheme != "spiffe" }

  /** Where the identity of a leaf comes from: its first SPIFFE name and nothing else if it has one, and only
      otherwise the trimmed common name. */
  lemma {:induction false} ExtractMeaning(leaf: Leaf)
    ensures NoSpiffe(leaf.uris) ==>
              Extract(leaf) == if TrimSpace(leaf.commonName) == "" then NoIdentity else Known(Identity("", TrimSpace(leaf.commonName)))
    ensures forall i | 0 <= i < |leaf.uris| && leaf.uris[i].scheme == "spiffe" && NoSpiffe(leaf.uris[..i]) ::
              Extract(leaf) == if SpiffeIdentity(leaf.uris[i]).Some? then Known(SpiffeIdentity(leaf.uris[i]).value) else MalformedSan
  {
    var uris := leaf.uris;
    if NoSpiffe(uris) {
      SkipOthers(uris, |uris|);
      assert FirstSpiffe([]) == None;
    }
    forall i | 0 <= i < |uris| && uris[i].scheme == "spiffe" && NoSpiffe(uris[..i]) ensures FirstSpiffe(uris) == Some(uris[i]) {
      assert forall k | 0 <= k < i :: uris[k] == uris[..i][k];
      SkipOthers(uris, i);
    }
  }

  lemma {:induction false} SkipOthers(uris: seq<Url>, i: nat)
    requires i <= |uris| && forall k | 0 <= k < i :: uris[k].scheme != "spiffe"
    ensures FirstSpiffe(uris) == FirstSpiffe(uris[i..])
  {
    if i == 0 {
      assert uris[0..] == uris;
    } else {
      SkipOthers(uris[1..], i - 1);
      assert uris[1..][i - 1..] == uris[i..];
    }
  }

  // ---- extraction inverts signing, and exactly when ----

  /** An identity that survives being written into a certificate. */
  predicate Expressible(id: Identity) {
    id.clusterId != "" &&
    if id.tenantId == "" then Trimmed(id.clusterId)
    else PathPlain(id.tenantId) && PathPlain(id.clusterId)
  }

  /** Nothing that ends, splits, escapes or spoils a URL path. */
  predicate PathPlain(s: string) {
    '/' !in s && '?' !in s && '#' !in s && '%' !in s && forall i | 0 <= i < |s| :: !IsControl(s[i])
  }

  /** Decoding never lengthens a text and shortens every text that holds an escape. */
  lemma {:induction false} UnescapeLength(s: string)
    ensures Unescape(s).Some? ==> |Unescape(s).value| <= |s|
    ensures Unescape(s).Some? && |Unescape(s).value| == |s| ==> '%' !in s
    ensures '%' !in s ==> Unescape(s) == Some(s)
    decreases |s|
  {
    if s != "" {
      if s[0] != '%' {
        UnescapeLength(s[1..]);
        assert s == [s[0]] + s[1..];
      } else if |s| >= 3 {
        UnescapeLength(s[3..]);
      }
    }
  }

  /** So a parsed path is as long as the text only if the text was free of marks and escapes. */
  lemma {:induction false} ParsePathLength(s: string)
    ensures ParsePath(s).Some? ==> |ParsePath(s).value| <= |s|
    ensures ParsePath(s).Some? && |ParsePath(s).value| == |s| ==>
              '#' !in s && '?' !in s && '%' !in s && forall i | 0 <= i < |s| :: !IsControl(s[i])
  {
    var hash := IndexOf(s, '#');
    var main := s[..hash];
    var path := main[..IndexOf(main, '?')];
    UnescapeLength(path);
    if ParsePath(s).Some? && |ParsePath(s).value| == |s| {
      assert main == s && path == s;
    }
  }

  lemma {:induction false} TrimSlashesLength(s: string)
    ensures |TrimSlashesLeft(s)| <= |s| && |TrimSlashesRight(s)| <= |s|
    decreases |s|
  {
    if s != "" {
      TrimSlashesLength(s[1..]);
      TrimSlashesLength(s[..|s| - 1]);
    }
  }

  lemma {:induction false} TwoPieces(s: string, t: string, c: string)
    requires Split(s, '/') == [t, c]
    ensures s == t + ['/'] + c && '/' !in t && '/' !in c
  {
    SplitOne(s, '/');
    var i := IndexOf(s, '/');
    assert i < |s|;
    var head, rest := s[..i], s[i + 1..];
    assert Split(s, '/') == [head] + Split(rest, '/');
    assert Split(s, '/')[0] == t && Split(s, '/')[1..] == [c];
    assert ([head] + Split(rest, '/'))[1..] == Split(rest, '/');
    SplitOne(rest, '/');
    assert s == head + ['/'] + rest;
  }

  lemma {:induction false} ReadBackLength(t: string, c: string, path: string)
    requires path != "" && path[0] == '/' && SpiffeIdentity(Url(SPIFFE, HOST, path)) == Some(Identity(t, c))
    ensures |path| >= |t| + |c| + 2 && '/' !in t && '/' !in c
  {
    var inner := TrimSlashesLeft(path);
    assert inner == TrimSlashesLeft(path[1..]);
    TwoPieces(TrimSlashesRight(inner), t, c);
    TrimSlashesLength(inner);
    TrimSlashesLength(path[1..]);
  }

  /** An identity read back from its own path text is free of everything PathPlain forbids: the path
      lost its leading slash and still holds both ids and a slash, so nothing else was lost. */
  lemma {:induction false} ReadBackIsPlain(t: string, c: string, path: string)
    requires ParsePath("/" + t + "/" + c) == Some(path)
    requires SpiffeIdentity(Url(SPIFFE, HOST, path)) == Some(Identity(t, c))
    ensures PathPlain(t) && PathPlain(c)
  {
    var full := "/" + t + "/" + c;
    StartsWithSlash(full, path);
    ReadBackLength(t, c, path);
    ParsePathLength(full);
    assert forall i | 0 <= i < |t| :: t[i] == full[1 + i];
    assert forall i | 0 <= i < |c| :: c[i] == full[|t| + 2 + i];
  }

  lemma {:induction false} StartsWithSlash(full: string, path: string)
    requires full != "" && full[0] == '/' && ParsePath(full) == Some(path)
    ensures path != "" && path[0] == '/'
  {
    var main := full[..IndexOf(full, '#')];
    assert main[0] == '/';
    var cut := main[..IndexOf(main, '?')];
    assert cut[0] == '/';
  }

  lemma {:induction false} ParsePathPlain(s: string)
    requires '#' !in s && '?' !in s && '%' !in s && forall i | 0 <= i < |s| :: !IsControl(s[i])
    ensures ParsePath(s) == Some(s)
  {
    assert s[..|s|] == s;
    UnescapeLength(s);
    assert Unescape("") == Some("");
  }

  lemma {:induction false} SplitTwo(t: string, c: string)
    requires '/' !in t && '/' !in c
    ensures Split(t + ['/'] + c, '/') == [t, c]
  {
    SplitHead(t, c, '/');
    SplitWhole(c, '/');
  }

  lemma {:induction false} SpiffeIdentityOf(t: string, c: string)
    requires t != "" && c != "" && '/' !in t && '/' !in c
    ensures SpiffeIdentity(Url(SPIFFE, HOST, "/" + t + "/" + c)) == Some(Identity(t, c))
  {
    var path := "/" + t + "/" + c;
    assert path == "/" + (t + ['/'] + c) + "";
    assert AllSlashes("/") && AllSlashes("");
    SpelledIsRead("/", t, c, "");
  }

  /** Signing gives a leaf from which the signed identity is read back exactly when that identity is
      expressible. */
  lemma {:induction false} ExtractInvertsSign(id: Identity, duration: Time, max: Time, now: Time)
    ensures var leaf := Sign(id, duration, max, now);
            (leaf.Some? && Extract(leaf.value) == Known(id)) <==> Expressible(id)
  {
    var leaf := Sign(id, duration, max, now);
    if id.tenantId == "" {
      TrimSpaceTrims(id.clusterId);
      if Trimmed(id.clusterId) {
        TrimSpaceKeeps(id.clusterId);
      }
    } else {
      if leaf.Some? {
        assert FirstSpiffe(leaf.value.uris) == Some(leaf.value.uris[0]);
        if Extract(leaf.value) == Known(id) {
          ReadBackIsPlain(id.tenantId, id.clusterId, leaf.value.uris[0].path);
        }
      }
      if Expressible(id) {
        ParsePathPlain("/" + id.tenantId + "/" + id.clusterId);
        SpiffeIdentityOf(id.tenantId, id.clusterId);
      }
    }
  }

  // ---- what escapes do to an id ----

  function HexDigit(n: int): (c: char)
    requires 0 <= n < 16
    ensures IsHexDigit(c) && HexValue(c) == n
  {
    if n < 10 then '0' + n as char else 'a' + (n - 10) as char
  }

  /** One character as an escape. */
  function Escape(c: char): string
    requires c as int < 256
  {
    ['%', HexDigit(c as int / 16), HexDigit(c as int % 16)]
  }

  lemma {:induction false} UnescapeOne(c: char, y: string)
    requires c as int < 256 && '%' !in y
    ensures Unescape(Escape(c) + y) == Some([c] + y)
  {
    var s := Escape(c) + y;
    UnescapeLength(y);
    assert s[3..] == y && s[0] == '%' && s[1] == Escape(c)[1] && s[2] == Escape(c)[2];
    assert 16 * HexValue(s[1]) + HexValue(s[2]) == c as int;
  }

  /** Decoding gives an escaped character back and leaves the rest of the text to itself. */
  lemma {:induction false} UnescapeEscape(x: string, c: char, y: string)
    requires c as int < 256 && '%' !in x && '%' !in y
    ensures Unescape(x + Escape(c) + y) == Some(x + [c] + y)
  {
    var e := Escape(c);
    if x == "" {
      UnescapeOne(c, y);
      assert x + e + y == e + y && x + [c] + y == [c] + y;
    } else {
      UnescapeEscape(x[1..], c, y);
      UnescapePlainHead(x[0], x[1..] + e + y, x[1..] + [c] + y);
      assert [x[0]] + (x[1..] + e + y) == x + e + y;
      assert [x[0]] + (x[1..] + [c] + y) == x + [c] + y;
    }
  }

  lemma {:induction false} UnescapePlainHead(h: char, s: string, r: string)
    requires h != '%' && Unescape(s) == Some(r)
    ensures Unescape([h] + s) == Some([h] + r)
  {
    assert ([h] + s)[1..] == s;
  }

  /** A percent sign that starts no escape is refused. */
  lemma {:induction false} UnescapeRefuses(x: string, y: string)
    requires '%' !in x && (|y| < 2 || !IsHexDigit(y[0]) || !IsHexDigit(y[1]))
    ensures Unescape(x + "%" + y) == None
  {
    var s := x + "%" + y;
    if x == "" {
      assert |s| >= 3 ==> s[1] == y[0] && s[2] == y[1];
    } else {
      UnescapeRefuses(x[1..], y);
      assert s[1..] == x[1..] + "%" + y;
    }
  }

  /** So a tenant configured with an escape is issued leaves of the tenant it decodes to. */
  lemma {:induction false} EscapedIdIsAnother(x: string, e: char, y: string, c: string, duration: Time, max: Time, now: Time)
    requires e as int < 256 && PathPlain(x + [e] + y) && PathPlain(c) && c != ""
    ensures var id, other := Identity(x + Escape(e) + y, c), Identity(x + [e] + y, c);
            id != other && Sign(id, duration, max, now) == Sign(other, duration, max, now) &&
            Sign(id, duration, max, now).Some? && Extract(Sign(id, duration, max, now).value) == Known(other)
  {
    assert |x + Escape(e) + y| > |x + [e] + y|;
    ExtractInvertsSign(Identity(x + [e] + y, c), duration, max, now);
    PlainParts(x, e, y);
    SameNames(x, e, y, c);
  }

  lemma {:induction false} SameNames(x: string, e: char, y: string, c: string)
    requires e as int < 256 && PathPlain(x) && PathPlain([e]) && PathPlain(y) && PathPlain(c)
    ensures Names(Identity(x + Escape(e) + y, c)) == Names(Identity(x + [e] + y, c))
  {
    var head, tail := "/" + x, y + "/" + c;
    assert "/" + (x + Escape(e) + y) + "/" + c == head + Escape(e) + tail;
    assert "/" + (x + [e] + y) + "/" + c == head + [e] + tail;
    assert Unmarked(tail) && '%' !in tail && Unmarked(head) && '%' !in head;
    EscapedPath(head, e, tail);
    PlainPath(head + [e] + tail);
  }

  lemma {:induction false} PlainPath(s: string)
    requires Unmarked(s) && '%' !in s
    ensures ParsePath(s) == Some(s)
  {
    ParsePathPlain(s);
  }

  lemma {:induction false} PlainParts(x: string, e: char, y: string)
    requires PathPlain(x + [e] + y)
    ensures PathPlain(x) && PathPlain(y) && PathPlain([e])
  {
    var t := x + [e] + y;
    assert forall k | 0 <= k < |x| :: x[k] == t[k];
    assert forall k | 0 <= k < |y| :: y[k] == t[|x| + 1 + k];
    assert t[|x|] == e;
  }

  predicate Unmarked(s: string) { forall k | 0 <= k < |s| :: s[k] != '#' && s[k] != '?' && !IsControl(s[k]) }

  lemma {:induction false} EscapedPath(x: string, e: char, y: string)
    requires e as int < 256 && Unmarked(x) && Unmarked(y) && '%' !in x && '%' !in y
    ensures ParsePath(x + Escape(e) + y) == Some(x + [e] + y)
  {
    var s := x + Escape(e) + y;
    assert Unmarked(Escape(e));
    assert Unmarked(s);
    UnescapeEscape(x, e, y);
    assert s[..|s|] == s;
    assert IndexOf(s, '#') == |s| && IndexOf(s, '?') == |s|;
    assert Unescape("") == Some("");
  }
}
