/** Renewal of leaf certificates, internal/auth/renew.go, and what bounds the leaves of a tenant over
    its whole life: from the bootstrap through any tree of renewals, with the tenants file changing
    underneath. */
module Renewal {
  import opened Common
  import opened Identity
  import Store
  import Bootstrap
  import Replay
  import Gateway

  // ---- the handler ----

  /** Crashed: the signer panicked. */
  datatype Renewed = Issued(leaf: Leaf) | Forbidden | BadRequest | Crashed

  /** RenewHandler.Issue for an authenticated caller; `csrGood` says whether the signer can use the
      CSR. A tenant that is merely absent from the index is not refused here. */
  method Renew(tenants: Option<Tenants>, id: Identity, csr: string, csrGood: bool, max: Time, now: Time) returns (r: Renewed)
    ensures r == RenewSpec(tenants, id, csr, csrGood, max, now)
  {
    if tenants.None? {
      return Forbidden;
    }
    var found := id.clusterId in tenants.value;
    if found && tenants.value[id.clusterId].revoked {
      return Forbidden;
    }
    if csr == "" {
      return BadRequest;
    }
    var duration := max;
    if found && tenants.value[id.clusterId].certDuration > 0 {
      duration := tenants.value[id.clusterId].certDuration;
    }
    if !csrGood {
      return BadRequest;
    }
    var leaf := Sign(id, duration, max, now);
    return if leaf.Some? then Issued(leaf.value) else Crashed;
  }

  predicate Revoked(tenants: Tenants, cluster: string) {
    cluster in tenants && tenants[cluster].revoked
  }

  function RenewSpec(tenants: Option<Tenants>, id: Identity, csr: string, csrGood: bool, max: Time, now: Time): Renewed {
    if tenants.None? || Revoked(tenants.value, id.clusterId) then Forbidden
    else if csr == "" || !csrGood then BadRequest
    else
      var configured := if id.clusterId in tenants.value then tenants.value[id.clusterId].certDuration else 0;
      var leaf := Sign(id, if configured > 0 then configured else max, max, now);
      if leaf.Some? then Issued(leaf.value) else Crashed
  }

  /** Exactly when the handler issues, and for how long; and what it answers otherwise. */
  lemma {:induction false} RenewMeaning(tenants: Option<Tenants>, id: Identity, csr: string, csrGood: bool, max: Time, now: Time)
    requires max > 0
    ensures var r := RenewSpec(tenants, id, csr, csrGood, max, now);
            var refused := tenants.None? || (id.clusterId in tenants.value && tenants.value[id.clusterId].revoked);
            (r.Forbidden? <==> refused) && (r.BadRequest? <==> !refused && (csr == "" || !csrGood)) &&
            (r.Issued? <==> !refused && csr != "" && csrGood && Names(id).Some?) &&
            (r.Issued? ==>
               var configured := if id.clusterId in tenants.value then tenants.value[id.clusterId].certDuration else 0;
               r.leaf.notAfter == now + if 0 < configured <= max then configured else max)
  {
  }

  lemma {:induction false} RenewalKeepsIdentity(tenants: Option<Tenants>, id: Identity, csr: string, max: Time, now: Time, leaf: Leaf)
    requires Expressible(id) && max > 0
    requires RenewSpec(tenants, id, csr, true, max, now) == Issued(leaf)
    ensures Extract(leaf) == Known(id) && now < leaf.notAfter <= now + max
  {
    var configured := if id.clusterId in tenants.value then tenants.value[id.clusterId].certDuration else 0;
    ExtractInvertsSign(id, if configured > 0 then configured else max, max, now);
  }

  // ---- lineages ----

  /** One certificate handed out, and when its request passed the gateway, was looked up by the handler
      and was signed. A bootstrap does not pass the gateway. */
  datatype Grant = Grant(leaf: Leaf, admittedAt: Time, lookupAt: Time, signedAt: Time)

  /** The surroundings of a lineage: the signer's maximum, the token digest and the snapshot in force at
      each instant. */
  datatype World = World(max: Time, sha: string -> string, tenants: Time -> Option<Tenants>)

  /** Snapshots are indexes. */
  ghost predicate Sane(w: World) {
    w.max > 0 && forall t :: w.tenants(t).Some? ==> Keyed(w.tenants(t).value)
  }

  predicate ActiveAt(w: World, t: Time, cluster: string) {
    w.tenants(t).Some? && Active(w.tenants(t).value, cluster)
  }

  /** `g` answers a bootstrap request whose tenant entry names `origin`. */
  ghost predicate Bootstrapped(g: Grant, origin: Identity, w: World) {
    exists items, prefix, input, at :: BootstrapGrant(g, origin, w, items, prefix, input, at)
  }

  ghost predicate BootstrapGrant(g: Grant, origin: Identity, w: World, items: Store.Items, prefix: string, input: Bootstrap.Input,
                                 at: Bootstrap.Readings)
  {
    var tenants := w.tenants(g.lookupAt);
    at.signed == g.signedAt &&
    Bootstrap.Handled(items, prefix, tenants, input, w.sha, true, w.max, at).0 == Bootstrap.Granted(g.leaf) &&
    origin == Identity(tenants.value[input.clusterId].tenantId, tenants.value[input.clusterId].clusterId)
  }

  /** A request of `id` that both transports' admission lets through at that time. */
  ghost predicate Admitted(id: Identity, t: Time, w: World) {
    exists guard, items, ts, nonce, judged, claim ::
      Gateway.AdmitCode(guard, items, w.tenants(t), Some(id), ts, nonce, judged, claim) == Gateway.Ok
  }

  /** `g` was issued to a caller authenticated with `previous`; `gated` says whether the request had to
      pass the gateway first, as it does in the program. */
  ghost predicate RenewedFrom(g: Grant, previous: Leaf, gated: bool, w: World) {
    exists id, csr :: RenewalGrant(g, previous, gated, w, id, csr)
  }

  ghost predicate RenewalGrant(g: Grant, previous: Leaf, gated: bool, w: World, id: Identity, csr: string) {
    Extract(previous) == Known(id) && (gated ==> Admitted(id, g.admittedAt, w)) &&
    RenewSpec(w.tenants(g.lookupAt), id, csr, true, w.max, g.signedAt) == Issued(g.leaf)
  }

  /** Grants in issuing order: one bootstrap for `origin`, then renewals, each authenticated with some
      earlier leaf. */
  ghost predicate Lineage(grants: seq<Grant>, origin: Identity, gated: bool, w: World) {
    forall n | 0 <= n < |grants| ::
      if n == 0 then Bootstrapped(grants[0], origin, w)
      else exists j | 0 <= j < n :: RenewedFrom(grants[n], grants[j].leaf, gated, w)
  }

  /** What every grant of a lineage satisfies: the leaf's identity and lifetime, and that the handler's
      lookup, and the gateway's if there is one, let the tenant through. */
  ghost predicate Proper(g: Grant, first: bool, origin: Identity, gated: bool, w: World) {
    Extract(g.leaf) == Known(origin) && g.signedAt < g.leaf.notAfter <= g.signedAt + w.max &&
    w.tenants(g.lookupAt).Some? && !Revoked(w.tenants(g.lookupAt).value, origin.clusterId) &&
    (first ==> ActiveAt(w, g.lookupAt, origin.clusterId)) &&
    (!first && gated ==> ActiveAt(w, g.admittedAt, origin.clusterId))
  }

  lemma {:induction false} BootstrapIsProper(g: Grant, origin: Identity, gated: bool, w: World)
    requires Sane(w) && Expressible(origin) && Bootstrapped(g, origin, w)
    ensures Proper(g, true, origin, gated, w)
  {
    var items, prefix, input, at :| BootstrapGrant(g, origin, w, items, prefix, input, at);
    var tenants := w.tenants(g.lookupAt).value;
    assert Active(tenants, input.clusterId);
    assert Keyed(tenants);
    ExtractInvertsSign(origin, tenants[input.clusterId].certDuration, w.max, g.signedAt);
  }

  lemma {:induction false} RenewalIsProper(g: Grant, previous: Leaf, origin: Identity, gated: bool, w: World)
    requires Sane(w) && Expressible(origin) && RenewedFrom(g, previous, gated, w) && Extract(previous) == Known(origin)
    ensures Proper(g, false, origin, gated, w)
  {
    var id, csr :| RenewalGrant(g, previous, gated, w, id, csr);
    RenewalKeepsIdentity(w.tenants(g.lookupAt), id, csr, w.max, g.signedAt, g.leaf);
  }

  lemma {:induction false} GrantIsProper(grants: seq<Grant>, origin: Identity, gated: bool, w: World, n: nat)
    requires Sane(w) && Expressible(origin) && Lineage(grants, origin, gated, w) && n < |grants|
    ensures Proper(grants[n], n == 0, origin, gated, w)
  {
    if n == 0 {
      BootstrapIsProper(grants[0], origin, gated, w);
    } else {
      var j :| 0 <= j < n && RenewedFrom(grants[n], grants[j].leaf, gated, w);
      GrantIsProper(grants, origin, gated, w, j);
      RenewalIsProper(grants[n], grants[j].leaf, origin, gated, w);
    }
  }

  /** However many renewals follow, with or without the gateway, every leaf carries the identity the
      tenant was bootstrapped with and is valid for a positive time of at most `max` from its signing. */
  lemma {:induction false} LineageKeepsIdentity(grants: seq<Grant>, origin: Identity, gated: bool, w: World)
    requires Sane(w) && Expressible(origin) && Lineage(grants, origin, gated, w)
    ensures forall i | 0 <= i < |grants| ::
              Extract(grants[i].leaf) == Known(origin) && grants[i].signedAt < grants[i].leaf.notAfter <= grants[i].signedAt + w.max
  {
    forall i | 0 <= i < |grants| ensures Proper(grants[i], i == 0, origin, gated, w) {
      GrantIsProper(grants, origin, gated, w, i);
    }
  }

  /** Once the entry stays revoked from `revokedAt` on, every leaf ever issued has expired by `max` after
      that, plus the longest delay between the handler's lookup and its signing. The handler alone sees
      to this. */
  lemma {:induction false} RevocationBoundsLeaves(grants: seq<Grant>, origin: Identity, gated: bool, w: World, revokedAt: Time, lag: Time)
    requires Sane(w) && Expressible(origin) && Lineage(grants, origin, gated, w)
    requires forall t | t >= revokedAt :: w.tenants(t).Some? ==> Revoked(w.tenants(t).value, origin.clusterId)
    requires forall i | 0 <= i < |grants| :: grants[i].signedAt <= grants[i].lookupAt + lag
    ensures forall i | 0 <= i < |grants| :: grants[i].leaf.notAfter < revokedAt + lag + w.max
  {
    forall i | 0 <= i < |grants| ensures grants[i].leaf.notAfter < revokedAt + lag + w.max {
      GrantIsProper(grants, origin, gated, w, i);
      assert grants[i].lookupAt < revokedAt;
    }
  }

  /** Behind the gateway the same holds of an entry that is revoked or deleted, the delay now counting
      from the gateway's lookup. */
  lemma {:induction false} DeletionBoundsLeaves(grants: seq<Grant>, origin: Identity, w: World, goneAt: Time, lag: Time)
    requires Sane(w) && Expressible(origin) && Lineage(grants, origin, true, w)
    requires forall t | t >= goneAt :: !ActiveAt(w, t, origin.clusterId)
    requires forall i | 0 <= i < |grants| ::
               grants[i].signedAt <= (if i == 0 then grants[i].lookupAt else grants[i].admittedAt) + lag
    ensures forall i | 0 <= i < |grants| :: grants[i].leaf.notAfter < goneAt + lag + w.max
  {
    forall i | 0 <= i < |grants| ensures grants[i].leaf.notAfter < goneAt + lag + w.max {
      GrantIsProper(grants, origin, true, w, i);
    }
  }

  // ---- deletion without the gateway, and between its lookup and the handler's ----

  /** Signing of this identity returns at all. */
  predicate Signable(id: Identity) { Names(id).Some? }

  /** Given a usable CSR, the handler serves only active tenants exactly for clusters that are in the
      snapshot it reads: what it never notices is an entry that is gone. */
  lemma {:induction false} ServesOnlyActiveIff(tenants: Tenants, id: Identity, csr: string, max: Time, now: Time)
    requires csr != "" && Signable(id)
    ensures (RenewSpec(Some(tenants), id, csr, true, max, now).Issued? ==> Active(tenants, id.clusterId)) <==> id.clusterId in tenants
  {
  }

  /** The whole path of a renewal request, refused by the gateway or answered by the handler. */
  function ThroughGateway(guard: Replay.Guard, items: Store.Items, w: World, id: Identity, ts: string, nonce: string,
                          judged: Time, claim: Time, admittedAt: Time, lookupAt: Time, csr: string, csrGood: bool, now: Time): Renewed
  {
    if Gateway.AdmitCode(guard, items, w.tenants(admittedAt), Some(id), ts, nonce, judged, claim) != Gateway.Ok then Forbidden
    else RenewSpec(w.tenants(lookupAt), id, csr, csrGood, w.max, now)
  }

  /** Behind the gateway a fresh request with a usable CSR gets a leaf for a cluster that is not active at
      the handler's lookup exactly when the entry was active at the gateway's lookup and deleted by the
      handler's. */
  lemma {:induction false} LeafForInactiveIff(
    guard: Replay.Guard, items: Store.Items, w: World, id: Identity, ts: string, nonce: string,
    judged: Time, claim: Time, admittedAt: Time, lookupAt: Time, csr: string, now: Time)
    requires csr != "" && Signable(id)
    requires Replay.Decide(guard, items, Some(id), ts, nonce, judged, claim) == Replay.Accepted
    ensures ThroughGateway(guard, items, w, id, ts, nonce, judged, claim, admittedAt, lookupAt, csr, true, now).Issued? &&
            !ActiveAt(w, lookupAt, id.clusterId) <==>
            ActiveAt(w, admittedAt, id.clusterId) && w.tenants(lookupAt).Some? && id.clusterId !in w.tenants(lookupAt).value
  {
  }

  // ---- how long a deleted tenant can go on ----

  /** A renewal whose request, lookup and signing all happen at `t`. */
  function At(leaf: Leaf, t: Time): Grant { Grant(leaf, t, t, t) }

  /** Without the gateway no bound holds: whatever lineage there is and however long the entry has been
      gone, the next renewal is issued, for the full `max`. */
  lemma {:induction false} DeletedTenantRenewsOn(grants: seq<Grant>, origin: Identity, w: World, t: Time) returns (g: Grant)
    requires Sane(w) && Expressible(origin) && grants != [] && Lineage(grants, origin, false, w)
    requires w.tenants(t).Some? && origin.clusterId !in w.tenants(t).value
    ensures Lineage(grants + [g], origin, false, w) && g.lookupAt == t && g.leaf.notAfter == t + w.max
  {
    GrantIsProper(grants, origin, false, w, |grants| - 1);
    g := RenewGone(grants[|grants| - 1].leaf, origin, w, t);
    LineageSnoc(grants, g, origin, false, w);
  }

  lemma {:induction false} RenewGone(previous: Leaf, origin: Identity, w: World, t: Time) returns (g: Grant)
    requires w.max > 0 && Expressible(origin) && Extract(previous) == Known(origin)
    requires w.tenants(t).Some? && origin.clusterId !in w.tenants(t).value
    ensures RenewedFrom(g, previous, false, w) && g.lookupAt == t && g.leaf.notAfter == t + w.max
  {
    ExtractInvertsSign(origin, w.max, w.max, t);
    g := At(Sign(origin, w.max, w.max, t).value, t);
    assert RenewalGrant(g, previous, false, w, origin, "csr");
  }

  lemma {:induction false} LineageSnoc(grants: seq<Grant>, g: Grant, origin: Identity, gated: bool, w: World)
    requires grants != [] && Lineage(grants, origin, gated, w) && RenewedFrom(g, grants[|grants| - 1].leaf, gated, w)
    ensures Lineage(grants + [g], origin, gated, w)
  {
    var all, n := grants + [g], |grants|;
    forall k | 0 < k < |all| ensures exists j | 0 <= j < k :: RenewedFrom(all[k], all[j].leaf, gated, w) {
      if k < n {
        var j :| 0 <= j < k && RenewedFrom(grants[k], grants[j].leaf, gated, w);
        assert RenewedFrom(all[k], all[j].leaf, gated, w);
      } else {
        assert RenewedFrom(all[n], all[n - 1].leaf, gated, w);
      }
    }
    assert all[0] == grants[0];
  }
}
