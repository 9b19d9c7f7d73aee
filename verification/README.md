# muthur, modelled and proved in Dafny

muthur's brain receives alerts from collectors in customer clusters, checks who sent them and that
they are fresh, suppresses duplicates, groups what remains into incidents, asks a language model for
one analysis per incident under a cost ceiling, and may silence an alert. Most of its hard promises
are about whole runs of small stateful protocols that share one TTL key/value store under a moving
clock. This project models those protocols and proves what every run keeps. `dafny verify
dfyconfig.toml` checks all of it.

| file | component |
|---|---|
| `Common.dfy`, `Text.dfy` | time, alerts; splitting, trimming and decimal text of the Go library |
| `Store.dfy` | the in-process TTL store |
| `Replay.dfy`, `Bootstrap.dfy`, `Dedup.dfy` | its one-shot clients: nonces, one-time tokens, duplicate alerts |
| `HttpSignature.dfy`, `SignedRequest.dfy` | the signed-request text format and the sealed envelope |
| `Identity.dfy`, `Renewal.dfy` | tenants and leaf certificates; renewal and the life of a tenant's leaves |
| `Reloader.dfy` | the stat-then-read caches of the tenants file and the TLS key pair |
| `Gateway.dfy` | both transports down to the pipeline |
| `Correlator.dfy` | the debounce buffer |
| `Limiter.dfy` | token bucket, semaphore, per-cluster pool |
| `Evaluator.dfy` | the validate-retry-degrade loop and the OpenAI-compatible provider |
| `Embedding.dfy`, `LlmCache.dfy` | hashed embeddings, cosine similarity, the two-layer cache |
| `Pipeline.dfy` | dispatch, evaluation under the backstop, silencing |

Objects the program mutates are classes here, its loops are loops, and each method is proved against
a function on values; the theorems about whole runs are about those functions. Concurrency is
interleaving of the atomic steps between the program's own lock, channel, file and store operations.

## Where the code and its promises part

Each of these is proved: a concrete run or input that breaks the promise, and the exact condition
under which the code keeps it.

- **A request may be accepted twice** (`Replay`). The clock is read once to judge the timestamp and
  again inside the store. Judged at the last instant of its window and claimed one instant later, a
  replay meets a nonce that has just expired. For any window and nonce ttl, every run is single use if
  and only if the ttl is at least two windows plus the lag between the readings (`SingleUseIff`); with
  the ttl of two windows that the code sets, if and only if the readings never differ.
- **A bootstrap token may yield two leaves** (`Bootstrap`). Without an expiry the used-marker lives a
  day and the token for ever; with one, a request that checked the window in time may claim after the
  marker is gone. Two leaves are impossible if and only if the entry has an expiry and check and
  claim share an instant (`OneLeafIff`).
- **The correlator loses alerts** (`Correlator`). The comment on New says excess alerts open a fresh
  bucket; the code replaces the full bucket in the map, so its alerts are never flushed. The number
  of lost alerts is exactly maxGroup times the number of Adds that met a full bucket
  (`LossIsOverflow`), and nothing else is ever lost (`Conservation`). The displaced bucket's timer stays
  armed and cuts the window of the replacement short (`DisplacedTimerFlushesReplacement`).
- **Different groups may share a group key** (`Correlator`). The alerts of two clusters are told apart by
  cluster and node or namespace if and only if neither cluster id goes on like a key of the other
  (`GroupKeyIdentifiesIff`).
- **A group with a critical alert may be silenced** (`Pipeline`) when it is spelled with a capital:
  the silence guard folds case, the choice of the representative does not. Everything else permitting,
  a silence is refused if and only if some member is spelled "critical", or the first member is another
  spelling of it and no member has a known severity (`GroupSilencedIff`).
- **A newer certificate may be overwritten by an older one** (`Reloader`) when two handshakes load at
  once. The cached time never goes back in any run if and only if loaders never overlap
  (`NeverBackIffAlone`), as with the single tenants poll.
- **The renewal handler serves a deleted tenant** (`Renewal`). Given a usable CSR it serves active
  tenants only, if and only if the cluster is in the snapshot it reads (`ServesOnlyActiveIff`), and alone
  it goes on renewing for ever (`DeletedTenantRenewsOn`). Behind the gateway a leaf goes to a cluster that
  is not active if and only if its entry was deleted between the two lookups (`LeafForInactiveIff`), and
  every leaf of a deleted tenant runs out (`DeletionBoundsLeaves`).
- **Some identifiers are not read back from a leaf** (`Identity`). The signed identity is read back if and
  only if both ids are free of `/`, `?`, `#`, `%` and control characters and the cluster id is not empty,
  or, without a tenant, the cluster id is not empty and trimmed (`ExtractInvertsSign`). A text that
  url.Parse refuses becomes a nil name, on which signing panics: no leaf and, in the bootstrap handler, no
  rollback of the marker (`Bootstrap.Issue`). A tenant configured with an escape is issued leaves of the tenant
  it decodes to (`EscapedIdIsAnother`).
- **Different identities may share a name**, and with it their nonces: names tell the identities of two
  clusters apart if and only if neither cluster id ends in a slash and the other (`NameIdentifiesIff`).
- **A `|` in a field lets two different alerts share a dedup key**; an alert's key is its own exactly
  when no field holds one (`RawKeyIdentifiesIff`).
- **The transports can read different header values** for one multi-valued field: gRPC metadata skips
  blank values, the HTTP side reads the first (`SameFieldIff`).

## Assumptions

- The clock does not run backwards, and one store operation happens at one instant. Everything else
  that reads the clock separately (freshness, marker ttl, signing, limiter) has its own reading.
- Arithmetic is exact: tokens are integers in units of 1/(60·10⁹) of a call, vectors are real, and
  durations do not saturate at 64 bits. Timestamps and signature times are 64-bit.
- SHA-256, FNV, ECDSA, HPKE, base64, JSON, square root, `strconv.Unquote` and `time.ParseDuration` are
  parameters; the laws used of them are in the contracts (hexadecimal digests, unquoting quoted
  hexadecimal, a signature that verifies for the signed text only, an envelope that opens under its
  own inputs only, encode then decode, and that a certificate goes with one key). No collision-freedom of
  SHA-256 is used.
- A nil URL in a certificate template makes x509 panic. Whatever else x509 or the CSR can go wrong with is
  one input of the signer, "the CSR is usable".
- Characters stand for bytes or runes; case folding is ASCII.

## Model

| member | source | states |
|---|---|---|
| `Store.Memory.Get` | internal/store/memory.go:39-50 | returns the value exactly when the key is present and not strictly past its deadline |
| `Store.Memory.Set` | internal/store/memory.go:52-57 | replaces value and deadline of one key; a ttl of zero or less never expires |
| `Store.Memory.SetNX` | internal/store/memory.go:59-68 | claims exactly when no live entry is there, and otherwise changes nothing |
| `Store.Memory.Delete` | internal/store/memory.go:70-75 | removes that key and no other |
| `Store.Memory.ListByPrefix` | internal/store/memory.go:77-89 | the result, as a multiset, is the values of all live keys with the prefix, whatever the iteration order |
| `Store.Memory.Sweep` | internal/store/memory.go:98-116 | one janitor pass removes exactly the expired entries |
| `Store.StepAgrees` | internal/store/memory.go:39-129 | simulation step: the lazy store and an eagerly expiring map that agree on live entries give the same reply and still agree |
| `Store.RefinesTimedMap` | internal/store/memory.go:39-129 | for every operation sequence at nondecreasing times with sweeps anywhere, all replies equal those of the eager map run without sweeps |
| `Store.UntouchedStays` | internal/store/memory.go:52-116 | frame: operations on other keys, sweeps included, keep an entry until its deadline has passed and create none |
| `Replay.NewGuard` | internal/auth/replay.go:68-79 | the window is the given one or five minutes, and the nonce ttl is twice the window |
| `Replay.Verify` | internal/auth/replay.go:87-124 | every rejection in the code's order, and the store changes only by claiming the nonce of a request that passed all prior checks |
| `Replay.AcceptedIff` | internal/auth/replay.go:87-124 | accepted iff there is an identity, a timestamp within the window on either side, an even number of at least 32 hexadecimal digits and no live claim on them; and likewise exactly what leads to each kind of refusal |
| `Replay.RecordIff` | internal/auth/replay.go:115-123 | the store changes exactly on acceptance, by a claim that runs for the nonce ttl |
| `Replay.NonceKeyUnique` | internal/auth/replay.go:129-131 | the store key of a well-formed nonce determines identity string and nonce, whatever the identity contains |
| `Replay.ClaimHolds` | internal/auth/replay.go:115-123 | over any run, other verifications, foreign operations and sweeps leave an accepted nonce in place until its ttl is over |
| `Replay.AcceptedApart` | internal/auth/replay.go:87-124 | two acceptances of one identity and nonce are strictly more than the nonce ttl apart, and there are no two when it is endless |
| `Replay.LagAllowsReplay` | internal/auth/replay.go:100-116 | for every identity, timestamp and nonce, a ttl shorter than two windows plus the lag admits the same triple twice |
| `Replay.SingleUseIfOutlives` | internal/auth/replay.go:87-124 | a ttl of at least two windows plus the lag lets no (identity, timestamp, nonce) triple be accepted twice in any run |
| `Replay.SingleUseIff` | internal/auth/replay.go:68-124 | for any window and ttl, all runs are single use if and only if the ttl is endless or at least two windows plus the lag |
| `Replay.SingleUseIffNoLag` | internal/auth/replay.go:68-124 | for the guard NewReplayGuard builds, all runs are single use if and only if the permitted lag is zero |
| `Replay.SpacingTight` | internal/auth/replay.go:61-79 | exactly one ttl after a claim the nonce is refused, one instant later it is accepted |
| `Identity.NewTenants` | internal/auth/bootstrap.go:46-65 | the loop computes the index of the list, or none at the first bad entry |
| `Identity.IndexExact` | internal/auth/bootstrap.go:46-65 | an index exists iff all clusters are named, distinct and have readable durations; it then holds every entry under its own cluster and nothing else |
| `Identity.NameIdentifiesIff` | internal/auth/identity.go:42-47 | identity strings tell the identities of two clusters apart, whatever the tenants, iff neither cluster id ends in a slash and the other |
| `Identity.ExtractFromCert` | internal/auth/identity.go:57-88 | the first SPIFFE name decides, a malformed one is an error, and only without one the trimmed common name counts |
| `Identity.ExtractMeaning` | internal/auth/identity.go:57-88 | the first SPIFFE name alone decides if there is one, otherwise the trimmed common name |
| `Identity.SpiffeIdentityIff` | internal/auth/identity.go:98-107 | a SPIFFE name carries a tenant and cluster iff its host is muthur and its path spells them, non-empty and slash-free, with any slashes around |
| `Identity.SignedLeaf` | internal/auth/sign.go:74-121 | common name, a minute of tolerance before, and the wanted duration after if it is in (0, MaxLeafDuration], else the maximum |
| `Identity.ExtractInvertsSign` | internal/auth/sign.go:74-121 | signing returns a leaf from which the signed identity is read back iff both ids are free of `/?#%` and control characters and the cluster id is not empty (or, without a tenant, it is not empty and trimmed) |
| `Identity.EscapedIdIsAnother` | internal/auth/sign.go:97-101 | a tenant id with an escape is issued exactly the leaf of the tenant id it decodes to |
| `Renewal.Renew` | internal/auth/renew.go:65-110 | refusals in order, and the leaf carries the caller's own identity with the configured or maximal duration |
| `Renewal.RenewMeaning` | internal/auth/renew.go:56-110 | exactly what leads to each answer, and the lifetime of an issued leaf |
| `Renewal.RenewalKeepsIdentity` | internal/auth/renew.go:56-110 | a renewed leaf reads back as the same identity and lives a positive time of at most the maximum |
| `Renewal.LineageKeepsIdentity` | internal/auth/renew.go:56-110 | over any tree of renewals from one bootstrap grant, every leaf carries the original identity and is valid in (0, MaxLeafDuration] |
| `Renewal.RevocationBoundsLeaves` | internal/auth/renew.go:71-78 | once the entry stays revoked, every leaf ever issued expires within MaxLeafDuration plus the lookup-to-signing delay, by the handler's own check and with or without the gateway |
| `Renewal.DeletionBoundsLeaves` | internal/grpcsrv/interceptors.go:99-125 | behind the gateway the same bound holds once the entry is revoked or deleted, counted from the gateway's lookup |
| `Renewal.ServesOnlyActiveIff` | internal/auth/renew.go:71-92 | given a usable CSR, the handler serves active tenants only iff the cluster is in the snapshot it reads |
| `Renewal.LeafForInactiveIff` | internal/auth/renew.go:56-110 | a fresh request that passes gateway and handler gets a leaf for an inactive cluster iff the entry was active at the gateway's lookup and deleted by the handler's |
| `Renewal.DeletedTenantRenewsOn` | internal/auth/renew.go:74-92 | without the gateway every lineage of a deleted tenant can be continued at any time with a leaf of maximal duration |
| `Bootstrap.Issue` | internal/auth/bootstrap.go:151-230 | a refused request leaves the store alone, a failed signing leaves no marker, a granted one leaves the marker and a leaf for the configured identity of an active tenant, a panicking one leaves the marker |
| `Bootstrap.GrantedIff` | internal/auth/bootstrap.go:151-230 | a leaf is granted iff all fields are filled, the cluster is in the snapshot and not revoked, the window is open, the token's digest is the configured one, no marker is live, the CSR is usable and the identity can be signed; it is then the configured identity's and the marker is live |
| `Bootstrap.MarkersApart` | internal/auth/bootstrap.go:185-212 | markers are per cluster, and a request leaves every other key as it is |
| `Bootstrap.StepsAreIssue` | internal/auth/bootstrap.go:169-218 | the check, claim and signing steps of the state machine write and issue exactly what one undisturbed call of the handler does |
| `Bootstrap.SafeStep` | internal/auth/bootstrap.go:169-218 | each check, claim, signing, rollback, sweep or foreign operation keeps: at most one owner, and its marker outlives the window |
| `Bootstrap.OneLeaf` | internal/auth/bootstrap.go:169-218 | with an expiry and no lag, every interleaving issues at most one leaf and a request that rolls back is the only owner |
| `Bootstrap.RollbackFreesToken` | internal/auth/bootstrap.go:204-218 | after a failed signing the next request within the window can claim the token |
| `Bootstrap.TwoLeaves` | internal/auth/bootstrap.go:182-202 | whenever the second claim comes after the first marker's ttl but its check was in time, both requests are issued leaves |
| `Bootstrap.OneLeafIff` | internal/auth/bootstrap.go:169-202 | two leaves are impossible in every interleaving iff the entry has an expiry and check and claim share an instant |
| `Dedup.Deduplicator.IsDuplicate` | internal/dedup/dedup.go:38-58 | duplicate iff the firing key is live; records it otherwise; a store outage fails open and records nothing |
| `Dedup.Deduplicator.IsDuplicateResolved` | internal/dedup/dedup.go:67-87 | the same for the resolved key, which pins the firing time |
| `Dedup.KeySpacesDisjoint` | internal/dedup/dedup.go:38-112 | firing keys, resolved keys and the nonce, bootstrap, cache, feedback and incident keys never coincide, under any prefix |
| `Dedup.StoreTracksSlot` | internal/dedup/dedup.go:38-87 | at every moment of any run a dedup key is live iff a recorded alert of its kind and digest is within the window |
| `Dedup.AcceptedIffPasses` | internal/dedup/dedup.go:38-87 | over any trace the verdicts equal a store-free greedy filter: pass iff no alert that passed lies within the window, so duplicates never extend it |
| `Dedup.RawKeyIdentifiesIff` | internal/dedup/dedup.go:89-112 | the digested text stands for its own alert only (and firing time, when resolved) iff no field holds the separator |
| `HttpSignature.WriteWords` | internal/auth/httpsig.go:83-88 | the printing loop writes the quoted components separated by single spaces |
| `HttpSignature.SignatureParams` | internal/auth/httpsig.go:80-91 | the printed parameters are the covered list, created, alg and keyid |
| `HttpSignature.CoveredListText` | internal/auth/httpsig.go:39-47 | the covered list is these seven quoted words in this order |
| `HttpSignature.WantedList` | internal/auth/httpsig.go:189-190 | cutting the printed parameters after their first ")" yields exactly the covered list |
| `HttpSignature.ParseSegments` | internal/auth/httpsig.go:195-230 | the loop with its seen-set accepts what the segment-by-segment scan accepts |
| `HttpSignature.ParseSignatureParams` | internal/auth/httpsig.go:184-231 | the whole parser, against the function the next two theorems are about |
| `HttpSignature.ParserExact` | internal/auth/httpsig.go:184-231 | accepts a text with a given result iff it is the fixed list followed, empty segments ignored and in any order, by exactly one created, one alg and one keyid with those values |
| `HttpSignature.ParamsRoundTrip` | internal/auth/httpsig.go:80-91 | parsing what was printed returns created and keyid, for every int64 and every hexadecimal keyid |
| `SignedRequest.SignatureBase` | internal/auth/httpsig.go:96-112 | the appending loop writes one line per component, upper-casing the method and trimming headers, then the parameters |
| `SignedRequest.BaseLiteral` | internal/auth/httpsig.go:96-112 | the base is these seven lines in this order and the parameters |
| `SignedRequest.BaseUnique` | internal/auth/httpsig.go:96-112 | for any component names, two bases of newline-free values are equal iff all values and the parameters are |
| `SignedRequest.LineBreakForgesBase` | internal/auth/httpsig.go:96-112 | with a line break in a value, for every pair of neighbouring components two different lists of the seven values share a base |
| `SignedRequest.VerifyFramed` | internal/auth/httpsig.go:145-180 | labels and delimiters come off as they were put on, so only the signature check decides |
| `SignedRequest.VerifiedIff` | internal/auth/httpsig.go:145-180 | for any headers: verified iff Signature-Input is the label and well-formed parameters, Signature the label and base64 of 64 bytes between colons, and these verify over the base |
| `SignedRequest.SignatureBindsRequest` | internal/auth/httpsig.go:117-180 | a request carrying the two headers of a signed one verifies, with its created and keyid, iff the method up to case, the path and the trimmed content-digest, timestamp, nonce, certificate and key id headers are the same; any other is invalid |
| `SignedRequest.SealInputsUnique` | internal/auth/sealed.go:58-62 | the two HPKE inputs determine path, timestamp and nonce, and conversely |
| `SignedRequest.EnvelopeBindsRequest` | internal/auth/sealed.go:81-252 | an envelope opens to its plaintext under its own path, timestamp and nonce and is malformed under any other |
| `SignedRequest.OpenedIff` | internal/auth/sealed.go:229-252 | a body opens iff it is addressed to a known key and is the version byte, 32 bytes of encapsulation and a ciphertext which that key opens for this path, timestamp and nonce |
| `Reloader.TenantsReloader.Reload` | internal/auth/tenants_reloader.go:130-152 | stores exactly on a later time with a good parse; any failure keeps the snapshot |
| `Reloader.TenantsReloader.Current` | internal/auth/tenants_reloader.go:83-88 | the stored snapshot, if any |
| `Reloader.CertReloader.GetCertificate` | internal/auth/tls.go:132-146 | serves the cached pair on a stat failure or an unchanged certificate file, else what a load of both files gives |
| `Reloader.CertReloader.Load` | internal/auth/tls.go:148-164 | a load that cannot read or match certificate and key serves and keeps the cached pair |
| `Reloader.StepsAreGetCertificate` | internal/auth/tls.go:132-164 | one undisturbed call is stat, decision and, for a newer file, restat, read and store of a matching pair or failure, with the same cache and the same pair served |
| `Reloader.UnreadableKeeps` | internal/auth/tls.go:148-161 | a load that cannot read keeps the cache and serves it, except when the second stat fails |
| `Reloader.StepCoherent` | internal/auth/tenants_reloader.go:130-152 | every write to either file, stat, decision, read, failure and store keeps coherence, and only a store changes what is served |
| `Reloader.RunCoherent` | internal/auth/tls.go:132-164 | for any number of loaders, torn reads and key rewrites: whenever the cached time is the file's, the snapshot is a parse of the current file, and of the current pair if that parses |
| `Reloader.PollCatchesUp` | internal/auth/tenants_reloader.go:130-152 | an undisturbed poll ends with the current file served |
| `Reloader.NoticedIffLater` | internal/auth/tenants_reloader.go:135-137 | a rewrite is reloaded iff its time is later; a rewrite keeping the time breaks coherence |
| `Reloader.ConcurrentLoadersRegress` | internal/auth/tls.go:132-164 | from a preloaded cache, two handshakes that both find a newer certificate and the interleaving in which the older pair replaces the newer one |
| `Reloader.LoneLoaderForward` | internal/auth/tenants_reloader.go:102-152 | in every run with at most one loader under way, re-statting or not, no step takes the cached time back |
| `Reloader.NeverBackIffAlone` | internal/auth/tls.go:132-164 | over all runs with at most n loaders under way, the cached time never goes back iff n is at most one |
| `Correlator.Correlator.constructor` | internal/incident/correlator.go:46-58 | empty buffer; a maximum of zero or less becomes 25 |
| `Correlator.Correlator.Add` | internal/incident/correlator.go:65-83 | appends to the open bucket, or arms a new timer and replaces a missing or full bucket, displacing the full one |
| `Correlator.Correlator.Flush` | internal/incident/correlator.go:103-116 | removes the key's bucket and hands over exactly its alerts |
| `Correlator.Correlator.RunCallback` | internal/incident/correlator.go:73 | a timer's callback flushes whatever bucket its key has by then, even a replacement |
| `Correlator.Correlator.CollectKeys` | internal/incident/correlator.go:89-97 | the locked half of Drain: every mapped key joins the list once, the buckets stay |
| `Correlator.Correlator.FlushCollected` | internal/incident/correlator.go:98-100 | one iteration of Drain's second loop |
| `Correlator.Correlator.Drain` | internal/incident/correlator.go:88-101 | with nobody else around: every buffered group is handed over and the map is empty |
| `Correlator.StepKeepsOrder` | internal/incident/correlator.go:65-116 | every step keeps: for each key, removed groups followed by buffered alerts are its arrivals in order, and every group has 1 to maxGroup alerts of one key |
| `Correlator.StepKeepsOwed` | internal/incident/correlator.go:68-110 | every step keeps: each mapped key has an armed timer, a started callback or an entry in Drain's list, overflow and racing Adds included |
| `Correlator.RunKeeps` | internal/incident/correlator.go:65-116 | both invariants hold after every interleaving |
| `Correlator.Conservation` | internal/incident/correlator.go:65-116 | added = flushed + displaced + buffered as multisets after every interleaving |
| `Correlator.LossIsOverflow` | internal/incident/correlator.go:70-73 | displaced alerts number exactly maxGroup per Add that met a full bucket; none are lost iff no Add did |
| `Correlator.QuietStepPays` | internal/incident/correlator.go:88-116 | each timer, callback or drain step discharges exactly one owed step and displaces nothing |
| `Correlator.NeverStuck` | internal/incident/correlator.go:88-116 | while anything is owed some such step is enabled |
| `Correlator.EverythingFlushed` | internal/incident/correlator.go:88-116 | once Adds stop, every schedule ends after exactly the owed steps with an empty map and nothing displaced |
| `Correlator.CollectMeaning` | internal/incident/correlator.go:89-97 | exactly the mapped buckets' timers are stopped and each mapped key is collected once |
| `Correlator.DrainEmpties` | internal/incident/correlator.go:88-101 | in every interleaving, once all collected keys are flushed only groups that got an alert after the collecting are still buffered, whatever timers do |
| `Correlator.DrainEmptiesAll` | internal/incident/correlator.go:88-101 | so without such an alert the map is empty when Drain returns |
| `Correlator.StoppedForGood` | internal/incident/correlator.go:91-94 | a timer Drain stopped is never again enabled to fire, in any continuation |
| `Correlator.JoiningKeepsTimer` | internal/incident/correlator.go:69-75 | joining an open bucket neither arms nor moves a timer, so the window runs from the first alert |
| `Correlator.DisplacedTimerFlushesReplacement` | internal/incident/correlator.go:70-73 | after an overflow the old timer flushes the replacement before its own timer |
| `Correlator.GroupKeyIdentifiesIff` | internal/incident/correlator.go:121-126 | group keys tell the alerts of two clusters apart by cluster and node or namespace iff neither cluster id goes on like a key of the other |
| `Correlator.SeverityOrder` | internal/incident/correlator.go:143-154 | critical above warning above info above anything else |
| `Correlator.Representative` | internal/incident/correlator.go:130-154 | the first of the highest-ranked alerts, none for an empty group |
| `Limiter.NewConfig` | internal/llmlimit/llmlimit.go:40-55 | unlimited iff rate or concurrency is not positive; otherwise those two as given and the burst as given or equal to the rate |
| `Limiter.Limiter.Acquire` | internal/llmlimit/llmlimit.go:65-94 | slot first, then capped refill and one token; a refusal for tokens gives the slot back |
| `Limiter.Limiter.Release` | internal/llmlimit/llmlimit.go:99-107 | returns one slot and never goes below zero |
| `Limiter.DrawRefines` | internal/llmlimit/llmlimit.go:78-93 | the lazy refill is the continuous bucket: a refusal changes no later level, a grant takes exactly one token |
| `Limiter.RateBound` | internal/llmlimit/llmlimit.go:78-93 | grants over any draws are at most burst plus rate times elapsed time |
| `Limiter.GrantedIffAffordable` | internal/llmlimit/llmlimit.go:65-94 | in every run from a new limiter a call is granted iff a slot is free and one more grant keeps every stretch of the run ending with it within burst plus refill |
| `Limiter.InUseCounts` | internal/llmlimit/llmlimit.go:70-107 | slots in use are grants minus releases |
| `Limiter.SpikeGranted` | internal/llmlimit/llmlimit.go:65-94 | of n calls at one instant on a new limiter exactly min(n, burst, slots) are granted |
| `Limiter.RefusedCallInvisible` | internal/llmlimit/llmlimit.go:65-107 | deleting any refused Acquire from any run changes no other outcome |
| `Limiter.Pool.Open` | internal/llmlimit/llmlimit.go:163-172 | the cluster's limiter, made full on first use, no other touched |
| `Limiter.Pool.Acquire` | internal/llmlimit/llmlimit.go:146-152 | acts on that cluster's limiter alone |
| `Limiter.Pool.Release` | internal/llmlimit/llmlimit.go:155-161 | acts on that cluster's limiter alone |
| `Limiter.ClustersIsolated` | internal/llmlimit/llmlimit.go:146-172 | however calls interleave, each cluster is answered as by a lone limiter fed only its calls, whenever that was made |
| `Limiter.MoveKeepsSlots` | internal/llmlimit/llmlimit.go:70-107 | every concurrent step keeps: occupied slots = callers inside Acquire plus grants held, at most the ceiling, and 0 <= tokens <= burst |
| `Limiter.MovesAreAcquire` | internal/llmlimit/llmlimit.go:65-94 | the steps of an undisturbed caller are one call of Acquire, grant and refusal alike |
| `Limiter.ReturnNeverBlocks` | internal/llmlimit/llmlimit.go:85-90 | the receive that gives a slot back never waits |
| `Limiter.ConcurrentBounds` | internal/llmlimit/llmlimit.go:65-107 | from any accounted state, every schedule obeys slot accounting and the rate bound |
| `Limiter.EveryInterval` | internal/llmlimit/llmlimit.go:65-107 | every stretch of every interleaving from a new limiter obeys rate and concurrency ceilings |
| `Evaluator.InEnum` | internal/evaluator/schema.go:133-140 | membership |
| `Evaluator.ValidateAnalysis` | internal/evaluator/schema.go:111-131 | the first flaw in the code's order, and none iff the analysis conforms |
| `Evaluator.FirstFlawMeaning` | internal/evaluator/schema.go:111-131 | which of the six flaws is reported, and exactly when |
| `Evaluator.DecodeAndValidate` | internal/evaluator/schema.go:97-106 | only conforming analyses get through |
| `Evaluator.VerdictIff` | internal/evaluator/analyzer.go:259-277 | an answer counts as an analysis iff it decodes to it and it conforms, and as a failed call iff there was none |
| `Evaluator.Run` | internal/evaluator/analyzer.go:242-307 | for every provider: a conforming analysis or an error after at most maxRetries+1 calls, going on exactly while answers are repairable; every retry is the original prompt with the correction for the previous flaw alone; validation failures = retries + degraded, exactly one call result |
| `Evaluator.Attempts` | internal/evaluator/analyzer.go:256-306 | the loop itself: the same bounds, prompts and counters for any sequence of verdicts on the answers |
| `Evaluator.OpenAiProvider.Downgrade` | internal/evaluator/openai.go:98-107 | idempotent, and only under auto |
| `Evaluator.OpenAiProvider.Structured` | internal/evaluator/openai.go:84-88 | reports true exactly while the next request will be in schema mode |
| `Evaluator.OpenAiProvider.Complete` | internal/evaluator/openai.go:169-202 | the retry loop with cancellation and downgrade, against its specification |
| `Evaluator.CompleteMeaning` | internal/evaluator/openai.go:169-202 | for any endpoint and cancellation: requests go on after errors only and never after a cancellation, the answer is the first content, failure means three errors or a cancellation, a downgrade happens iff an auto provider's schema was refused, and each request's mode follows from that |
| `Evaluator.CompleteBounded` | internal/evaluator/openai.go:109-202 | at most three requests, modes stay consistent, a downgrade is never undone |
| `Evaluator.CallsBounded` | internal/evaluator/openai.go:109-202 | after n calls at most 3n requests, and under auto no schema request after a json-object one |
| `Evaluator.Evaluate` | internal/evaluator/analyzer.go:228-307 | loop and provider composed: a conforming analysis or an error after at most 3·(maxRetries+1) requests with consistent modes |
| `Embedding.Sums` | internal/embed/embed.go:69-74 | one pass computes the inner product and both squared norms |
| `Embedding.CauchySchwarz` | internal/embed/embed.go:65-79 | squared inner product at most the product of squared norms, for vectors of any length |
| `Embedding.Cosine` | internal/embed/embed.go:65-79 | zero for unequal, empty or zero vectors, else the normalised inner product |
| `Embedding.SimilarityMeaning` | internal/embed/embed.go:65-79 | zero without two directions to compare, otherwise times both lengths it is the inner product |
| `Embedding.SimilarityBounded` | internal/embed/embed.go:65-79 | always within [-1, 1] |
| `Embedding.SelfSimilarity` | internal/embed/embed.go:65-79 | exactly 1 for a non-zero vector with itself |
| `Embedding.ScalingInvariant` | internal/embed/embed.go:65-79 | unchanged by positive scaling |
| `Embedding.Normalize` | internal/embed/embed.go:99-111 | the in-place loops leave the normalised vector, zero vectors alone |
| `Embedding.Embed` | internal/embed/embed.go:46-60 | the array holds the normalised signed bucket counts of the tokens |
| `Embedding.CountsMeaning` | internal/embed/embed.go:48-57 | each bucket holds the number of tokens that add minus the number that subtract |
| `Embedding.OrderIrrelevant` | internal/embed/embed.go:46-60 | token lists equal as multisets have equal embeddings |
| `Embedding.EmbeddedUnit` | internal/embed/embed.go:99-111 | a non-zero vector is normalised to length one |
| `Embedding.NormalizedSameDirection` | internal/embed/embed.go:99-111 | normalising multiplies by one positive factor |
| `LlmCache.BestScoreIsMaximum` | internal/llmcache/llmcache.go:130-142 | the best similarity is the maximum over listed entries (or zero) and is reached |
| `LlmCache.BestScoreUnordered` | internal/llmcache/llmcache.go:123-147 | it does not depend on the order of the list |
| `LlmCache.SemanticLookup` | internal/llmcache/llmcache.go:123-147 | hits iff the best score is positive and reaches the threshold, with the analysis of an entry that has it |
| `LlmCache.Cache.Get` | internal/llmcache/llmcache.go:61-96 | the exact layer first, then a best semantic entry iff one reaches the threshold, never when disabled |
| `LlmCache.Cache.Set` | internal/llmcache/llmcache.go:98-118 | writes the exact and, if enabled, the vector entry |
| `LlmCache.SameAlertHits` | internal/llmcache/llmcache.go:61-118 | whatever else happens to the store, a cached alert is an exact hit with its own analysis until the ttl is over |
| `LlmCache.OthersLeaveExactHit` | internal/llmcache/llmcache.go:98-158 | caching another alert changes an exact hit iff the digests of the two agree |
| `LlmCache.ExactHitEnds` | internal/llmcache/llmcache.go:98-118 | after the ttl there is no exact hit, swept or not, unless the alert was cached again |
| `LlmCache.SameSignatureHits` | internal/llmcache/llmcache.go:98-147 | likewise an alert with the same signature tokens in any order is a semantic hit for every threshold up to 1, if the embedding is not zero |
| `Gateway.GrpcAdmit` | internal/grpcsrv/interceptors.go:85-172 | revocation then replay: the code and the store effect, with no nonce burned for an inactive tenant |
| `Gateway.HttpAdmit` | internal/signedsrv/server.go:296-360 | after the signature, the HTTP status is the mapped gRPC code of the same request and the store effect is the same |
| `Gateway.AdmitMeaning` | internal/grpcsrv/interceptors.go:85-172 | exactly what leads to each code: Ok for an active tenant with a fresh timestamp and a good unused nonce, and so on for each refusal |
| `Gateway.StatusMeaning` | internal/signedsrv/server.go:343-360 | 200 iff admitted; client faults, replays, refused tenants and missing snapshots get 400, 401, 403 and 500 |
| `Gateway.FirstMeta` | internal/grpcsrv/interceptors.go:178-185 | the first value that is not blank, trimmed |
| `Gateway.SameFieldIff` | internal/signedsrv/server.go:210-211 | both transports read the same value iff the first one is filled or none is |
| `Gateway.StepsAreAdmission` | internal/grpcsrv/interceptors.go:85-172 | the two steps of the state machine admit and write exactly what one admission call does |
| `Gateway.ReachesPipelineIff` | internal/ingest/handler.go:59-99 | a request reaches the pipeline iff it is admitted, its body can be read and its payload carries the identity's cluster |
| `Gateway.StepKeeps` | internal/signedsrv/server.go:195-327 | every reload, lookup, replay check, handling and foreign store operation keeps the gateway invariant |
| `Gateway.RunKeeps` | internal/signedsrv/server.go:195-327 | so does every run |
| `Gateway.OnlyOwnFreshRequests` | internal/ingest/handler.go:59-99 | over all runs of both transports with reloads and any lag: whatever reaches the pipeline carries its identity's cluster and a tenant active in the snapshot read, requests sharing identity and nonce were claimed more than the ttl apart, and none share the timestamp too if the ttl covers two windows and the lag |
| `Gateway.OthersStayOut` | internal/config/config.go:276 | under the default prefix no other component's key lies in the nonce namespace |
| `Pipeline.Process` | internal/pipeline/pipeline.go:84-116 | dropped iff its own dedup key is live; resolved alerts never reach correlation; the buffer changes by exactly this alert, if at all |
| `Pipeline.EvaluateIncident` | internal/pipeline/pipeline.go:216-236 | the model is called iff the cluster's limiter grants it, and on every exit the pool is that of one taken and returned slot |
| `Pipeline.StepsAreEvaluation` | internal/pipeline/pipeline.go:193-236 | an evaluation left to itself is a find, a take and a give-back of the state machine below |
| `Pipeline.StepBalanced` | internal/pipeline/pipeline.go:193-236 | every find, take and give-back of any evaluation keeps: each cluster's slots in use are its evaluations under way, within the ceiling |
| `Pipeline.SlotsBalanced` | internal/pipeline/pipeline.go:193-236 | so it holds however evaluations of all clusters interleave, and no slot is in use when none is under way |
| `Pipeline.EvaluateAlert` | internal/pipeline/pipeline.go:187-212 | a cache hit calls nobody and leaves the pool alone, otherwise the limiter decides, a fresh analysis is cached, and the slot taken is back on every exit |
| `Pipeline.NextTimeFromCache` | internal/pipeline/pipeline.go:187-212 | an alert that got a fresh analysis is a cache hit until the ttl is over; a throttled or failed evaluation leaves nothing in the store |
| `Pipeline.NewClient` | internal/silence/alertmanager.go:35-53 | the allowlist is the trimmed non-blank names; an empty list allows all, a list of blanks none |
| `Pipeline.SilenceIff` | internal/silence/alertmanager.go:70-115 | posted iff asked for without low confidence, silencing is on, the severity does not fold to critical and the name is allowed; and for the alert's own name and namespace |
| `Pipeline.NeverSilencesCritical` | internal/silence/alertmanager.go:70-99 | a silence posted for a group's representative means no member is "critical" and confidence is not low |
| `Pipeline.ProcessIncident` | internal/pipeline/pipeline.go:137-264 | one analysis per group: the verdict iff the representative's cluster is granted the call, or for a group of one the cache's answer; the representative decides, no group with a "critical" member is silenced, slots are balanced |
| `Pipeline.GroupSilencedIff` | internal/pipeline/pipeline.go:238-264 | with everything else permitting, the silence of a group is refused iff some member is "critical", or the first member is another spelling of it and no member has a rank |
| `Pipeline.CapitalCriticalSilenced` | internal/incident/correlator.go:143-154 | a warning next to "Critical" gets the group silenced |

## Left out

- Generated protobuf code, command wiring, Helm charts and scripts.
- Notification formatting, receivers and routing: a first-match loop and delivery, only easy members.
- The Anthropic client, HTTP bodies, preflight and audit logging; one request is an arbitrary outcome.
- The Redis store: the in-process store stands for both. Store errors occur only in the deduplicator, which handles them; elsewhere the in-process store has none.
- x509, PEM, ECDSA, HPKE and AES-GCM internals, CSR parsing, certificate trust, key-type checks, Content-Digest, HPKE key files, sealed responses, and which texts x509 can encode.
- YAML, configuration, logging and metrics, except the counters of the retry loop.
- Feedback, history and alert keys: thin store users of which only the key prefixes matter here.
- Certificate serials and expiry copied into identities; token usage counts; the signature text and its tokenisation, whose tokens are inputs.
- Duration and comment of a posted silence, and delivery to Alertmanager.
- Several calls of one provider at the same time: calls follow one another.
- Whether and when a timer fires: any armed timer may fire at any step, so the debounce window bounds nothing here.
- Embedding.Cosine: exact arithmetic, so the rounding of float32 and float64 is not captured.
- Limiter.Limiter.Acquire: exact arithmetic, so the rounding of float64 tokens is not captured.
