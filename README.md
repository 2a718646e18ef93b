# Webhook certificate reconciliation (cert-gen), modelled in Dafny

cert-gen is a one-shot job. It makes sure the API gateway's conversion webhook has a TLS secret
(`tls.crt`, `tls.key`) that will still verify ten days from now, and that the
`apirules.gateway.kyma-project.io` CustomResourceDefinition trusts that certificate as the CA
bundle of its conversion webhook. On each run it reads the secret:

- a read error other than not-found aborts the run;
- a missing secret is created from a freshly generated self-signed pair, then the CRD is patched;
- an invalid secret has its whole data map replaced by a fresh pair and is updated, then the CRD is patched;
- a valid secret is left alone, and the CRD is not touched either.

The model has three modules.

- `Kube` (kube.dfy) holds the Kubernetes objects the job touches, as datatypes: Secret, and the
  CRD down to `spec.conversion.webhook.clientConfig.caBundle`, with every Go pointer as an
  `Option`. It also holds an in-memory API server, the class `Cluster`. The class stores the
  secrets by namespace and name, plus the one CRD. It keeps a log of every write issued to it,
  accepted or not. It rejects the kinds of call named in its fault plan (`rejects`), which
  stands for every failure of the real server. The server's answers are also given as pure
  functions (`ReadSecret`, `CreateSecretIn`, ...), and the class's methods are proved against them.
- `Certificates` (certificates.dfy) holds the pure logic of certificates/certificates.go:
  the DNS identities, the validity of a stored secret, the CRD precondition, the secret and CRD
  records, and one step function per reconciliation function (`Patch`, `CreateStep`,
  `RotateStep`, `EnsureStep`). Each step function gives the server's new contents, the writes
  issued and the error. Their contracts and lemmas state the job's promises.
- `Reconcile` (reconcile.dfy) holds the job as it runs. Each function of certificates.go
  that calls the client is a method taking the `Cluster`. It issues the same calls in the same
  order, and is proved to leave the server, the log and its error exactly as the matching step
  function says.

The X.509 and RSA library calls are the four fields of the datatype `Crypto`:

- `certVerifies`: parse the PEM certificates and verify the first against the bundle itself,
  ten days from now;
- `pemDecode`: Go's `pem.Decode`, with `None` for its nil block;
- `pkcs1Valid`: parse a PKCS#1 key and run its consistency check;
- `generate`: generate a self-signed pair for a Common Name and DNS alt names, or fail.

Every proof holds for all four. The clock is inside `certVerifies`: one `Crypto` value is one run's
view of the world, and a sequence of runs (`Runs`) takes one `Crypto` per run, so the clock may
move between runs.

## Model

| member | source | states |
|---|---|---|
| `Certificates.JoinPair` | certificates/certificates.go:233-234 | joining two strings with `strings.Join` puts the separator between them |
| `Certificates.ServiceAltNames` | certificates/certificates.go:232-243 | exactly four names: `s.ns.svc`, `s`, `s.ns` and `s.ns.svc.cluster.local`, in that order; each is built from the one before it, and the four are pairwise distinct for every service name and namespace |
| `Certificates.WebhookCertRequest` | certificates/certificates.go:227-230 | the certificate is requested with the first alt name (`s.ns.svc`) as Common Name and all four names as DNS alt names |
| `Certificates.GenerateWebhookCertificates` | certificates/certificates.go:194-201 | the pair (or the failure) is the generator's answer for Common Name `serviceName.namespace.svc` and the four alt names of that service in that namespace, so the swapped argument order of `createCABundle`, `createCert` and `buildCert` reaches `generateWebhookCertificates` the right way round |
| `Certificates.VerifyKeyAsWritten` | certificates/certificates.go:170-180 | as written: the key check panics exactly when the bytes hold no PEM block; otherwise it accepts exactly the keys that parse as PKCS#1 and validate |
| `Certificates.VerifyKey` | certificates/certificates.go:170-180 | corrected: the key check never panics; it returns no error exactly when the bytes hold a PEM block whose key parses and validates, and `KeyInvalid` otherwise |
| `Certificates.IsValidSecretAsWritten` | certificates/certificates.go:138-150 | as written: the secret is valid exactly when both keys are present and both checks pass; it panics exactly when both keys are present, the certificate passes and the key bytes hold no PEM block, so a PEM key that fails to parse or validate is invalid, not a panic |
| `Certificates.NonPemKeyPanics` | certificates/certificates.go:170-172 | a secret whose certificate verifies and whose key has no PEM block (for example an empty `tls.key`) makes the check as written panic, while the corrected check calls it invalid |
| `Certificates.BuildSecret` | certificates/certificates.go:245-256 | the record has the given name and namespace, no other metadata, and a data map with exactly the keys `tls.crt` and `tls.key`, holding the given certificate and key |
| `Certificates.ContainsConversionWebhookClientConfig` | certificates/certificates.go:114-127 | `(true, "")` exactly when conversion, webhook and client config are all present; otherwise `false` with the message for the first missing one, checked in the order conversion, webhook, client config |
| `Certificates.WithCaBundle` | certificates/certificates.go:69 | the patched CRD is still injectable, has the given CA bundle and the same metadata |
| `Certificates.WithCaBundleRestores` | certificates/certificates.go:69 | setting the bundle back to its old value gives back the original CRD, so nothing but the CA bundle changes |
| `Certificates.Patch` | certificates/certificates.go:58-75 | secrets are untouched, and any failure leaves the server as it was; a failed CRD read, or a CRD failing the precondition (with that precondition's message), issues no update; an injectable CRD is sent back exactly once, as itself with only its CA bundle set to the supplied bytes, and that update fails exactly when the server refuses it; on success the stored CRD differs from the old one only in its CA bundle |
| `Certificates.CreateStep` | certificates/certificates.go:95-112 | a failed generation writes nothing; otherwise the first write is one create of exactly `BuildSecret(name, namespace, cert, key)`; a refused create, or one for a secret that already exists, is the only write, changes nothing and reports that failure; an accepted create is followed by exactly the writes, the server and the error of `Patch` on the server holding the new secret, with the new certificate as CA bundle |
| `Certificates.RotateStep` | certificates/certificates.go:203-225 | a valid secret gives no write and no error; otherwise a failed generation writes nothing, and a successful one gives one update of the same secret (same metadata) with its data map replaced by exactly the two fresh keys, so extra keys are dropped; a refused update is the only write and changes nothing; an accepted update is followed by exactly the writes, the server and the error of `Patch` on the server holding the updated secret, with the new certificate as CA bundle |
| `Certificates.EnsureStep` | certificates/certificates.go:77-93 | a read error other than not-found aborts with no write and no change; a valid secret gives no write, no change and no error; otherwise one create (not found) or one update of the found secret (same metadata); a refused secret write is the only write and changes nothing; a run that got past its secret write (no error or a CRD error) has issued exactly the writes, and ends with the server and the error, of `Patch` on the server holding that secret, with its `tls.crt` bytes as CA bundle; only the webhook's secret changes and no secret is deleted |
| `Certificates.FreshPairWritten` | certificates/certificates.go:77-112 | when the secret is missing or invalid, a failed generation stops the run with no write; otherwise the first write is the create of `BuildSecret(name, namespace, cert, key)` (not found), or the update of the found secret with its data map replaced by exactly `tls.crt` and `tls.key` of the fresh pair (found); if the server refuses that write the run stops there with that failure and no change, and if it accepts it the rest of the run is exactly `Patch` of the fresh certificate on the server holding the new secret |
| `Certificates.SuccessfulRunTrustsSecret` | certificates/certificates.go:77-93 | a run that wrote the secret and then succeeded leaves that secret stored and the CRD's CA bundle equal to its `tls.crt` bytes |
| `Certificates.StoredSecretValid` | certificates/certificates.go:77-93 | once a run has the secret in place (its CRD patch may have failed), the stored secret passes the checks, provided freshly generated material does |
| `Certificates.ReconcileIdempotent` | certificates/certificates.go:203-207 | running again right after a run that put the secret in place (the patch may have failed), at the same clock reading, issues no write and succeeds, provided freshly generated material passes the checks |
| `Certificates.Runs` | certificates/certificates.go:77-93 | one run per entry of a sequence of oracles (so each run has its own clock), against the same server, in order: every stored secret stays under its own namespace and name, no secret is deleted, secrets other than the webhook's are untouched, and a sequence of runs that writes nothing leaves the server as it was |
| `Certificates.StableOnceValid` | certificates/certificates.go:203-207 | while a stored, readable secret still passes the checks at each run's clock, any number of runs issue no write, change nothing and succeed, so a CRD whose CA bundle was changed by someone else is not repaired before the certificate itself has to be replaced |
| `Certificates.RunsSettle` | certificates/certificates.go:77-93 | after a run that put the secret in place (its CRD patch may have failed) and whose freshly generated material passes the checks, the later runs add no write and no change for as long as the stored secret still passes the checks at their clocks |
| `Certificates.SingleRun` | certificates/certificates.go:77-93 | a sequence of one run is exactly that run |
| `Certificates.SkipQuietRun` | certificates/certificates.go:203-207 | a run at whose clock the stored, readable secret still passes the checks can be dropped from a sequence without changing its outcome |
| `Certificates.QuietUntilLastRun` | certificates/certificates.go:203-207 | while the stored secret passes the checks at the clocks of all runs but the last, the sequence amounts to its last run alone |
| `Certificates.RotatedOnceExpired` | certificates/certificates.go:203-224 | the first run at whose clock the stored secret no longer passes the checks (for instance because its certificate expires within ten days) is the one that replaces it: the sequence's first write is the update of that secret to the fresh pair |
| `Certificates.CorruptedKeyIsRotated` | certificates/certificates.go:203-224 | a stored secret whose certificate verifies but whose key has no PEM block gets one update that replaces its data with the fresh pair; if the server refuses it the run stops there, otherwise the update is followed by exactly the CRD patch of the fresh certificate |
| `Reconcile.HasRequiredKeys` | certificates/certificates.go:182-192 | true exactly when the data map is non-nil and holds both `tls.crt` and `tls.key`; values are not inspected, so empty byte strings count as present |
| `Reconcile.IsValidSecret` | certificates/certificates.go:138-150 | valid exactly when both keys are present and both checks pass; a missing key gives false with no error; a failing certificate gives `CertificateInvalid`; a failing key after a passing certificate gives `KeyInvalid` |
| `Reconcile.AddCertToConversionWebhook` | certificates/certificates.go:58-75 | the server, the write log and the error afterwards are those of `Patch` |
| `Reconcile.CreateSecret` | certificates/certificates.go:95-112 | the server, the write log and the error afterwards are those of `CreateStep` |
| `Reconcile.UpdateSecret` | certificates/certificates.go:203-225 | the server, the write log and the error afterwards are those of `RotateStep` |
| `Reconcile.EnsureWebhookCertificate` | certificates/certificates.go:77-93 | the server, the write log and the error afterwards are those of `EnsureStep` |
| `Reconcile.EnsureTwice` | certificates/certificates.go:77-93 | two runs in a row against the same server, at the same clock reading: when the first put the secret in place, the second succeeds and adds nothing to the write log |

## Findings

| source | as written | input that shows it | evidently intended | confidence | as-written member | corrected member |
|---|---|---|---|---|---|---|
| certificates/certificates.go:170-172 | `verifyKey` reads `b.Bytes` from `pem.Decode`'s result without checking it for nil, so key bytes with no PEM block make the job panic | a stored secret whose `tls.crt` verifies and whose `tls.key` is empty (or any non-PEM bytes) | the key is reported invalid and the secret is rotated, like any other key that fails to parse | high (not executed) | `Certificates.NonPemKeyPanics` | `Certificates.CorruptedKeyIsRotated` |

The reconciliation methods use the corrected check (`VerifyKey`, `Reconcile.IsValidSecret`).
The as-written check (`VerifyKeyAsWritten`, `IsValidSecretAsWritten`) is kept beside it to show
the difference.

## Left out

- `SetupCertificates` (certificates/certificates.go:33-48) is not modelled. It builds the client,
  registers the apiextensions scheme and formats the outcome as a string. The fixed secret,
  namespace and service names are kept as constants in `Certificates`.
- `createCABundle`, `createCert` and `buildCert` only wrap `generateWebhookCertificates`'s error.
  They are all `GenerateWebhookCertificates`.
- Error messages: only the error kind is modelled, plus the three precondition messages. The
  context strings are left out. So is the fact that `createSecret` returns the patch error
  unwrapped while `updateSecret` wraps it.
- Certificate parsing, verification at ten days from now, key parsing and validation, and key
  generation are the `Crypto` oracles. Generation is a function, so within one run it always
  gives the same pair. The real generator gives a fresh pair on every call, but a run calls it at
  most once. `ReconcileIdempotent` and `EnsureTwice` take, as a premise, that generated material
  passes the checks.
- `fmt.Sprintf` in `serviceAltNames` is written as string concatenation.
- `updateSecret` assigns the fetched secret's `Data` in place (line 216), and
  `addCertToConversionWebhook` sets the fetched CRD's CA bundle in place (line 69). Both objects
  are local copies that the caller never reads again. The model therefore builds the new
  secret and the new CRD as values.
- API-server semantics: resource versions, optimistic-concurrency conflicts, and server-set
  metadata such as uid and timestamps. Object metadata is kept to name, namespace and labels,
  and the Secret's `type` field is not modelled. Every failure of a call is a fault-plan entry
  that makes that kind of call fail.
- Two copies of the job running at once are not modelled.
- Reconcile.IsValidSecret: the checks are pure functions here, so whether a check was run is not
  observable. The contract states which error each case gives. The order of the checks shows up
  only through the panic of the key check as written (`IsValidSecretAsWritten`).
- Certificates.RotateStep: uses the corrected key check, so a secret whose `tls.crt` verifies and
  whose `tls.key` holds no PEM block is rotated, where the program panics
  (certificates/certificates.go:171-172).
- Certificates.EnsureStep: the same corrected key check, with the same difference from the program.
- Reconcile.UpdateSecret: the same corrected key check (through `Reconcile.IsValidSecret`).
- Reconcile.EnsureWebhookCertificate: the same corrected key check (through `Reconcile.UpdateSecret`).
- Certificates.ReconcileIdempotent: gives both runs the same oracles, that is the same clock
  reading. Runs at different clocks are covered by `Runs`, `StableOnceValid`, `RunsSettle` and
  `RotatedOnceExpired`, which take one `Crypto` per run.
- Reconcile.EnsureTwice: gives both runs the same oracles too, for the same reason.
- Certificates.Runs: every run of a sequence shares one fault plan, so a call kind that one run
  makes fail fails in every run, and one that succeeds succeeds in every run. A refused read in a
  later run only (which the job reports as a failure to get the webhook secret) is not modelled.
- Certificates.ReconcileIdempotent: both runs share one fault plan, so its "succeeds" does not
  cover a second run whose read is refused although the first run's read was not.
- Certificates.RunsSettle: the later runs share the first run's fault plan, with the same
  consequence.
- Reconcile.EnsureTwice: both runs go to one `Cluster`, whose fault plan is fixed, with the same
  consequence.
