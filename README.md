# windows-gmsa admission webhook — a Dafny model

This project models the core of the Kubernetes admission webhook that handles
Windows group-managed service account (GMSA) credential specs on pods:

- **Validation on create.** For the pod and for each of its containers, every
  `windowsOptions` block may name a GMSA credential spec. It may also carry
  that spec's JSON contents. The pod's service account must be authorized to
  `use` each named spec. Any contents that are given must be structurally equal
  to the ones stored in the `GMSACredentialSpec` custom resource. Contents
  without a name are refused.
- **Mutation on create.** Every block that names a spec but has no contents gets
  them inlined. This is done with a JSON Patch `add` operation on
  `.../securityContext/windowsOptions/gmsaCredentialSpec`.
- **Validation on update.** A block present in the updated pod cannot change
  its name or contents. Blocks that the update removes are not compared.
  Containers are matched with the old pod's containers by name.
- **The admission response.** The code builds the response, turns errors into
  denied responses with an HTTP status code, and copies the request UID into
  the response.
- **The Kubernetes client.** The model covers how the client maps outcomes. A
  subject access review result becomes `(authorized, reason)`. The result of
  fetching the custom resource becomes `(contents, code, error)`. Not-found
  errors are detected by a suffix test.
- **The certificate reloader.** This is an object holding the TLS certificate
  and key paths and the current certificate. Reloading replaces the
  certificate only when the load succeeds. The callback given to the TLS
  server always serves the certificate loaded most recently.

## Module layout

- `wrappers.dfy` (`Wrappers`): `Option` and `Result`.
- `go_format.dfy` (`GoFormat`): the Go formatting the messages depend on.
  - `%q` quoting (ASCII) and `%d` decimals, with a parser and its round-trip.
  - `strings.Join` and `strings.HasSuffix`.
  - `fmt.Errorf` applied to a format string without operands.
- `pods.dfy` (`Pods`): the pod and container shapes the webhook reads. Also
  the order in which `windowsOptions` blocks are visited.
- `iteration.dfy` (`Iteration`):
  - `Walk`, the fold that specifies `iterateOverWindowsSecurityOptions`;
  - the fail-fast characterisation `FirstError`;
  - the imperative loop itself.
- `json.dfy` (`Json`): JSON values and the parser interface.
- `types.dfy` (`KubeClientInterface`): the two-operation client interface.
- `json_patch.dfy` (`JsonPatch`): patch paths, their parser, and `add`
  application. Paths follow RFC 6901; `add` follows section 4.1 of RFC 6902.
- `admission.dfy` (`Admission`): admission errors and responses,
  `deniedAdmissionResponse`, and the `int32` conversion of the status code.
- `webhook.dfy` (`Webhook`): the three request handlers, the dispatcher, and the
  outer response shaping.
- `webhook_properties.dfy` (`WebhookProperties`): cross-handler properties.
  - Applying the mutation patch yields the inlined pod, and that pod then
    passes validation.
  - Mutation is idempotent.
  - Patch paths are distinct.
- `kube_client.dfy` (`KubeClientMapping`): the Kubernetes client's outcome
  mapping.
- `cert_reloader.dfy` (`CertReloading`): the `CertReloader` class.

Everything outside the model is a function-typed parameter:

- the Kubernetes API calls;
- the JSON parser and the pod decoder;
- the X.509 key-pair loader;
- the JSON marshaller.

A Go pointer that can be `nil` is an `Option`. Go's `*podAdmissionError` return
value is a `Result` or an `Option`. Closures that mutate captured variables
become callbacks that take and return an explicit state `S`:

- the validation closure uses no state;
- the mutation closure uses its list of patches;
- the update closure uses the lazily built map of the old pod's containers.

## Model

| member | source | states |
|---|---|---|
| Iteration.IterateOverWindowsSecurityOptions | admission-webhook/webhook.go:433-449 | The loop's result is the fold of the callback over the pod's options block, when present, then the blocks of the containers that have one, in order. It stops at the first error. |
| Iteration.FirstError | admission-webhook/webhook.go:432-446 | There is no error iff every visited block passes the callback. Otherwise the error returned belongs to the first visit that fails, and every earlier visit passes. |
| Iteration.WalkLift | admission-webhook/webhook.go:433-449 | Iterating a stateless callback gives exactly `FirstError` over the visits. |
| Iteration.WalkAppend | admission-webhook/webhook.go:440-446 | Walking two visit lists in turn equals walking their concatenation, and an error stops the rest. |
| Pods.VisitsStartWithPod | admission-webhook/webhook.go:434-438 | When the pod has an options block, it is visited first, with kind pod, the pod's name and index -1. |
| Pods.VisitIsContainer | admission-webhook/webhook.go:440-445 | Every other visit is a container that has options, and carries that container's name, options and index. |
| Pods.VisitsIncreasing | admission-webhook/webhook.go:440 | Container visits come in strictly increasing container-index order. |
| Pods.VisitsComplete | admission-webhook/webhook.go:441 | Every container that has an options block is visited. |
| Webhook.EqualStringPointers | admission-webhook/webhook.go:417-425 | Two optional strings are equal iff both are absent, or both are present and hold the same string. |
| Webhook.CompareCredSpecContents | admission-webhook/webhook.go:292-313 | Identical strings are equal with no error. An error occurs iff one side does not parse. The resource side is parsed and reported first, and the CRD side second, each with its own message. Otherwise the verdict is structural equality of the parsed objects. |
| Webhook.CompareIsEquivalence | admission-webhook/webhook.go:291-313 | Whatever the parser, the comparison is reflexive, symmetric and transitive. |
| Webhook.NotAuthorizedMessageReason | admission-webhook/webhook.go:258-261 | The not-authorized message ends with `, reason: "<reason>"` iff the reason is non-empty. |
| Webhook.MismatchMessageCarriesCompareError | admission-webhook/webhook.go:270-273 | When the comparison fails with an error, the 422 message ends with `": "` followed by that error. |
| Webhook.ValidateCreateOptions | admission-webhook/webhook.go:254-283 | The rule table for one options block. Contents without a name give 422. An unauthorized service account gives 403 with the authorizer's reason. A named block without contents passes. A store error propagates with the store's own code. Otherwise the block passes iff the contents match. A mismatch gives 422 with the standard message. Every error carries the pod. |
| Webhook.AuthorizationBeforeContents | admission-webhook/webhook.go:255-268 | When authorization is refused, the store and the parser are never consulted, and the error is 403. |
| Webhook.NoRetrievalWithoutContents | admission-webhook/webhook.go:266 | For a block without contents, the result is the same whatever the store would answer: it is never consulted. |
| Webhook.ValidateCreate | admission-webhook/webhook.go:253-289 | The request is allowed iff every visited block passes. When allowed, the response is the plain allowed response. When refused, the error is that of the first failing block. |
| Webhook.ValidateCreateRequest | admission-webhook/webhook.go:253-289 | The method, which drives the imperative loop, computes `ValidateCreate`. |
| Webhook.NeedingInlining | admission-webhook/webhook.go:320-323 | Every listed visit names a spec and carries no contents, and every such visit is listed. |
| Webhook.InliningPatchesMatch | admission-webhook/webhook.go:324-341 | There is one patch per block needing inlining. The i-th patch is an `add` at that block's path, with the stored contents as its value. |
| Webhook.WalkMutate | admission-webhook/webhook.go:319-348 | The mutation walk either fails with the first retrieval error among the blocks needing inlining, or returns the accumulated patches followed by the inlining patches. |
| Webhook.MutateStep | admission-webhook/webhook.go:319-346 | A visit that does not need inlining leaves the patch list unchanged. For one that does, the callback fails iff the retrieval fails, with the store's error and code and the pod. Otherwise it appends exactly one `add` of the stored contents at that visit's path. |
| Webhook.MutateCreate | admission-webhook/webhook.go:316-364 | Fails iff some block needing inlining has a failed retrieval. The error is the first such block's, carrying the store's message, code and the pod. On success the response is allowed with no status and an empty UID. It has a patch iff some block needs inlining. Without a patch it is the plain allowed response, with no patch type. With a patch, the patch type is JSONPatch and nothing else is set. The patch is made of one `add` per such block, in order, carrying the stored contents. |
| Webhook.PatchResponse | admission-webhook/webhook.go:350-363 | The response is always allowed. No patches gives the plain allowed response. Otherwise the response carries the patches with type JSONPatch. |
| Webhook.MutateCreateRequest | admission-webhook/webhook.go:316-364 | Computes `MutateCreate`. It fails iff some block needing inlining has a failing retrieval. Any response it returns is allowed. |
| Webhook.MutationIgnoresAuthorization | admission-webhook/webhook.go:316-348 | Mutation does not depend on the authorizer. |
| Webhook.ModifiedFieldNames | admission-webhook/webhook.go:396-402 | `"name"` is listed iff the names differ, and `"contents"` is listed iff the contents differ. The list is empty iff the blocks are equal. Joined with " and ", it is one of the three phrases the message uses. |
| Webhook.UpdateViolation | admission-webhook/webhook.go:392-407 | A block violates the rule iff it differs from its old counterpart, where a missing old block counts as empty. A violation gives 403 carrying the pod. Its message is `cannot update an existing pod's GMSA settings (GMSA <fields> modified on <kind> "<name>")`, with the modified fields joined by " and ". |
| Webhook.RecordContainerOptions | admission-webhook/webhook.go:381-386 | The inner callback never fails. It records a container's options under its name, overwriting an earlier entry, and ignores the pod-level options. |
| Webhook.UpdateStep | admission-webhook/webhook.go:370-410 | A pod-level block fails iff it differs from the old pod's, and keeps the cache. While the cache is unset or holds the old pod's container map, every block fails iff it differs from its old counterpart. The error is that block's violation, and a container's success leaves the old pod's map in the cache. Every failure is a 403 carrying the pod. |
| Webhook.UpdateVisit | admission-webhook/webhook.go:370-410 | One call of the update callback. A pod-level block fails iff it differs from the old pod's, and leaves the cache unchanged. A container's call leaves the cache filled with the old pod's map, built at the first container and kept afterwards. While the cache is unset or holds that map, the call fails iff the block differs from its old counterpart, with that block's violation. Every failure is a 403 carrying the pod. |
| Webhook.OldContainerOptionsLookup | admission-webhook/webhook.go:379-389 | The lazily built map holds the options of the last old container with that name that has options. It has no entry iff no such container exists. |
| Webhook.WalkUpdate | admission-webhook/webhook.go:370-412 | Starting with or without the cache gives the same result as checking each visit against its old counterpart. |
| Webhook.ValidateUpdate | admission-webhook/webhook.go:367-415 | The update is allowed iff every visited block equals its old counterpart. Otherwise the result is a 403 error. That error is the violation of the first visited block that differs, and every earlier block is unchanged. |
| Webhook.ValidateUpdateRequest | admission-webhook/webhook.go:367-415 | The method computes `ValidateUpdate`. |
| Webhook.UnmarshallPod | admission-webhook/webhook.go:241-248 | A decoding failure gives 400 with the prefixed decoder message and no pod. Success passes the pod through. |
| Webhook.ValidateOrMutateOutcome | admission-webhook/webhook.go:202-238 | Covers each branch. A non-Pod kind gives 400 naming the kind. An undecodable pod gives the decoder's error. CREATE is answered by `ValidateCreate` or `MutateCreate`. UPDATE is validated against the decoded old pod by `ValidateUpdate`, and mutation on update is allowed unchanged. Any other operation gives 400 carrying the pod. |
| Webhook.ValidateOrMutate | admission-webhook/webhook.go:202-238 | The method, which runs the imperative handlers, computes `ValidateOrMutateOutcome`. |
| Webhook.HandleAdmissionRequest | admission-webhook/webhook.go:189-198 | The response is `ToAdmissionResponse` of the dispatch outcome under the request's UID. A handler's success is returned with the UID. Any error becomes a denial with no patch, carrying the error's message and the int32 of its code. A wrong kind is refused with 400 and the kind message. Mutation on update is allowed. |
| Webhook.CreateErrorTextAsWritten | admission-webhook/webhook.go:262 | The text `fmt.Errorf(msg)` produces, as written. A message without `%` comes out unchanged. |
| Webhook.MismatchMessageMangled | admission-webhook/webhook.go:269-274 | See Findings. For the 422 mismatch message built from a pod whose contents end in `%` and do not parse, the text `fmt.Errorf(msg)` produces differs from `msg`. |
| Admission.Int32 | admission-webhook/webhook.go:478 | The converted code lies in the int32 range and is congruent to the code modulo 2^32. |
| Admission.Int32InRange | admission-webhook/webhook.go:478 | A code already in the int32 range is unchanged by the conversion. |
| Admission.DeniedCode | admission-webhook/webhook.go:454-466 | The explicit code when one is given. Otherwise the admission error's code for a `podAdmissionError`, and 0 for any other error. |
| Admission.DeniedAdmissionResponse | admission-webhook/webhook.go:453-481 | Not allowed, no patch, and a status is always set. Its message is the admission error's message, or the other error's text. Its code is the int32 of the explicit code when given, otherwise of the admission error's code, and 0 for any other error. |
| Admission.DeniedKeepsStatusCode | admission-webhook/webhook.go:457-466 | For HTTP-range codes, the explicit code wins over the error's own code, and the error's code is kept when no explicit code is given. |
| Admission.ToAdmissionResponse | admission-webhook/webhook.go:189-198 | The UID is copied. A success keeps the handler's response. An error becomes a denied response with no patch, carrying the error's message and the int32 of its code. That is the code itself for every code in the HTTP range. |
| JsonPatch.PatchPathRoundTrip | admission-webhook/webhook.go:329-339 | Parsing the generated patch path recovers the patched resource: the pod, or the container at that index. |
| JsonPatch.PatchPathInjective | admission-webhook/webhook.go:329-339 | Different resources get different patch paths. |
| JsonPatch.ApplyPatch | admission-webhook/webhook.go:334-341 | Applying an `add` keeps the pod's name, service account and container count. |
| WebhookProperties.ApplyInliningPatches | admission-webhook/webhook.go:334-341 | Applying the mutation's patches to the pod yields the pod with every named, content-less block inlined. |
| WebhookProperties.MutateThenValidate | admission-webhook/webhook.go:316-364 | If a pod passes validation and mutation succeeds, then the patch applies, and the mutated pod also passes validation. |
| WebhookProperties.MutateIdempotent | admission-webhook/webhook.go:320-345 | Mutating an already inlined pod produces no patch. |
| WebhookProperties.NoGmsaAllowed | admission-webhook/webhook.go:254-289 | A pod without any GMSA settings is allowed unchanged by both create endpoints. |
| WebhookProperties.PatchPathsDistinct | admission-webhook/webhook.go:329-341 | No two patches of one mutation target the same path. |
| WebhookProperties.MissingCredSpecRefusesMutation | admission-webhook/kube_client.go:101-105 | Wired to the cluster client, a mutation of a pod that names, without contents, a cred spec the cluster reports as not found is refused. The refusal is 404 with `cred spec <name> does not exist`, carrying the pod. |
| WebhookProperties.UnauthorizedServiceAccountRefused | admission-webhook/webhook.go:257-262 | Wired to the cluster client, validation of a pod whose service account the access review does not allow is refused. The refusal is 403, with the not-authorized message quoting the review's reason, carrying the pod. |
| WebhookProperties.RemovedBlockNotCompared | admission-webhook/webhook.go:369-372 | An update that drops a container's GMSA settings is allowed, because only the blocks of the updated pod are compared. |
| KubeClientMapping.AccessReviewFor | admission-webhook/kube_client.go:58-84 | The review's subject is the given service account. It asks whether that account may `use` the named resource in group `windows.k8s.io`, version `v1`, resource `gmsacredentialspecs`, in the namespace. |
| KubeClientMapping.IsAuthorizedToUseCredSpec | admission-webhook/kube_client.go:57-91 | A review error is unauthorized, with the prefixed error message. Otherwise the service account is authorized iff the review is allowed and not denied, with the review's reason. |
| KubeClientMapping.IsNotFoundErrorAsWritten | admission-webhook/kube_client.go:124-127 | See Findings. For a message at least as long as `not found`, the test holds iff the message ends with it. |
| KubeClientMapping.IsNotFoundError | admission-webhook/kube_client.go:121-127 | For any message, true iff it ends with `not found`. It agrees with the as-written test wherever that one is defined. |
| KubeClientMapping.RetrieveCredSpecContents | admission-webhook/kube_client.go:95-119 | A not-found error gives 404 with "does not exist". Other fetch errors give 500. An absent or empty `credspec` field gives 417. A marshalling failure gives 500. Success gives 200 with the marshalled field. An error occurs iff the code is not 200, and then the contents are empty. |
| KubeClientMapping.NullContentsAccepted | admission-webhook/kube_client.go:109-118 | A `credspec` holding JSON null is not treated as missing. |
| CertReloading.CertReloader.constructor | admission-webhook/cert_reloader.go:24-29 | The reloader keeps both paths and starts with no certificate. |
| CertReloading.CertReloader.CertPath | admission-webhook/cert_reloader.go:31-33 | Returns the certificate path given at construction. |
| CertReloading.CertReloader.KeyPath | admission-webhook/cert_reloader.go:35-37 | Returns the key path given at construction. |
| CertReloading.CertReloader.LoadCertificate | admission-webhook/cert_reloader.go:39-50 | A successful load installs and returns the new certificate. A failed load returns its error and leaves the current certificate untouched. |
| CertReloading.CertReloader.GetCertificateFunc | admission-webhook/cert_reloader.go:52-57 | The callback never fails. It reads only the reloader and answers with its current certificate. |
| CertReloading.ReloadTwice | admission-webhook/cert_reloader.go:40-57 | Both loads report no error. A callback obtained before any load serves nothing at first. It then serves the first loaded certificate, then the second. |
| CertReloading.FailedReloadKeepsCertificate | admission-webhook/cert_reloader.go:44-47 | After a good load, a failed reload returns its error while the callback still serves the good certificate. |
| GoFormat.DecimalRoundTrip | admission-webhook/webhook.go:331 | `%d` formatting of a container index parses back to the same number. |
| GoFormat.ErrorfPercentQuote | admission-webhook/webhook.go:262 | A `%"` inside a format with no operands is printed as `%!"(MISSING)`. |

## Left out

- The HTTP shell (`ServeHTTP`, server start and stop, the keep-alive listener,
  body reading and content-type checks, JSON writing): it is transport, not
  admission logic. The model starts at the parsed admission request.
- The admission-review envelope errors (an unparseable body, a missing
  `Request`): they belong to the HTTP shell. Only their common tail, the UID
  copy and the error-to-response conversion, is modelled.
- `watchCertFiles` and the reloader's mutex: the file watcher is I/O and
  concurrency. The model is sequential, so the lock has no observable effect
  in it.
- PEM, X.509 and JSON parsing, pod decoding and JSON marshalling: they are
  library code. They are parameters of the model. Go's float64 JSON numbers
  are represented as reals.
- Serialising the patch list to bytes, and the 500 returned if that fails: the
  response carries the patch operations as values. Marshalling a list of string
  maps cannot fail in Go.
- Request contexts, cancellation and logging: they do not affect results.
- The `serviceaccount.UserInfo` user, groups and UID fields of the access review,
  and the loop over the nil `extra` map: they are built by library code. The
  loop has no effect for service accounts, whose extra map is empty.
- The panic for an unknown webhook operation: the operation is a two-valued
  datatype, so the branch cannot arise.
- `main.go`, the integration tests and the Kubernetes client constructor: they
  set up the process and do not decide admission.
- GoFormat.Quote: non-ASCII characters pass through unescaped. Go's `%q` escapes
  the non-printable ones, and the model does not cover non-ASCII escapes.
- GoFormat.ErrorfNoOperands: only format strings with no `[` or `*` are modelled
  (argument indexes and star widths are not).
- KubeClientMapping.IsNotFoundErrorAsWritten: its precondition counts characters,
  while Go's `len(msg)` counts UTF-8 bytes. A message of fewer than 9 characters
  but at least 9 bytes does not panic in Go, yet lies outside this member's
  domain. On every message both accept, the verdict is the same, because
  `not found` is all ASCII.
- Webhook.ValidateUpdate: the inner iteration over the old pod is specified by the
  `Walk` fold rather than by a second run of the imperative loop.

## Findings

| source | as written | input that shows it | evidently intended | confidence | as-written member | corrected member |
|---|---|---|---|---|---|---|
| admission-webhook/webhook.go:262,274,280 | The formatted message is passed to `fmt.Errorf` as its format string, with no operands, so any `%` in it is interpreted again | A pod whose `gmsaCredentialSpec` is `100%` (not JSON): the compare error quotes the contents, so the 422 message contains `%"` and is printed as `%!"(MISSING)` | `errors.New(msg)`, giving the message verbatim | not executed | Webhook.MismatchMessageMangled | Webhook.MismatchMessageCarriesCompareError |
| admission-webhook/kube_client.go:126 | `msg[len(msg)-len(notFound):]` panics with an out-of-range slice when the error message is shorter than 9 bytes | A fetch error whose message is `EOF` | `strings.HasSuffix(msg, notFound)` | not executed | KubeClientMapping.IsNotFoundErrorAsWritten | KubeClientMapping.IsNotFoundError |

The rest of the model uses the corrected behaviour. Validation errors carry
their message verbatim. `RetrieveCredSpecContents` uses the suffix test.
