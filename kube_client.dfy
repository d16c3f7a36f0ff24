/** `kubeClient`: how the answers of the Kubernetes API are turned into the
    `(authorized, reason)` and `(contents, httpCode, err)` results the admission
    checks use. The API calls themselves are parameters. */
module KubeClientMapping {
  import opened Wrappers
  import opened GoFormat
  import opened Json
  import opened KubeClientInterface

  const CrdApiGroup := "windows.k8s.io"
  const CrdApiVersion := "v1"
  const CrdResourceName := "gmsacredentialspecs"
  const CrdContentsField := "credspec"
  const NotFound := "not found"

  const StatusOK := 200
  const StatusNotFound := 404
  const StatusExpectationFailed := 417
  const StatusInternalServerError := 500

  // ---------------------------------------------------------------------------
  // isAuthorizedToUseCredSpec
  // ---------------------------------------------------------------------------

  /** The resource attributes of the `LocalSubjectAccessReview` that is created. */
  datatype ResourceAttributes = ResourceAttributes(
    namespace: string, verb: string, group: string, version: string, resource: string, name: string)

  /** The review's spec: the subject is the service account, identified by its
      name and namespace. */
  datatype AccessReview = AccessReview(namespace: string, serviceAccountName: string, attributes: ResourceAttributes)

  /** What the access review call returns: a transport error, or the status. */
  datatype ReviewOutcome = ReviewError(message: string) | ReviewStatus(allowed: bool, denied: bool, reason: string)

  function AccessReviewFor(serviceAccountName: string, namespace: string, credSpecName: string): (r: AccessReview)
    ensures r.serviceAccountName == serviceAccountName
    ensures r.namespace == namespace && r.attributes.namespace == namespace
    ensures r.attributes.verb == "use" && r.attributes.name == credSpecName
    ensures r.attributes.group == CrdApiGroup && r.attributes.version == CrdApiVersion && r.attributes.resource == CrdResourceName
  {
    AccessReview(namespace, serviceAccountName,
      ResourceAttributes(namespace, "use", CrdApiGroup, CrdApiVersion, CrdResourceName, credSpecName))
  }

  /** `isAuthorizedToUseCredSpec`: asks whether the service account may `use` the
      named cred spec in the namespace; authorized only when the review allows and
      does not deny, with the review's reason passed through. */
  function IsAuthorizedToUseCredSpec(review: AccessReview -> ReviewOutcome, serviceAccountName: string, namespace: string, credSpecName: string): (r: Authorization)
    ensures var outcome := review(AccessReviewFor(serviceAccountName, namespace, credSpecName));
      && (outcome.ReviewError? ==> r == Authorization(false, "error when checking authz access: " + outcome.message))
      && (outcome.ReviewStatus? ==> r.reason == outcome.reason)
      && (r.authorized <==> outcome.ReviewStatus? && outcome.allowed && !outcome.denied)
  {
    match review(AccessReviewFor(serviceAccountName, namespace, credSpecName))
    case ReviewError(message) => Authorization(false, "error when checking authz access: " + message)
    case ReviewStatus(allowed, denied, reason) => Authorization(allowed && !denied, reason)
  }

  // ---------------------------------------------------------------------------
  // isNotFoundError
  // ---------------------------------------------------------------------------

  /** `isNotFoundError` as written: the last nine characters of the message are
      sliced out and compared, which is out of range for a shorter message. */
  function IsNotFoundErrorAsWritten(msg: string): (r: bool)
    requires |msg| >= |NotFound|
    ensures r <==> exists p: string :: msg == p + NotFound
  {
    HasSuffixIffDecomposes(msg, NotFound);
    msg[|msg| - |NotFound|..] == NotFound
  }

  /** `isNotFoundError` as intended: the message ends with "not found". */
  function IsNotFoundError(msg: string): (r: bool)
    ensures r <==> exists p: string :: msg == p + NotFound
    ensures |msg| >= |NotFound| ==> r == IsNotFoundErrorAsWritten(msg)
  {
    HasSuffixIffDecomposes(msg, NotFound);
    HasSuffix(msg, NotFound)
  }

  /** A three-character message such as "EOF" is outside the slice's range; the
      intended test answers that it is not a not-found error. */
  lemma ShortMessageOutOfRange()
    ensures |"EOF"| < |NotFound|
    ensures !IsNotFoundError("EOF")
  {
  }

  // ---------------------------------------------------------------------------
  // retrieveCredSpecContents
  // ---------------------------------------------------------------------------

  /** What the dynamic client's `Get` of a cred spec returns: an error's text, or
      the object's top-level fields. */
  datatype GetOutcome = GetError(message: string) | GetObject(fields: map<string, Json>)

  /** `json.Marshal` of a decoded JSON value: its text, or the error's text. */
  type Marshaller = Json -> Result<string, string>

  /** Whether the object lacks a usable contents field: absent, or the empty string. */
  predicate MissingContents(fields: map<string, Json>) {
    CrdContentsField !in fields || fields[CrdContentsField] == JString("")
  }

  /** `retrieveCredSpecContents`: 404 when the cred spec does not exist, 500 on
      any other lookup failure or when its contents cannot be marshalled, 417 when
      its `credspec` field is missing or empty, and 200 with the marshalled
      contents otherwise. */
  function RetrieveCredSpecContents(get: string -> GetOutcome, marshal: Marshaller, credSpecName: string): (r: Retrieval)
    ensures r.code in {StatusOK, StatusNotFound, StatusExpectationFailed, StatusInternalServerError}
    ensures r.err.None? <==> r.code == StatusOK
    ensures r.err.Some? ==> r.contents == ""
    ensures r.code == StatusNotFound <==> get(credSpecName).GetError? && IsNotFoundError(get(credSpecName).message)
    ensures r.code == StatusNotFound ==> r.err == Some("cred spec " + credSpecName + " does not exist")
    ensures r.code == StatusExpectationFailed <==> get(credSpecName).GetObject? && MissingContents(get(credSpecName).fields)
    ensures r.code == StatusExpectationFailed ==> r.err == Some("cred spec " + credSpecName + " does not have a " + CrdContentsField + " key")
    ensures r.code == StatusOK <==>
              get(credSpecName).GetObject? && !MissingContents(get(credSpecName).fields) &&
              marshal(get(credSpecName).fields[CrdContentsField]).Ok?
    ensures r.code == StatusOK ==> r.contents == marshal(get(credSpecName).fields[CrdContentsField]).value
  {
    match get(credSpecName)
    case GetError(message) =>
      if IsNotFoundError(message) then Retrieval("", StatusNotFound, Some("cred spec " + credSpecName + " does not exist"))
      else Retrieval("", StatusInternalServerError, Some("unable to retrieve the contents of cred spec " + credSpecName + ": " + message))
    case GetObject(fields) =>
      if MissingContents(fields) then
        Retrieval("", StatusExpectationFailed, Some("cred spec " + credSpecName + " does not have a " + CrdContentsField + " key"))
      else
        match marshal(fields[CrdContentsField])
        case Err(e) => Retrieval("", StatusInternalServerError, Some("unable to marshall cred spec " + credSpecName + " into a JSON: " + e))
        case Ok(contentsBytes) => Retrieval(contentsBytes, StatusOK, None)
  }

  /** A `credspec` field holding JSON null is not "missing": its marshalled text
      `null` is returned with 200. */
  lemma NullContentsAccepted(get: string -> GetOutcome, marshal: Marshaller, credSpecName: string)
    requires get(credSpecName).GetObject? && CrdContentsField in get(credSpecName).fields
    requires get(credSpecName).fields[CrdContentsField] == JNull && marshal(JNull) == Ok("null")
    ensures RetrieveCredSpecContents(get, marshal, credSpecName) == Retrieval("null", StatusOK, None)
  {
  }

  /** The client the admission checks talk to, built from the three API calls. */
  function ClientOf(review: AccessReview -> ReviewOutcome, get: string -> GetOutcome, marshal: Marshaller): (c: KubeClient)
    ensures forall sa, ns, name :: c.isAuthorizedToUseCredSpec(sa, ns, name) == IsAuthorizedToUseCredSpec(review, sa, ns, name)
    ensures forall name :: c.retrieveCredSpecContents(name) == RetrieveCredSpecContents(get, marshal, name)
  {
    KubeClient((sa, ns, name) => IsAuthorizedToUseCredSpec(review, sa, ns, name),
               name => RetrieveCredSpecContents(get, marshal, name))
  }
}
