/** The admission decisions of `webhook.go`: the create-time validation
    (authorization to use each named GMSA and agreement of inlined contents),
    the create-time mutation (inlining the contents of each named GMSA as JSON
    Patch operations), the update-time immutability check, and the dispatch on
    the request's kind and operation. */
module Webhook {
  import opened Wrappers
  import opened GoFormat
  import opened Pods
  import opened Iteration
  import opened Json
  import opened JsonPatch
  import opened Admission
  import opened KubeClientInterface

  const StatusBadRequest := 400
  const StatusForbidden := 403
  const StatusUnprocessableEntity := 422

  // ---------------------------------------------------------------------------
  // equalStringPointers
  // ---------------------------------------------------------------------------

  /** Two optional strings are equal when both are nil or both hold the same string. */
  function EqualStringPointers(s1: Option<string>, s2: Option<string>): (r: bool)
    ensures r <==> s1 == s2
  {
    if s1.None? then s2.None?
    else if s2.None? then false
    else s1.value == s2.value
  }

  // ---------------------------------------------------------------------------
  // compareCredSpecContents
  // ---------------------------------------------------------------------------

  /** The `(bool, error)` pair `compareCredSpecContents` returns. */
  datatype Comparison = Comparison(equal: bool, err: Option<string>)

  function ParseErrorMessage(fromResource: string, err: string): string {
    "unable to parse " + Quote(fromResource) + " as a JSON object: " + err
  }

  function CrdParseErrorMessage(fromCRD: string, err: string): string {
    "unable to parse CRD " + Quote(fromCRD) + " as a JSON object: " + err
  }

  /** Reference meaning of "same credential spec contents": the same text, or two
      texts that both decode to the same JSON object. */
  predicate SameCredSpec(parse: ObjectParser, a: string, b: string) {
    a == b || (parse(a).Ok? && parse(b).Ok? && parse(a).value == parse(b).value)
  }

  /** `compareCredSpecContents(fromResource, fromCRD)`. Identical texts are equal
      without being parsed; otherwise the resource's text is parsed first, then the
      CRD's, and a failure of either is reported with that text quoted. */
  function CompareCredSpecContents(parse: ObjectParser, fromResource: string, fromCRD: string): (r: Comparison)
    ensures fromResource == fromCRD ==> r == Comparison(true, None)
    ensures r.err.None? <==> fromResource == fromCRD || (parse(fromResource).Ok? && parse(fromCRD).Ok?)
    ensures r.err.Some? ==> !r.equal
    ensures fromResource != fromCRD && parse(fromResource).Err? ==>
              r.err == Some(ParseErrorMessage(fromResource, parse(fromResource).error))
    ensures fromResource != fromCRD && parse(fromResource).Ok? && parse(fromCRD).Err? ==>
              r.err == Some(CrdParseErrorMessage(fromCRD, parse(fromCRD).error))
    ensures r.equal <==> SameCredSpec(parse, fromResource, fromCRD)
  {
    if fromResource == fromCRD then Comparison(true, None)
    else match parse(fromResource)
      case Err(e) => Comparison(false, Some(ParseErrorMessage(fromResource, e)))
      case Ok(objectFromResource) =>
        match parse(fromCRD)
        case Err(e) => Comparison(false, Some(CrdParseErrorMessage(fromCRD, e)))
        case Ok(objectFromCRD) => Comparison(objectFromResource == objectFromCRD, None)
  }

  /** Whatever the parser, the comparison is an equivalence: reflexive, symmetric
      and transitive. */
  lemma CompareIsEquivalence(parse: ObjectParser, a: string, b: string, c: string)
    ensures CompareCredSpecContents(parse, a, a).equal
    ensures CompareCredSpecContents(parse, a, b).equal ==> CompareCredSpecContents(parse, b, a).equal
    ensures CompareCredSpecContents(parse, a, b).equal && CompareCredSpecContents(parse, b, c).equal ==>
              CompareCredSpecContents(parse, a, c).equal
  {
  }

  // ---------------------------------------------------------------------------
  // Messages
  // ---------------------------------------------------------------------------

  /** The refusal's opening, naming the service account and the cred spec. */
  function NotAuthorizedBase(serviceAccountName: string, credSpecName: string): string {
    "service account " + Quote(serviceAccountName) + " is not authorized to `use` GMSA cred spec " + Quote(credSpecName)
  }

  function NotAuthorizedMessage(serviceAccountName: string, credSpecName: string, reason: string): string {
    var msg := NotAuthorizedBase(serviceAccountName, credSpecName);
    if reason != "" then msg + (", reason: " + Quote(reason)) else msg
  }

  function ContentsMismatchMessage(kind: ResourceKind, resourceName: string, credSpecName: string, compareErr: Option<string>): string {
    var msg := "the GMSA cred spec contents for " + KindName(kind) + " " + Quote(resourceName)
               + " does not match the contents of GMSA resource " + Quote(credSpecName);
    if compareErr.Some? then msg + ": " + compareErr.value else msg
  }

  function MissingNameMessage(kind: ResourceKind, resourceName: string): string {
    KindName(kind) + " " + Quote(resourceName) + " has a GMSA cred spec set, but does not define the name of the corresponding resource"
  }

  function UpdateForbiddenMessage(modifiedFieldNames: seq<string>, kind: ResourceKind, resourceName: string): string {
    "cannot update an existing pod's GMSA settings (GMSA " + Join(modifiedFieldNames, " and ") + " modified on "
      + KindName(kind) + " " + Quote(resourceName) + ")"
  }

  /** The refusal names the service account and the cred spec, and ends with the
      authorizer's quoted reason exactly when that reason is not empty. */
  lemma NotAuthorizedMessageReason(serviceAccountName: string, credSpecName: string, reason: string)
    ensures var base := NotAuthorizedBase(serviceAccountName, credSpecName);
      && (reason == "" ==> NotAuthorizedMessage(serviceAccountName, credSpecName, reason) == base)
      && (reason != "" ==> HasSuffix(NotAuthorizedMessage(serviceAccountName, credSpecName, reason), ", reason: " + Quote(reason)))
      && (reason != "" ==> NotAuthorizedMessage(serviceAccountName, credSpecName, reason) != base)
  {
    var base := NotAuthorizedBase(serviceAccountName, credSpecName);
    if reason != "" {
      var suffix := ", reason: " + Quote(reason);
      var msg := NotAuthorizedMessage(serviceAccountName, credSpecName, reason);
      HasSuffixOfConcat(base, suffix);
      assert |msg| == |base| + |suffix|;
    }
  }

  /** The comparison's error, when there is one, ends the mismatch message verbatim. */
  lemma MismatchMessageCarriesCompareError(kind: ResourceKind, resourceName: string, credSpecName: string, compareErr: string)
    ensures HasSuffix(ContentsMismatchMessage(kind, resourceName, credSpecName, Some(compareErr)), ": " + compareErr)
  {
    var msg := ContentsMismatchMessage(kind, resourceName, credSpecName, Some(compareErr));
    var base := "the GMSA cred spec contents for " + KindName(kind) + " " + Quote(resourceName)
                + " does not match the contents of GMSA resource " + Quote(credSpecName);
    assert msg == base + (": " + compareErr);
    HasSuffixIffDecomposes(msg, ": " + compareErr);
  }

  /** The error text of `validateCreateRequest`'s three refusals as written: the
      message is passed to `fmt.Errorf` as its format, with no operands, so each
      `%` in it is read as a verb. */
  function CreateErrorTextAsWritten(message: string): (text: string)
    requires NoIndexOrStar(message)
    ensures NoPercent(message) ==> text == message
  {
    var text := ErrorfNoOperands(message);
    assert NoPercent(message) ==> text == message by {
      if NoPercent(message) {
        ErrorfNoPercent(message);
      }
    }
    text
  }

  /** Neither a `%` nor a character the as-written error text cannot model. */
  predicate Literal(s: string) {
    NoPercent(s) && NoIndexOrStar(s)
  }

  lemma LiteralConcat(a: string, b: string)
    requires Literal(a) && Literal(b)
    ensures Literal(a + b)
  {
    NoPercentConcat(a, b);
    NoIndexOrStarConcat(a, b);
  }

  lemma LiteralOpening()
    ensures Literal("the GMSA cred spec contents for ")
  {
  }

  lemma LiteralMiddle()
    ensures Literal(" does not match the contents of GMSA resource ")
  {
    var a, b := " does not match the ", "contents of GMSA resource ";
    assert Literal(a) && Literal(b);
    assert a + b == " does not match the contents of GMSA resource ";
    LiteralConcat(a, b);
  }

  lemma LiteralQuoted(s: string)
    requires Literal(s)
    ensures Literal("\"" + s + "\"")
  {
    assert Literal("\"");
    LiteralConcat("\"", s);
    LiteralConcat("\"" + s, "\"");
  }

  /** The mismatch message up to the `%` of contents `stem + "%"`. */
  function MismatchPrefix(resourceName: string, credSpecName: string, stem: string): string {
    "the GMSA cred spec contents for " + "pod" + " " + ("\"" + resourceName + "\"")
      + " does not match the contents of GMSA resource " + ("\"" + credSpecName + "\"")
      + ": " + "unable to parse " + "\"" + stem
  }

  lemma MismatchPrefixLiteral(resourceName: string, credSpecName: string, stem: string)
    requires Literal(resourceName) && Literal(credSpecName) && Literal(stem)
    ensures Literal(MismatchPrefix(resourceName, credSpecName, stem))
  {
    LiteralOpening();
    LiteralMiddle();
    LiteralQuoted(resourceName);
    LiteralQuoted(credSpecName);
    assert Literal("pod") && Literal(" ") && Literal(": ") && Literal("unable to parse ") && Literal("\"");
    var a := "the GMSA cred spec contents for ";
    LiteralConcat(a, "pod");
    LiteralConcat(a + "pod", " ");
    var b := a + "pod" + " ";
    LiteralConcat(b, "\"" + resourceName + "\"");
    var c := b + ("\"" + resourceName + "\"");
    LiteralConcat(c, " does not match the contents of GMSA resource ");
    var d := c + " does not match the contents of GMSA resource ";
    LiteralConcat(d, "\"" + credSpecName + "\"");
    var e := d + ("\"" + credSpecName + "\"");
    LiteralConcat(e, ": ");
    LiteralConcat(e + ": ", "unable to parse ");
    LiteralConcat(e + ": " + "unable to parse ", "\"");
    LiteralConcat(e + ": " + "unable to parse " + "\"", stem);
  }

  /** The parse error for plain contents with a `%` appended quotes them verbatim. */
  lemma ParseErrorShape(stem: string, e: string)
    requires IsPlain(stem)
    ensures ParseErrorMessage(stem + "%", e) == "unable to parse " + "\"" + stem + "%\"" + (" as a JSON object: " + e)
  {
    IsPlainConcat(stem, "%");
    QuotePlain(stem + "%");
    assert "\"" + (stem + "%") + "\"" == "\"" + stem + "%\"";
  }

  /** The mismatch message for a pod with plain names, ending with a compare error. */
  lemma MismatchHeadShape(resourceName: string, credSpecName: string, compareErr: string)
    requires IsPlain(resourceName) && IsPlain(credSpecName)
    ensures ContentsMismatchMessage(PodKind, resourceName, credSpecName, Some(compareErr)) ==
              "the GMSA cred spec contents for " + "pod" + " " + ("\"" + resourceName + "\"")
                + " does not match the contents of GMSA resource " + ("\"" + credSpecName + "\"") + ": " + compareErr
  {
    QuotePlain(resourceName);
    QuotePlain(credSpecName);
  }

  lemma MismatchMessageShape(resourceName: string, credSpecName: string, stem: string, e: string)
    requires IsPlain(resourceName) && IsPlain(credSpecName) && IsPlain(stem)
    ensures ContentsMismatchMessage(PodKind, resourceName, credSpecName, Some(ParseErrorMessage(stem + "%", e))) ==
              MismatchPrefix(resourceName, credSpecName, stem) + "%\"" + (" as a JSON object: " + e)
  {
    ParseErrorShape(stem, e);
    MismatchHeadShape(resourceName, credSpecName, ParseErrorMessage(stem + "%", e));
  }

  /** Pod contents ending in `%` (such as `100%`) that are not JSON, and so cannot
      match the stored contents, produce a mismatch message quoting them; in the
      as-written error text the `%"` of that quote becomes `%!"(MISSING)`. */
  lemma MismatchMessageMangled(parse: ObjectParser, resourceName: string, credSpecName: string, stem: string, storedContents: string)
    requires IsPlain(resourceName) && IsPlain(credSpecName) && IsPlain(stem)
    requires Literal(resourceName) && Literal(credSpecName) && Literal(stem)
    requires stem + "%" != storedContents
    requires parse(stem + "%").Err? && NoIndexOrStar(parse(stem + "%").error)
    ensures var comparison := CompareCredSpecContents(parse, stem + "%", storedContents);
      var msg := ContentsMismatchMessage(PodKind, resourceName, credSpecName, comparison.err);
      NoIndexOrStar(msg) && CreateErrorTextAsWritten(msg) != msg
  {
    var contents := stem + "%";
    var e := parse(contents).error;
    var comparison := CompareCredSpecContents(parse, contents, storedContents);
    var msg := ContentsMismatchMessage(PodKind, resourceName, credSpecName, comparison.err);
    var p := MismatchPrefix(resourceName, credSpecName, stem);
    var q := " as a JSON object: " + e;
    assert comparison.err == Some(ParseErrorMessage(contents, e));
    MismatchMessageShape(resourceName, credSpecName, stem, e);
    MismatchPrefixLiteral(resourceName, credSpecName, stem);
    assert NoIndexOrStar(" as a JSON object: ") && NoIndexOrStar("%\"");
    NoIndexOrStarConcat(p, "%\"");
    NoIndexOrStarConcat(" as a JSON object: ", e);
    NoIndexOrStarConcat(p + "%\"", q);
    PercentQuoteAltered(p, q);
  }

  // ---------------------------------------------------------------------------
  // validateCreateRequest
  // ---------------------------------------------------------------------------

  /** The callback of `validateCreateRequest` on one visited resource. When a name
      is set, the service account's authorization is asked first; only if it is
      granted and contents are set are the stored contents retrieved and compared.
      Contents without a name are refused outright. */
  function ValidateCreateOptions(client: KubeClient, parse: ObjectParser, pod: Pod, namespace: string, v: Visit): (r: Option<PodAdmissionError>)
    ensures v.options.gmsaCredentialSpecName.None? ==>
              r == if v.options.gmsaCredentialSpec.Some?
                   then Some(PodAdmissionError(MissingNameMessage(v.kind, v.name), StatusUnprocessableEntity, Some(pod)))
                   else None
    ensures v.options.gmsaCredentialSpecName.Some? ==>
              var name := v.options.gmsaCredentialSpecName.value;
              var authorization := client.isAuthorizedToUseCredSpec(pod.serviceAccountName, namespace, name);
              && (!authorization.authorized ==>
                    r == Some(PodAdmissionError(NotAuthorizedMessage(pod.serviceAccountName, name, authorization.reason), StatusForbidden, Some(pod))))
              && (authorization.authorized && v.options.gmsaCredentialSpec.None? ==> r.None?)
    ensures v.options.gmsaCredentialSpecName.Some? && v.options.gmsaCredentialSpec.Some? &&
            client.isAuthorizedToUseCredSpec(pod.serviceAccountName, namespace, v.options.gmsaCredentialSpecName.value).authorized ==>
              var name := v.options.gmsaCredentialSpecName.value;
              var retrieval := client.retrieveCredSpecContents(name);
              var comparison := CompareCredSpecContents(parse, v.options.gmsaCredentialSpec.value, retrieval.contents);
              && (retrieval.err.Some? ==> r == Some(PodAdmissionError(retrieval.err.value, retrieval.code, Some(pod))))
              && (retrieval.err.None? ==>
                    (r.None? <==> SameCredSpec(parse, v.options.gmsaCredentialSpec.value, retrieval.contents)))
              && (retrieval.err.None? && r.Some? ==>
                    r.value == PodAdmissionError(ContentsMismatchMessage(v.kind, v.name, name, comparison.err), StatusUnprocessableEntity, Some(pod)))
  {
    match v.options.gmsaCredentialSpecName
    case Some(credSpecName) =>
      var authorization := client.isAuthorizedToUseCredSpec(pod.serviceAccountName, namespace, credSpecName);
      if !authorization.authorized then
        Some(PodAdmissionError(NotAuthorizedMessage(pod.serviceAccountName, credSpecName, authorization.reason), StatusForbidden, Some(pod)))
      else if v.options.gmsaCredentialSpec.None? then None
      else
        var retrieval := client.retrieveCredSpecContents(credSpecName);
        if retrieval.err.Some? then
          Some(PodAdmissionError(retrieval.err.value, retrieval.code, Some(pod)))
        else
          var comparison := CompareCredSpecContents(parse, v.options.gmsaCredentialSpec.value, retrieval.contents);
          if !comparison.equal || comparison.err.Some? then
            Some(PodAdmissionError(ContentsMismatchMessage(v.kind, v.name, credSpecName, comparison.err), StatusUnprocessableEntity, Some(pod)))
          else None
    case None =>
      if v.options.gmsaCredentialSpec.Some? then
        Some(PodAdmissionError(MissingNameMessage(v.kind, v.name), StatusUnprocessableEntity, Some(pod)))
      else None
  }

  /** The check as the callback handed to the iteration. */
  function CreateCheck(client: KubeClient, parse: ObjectParser, pod: Pod, namespace: string): Visit -> Option<PodAdmissionError> {
    v => ValidateCreateOptions(client, parse, pod, namespace, v)
  }

  /** Authorization is asked before anything else: a refused name is refused with
      the same error whatever the store would have returned and whatever the
      parser would have made of the contents. */
  lemma AuthorizationBeforeContents(client1: KubeClient, client2: KubeClient, parse1: ObjectParser, parse2: ObjectParser,
                                    pod: Pod, namespace: string, v: Visit)
    requires v.options.gmsaCredentialSpecName.Some?
    requires client1.isAuthorizedToUseCredSpec == client2.isAuthorizedToUseCredSpec
    requires !client1.isAuthorizedToUseCredSpec(pod.serviceAccountName, namespace, v.options.gmsaCredentialSpecName.value).authorized
    ensures ValidateCreateOptions(client1, parse1, pod, namespace, v) == ValidateCreateOptions(client2, parse2, pod, namespace, v)
    ensures ValidateCreateOptions(client1, parse1, pod, namespace, v).value.code == StatusForbidden
  {
  }

  /** Without contents to compare, the store is never asked for the stored contents. */
  lemma NoRetrievalWithoutContents(client1: KubeClient, client2: KubeClient, parse: ObjectParser, pod: Pod, namespace: string, v: Visit)
    requires v.options.gmsaCredentialSpec.None?
    requires client1.isAuthorizedToUseCredSpec == client2.isAuthorizedToUseCredSpec
    ensures ValidateCreateOptions(client1, parse, pod, namespace, v) == ValidateCreateOptions(client2, parse, pod, namespace, v)
  {
  }

  /** Specification of `validateCreateRequest`: the first failing resource's error,
      or an allowed response without a patch. */
  function ValidateCreate(client: KubeClient, parse: ObjectParser, pod: Pod, namespace: string): (r: Result<AdmissionResponse, PodAdmissionError>)
    ensures r.Ok? <==> forall i :: 0 <= i < |Visits(pod)| ==> ValidateCreateOptions(client, parse, pod, namespace, Visits(pod)[i]).None?
    ensures r.Ok? ==> r.value == AllowedResponse
    ensures r.Err? ==>
              exists k :: 0 <= k < |Visits(pod)| &&
                          ValidateCreateOptions(client, parse, pod, namespace, Visits(pod)[k]) == Some(r.error) &&
                          forall j :: 0 <= j < k ==> ValidateCreateOptions(client, parse, pod, namespace, Visits(pod)[j]).None?
  {
    var check := CreateCheck(client, parse, pod, namespace);
    var first := FirstError(Visits(pod), check);
    assert forall i :: 0 <= i < |Visits(pod)| ==> check(Visits(pod)[i]) == ValidateCreateOptions(client, parse, pod, namespace, Visits(pod)[i]);
    if first.Some? then Err(first.value) else Ok(AllowedResponse)
  }

  /** `validateCreateRequest`: walks the pod with the check and stops at the first error. */
  method ValidateCreateRequest(client: KubeClient, parse: ObjectParser, pod: Pod, namespace: string)
    returns (r: Result<AdmissionResponse, PodAdmissionError>)
    ensures r == ValidateCreate(client, parse, pod, namespace)
  {
    var check := CreateCheck(client, parse, pod, namespace);
    var walked := IterateOverWindowsSecurityOptions(pod, (), Lift(check));
    WalkLift(Visits(pod), (), check);
    if walked.Err? {
      return Err(walked.error);
    }
    return Ok(AllowedResponse);
  }

  // ---------------------------------------------------------------------------
  // mutateCreateRequest
  // ---------------------------------------------------------------------------

  /** A resource whose cred spec is named but whose contents are not set. */
  predicate NeedsInlining(v: Visit) {
    v.options.gmsaCredentialSpecName.Some? && v.options.gmsaCredentialSpec.None?
  }

  /** The "add" operation that sets the visited resource's contents. */
  function PatchFor(v: Visit, contents: string): PatchOp {
    PatchOp("add", PatchPath(v), contents)
  }

  /** The callback of `mutateCreateRequest`: the patch list it appends to is the
      walk's state. A failed retrieval ends the walk with the store's own code. */
  function MutateStep(client: KubeClient, pod: Pod): (step: (seq<PatchOp>, Visit) -> Result<seq<PatchOp>, PodAdmissionError>)
    ensures forall patches: seq<PatchOp>, v: Visit :: !NeedsInlining(v) ==> step(patches, v) == Ok(patches)
    ensures forall patches: seq<PatchOp>, v: Visit :: NeedsInlining(v) ==>
              (step(patches, v).Err? <==> Inlining(client, v).err.Some?)
    ensures forall patches: seq<PatchOp>, v: Visit :: NeedsInlining(v) && step(patches, v).Err? ==>
              step(patches, v).error == PodAdmissionError(Inlining(client, v).err.value, Inlining(client, v).code, Some(pod))
    ensures forall patches: seq<PatchOp>, v: Visit :: NeedsInlining(v) && step(patches, v).Ok? ==>
              step(patches, v).value == patches + [PatchFor(v, Inlining(client, v).contents)]
  {
    (patches: seq<PatchOp>, v: Visit) =>
      if !NeedsInlining(v) then Ok(patches)
      else
        var retrieval := client.retrieveCredSpecContents(v.options.gmsaCredentialSpecName.value);
        if retrieval.err.Some? then Err(PodAdmissionError(retrieval.err.value, retrieval.code, Some(pod)))
        else Ok(patches + [PatchFor(v, retrieval.contents)])
  }

  /** The resources the mutation inlines, in visit order. */
  function NeedingInlining(vs: seq<Visit>): (r: seq<Visit>)
    ensures forall i :: 0 <= i < |r| ==> NeedsInlining(r[i]) && r[i] in vs
    ensures forall v :: v in vs && NeedsInlining(v) ==> v in r
    decreases |vs|
  {
    if vs == [] then []
    else if NeedsInlining(vs[0]) then [vs[0]] + NeedingInlining(vs[1..])
    else NeedingInlining(vs[1..])
  }

  function Inlining(client: KubeClient, v: Visit): Retrieval
    requires NeedsInlining(v)
  {
    client.retrieveCredSpecContents(v.options.gmsaCredentialSpecName.value)
  }

  /** One patch per resource needing inlining, carrying what the store holds for its name. */
  function InliningPatches(client: KubeClient, vs: seq<Visit>): seq<PatchOp>
    decreases |vs|
  {
    if vs == [] then []
    else if NeedsInlining(vs[0]) then [PatchFor(vs[0], Inlining(client, vs[0]).contents)] + InliningPatches(client, vs[1..])
    else InliningPatches(client, vs[1..])
  }

  /** The i-th patch inlines the i-th resource needing it, with the stored contents. */
  lemma {:induction false} InliningPatchesMatch(client: KubeClient, vs: seq<Visit>)
    ensures |InliningPatches(client, vs)| == |NeedingInlining(vs)|
    ensures forall i :: 0 <= i < |NeedingInlining(vs)| ==>
              InliningPatches(client, vs)[i] == PatchFor(NeedingInlining(vs)[i], Inlining(client, NeedingInlining(vs)[i]).contents)
    decreases |vs|
  {
    if vs != [] {
      InliningPatchesMatch(client, vs[1..]);
      var needing, rest := NeedingInlining(vs), NeedingInlining(vs[1..]);
      var patches, later := InliningPatches(client, vs), InliningPatches(client, vs[1..]);
      if NeedsInlining(vs[0]) {
        assert needing == [vs[0]] + rest;
        assert patches == [PatchFor(vs[0], Inlining(client, vs[0]).contents)] + later;
        forall i | 0 <= i < |needing|
          ensures patches[i] == PatchFor(needing[i], Inlining(client, needing[i]).contents)
        {
          if i > 0 {
            assert needing[i] == rest[i - 1] && patches[i] == later[i - 1];
          }
        }
      } else {
        assert needing == rest && patches == later;
      }
    }
  }

  /** The error of the first resource whose stored contents cannot be retrieved. */
  function InliningError(client: KubeClient, pod: Pod): Visit -> Option<PodAdmissionError> {
    v => if NeedsInlining(v) && Inlining(client, v).err.Some?
         then Some(PodAdmissionError(Inlining(client, v).err.value, Inlining(client, v).code, Some(pod)))
         else None
  }

  /** Walking with the appending callback either stops at the first failed
      retrieval or appends exactly the inlining patches, in order. */
  lemma {:induction false} WalkMutate(client: KubeClient, pod: Pod, vs: seq<Visit>, acc: seq<PatchOp>)
    ensures Walk(vs, acc, MutateStep(client, pod)) ==
              if FirstError(vs, InliningError(client, pod)).Some?
              then Err(FirstError(vs, InliningError(client, pod)).value)
              else Ok(acc + InliningPatches(client, vs))
    decreases |vs|
  {
    if vs == [] {
      assert acc + [] == acc;
    } else if !NeedsInlining(vs[0]) {
      WalkMutate(client, pod, vs[1..], acc);
    } else if Inlining(client, vs[0]).err.None? {
      var next := acc + [PatchFor(vs[0], Inlining(client, vs[0]).contents)];
      WalkMutate(client, pod, vs[1..], next);
      assert next + InliningPatches(client, vs[1..]) == acc + InliningPatches(client, vs);
    }
  }

  /** How `mutateCreateRequest` answers once the patches are known: allowed, with
      the patch and its type set only when there is at least one patch. */
  function PatchResponse(patches: seq<PatchOp>): (r: AdmissionResponse)
    ensures r.allowed && r.result.None? && r.uid == ""
    ensures patches == [] ==> r == AllowedResponse
    ensures patches != [] ==> r.patch == Some(patches) && r.patchType == Some(JSONPatch)
  {
    if |patches| != 0 then AllowedResponse.(patch := Some(patches), patchType := Some(JSONPatch))
    else AllowedResponse
  }

  /** Specification of `mutateCreateRequest`. */
  function MutateCreate(client: KubeClient, pod: Pod): (r: Result<AdmissionResponse, PodAdmissionError>)
    ensures r.Err? <==> exists k :: 0 <= k < |Visits(pod)| && NeedsInlining(Visits(pod)[k]) && Inlining(client, Visits(pod)[k]).err.Some?
    ensures r.Err? ==>
              exists k :: 0 <= k < |Visits(pod)| && NeedsInlining(Visits(pod)[k]) && Inlining(client, Visits(pod)[k]).err.Some? &&
                          r.error == PodAdmissionError(Inlining(client, Visits(pod)[k]).err.value, Inlining(client, Visits(pod)[k]).code, Some(pod)) &&
                          forall j :: 0 <= j < k && NeedsInlining(Visits(pod)[j]) ==> Inlining(client, Visits(pod)[j]).err.None?
    ensures r.Ok? ==> r.value.allowed && r.value.result.None? && r.value.uid == ""
    ensures r.Ok? ==> (r.value.patch.Some? <==> exists k :: 0 <= k < |Visits(pod)| && NeedsInlining(Visits(pod)[k]))
    ensures r.Ok? && r.value.patch.None? ==> r.value == AllowedResponse
    ensures r.Ok? && r.value.patch.Some? ==> r.value == AllowedResponse.(patch := r.value.patch, patchType := Some(JSONPatch))
    ensures r.Ok? && r.value.patch.Some? ==>
              && r.value.patchType == Some(JSONPatch)
              && |r.value.patch.value| == |NeedingInlining(Visits(pod))|
              && forall i :: 0 <= i < |NeedingInlining(Visits(pod))| ==>
                   r.value.patch.value[i] == PatchFor(NeedingInlining(Visits(pod))[i], Inlining(client, NeedingInlining(Visits(pod))[i]).contents)
  {
    var vs := Visits(pod);
    var err := FirstError(vs, InliningError(client, pod));
    FirstInliningError(client, pod, vs);
    if err.Some? then Err(err.value)
    else
      var patches := InliningPatches(client, vs);
      InliningPatchesMatch(client, vs);
      NeedingInliningEmpty(vs);
      assert patches != [] <==> exists k :: 0 <= k < |vs| && NeedsInlining(vs[k]);
      Ok(PatchResponse(patches))
  }

  /** The first failed retrieval, read through `FirstError`. */
  lemma FirstInliningError(client: KubeClient, pod: Pod, vs: seq<Visit>)
    ensures FirstError(vs, InliningError(client, pod)).Some? <==>
              exists k :: 0 <= k < |vs| && NeedsInlining(vs[k]) && Inlining(client, vs[k]).err.Some?
    ensures FirstError(vs, InliningError(client, pod)).Some? ==>
              exists k :: 0 <= k < |vs| && NeedsInlining(vs[k]) && Inlining(client, vs[k]).err.Some? &&
                          FirstError(vs, InliningError(client, pod)).value ==
                            PodAdmissionError(Inlining(client, vs[k]).err.value, Inlining(client, vs[k]).code, Some(pod)) &&
                          forall j :: 0 <= j < k && NeedsInlining(vs[j]) ==> Inlining(client, vs[j]).err.None?
  {
    var check := InliningError(client, pod);
    assert forall k :: 0 <= k < |vs| ==> (check(vs[k]).Some? <==> NeedsInlining(vs[k]) && Inlining(client, vs[k]).err.Some?);
  }

  /** Nothing is inlined exactly when no visit needs it. */
  lemma NeedingInliningEmpty(vs: seq<Visit>)
    ensures |NeedingInlining(vs)| > 0 <==> exists k :: 0 <= k < |vs| && NeedsInlining(vs[k])
  {
    if |NeedingInlining(vs)| > 0 {
      assert NeedingInlining(vs)[0] in vs;
    }
  }

  /** `mutateCreateRequest`: walks the pod, appending one "add" patch for each
      resource whose contents are to be inlined, then answers with the patch. */
  method MutateCreateRequest(client: KubeClient, pod: Pod) returns (r: Result<AdmissionResponse, PodAdmissionError>)
    ensures r == MutateCreate(client, pod)
    ensures r.Err? <==> exists k :: 0 <= k < |Visits(pod)| && NeedsInlining(Visits(pod)[k]) && Inlining(client, Visits(pod)[k]).err.Some?
    ensures r.Ok? ==> r.value.allowed && r.value.result.None?
  {
    var patches: seq<PatchOp> := [];
    var walked := IterateOverWindowsSecurityOptions(pod, patches, MutateStep(client, pod));
    WalkMutate(client, pod, Visits(pod), patches);
    if walked.Err? {
      var e := walked.error;
      var vs := Visits(pod);
      assert FirstError(vs, InliningError(client, pod)).Some?;
      var k :| 0 <= k < |vs| && InliningError(client, pod)(vs[k]) == Some(e);
      return Err(e);
    }
    var vs := Visits(pod);
    assert FirstError(vs, InliningError(client, pod)).None?;
    patches := walked.value;
    assert [] + InliningPatches(client, vs) == InliningPatches(client, vs) == patches;
    assert forall k :: 0 <= k < |vs| ==> InliningError(client, pod)(vs[k]).None?;
    return Ok(PatchResponse(patches));
  }

  /** The mutation never consults authorization: two clients whose stores agree
      produce the same mutation. */
  lemma MutationIgnoresAuthorization(client1: KubeClient, client2: KubeClient, pod: Pod)
    requires forall name :: client1.retrieveCredSpecContents(name) == client2.retrieveCredSpecContents(name)
    ensures MutateCreate(client1, pod) == MutateCreate(client2, pod)
  {
    var vs := Visits(pod);
    assert forall v :: InliningError(client1, pod)(v) == InliningError(client2, pod)(v);
    FirstErrorCongruent(vs, InliningError(client1, pod), InliningError(client2, pod));
    InliningPatchesCongruent(client1, client2, vs);
  }

  lemma {:induction false} FirstErrorCongruent<E>(vs: seq<Visit>, f: Visit -> Option<E>, g: Visit -> Option<E>)
    requires forall v :: f(v) == g(v)
    ensures FirstError(vs, f) == FirstError(vs, g)
    decreases |vs|
  {
    if vs != [] {
      FirstErrorCongruent(vs[1..], f, g);
    }
  }

  lemma {:induction false} InliningPatchesCongruent(client1: KubeClient, client2: KubeClient, vs: seq<Visit>)
    requires forall name :: client1.retrieveCredSpecContents(name) == client2.retrieveCredSpecContents(name)
    ensures InliningPatches(client1, vs) == InliningPatches(client2, vs)
    decreases |vs|
  {
    if vs != [] {
      InliningPatchesCongruent(client1, client2, vs[1..]);
    }
  }

  // ---------------------------------------------------------------------------
  // validateUpdateRequest
  // ---------------------------------------------------------------------------

  /** `modifiedFieldNames`: "name" when the names differ, then "contents" when the
      contents differ. */
  function ModifiedFieldNames(options: WindowsOptions, oldOptions: WindowsOptions): (r: seq<string>)
    ensures r == [] <==> options == oldOptions
    ensures ("name" in r <==> options.gmsaCredentialSpecName != oldOptions.gmsaCredentialSpecName)
    ensures ("contents" in r <==> options.gmsaCredentialSpec != oldOptions.gmsaCredentialSpec)
    ensures r != [] ==> Join(r, " and ") in {"name", "contents", "name and contents"}
  {
    var names := if !EqualStringPointers(options.gmsaCredentialSpecName, oldOptions.gmsaCredentialSpecName) then ["name"] else [];
    var r := names + if !EqualStringPointers(options.gmsaCredentialSpec, oldOptions.gmsaCredentialSpec) then ["contents"] else [];
    assert "name" != "contents";
    assert r == ["name", "contents"] ==> Join(r, " and ") == "name" + " and " + Join(["contents"], " and ");
    assert "name" + " and " + "contents" == "name and contents";
    r
  }

  /** The update check on one resource, given the options it had in the old pod. */
  function UpdateViolation(pod: Pod, oldOptions: WindowsOptions, v: Visit): (r: Option<PodAdmissionError>)
    ensures r.None? <==> v.options == oldOptions
    ensures r.Some? ==> r.value.code == StatusForbidden && r.value.pod == Some(pod)
    ensures r.Some? ==> r.value.message == UpdateForbiddenMessage(ModifiedFieldNames(v.options, oldOptions), v.kind, v.name)
  {
    var modified := ModifiedFieldNames(v.options, oldOptions);
    if |modified| != 0 then Some(PodAdmissionError(UpdateForbiddenMessage(modified, v.kind, v.name), StatusForbidden, Some(pod)))
    else None
  }

  /** What `oldPodContainerOptions` maps container names to. */
  type ContainerOptionsMap = map<string, WindowsOptions>

  /** The inner callback that fills the map: containers only, a later container
      with the same name overwriting an earlier one. It never fails. */
  function RecordContainerOptions(): (record: (ContainerOptionsMap, Visit) -> Result<ContainerOptionsMap, PodAdmissionError>)
    ensures forall m: ContainerOptionsMap, v: Visit :: record(m, v).Ok?
    ensures forall m: ContainerOptionsMap, v: Visit :: v.kind == ContainerKind ==> record(m, v).value == m[v.name := v.options]
    ensures forall m: ContainerOptionsMap, v: Visit :: v.kind == PodKind ==> record(m, v).value == m
  {
    (m: ContainerOptionsMap, v: Visit) => Ok(if v.kind == ContainerKind then m[v.name := v.options] else m)
  }

  /** The map built from the old pod (the inner walk's result is ignored in the
      source; it is always a success). */
  function OldContainerOptions(oldPod: Pod): ContainerOptionsMap {
    match Walk(Visits(oldPod), map[], RecordContainerOptions())
    case Ok(m) => m
    case Err(_) => map[]
  }

  /** Reference lookup: the options of the last container called `name` among the
      visits, if any. */
  function LastOptionsNamed(vs: seq<Visit>, name: string): (r: Option<WindowsOptions>)
    ensures r.Some? ==> exists k :: 0 <= k < |vs| && vs[k].kind == ContainerKind && vs[k].name == name && vs[k].options == r.value
    ensures r.None? ==> forall k :: 0 <= k < |vs| && vs[k].kind == ContainerKind ==> vs[k].name != name
    decreases |vs|
  {
    if vs == [] then None
    else
      var last := vs[|vs| - 1];
      if last.kind == ContainerKind && last.name == name then Some(last.options)
      else LastOptionsNamed(vs[..|vs| - 1], name)
  }

  lemma {:induction false} WalkRecord(vs: seq<Visit>, m: ContainerOptionsMap, name: string)
    ensures Walk(vs, m, RecordContainerOptions()).Ok?
    ensures var r := Walk(vs, m, RecordContainerOptions()).value;
      && (name in r <==> LastOptionsNamed(vs, name).Some? || name in m)
      && (name in r ==> r[name] == if LastOptionsNamed(vs, name).Some? then LastOptionsNamed(vs, name).value else m[name])
    decreases |vs|
  {
    if vs != [] {
      var v := vs[0];
      var next := if v.kind == ContainerKind then m[v.name := v.options] else m;
      WalkRecord(vs[1..], next, name);
      LastOptionsSplit([v], vs[1..], name);
      assert [v] + vs[1..] == vs;
    }
  }

  lemma {:induction false} LastOptionsSplit(a: seq<Visit>, b: seq<Visit>, name: string)
    ensures LastOptionsNamed(a + b, name) == if LastOptionsNamed(b, name).Some? then LastOptionsNamed(b, name) else LastOptionsNamed(a, name)
    decreases |b|
  {
    if b == [] {
      assert a + b == a;
    } else {
      assert (a + b)[..|a + b| - 1] == a + b[..|b| - 1];
      LastOptionsSplit(a, b[..|b| - 1], name);
    }
  }

  /** The lazily built map holds, for each container name, the options of the last
      container of the old pod with that name that has options. */
  lemma OldContainerOptionsLookup(oldPod: Pod, name: string)
    ensures name in OldContainerOptions(oldPod) <==> LastOptionsNamed(Visits(oldPod), name).Some?
    ensures name in OldContainerOptions(oldPod) ==> OldContainerOptions(oldPod)[name] == LastOptionsNamed(Visits(oldPod), name).value
  {
    WalkRecord(Visits(oldPod), map[], name);
  }

  /** Reference of the old options a resource is compared with: the old pod's
      pod-level options, or the old container's of the same name, and the empty
      options when there are none. */
  function OldOptionsFor(oldPod: Pod, v: Visit): WindowsOptions {
    if v.kind == PodKind then oldPod.windowsOptions.GetOr(EmptyWindowsOptions)
    else LastOptionsNamed(Visits(oldPod), v.name).GetOr(EmptyWindowsOptions)
  }

  function UpdateCheck(pod: Pod, oldPod: Pod): Visit -> Option<PodAdmissionError> {
    v => UpdateViolation(pod, OldOptionsFor(oldPod, v), v)
  }

  /** The callback of `validateUpdateRequest`; its state is the lazily built map,
      None until the first container is visited. */
  function UpdateStep(pod: Pod, oldPod: Pod): (step: (Option<ContainerOptionsMap>, Visit) -> Result<Option<ContainerOptionsMap>, PodAdmissionError>)
    ensures forall cache: Option<ContainerOptionsMap>, v: Visit :: v.kind == PodKind ==>
              (step(cache, v).Err? <==> v.options != OldOptionsFor(oldPod, v)) &&
              (step(cache, v).Ok? ==> step(cache, v).value == cache)
    ensures forall cache: Option<ContainerOptionsMap>, v: Visit ::
              (cache.None? || cache.value == OldContainerOptions(oldPod)) ==>
              (step(cache, v).Err? <==> v.options != OldOptionsFor(oldPod, v)) &&
              (step(cache, v).Err? ==> Some(step(cache, v).error) == UpdateViolation(pod, OldOptionsFor(oldPod, v), v)) &&
              (v.kind == ContainerKind && step(cache, v).Ok? ==> step(cache, v).value == Some(OldContainerOptions(oldPod)))
    ensures forall cache: Option<ContainerOptionsMap>, v: Visit ::
              step(cache, v).Err? ==> step(cache, v).error.code == StatusForbidden && step(cache, v).error.pod == Some(pod)
  {
    (cache: Option<ContainerOptionsMap>, v: Visit) => UpdateVisit(pod, oldPod, cache, v)
  }

  /** One call of the update callback: the pod-level options are compared with the
      old pod's; a container's with the old container of the same name, looked up in
      the map, which is built on the first container and kept from then on. */
  function UpdateVisit(pod: Pod, oldPod: Pod, cache: Option<ContainerOptionsMap>, v: Visit): (r: Result<Option<ContainerOptionsMap>, PodAdmissionError>)
    ensures v.kind == PodKind ==> (r.Err? <==> v.options != OldOptionsFor(oldPod, v))
    ensures v.kind == PodKind && r.Ok? ==> r.value == cache
    ensures v.kind == ContainerKind && r.Ok? ==>
              r.value == Some(if cache.None? then OldContainerOptions(oldPod) else cache.value)
    ensures (cache.None? || cache.value == OldContainerOptions(oldPod)) ==>
              (r.Err? <==> v.options != OldOptionsFor(oldPod, v)) &&
              (r.Err? ==> Some(r.error) == UpdateViolation(pod, OldOptionsFor(oldPod, v), v))
    ensures r.Err? ==> r.error.code == StatusForbidden && r.error.pod == Some(pod)
  {
    if v.kind == PodKind then
      var e := UpdateViolation(pod, oldPod.windowsOptions.GetOr(EmptyWindowsOptions), v);
      if e.Some? then Err(e.value) else Ok(cache)
    else
      OldContainerOptionsLookup(oldPod, v.name);
      var m := if cache.None? then OldContainerOptions(oldPod) else cache.value;
      var e := UpdateViolation(pod, if v.name in m then m[v.name] else EmptyWindowsOptions, v);
      if e.Some? then Err(e.value) else Ok(Some(m))
  }

  /** The cache is transparent: the walk fails exactly as the stateless check does. */
  lemma {:induction false} WalkUpdate(pod: Pod, oldPod: Pod, vs: seq<Visit>, cache: Option<ContainerOptionsMap>)
    requires cache.None? || cache.value == OldContainerOptions(oldPod)
    ensures Walk(vs, cache, UpdateStep(pod, oldPod)).Err? <==> FirstError(vs, UpdateCheck(pod, oldPod)).Some?
    ensures Walk(vs, cache, UpdateStep(pod, oldPod)).Err? ==>
              Walk(vs, cache, UpdateStep(pod, oldPod)).error == FirstError(vs, UpdateCheck(pod, oldPod)).value
    decreases |vs|
  {
    if vs != [] {
      var v := vs[0];
      var step := UpdateStep(pod, oldPod)(cache, v);
      assert step.Err? <==> UpdateCheck(pod, oldPod)(v).Some?;
      if step.Ok? {
        WalkUpdate(pod, oldPod, vs[1..], step.value);
      }
    }
  }

  /** Specification of `validateUpdateRequest`. */
  function ValidateUpdate(pod: Pod, oldPod: Pod): (r: Result<AdmissionResponse, PodAdmissionError>)
    ensures r.Ok? <==> forall i :: 0 <= i < |Visits(pod)| ==> Visits(pod)[i].options == OldOptionsFor(oldPod, Visits(pod)[i])
    ensures r.Ok? ==> r == Ok(AllowedResponse)
    ensures r.Err? ==> r.error.code == StatusForbidden
    ensures r.Err? ==>
              exists k :: 0 <= k < |Visits(pod)| &&
                          UpdateViolation(pod, OldOptionsFor(oldPod, Visits(pod)[k]), Visits(pod)[k]) == Some(r.error) &&
                          forall j :: 0 <= j < k ==> Visits(pod)[j].options == OldOptionsFor(oldPod, Visits(pod)[j])
  {
    var first := FirstError(Visits(pod), UpdateCheck(pod, oldPod));
    FirstUpdateViolation(pod, oldPod, Visits(pod));
    if first.Some? then Err(first.value) else Ok(AllowedResponse)
  }

  /** The first changed resource, read through `FirstError`. */
  lemma FirstUpdateViolation(pod: Pod, oldPod: Pod, vs: seq<Visit>)
    ensures FirstError(vs, UpdateCheck(pod, oldPod)).None? <==> forall i :: 0 <= i < |vs| ==> vs[i].options == OldOptionsFor(oldPod, vs[i])
    ensures FirstError(vs, UpdateCheck(pod, oldPod)).Some? ==>
              exists k :: 0 <= k < |vs| &&
                          UpdateViolation(pod, OldOptionsFor(oldPod, vs[k]), vs[k]) == FirstError(vs, UpdateCheck(pod, oldPod)) &&
                          forall j :: 0 <= j < k ==> vs[j].options == OldOptionsFor(oldPod, vs[j])
  {
    var check := UpdateCheck(pod, oldPod);
    assert forall i :: 0 <= i < |vs| ==> check(vs[i]) == UpdateViolation(pod, OldOptionsFor(oldPod, vs[i]), vs[i]);
  }

  /** `validateUpdateRequest`: no resource of the new pod that has options may
      change its GMSA name or contents. */
  method ValidateUpdateRequest(pod: Pod, oldPod: Pod) returns (r: Result<AdmissionResponse, PodAdmissionError>)
    ensures r == ValidateUpdate(pod, oldPod)
  {
    var oldPodContainerOptions: Option<ContainerOptionsMap> := None;
    var walked := IterateOverWindowsSecurityOptions(pod, oldPodContainerOptions, UpdateStep(pod, oldPod));
    WalkUpdate(pod, oldPod, Visits(pod), oldPodContainerOptions);
    if walked.Err? {
      return Err(walked.error);
    }
    return Ok(AllowedResponse);
  }

  // ---------------------------------------------------------------------------
  // validateOrMutate
  // ---------------------------------------------------------------------------

  /** Which endpoint received the request. */
  datatype WebhookOperation = Validate | Mutate

  /** `admissionV1.AdmissionRequest`, reduced to what the webhook reads: the raw
      JSON of the new and old objects is kept as text. */
  datatype AdmissionRequest = AdmissionRequest(
    uid: string,
    kind: string,
    operation: string,
    namespace: string,
    rawObject: string,
    rawOldObject: string)

  /** `json.Unmarshal` into a `corev1.Pod`: the decoded pod, or the error's text. */
  type PodDecoder = string -> Result<Pod, string>

  const CreateOperation := "CREATE"
  const UpdateOperation := "UPDATE"

  /** `unmarshallPod`: a decoding failure is a 400 that carries no pod. */
  function UnmarshallPod(decode: PodDecoder, raw: string): (r: Result<Pod, PodAdmissionError>)
    ensures decode(raw).Ok? <==> r.Ok?
    ensures r.Ok? ==> r.value == decode(raw).value
    ensures r.Err? ==> r.error == PodAdmissionError("unable to unmarshall pod JSON object: " + decode(raw).error, StatusBadRequest, None)
  {
    match decode(raw)
    case Ok(pod) => Ok(pod)
    case Err(e) => Err(PodAdmissionError("unable to unmarshall pod JSON object: " + e, StatusBadRequest, None))
  }

  /** Specification of `validateOrMutate`: only pods are handled; creations are
      validated or mutated, updates are validated against the old pod and let
      through by the mutating endpoint, and any other operation is refused. */
  function ValidateOrMutateOutcome(client: KubeClient, parse: ObjectParser, decode: PodDecoder,
                                   request: AdmissionRequest, operation: WebhookOperation)
    : (r: Result<AdmissionResponse, PodAdmissionError>)
    ensures request.kind != "Pod" ==>
              r == Err(PodAdmissionError("expected a Pod object, got a " + request.kind, StatusBadRequest, None))
    ensures request.kind == "Pod" && decode(request.rawObject).Err? ==> r == Err(UnmarshallPod(decode, request.rawObject).error)
    ensures request.kind == "Pod" && decode(request.rawObject).Ok? ==>
              var pod := decode(request.rawObject).value;
              && (request.operation == CreateOperation && operation == Validate ==> r == ValidateCreate(client, parse, pod, request.namespace))
              && (request.operation == CreateOperation && operation == Mutate ==> r == MutateCreate(client, pod))
              && (request.operation == UpdateOperation && operation == Validate ==>
                    r == match UnmarshallPod(decode, request.rawOldObject)
                         case Err(e) => Err(e)
                         case Ok(oldPod) => ValidateUpdate(pod, oldPod))
              && (request.operation == UpdateOperation && operation == Mutate ==> r == Ok(AllowedResponse))
              && (request.operation != CreateOperation && request.operation != UpdateOperation ==>
                    r == Err(PodAdmissionError("unpexpected operation " + request.operation, StatusBadRequest, Some(pod))))
  {
    if request.kind != "Pod" then
      Err(PodAdmissionError("expected a Pod object, got a " + request.kind, StatusBadRequest, None))
    else match UnmarshallPod(decode, request.rawObject)
      case Err(e) => Err(e)
      case Ok(pod) =>
        if request.operation == CreateOperation then
          (match operation
           case Validate => ValidateCreate(client, parse, pod, request.namespace)
           case Mutate => MutateCreate(client, pod))
        else if request.operation == UpdateOperation then
          if operation == Validate then
            (match UnmarshallPod(decode, request.rawOldObject)
             case Err(e) => Err(e)
             case Ok(oldPod) => ValidateUpdate(pod, oldPod))
          else Ok(AllowedResponse)
        else Err(PodAdmissionError("unpexpected operation " + request.operation, StatusBadRequest, Some(pod)))
  }

  /** `validateOrMutate`: decodes the pod and hands it to the endpoint's check. */
  method ValidateOrMutate(client: KubeClient, parse: ObjectParser, decode: PodDecoder,
                          request: AdmissionRequest, operation: WebhookOperation)
    returns (r: Result<AdmissionResponse, PodAdmissionError>)
    ensures r == ValidateOrMutateOutcome(client, parse, decode, request, operation)
  {
    if request.kind != "Pod" {
      return Err(PodAdmissionError("expected a Pod object, got a " + request.kind, StatusBadRequest, None));
    }
    var decoded := UnmarshallPod(decode, request.rawObject);
    if decoded.Err? {
      return Err(decoded.error);
    }
    var pod := decoded.value;
    if request.operation == CreateOperation {
      match operation
      case Validate =>
        r := ValidateCreateRequest(client, parse, pod, request.namespace);
      case Mutate =>
        r := MutateCreateRequest(client, pod);
    } else if request.operation == UpdateOperation {
      if operation == Validate {
        var oldDecoded := UnmarshallPod(decode, request.rawOldObject);
        if oldDecoded.Err? {
          return Err(oldDecoded.error);
        }
        r := ValidateUpdateRequest(pod, oldDecoded.value);
      } else {
        r := Ok(AllowedResponse);
      }
    } else {
      r := Err(PodAdmissionError("unpexpected operation " + request.operation, StatusBadRequest, Some(pod)));
    }
  }

  /** The part of `httpRequestToAdmissionResponse` after the review is decoded:
      the checks' outcome, an error turned into a refusal, under the request's UID. */
  method HandleAdmissionRequest(client: KubeClient, parse: ObjectParser, decode: PodDecoder,
                                request: AdmissionRequest, operation: WebhookOperation)
    returns (response: AdmissionResponse)
    ensures response.uid == request.uid
    ensures request.kind != "Pod" ==>
              !response.allowed && response.result == Some(Status("expected a Pod object, got a " + request.kind, StatusBadRequest))
    ensures request.kind == "Pod" && decode(request.rawObject).Ok? && request.operation == UpdateOperation && operation == Mutate ==>
              response == AllowedResponse.(uid := request.uid)
    ensures response == ToAdmissionResponse(ValidateOrMutateOutcome(client, parse, decode, request, operation), request.uid)
    ensures var outcome := ValidateOrMutateOutcome(client, parse, decode, request, operation);
      && (outcome.Ok? ==> response == outcome.value.(uid := request.uid))
      && (outcome.Err? ==> !response.allowed && response.patch.None?)
      && (outcome.Err? ==> response.result == Some(Status(outcome.error.message, Int32(outcome.error.code))))
      && (outcome.Err? && 0 <= outcome.error.code < 1000 ==>
            response.result == Some(Status(outcome.error.message, outcome.error.code)))
  {
    var outcome := ValidateOrMutate(client, parse, decode, request, operation);
    response := ToAdmissionResponse(outcome, request.uid);
  }
}
