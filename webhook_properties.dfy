/** Properties that relate the webhook's endpoints to each other: applying the
    mutation's JSON Patch to the pod inlines every named GMSA, the inlined pod
    passes validation when the original did, a second mutation adds nothing, and
    no two patches of one mutation share a path. */
module WebhookProperties {
  import opened Wrappers
  import opened Pods
  import opened Iteration
  import opened Json
  import opened JsonPatch
  import opened Admission
  import opened KubeClientInterface
  import opened Webhook
  import KubeClientMapping

  // ---------------------------------------------------------------------------
  // The pod the mutation is meant to produce
  // ---------------------------------------------------------------------------

  /** Options with the stored contents filled in, if the name is set and the contents are not. */
  function InlineOptions(client: KubeClient, o: WindowsOptions): (r: WindowsOptions)
    ensures r.gmsaCredentialSpecName == o.gmsaCredentialSpecName
    ensures o.gmsaCredentialSpec.Some? ==> r == o
    ensures r.gmsaCredentialSpecName.Some? ==> r.gmsaCredentialSpec.Some?
  {
    if o.gmsaCredentialSpecName.Some? && o.gmsaCredentialSpec.None?
    then SetContents(o, client.retrieveCredSpecContents(o.gmsaCredentialSpecName.value).contents)
    else o
  }

  function InlineContainer(client: KubeClient, c: Container): Container {
    if c.windowsOptions.Some? then c.(windowsOptions := Some(InlineOptions(client, c.windowsOptions.value))) else c
  }

  function InlineContainers(client: KubeClient, cs: seq<Container>): (r: seq<Container>)
    ensures |r| == |cs|
    decreases |cs|
  {
    if cs == [] then [] else [InlineContainer(client, cs[0])] + InlineContainers(client, cs[1..])
  }

  /** The pod with every named but unset GMSA contents inlined from the store. */
  function Inlined(client: KubeClient, pod: Pod): Pod {
    var windowsOptions := if pod.windowsOptions.Some? then Some(InlineOptions(client, pod.windowsOptions.value)) else None;
    pod.(windowsOptions := windowsOptions, containers := InlineContainers(client, pod.containers))
  }

  function InlineVisit(client: KubeClient, v: Visit): Visit {
    v.(options := InlineOptions(client, v.options))
  }

  function InlineVisits(client: KubeClient, vs: seq<Visit>): (r: seq<Visit>)
    ensures |r| == |vs|
    ensures forall i :: 0 <= i < |vs| ==> r[i] == InlineVisit(client, vs[i])
    decreases |vs|
  {
    if vs == [] then [] else [InlineVisit(client, vs[0])] + InlineVisits(client, vs[1..])
  }

  lemma {:induction false} InlineVisitsAppend(client: KubeClient, a: seq<Visit>, b: seq<Visit>)
    ensures InlineVisits(client, a + b) == InlineVisits(client, a) + InlineVisits(client, b)
  {
    var l, r := InlineVisits(client, a + b), InlineVisits(client, a) + InlineVisits(client, b);
    assert |l| == |r|;
    forall i | 0 <= i < |l| ensures l[i] == r[i] {
      if i < |a| {
        assert (a + b)[i] == a[i];
      } else {
        assert (a + b)[i] == b[i - |a|];
      }
    }
  }

  lemma {:induction false} InlinedContainerVisits(client: KubeClient, cs: seq<Container>, base: nat)
    ensures ContainerVisits(InlineContainers(client, cs), base) == InlineVisits(client, ContainerVisits(cs, base))
    decreases |cs|
  {
    if cs != [] {
      var ics := InlineContainers(client, cs);
      assert ics[0] == InlineContainer(client, cs[0]);
      assert ics[1..] == InlineContainers(client, cs[1..]);
      InlinedContainerVisits(client, cs[1..], base + 1);
      InlineVisitsAppend(client, ContainerVisit(cs[0], base), ContainerVisits(cs[1..], base + 1));
    }
  }

  /** The inlined pod is visited exactly as the original, with inlined options. */
  lemma InlinedVisits(client: KubeClient, pod: Pod)
    ensures Visits(Inlined(client, pod)) == InlineVisits(client, Visits(pod))
  {
    InlinedContainerVisits(client, pod.containers, 0);
    InlineVisitsAppend(client, PodVisits(pod), ContainerVisits(pod.containers, 0));
  }

  // ---------------------------------------------------------------------------
  // Applying the mutation's patch
  // ---------------------------------------------------------------------------

  lemma {:induction false} InliningPatchesAppend(client: KubeClient, a: seq<Visit>, b: seq<Visit>)
    ensures InliningPatches(client, a + b) == InliningPatches(client, a) + InliningPatches(client, b)
    decreases |a|
  {
    if a == [] {
      assert a + b == b;
    } else {
      assert (a + b)[0] == a[0];
      assert (a + b)[1..] == a[1..] + b;
      InliningPatchesAppend(client, a[1..], b);
    }
  }

  /** The patch for one container, if any, inlines that container's options. */
  lemma ApplyContainerPatch(client: KubeClient, q: Pod, c: Container, k: nat)
    requires k < |q.containers| && q.containers[k] == c
    ensures ApplyPatches(q, InliningPatches(client, ContainerVisit(c, k))) ==
              Some(q.(containers := q.containers[k := InlineContainer(client, c)]))
  {
    var head := ContainerVisit(c, k);
    var q' := q.(containers := q.containers[k := InlineContainer(client, c)]);
    if c.windowsOptions.Some? && NeedsInlining(head[0]) {
      var v := head[0];
      var p := PatchFor(v, Inlining(client, v).contents);
      PatchPathRoundTrip(v);
      assert InliningPatches(client, head) == [p];
      assert ApplyPatch(q, p) == Some(q');
      assert ApplyPatches(q, [p]) == ApplyPatches(q', []);
    } else {
      assert InliningPatches(client, head) == [];
      assert q.containers[k := c] == q.containers;
    }
  }

  lemma {:induction false} ApplyContainerPatches(client: KubeClient, q: Pod, cs: seq<Container>, k: nat)
    requires k <= |q.containers| && q.containers[k..] == cs
    ensures ApplyPatches(q, InliningPatches(client, ContainerVisits(cs, k))) ==
              Some(q.(containers := q.containers[..k] + InlineContainers(client, cs)))
    decreases |cs|
  {
    if cs == [] {
      assert q.containers[..k] + [] == q.containers;
    } else {
      var c := cs[0];
      var head, tail := ContainerVisit(c, k), ContainerVisits(cs[1..], k + 1);
      var ph, pt := InliningPatches(client, head), InliningPatches(client, tail);
      assert ContainerVisits(cs, k) == head + tail;
      InliningPatchesAppend(client, head, tail);
      ApplyPatchesAppend(q, ph, pt);
      ApplyContainerPatch(client, q, c, k);
      var q' := q.(containers := q.containers[k := InlineContainer(client, c)]);
      assert ApplyPatches(q, ph + pt) == ApplyPatches(q', pt);
      assert q'.containers[k + 1..] == cs[1..];
      ApplyContainerPatches(client, q', cs[1..], k + 1);
      assert InlineContainers(client, cs) == [InlineContainer(client, c)] + InlineContainers(client, cs[1..]);
      UpdatedPrefixConcat(q.containers, k, InlineContainer(client, c), InlineContainers(client, cs[1..]));
    }
  }

  /** Replacing the k-th element and keeping the first k + 1 is the first k,
      then the new element. */
  lemma UpdatedPrefixConcat<T>(xs: seq<T>, k: nat, x: T, rest: seq<T>)
    requires k < |xs|
    ensures xs[k := x][..k + 1] + rest == xs[..k] + ([x] + rest)
  {
    assert xs[k := x][..k + 1] == xs[..k] + [x];
  }

  /** The mutation's patch is a well-formed JSON Patch for the pod: applying it
      sets exactly the named but unset contents, each to what the store holds. */
  lemma ApplyInliningPatches(client: KubeClient, pod: Pod)
    ensures ApplyPatches(pod, InliningPatches(client, Visits(pod))) == Some(Inlined(client, pod))
  {
    var pv, cv := PodVisits(pod), ContainerVisits(pod.containers, 0);
    InliningPatchesAppend(client, pv, cv);
    ApplyPatchesAppend(pod, InliningPatches(client, pv), InliningPatches(client, cv));
    var q := pod.(windowsOptions := Inlined(client, pod).windowsOptions);
    if pod.windowsOptions.Some? && NeedsInlining(pv[0]) {
      var v := pv[0];
      PatchPathRoundTrip(v);
      assert InliningPatches(client, pv) == [PatchFor(v, Inlining(client, v).contents)];
      assert ApplyPatch(pod, PatchFor(v, Inlining(client, v).contents)) == Some(q);
    } else {
      assert InliningPatches(client, pv) == [];
      assert q == pod;
    }
    assert ApplyPatches(pod, InliningPatches(client, pv)) == Some(q);
    assert q.containers[0..] == pod.containers;
    ApplyContainerPatches(client, q, pod.containers, 0);
    assert q.containers[..0] + InlineContainers(client, pod.containers) == Inlined(client, pod).containers;
  }

  // ---------------------------------------------------------------------------
  // Mutation followed by validation, and a second mutation
  // ---------------------------------------------------------------------------

  /** A pod that passes validation and is mutated successfully still passes
      validation once its patch is applied: each inlined contents is the stored
      text itself and compares equal without being parsed. */
  lemma MutateThenValidate(client: KubeClient, parse: ObjectParser, pod: Pod, namespace: string)
    requires ValidateCreate(client, parse, pod, namespace).Ok?
    requires MutateCreate(client, pod).Ok?
    ensures MutateCreate(client, pod).value.patch.Some? ==>
              ApplyPatches(pod, MutateCreate(client, pod).value.patch.value) == Some(Inlined(client, pod))
    ensures ValidateCreate(client, parse, Inlined(client, pod), namespace) == Ok(AllowedResponse)
  {
    ApplyInliningPatches(client, pod);
    var inl := Inlined(client, pod);
    InlinedVisits(client, pod);
    var vs := Visits(pod);
    forall i | 0 <= i < |Visits(inl)|
      ensures ValidateCreateOptions(client, parse, inl, namespace, Visits(inl)[i]).None?
    {
      assert Visits(inl)[i] == InlineVisit(client, vs[i]);
      assert ValidateCreateOptions(client, parse, pod, namespace, vs[i]).None?;
      InlinedVisitValid(client, parse, pod, inl, namespace, vs[i]);
    }
  }

  /** One visited resource that passed validation still passes once inlined,
      provided its retrieval did not fail. */
  lemma InlinedVisitValid(client: KubeClient, parse: ObjectParser, pod: Pod, inl: Pod, namespace: string, v: Visit)
    requires inl.serviceAccountName == pod.serviceAccountName
    requires ValidateCreateOptions(client, parse, pod, namespace, v).None?
    requires NeedsInlining(v) ==> Inlining(client, v).err.None?
    ensures ValidateCreateOptions(client, parse, inl, namespace, InlineVisit(client, v)).None?
  {
    if NeedsInlining(v) {
      var contents := Inlining(client, v).contents;
      assert InlineVisit(client, v).options.gmsaCredentialSpec == Some(contents);
      assert CompareCredSpecContents(parse, contents, contents).equal;
    }
  }

  /** Mutating an already mutated pod adds nothing: no patch and no patch type. */
  lemma MutateIdempotent(client: KubeClient, pod: Pod)
    ensures MutateCreate(client, Inlined(client, pod)) == Ok(AllowedResponse)
  {
    var inl := Inlined(client, pod);
    InlinedVisits(client, pod);
    var ws := Visits(inl);
    assert forall i :: 0 <= i < |ws| ==> !NeedsInlining(ws[i]);
    assert forall i :: 0 <= i < |ws| ==> InliningError(client, inl)(ws[i]).None?;
    var needing := NeedingInlining(ws);
    NothingToInline(client, pod, ws);
  }

  lemma {:induction false} NothingToInline(client: KubeClient, pod: Pod, vs: seq<Visit>)
    requires forall i :: 0 <= i < |vs| ==> !NeedsInlining(vs[i])
    ensures NeedingInlining(vs) == [] && InliningPatches(client, vs) == []
    ensures FirstError(vs, InliningError(client, pod)).None?
    decreases |vs|
  {
    if vs != [] {
      NothingToInline(client, pod, vs[1..]);
    }
  }

  /** A pod that names no GMSA and sets no contents is let through by both
      endpoints without consulting the cluster, and without a patch. */
  lemma NoGmsaAllowed(client: KubeClient, parse: ObjectParser, pod: Pod, namespace: string)
    requires forall i :: 0 <= i < |Visits(pod)| ==> Visits(pod)[i].options == EmptyWindowsOptions
    ensures ValidateCreate(client, parse, pod, namespace) == Ok(AllowedResponse)
    ensures MutateCreate(client, pod) == Ok(AllowedResponse)
  {
    var vs := Visits(pod);
    assert forall i :: 0 <= i < |vs| ==> InliningError(client, pod)(vs[i]).None?;
    var needing := NeedingInlining(vs);
    NothingToInline(client, pod, vs);
  }

  // ---------------------------------------------------------------------------
  // Distinct patch paths
  // ---------------------------------------------------------------------------

  /** The pod's visit carries index -1 and containers non-negative indices. */
  predicate WellIndexed(vs: seq<Visit>) {
    forall i :: 0 <= i < |vs| ==> (vs[i].kind == PodKind <==> vs[i].containerIndex == -1) && vs[i].containerIndex >= -1
  }

  predicate IndicesIncrease(vs: seq<Visit>) {
    forall i, j :: 0 <= i < j < |vs| ==> vs[i].containerIndex < vs[j].containerIndex
  }

  lemma VisitsWellOrdered(pod: Pod)
    ensures WellIndexed(Visits(pod)) && IndicesIncrease(Visits(pod))
  {
    var vs := Visits(pod);
    forall i | 0 <= i < |vs|
      ensures (vs[i].kind == PodKind <==> vs[i].containerIndex == -1) && vs[i].containerIndex >= -1
    {
      if i < |PodVisits(pod)| {
        VisitsStartWithPod(pod);
      } else {
        VisitIsContainer(pod, i);
      }
    }
    forall i, j | 0 <= i < j < |vs| ensures vs[i].containerIndex < vs[j].containerIndex {
      VisitsIncreasing(pod, i, j);
    }
  }

  lemma {:induction false} NeedingInliningOrdered(vs: seq<Visit>)
    requires IndicesIncrease(vs)
    ensures IndicesIncrease(NeedingInlining(vs))
    decreases |vs|
  {
    if vs != [] {
      assert IndicesIncrease(vs[1..]) by {
        forall i, j | 0 <= i < j < |vs[1..]| ensures vs[1..][i].containerIndex < vs[1..][j].containerIndex {
          assert vs[1..][i] == vs[i + 1] && vs[1..][j] == vs[j + 1];
        }
      }
      NeedingInliningOrdered(vs[1..]);
      var rest := NeedingInlining(vs[1..]);
      forall j | 0 <= j < |rest| ensures vs[0].containerIndex < rest[j].containerIndex {
        var k :| 0 <= k < |vs[1..]| && vs[1..][k] == rest[j];
        assert vs[1..][k] == vs[k + 1];
      }
    }
  }

  /** No two patches of one mutation have the same path, so their order does not
      matter and none overwrites another. */
  lemma PatchPathsDistinct(client: KubeClient, pod: Pod, i: nat, j: nat)
    requires i < j < |InliningPatches(client, Visits(pod))|
    ensures InliningPatches(client, Visits(pod))[i].path != InliningPatches(client, Visits(pod))[j].path
  {
    var vs := Visits(pod);
    InliningPatchesMatch(client, vs);
    VisitsWellOrdered(pod);
    NeedingInliningOrdered(vs);
    var needing := NeedingInlining(vs);
    var v, w := needing[i], needing[j];
    assert v in vs && w in vs;
    assert v.containerIndex < w.containerIndex;
    if PatchPath(v) == PatchPath(w) {
      PatchPathInjective(v, w);
      assert false;
    }
  }

  // ---------------------------------------------------------------------------
  // The webhook talking to the cluster
  // ---------------------------------------------------------------------------

  /** Mutating a pod that names a cred spec the cluster does not have is refused
      with 404 and the store's message. */
  lemma MissingCredSpecRefusesMutation(review: KubeClientMapping.AccessReview -> KubeClientMapping.ReviewOutcome,
                                      get: string -> KubeClientMapping.GetOutcome, marshal: KubeClientMapping.Marshaller,
                                      pod: Pod, credSpecName: string)
    requires pod.windowsOptions == Some(WindowsOptions(Some(credSpecName), None))
    requires get(credSpecName).GetError? && KubeClientMapping.IsNotFoundError(get(credSpecName).message)
    ensures MutateCreate(KubeClientMapping.ClientOf(review, get, marshal), pod) ==
              Err(PodAdmissionError("cred spec " + credSpecName + " does not exist", KubeClientMapping.StatusNotFound, Some(pod)))
  {
    var client := KubeClientMapping.ClientOf(review, get, marshal);
    VisitsStartWithPod(pod);
    var v := Visits(pod)[0];
    assert NeedsInlining(v);
    assert Inlining(client, v) == KubeClientMapping.RetrieveCredSpecContents(get, marshal, credSpecName);
    assert Inlining(client, v).err.Some?;
  }

  /** Validating a pod whose service account the access review does not allow is
      refused with 403, the review's reason being quoted in the message. */
  lemma UnauthorizedServiceAccountRefused(review: KubeClientMapping.AccessReview -> KubeClientMapping.ReviewOutcome,
                                         get: string -> KubeClientMapping.GetOutcome, marshal: KubeClientMapping.Marshaller,
                                         parse: ObjectParser, pod: Pod, namespace: string, credSpecName: string)
    requires pod.windowsOptions.Some? && pod.windowsOptions.value.gmsaCredentialSpecName == Some(credSpecName)
    requires review(KubeClientMapping.AccessReviewFor(pod.serviceAccountName, namespace, credSpecName)).ReviewStatus?
    requires !review(KubeClientMapping.AccessReviewFor(pod.serviceAccountName, namespace, credSpecName)).allowed
    ensures ValidateCreate(KubeClientMapping.ClientOf(review, get, marshal), parse, pod, namespace) ==
              Err(PodAdmissionError(
                NotAuthorizedMessage(pod.serviceAccountName, credSpecName,
                  review(KubeClientMapping.AccessReviewFor(pod.serviceAccountName, namespace, credSpecName)).reason),
                StatusForbidden, Some(pod)))
  {
    var client := KubeClientMapping.ClientOf(review, get, marshal);
    VisitsStartWithPod(pod);
    assert !client.isAuthorizedToUseCredSpec(pod.serviceAccountName, namespace, credSpecName).authorized;
    assert ValidateCreateOptions(client, parse, pod, namespace, Visits(pod)[0]).Some?;
  }

  // ---------------------------------------------------------------------------
  // What the update check does not compare
  // ---------------------------------------------------------------------------

  /** Only the resources of the updated pod are compared: an update that drops a
      container's GMSA settings is allowed. */
  lemma RemovedBlockNotCompared()
    ensures var oldPod := Pod("p", "sa", None, [Container("c", Some(WindowsOptions(Some("x"), Some("{}"))))]);
            var pod := Pod("p", "sa", None, [Container("c", None)]);
            ValidateUpdate(pod, oldPod) == Ok(AllowedResponse)
  {
    var pod := Pod("p", "sa", None, [Container("c", None)]);
    assert Visits(pod) == [];
  }
}
