/** The slice of a Kubernetes pod the admission webhook looks at: the pod's name
    and service account, its pod-level Windows security options and, in spec
    order, each container's name and Windows security options. */
module Pods {
  import opened Wrappers

  /** `corev1.WindowsSecurityContextOptions`, reduced to its two GMSA fields. */
  datatype WindowsOptions = WindowsOptions(gmsaCredentialSpecName: Option<string>, gmsaCredentialSpec: Option<string>)

  /** What `&corev1.WindowsSecurityContextOptions{}` holds. */
  const EmptyWindowsOptions := WindowsOptions(None, None)

  /** A nil `SecurityContext` and a nil `WindowsOptions` are both `None`. */
  datatype Container = Container(name: string, windowsOptions: Option<WindowsOptions>)

  datatype Pod = Pod(name: string, serviceAccountName: string, windowsOptions: Option<WindowsOptions>, containers: seq<Container>)

  /** `gmsaResourceKind`: which resource owns the options being looked at. */
  datatype ResourceKind = PodKind | ContainerKind

  /** How `%s` prints a resource kind. */
  function KindName(kind: ResourceKind): string {
    match kind
    case PodKind => "pod"
    case ContainerKind => "container"
  }

  /** The arguments one call of the iteration callback receives: the non-nil options,
      the kind and name of their owner, and the container index (-1 for the pod). */
  datatype Visit = Visit(options: WindowsOptions, kind: ResourceKind, name: string, containerIndex: int)

  function PodVisits(pod: Pod): seq<Visit> {
    if pod.windowsOptions.Some? then [Visit(pod.windowsOptions.value, PodKind, pod.name, -1)] else []
  }

  /** The visits of the containers `cs`, whose first one has index `base` in the pod spec. */
  function ContainerVisits(cs: seq<Container>, base: nat): seq<Visit>
    decreases |cs|
  {
    if cs == [] then []
    else ContainerVisit(cs[0], base) + ContainerVisits(cs[1..], base + 1)
  }

  function ContainerVisit(c: Container, index: nat): seq<Visit> {
    if c.windowsOptions.Some? then [Visit(c.windowsOptions.value, ContainerKind, c.name, index)] else []
  }

  /** The order in which `iterateOverWindowsSecurityOptions` calls its callback. */
  function Visits(pod: Pod): seq<Visit> {
    PodVisits(pod) + ContainerVisits(pod.containers, 0)
  }

  /** Each container visit carries the options, the name and the spec index of a
      container that has options. */
  lemma {:induction false} ContainerVisitsSound(cs: seq<Container>, base: nat, k: nat)
    requires k < |ContainerVisits(cs, base)|
    ensures var v := ContainerVisits(cs, base)[k];
      && v.kind == ContainerKind
      && base <= v.containerIndex < base + |cs|
      && cs[v.containerIndex - base].windowsOptions == Some(v.options)
      && cs[v.containerIndex - base].name == v.name
    decreases |cs|
  {
    var head := ContainerVisit(cs[0], base);
    if k >= |head| {
      assert ContainerVisits(cs, base)[k] == ContainerVisits(cs[1..], base + 1)[k - |head|];
      ContainerVisitsSound(cs[1..], base + 1, k - |head|);
    }
  }

  /** Container visits come in increasing spec-index order. */
  lemma {:induction false} ContainerVisitsIncreasing(cs: seq<Container>, base: nat, k: nat, l: nat)
    requires k < l < |ContainerVisits(cs, base)|
    ensures ContainerVisits(cs, base)[k].containerIndex < ContainerVisits(cs, base)[l].containerIndex
    decreases |cs|
  {
    var head := ContainerVisit(cs[0], base);
    var rest := ContainerVisits(cs[1..], base + 1);
    assert ContainerVisits(cs, base)[l] == rest[l - |head|];
    ContainerVisitsSound(cs[1..], base + 1, l - |head|);
    if k >= |head| {
      assert ContainerVisits(cs, base)[k] == rest[k - |head|];
      ContainerVisitsIncreasing(cs[1..], base + 1, k - |head|, l - |head|);
    }
  }

  /** No container that has options is skipped. */
  lemma {:induction false} ContainerVisitsComplete(cs: seq<Container>, base: nat, j: nat)
    requires j < |cs| && cs[j].windowsOptions.Some?
    ensures exists k :: 0 <= k < |ContainerVisits(cs, base)| &&
                        ContainerVisits(cs, base)[k] == Visit(cs[j].windowsOptions.value, ContainerKind, cs[j].name, base + j)
    decreases |cs|
  {
    var head := ContainerVisit(cs[0], base);
    var rest := ContainerVisits(cs[1..], base + 1);
    if j == 0 {
      assert ContainerVisits(cs, base)[0] == head[0];
    } else {
      ContainerVisitsComplete(cs[1..], base + 1, j - 1);
      var k :| 0 <= k < |rest| && rest[k] == Visit(cs[1..][j - 1].windowsOptions.value, ContainerKind, cs[1..][j - 1].name, base + 1 + (j - 1));
      assert ContainerVisits(cs, base)[|head| + k] == rest[k];
    }
  }

  /** The walk starts with the pod-level options exactly when there are any. */
  lemma VisitsStartWithPod(pod: Pod)
    ensures pod.windowsOptions.Some? <==> |Visits(pod)| > 0 && Visits(pod)[0].kind == PodKind
    ensures pod.windowsOptions.Some? ==> Visits(pod)[0] == Visit(pod.windowsOptions.value, PodKind, pod.name, -1)
  {
    if pod.windowsOptions.None? && |Visits(pod)| > 0 {
      assert Visits(pod) == ContainerVisits(pod.containers, 0);
      ContainerVisitsSound(pod.containers, 0, 0);
    }
  }

  /** Every visit after the pod-level one is a container's, with its spec index. */
  lemma VisitIsContainer(pod: Pod, k: nat)
    requires |PodVisits(pod)| <= k < |Visits(pod)|
    ensures var v := Visits(pod)[k];
      && v.kind == ContainerKind
      && 0 <= v.containerIndex < |pod.containers|
      && pod.containers[v.containerIndex].windowsOptions == Some(v.options)
      && pod.containers[v.containerIndex].name == v.name
  {
    assert Visits(pod)[k] == ContainerVisits(pod.containers, 0)[k - |PodVisits(pod)|];
    ContainerVisitsSound(pod.containers, 0, k - |PodVisits(pod)|);
  }

  /** Visits come in increasing container-index order (the pod's -1 first). */
  lemma VisitsIncreasing(pod: Pod, k: nat, l: nat)
    requires k < l < |Visits(pod)|
    ensures Visits(pod)[k].containerIndex < Visits(pod)[l].containerIndex
  {
    var pv, cv := PodVisits(pod), ContainerVisits(pod.containers, 0);
    assert Visits(pod)[l] == cv[l - |pv|];
    ContainerVisitsSound(pod.containers, 0, l - |pv|);
    if k >= |pv| {
      assert Visits(pod)[k] == cv[k - |pv|];
      ContainerVisitsIncreasing(pod.containers, 0, k - |pv|, l - |pv|);
    }
  }

  /** No container that has options is skipped. */
  lemma VisitsComplete(pod: Pod, j: nat)
    requires j < |pod.containers| && pod.containers[j].windowsOptions.Some?
    ensures exists k :: 0 <= k < |Visits(pod)| &&
                        Visits(pod)[k] == Visit(pod.containers[j].windowsOptions.value, ContainerKind, pod.containers[j].name, j)
  {
    var pv, cv := PodVisits(pod), ContainerVisits(pod.containers, 0);
    ContainerVisitsComplete(pod.containers, 0, j);
    var k :| 0 <= k < |cv| && cv[k] == Visit(pod.containers[j].windowsOptions.value, ContainerKind, pod.containers[j].name, j);
    assert Visits(pod)[|pv| + k] == cv[k];
  }
}
