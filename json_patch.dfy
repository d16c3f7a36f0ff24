/** The JSON Patch operations the mutating endpoint emits (an "add" operation,
    section 4.1 of RFC 6902) and their effect on a pod, restricted to the two
    paths the webhook targets: the pod-level and a container's
    `securityContext.windowsOptions.gmsaCredentialSpec`. */
module JsonPatch {
  import opened Wrappers
  import opened GoFormat
  import opened Pods

  /** One element of the patch list: the `op`, `path` and `value` keys of the Go map. */
  datatype PatchOp = PatchOp(op: string, path: string, value: string)

  const SpecPrefix := "/spec"
  const ContainersPrefix := "/spec/containers/"
  const GmsaFieldSuffix := "/securityContext/windowsOptions/gmsaCredentialSpec"
  const PodPatchPath := SpecPrefix + GmsaFieldSuffix

  /** `%d` on any int. */
  function IntString(i: int): string {
    if i < 0 then "-" + DecimalString(-i) else DecimalString(i)
  }

  /** The path of the patch that inlines the contents for the visited resource:
      `"/containers/%d"` is put between `/spec` and the field for containers. */
  function PatchPath(v: Visit): string {
    var partialPath := if v.kind == ContainerKind then "/containers/" + IntString(v.containerIndex) else "";
    SpecPrefix + partialPath + GmsaFieldSuffix
  }

  /** The field a patch path names. */
  datatype PatchTarget = PodTarget | ContainerTarget(index: nat)

  function TargetOf(v: Visit): PatchTarget
    requires v.kind == ContainerKind ==> v.containerIndex >= 0
  {
    if v.kind == PodKind then PodTarget else ContainerTarget(v.containerIndex)
  }

  /** An array index in a JSON Pointer (section 4 of RFC 6901): `0`, or digits
      without a leading zero. */
  function ParseArrayIndex(s: string): Option<nat> {
    if ParseDecimal(s).Some? && (s == "0" || s[0] != '0') then ParseDecimal(s) else None
  }

  /** Reads a patch path back into the field it names, or None for any other path. */
  function ParsePatchPath(path: string): Option<PatchTarget> {
    if path == PodPatchPath then Some(PodTarget)
    else if |path| > |ContainersPrefix| + |GmsaFieldSuffix|
         && path[..|ContainersPrefix|] == ContainersPrefix
         && path[|path| - |GmsaFieldSuffix|..] == GmsaFieldSuffix
    then
      match ParseArrayIndex(path[|ContainersPrefix|..|path| - |GmsaFieldSuffix|])
      case Some(i) => Some(ContainerTarget(i))
      case None => None
    else None
  }

  /** A container's patch path reads back as that container's index. */
  lemma {:induction false} ContainerPatchPathRoundTrip(i: nat)
    ensures ParsePatchPath(ContainersPrefix + DecimalString(i) + GmsaFieldSuffix) == Some(ContainerTarget(i))
  {
    var d := DecimalString(i);
    var path := ContainersPrefix + d + GmsaFieldSuffix;
    assert |path| > |PodPatchPath|;
    assert path[..|ContainersPrefix|] == ContainersPrefix;
    assert path[|path| - |GmsaFieldSuffix|..] == GmsaFieldSuffix;
    assert path[|ContainersPrefix|..|path| - |GmsaFieldSuffix|] == d;
    DecimalRoundTrip(i);
  }

  /** Every path the mutating endpoint writes reads back as the field of the visited resource. */
  lemma PatchPathRoundTrip(v: Visit)
    requires v.kind == ContainerKind ==> v.containerIndex >= 0
    ensures ParsePatchPath(PatchPath(v)) == Some(TargetOf(v))
  {
    if v.kind == ContainerKind {
      ContainerPatchPath(v.containerIndex);
      ContainerPatchPathRoundTrip(v.containerIndex);
    } else {
      assert PatchPath(v) == PodPatchPath;
    }
  }

  /** A container's path is the containers prefix, the index, and the field. */
  lemma ContainerPatchPath(i: nat)
    ensures SpecPrefix + ("/containers/" + IntString(i)) + GmsaFieldSuffix == ContainersPrefix + DecimalString(i) + GmsaFieldSuffix
  {
    assert ContainersPrefix == SpecPrefix + "/containers/";
    ConcatRegroup(SpecPrefix, "/containers/", DecimalString(i), GmsaFieldSuffix);
  }

  lemma ConcatRegroup<T>(a: seq<T>, b: seq<T>, c: seq<T>, d: seq<T>)
    ensures a + (b + c) + d == (a + b) + c + d
  {
  }

  /** Patches for different resources never share a path. */
  lemma PatchPathInjective(v: Visit, w: Visit)
    requires v.kind == ContainerKind ==> v.containerIndex >= 0
    requires w.kind == ContainerKind ==> w.containerIndex >= 0
    requires PatchPath(v) == PatchPath(w)
    ensures TargetOf(v) == TargetOf(w)
  {
    PatchPathRoundTrip(v);
    PatchPathRoundTrip(w);
  }

  function SetContents(o: WindowsOptions, contents: string): WindowsOptions {
    o.(gmsaCredentialSpec := Some(contents))
  }

  /** Applies one "add" operation: the member is set (replaced when present), and
      the patch fails when its parent object `windowsOptions` does not exist or
      the path is not one of the two the webhook uses. */
  function ApplyPatch(pod: Pod, p: PatchOp): (r: Option<Pod>)
    ensures r.Some? ==> r.value.name == pod.name && r.value.serviceAccountName == pod.serviceAccountName
    ensures r.Some? ==> |r.value.containers| == |pod.containers|
  {
    if p.op != "add" then None
    else match ParsePatchPath(p.path)
      case None => None
      case Some(PodTarget) =>
        if pod.windowsOptions.None? then None
        else Some(pod.(windowsOptions := Some(SetContents(pod.windowsOptions.value, p.value))))
      case Some(ContainerTarget(i)) =>
        if i >= |pod.containers| || pod.containers[i].windowsOptions.None? then None
        else
          var c := pod.containers[i];
          Some(pod.(containers := pod.containers[i := c.(windowsOptions := Some(SetContents(c.windowsOptions.value, p.value)))]))
  }

  /** Applies a patch document: the operations in order, failing if any fails. */
  function ApplyPatches(pod: Pod, ps: seq<PatchOp>): Option<Pod>
    decreases |ps|
  {
    if ps == [] then Some(pod)
    else match ApplyPatch(pod, ps[0])
      case None => None
      case Some(next) => ApplyPatches(next, ps[1..])
  }

  lemma {:induction false} ApplyPatchesAppend(pod: Pod, a: seq<PatchOp>, b: seq<PatchOp>)
    ensures ApplyPatches(pod, a + b) == match ApplyPatches(pod, a)
                                        case None => None
                                        case Some(next) => ApplyPatches(next, b)
    decreases |a|
  {
    if a == [] {
      assert a + b == b;
    } else {
      assert (a + b)[0] == a[0];
      assert (a + b)[1..] == a[1..] + b;
      if ApplyPatch(pod, a[0]).Some? {
        ApplyPatchesAppend(ApplyPatch(pod, a[0]).value, a[1..], b);
      }
    }
  }
}
