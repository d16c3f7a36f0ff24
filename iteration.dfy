/** `iterateOverWindowsSecurityOptions`: the walk over a pod's Windows security
    options that every admission check is built on. The Go callback closes over
    mutable variables of its caller (the patch list of the mutating endpoint, the
    lazily built map of the update check); here that captured state is threaded
    through the walk as a value of type `S`. */
module Iteration {
  import opened Wrappers
  import opened Pods

  /** Specification of the walk: call `f` on each visit in order, stop at the first error. */
  function Walk<S, E>(vs: seq<Visit>, s: S, f: (S, Visit) -> Result<S, E>): Result<S, E>
    decreases |vs|
  {
    if vs == [] then Ok(s)
    else match f(s, vs[0])
      case Err(e) => Err(e)
      case Ok(next) => Walk(vs[1..], next, f)
  }

  /** Walking a concatenation is walking the first part, then the second from where it left off. */
  lemma {:induction false} WalkAppend<S, E>(a: seq<Visit>, b: seq<Visit>, s: S, f: (S, Visit) -> Result<S, E>)
    ensures Walk(a + b, s, f) == match Walk(a, s, f)
                                 case Err(e) => Err(e)
                                 case Ok(next) => Walk(b, next, f)
    decreases |a|
  {
    if a == [] {
      assert a + b == b;
    } else {
      assert (a + b)[0] == a[0];
      assert (a + b)[1..] == a[1..] + b;
      if f(s, a[0]).Ok? {
        WalkAppend(a[1..], b, f(s, a[0]).value, f);
      }
    }
  }

  /** A callback that keeps no state of its own: it only says whether a visit fails. */
  function Lift<S, E>(check: Visit -> Option<E>): (S, Visit) -> Result<S, E> {
    (s: S, v: Visit) => if check(v).Some? then Err(check(v).value) else Ok(s)
  }

  /** The error of the first visit that fails `check`, if any. */
  function FirstError<E>(vs: seq<Visit>, check: Visit -> Option<E>): (r: Option<E>)
    ensures r.None? <==> forall i :: 0 <= i < |vs| ==> check(vs[i]).None?
    ensures r.Some? ==> exists k :: 0 <= k < |vs| && check(vs[k]) == r && forall j :: 0 <= j < k ==> check(vs[j]).None?
    decreases |vs|
  {
    if vs == [] then None
    else if check(vs[0]).Some? then check(vs[0])
    else
      var r := FirstError(vs[1..], check);
      assert forall i :: 1 <= i < |vs| ==> vs[i] == vs[1..][i - 1];
      assert r.Some? ==> exists k :: 0 <= k < |vs[1..]| && check(vs[1..][k]) == r && forall j :: 0 <= j < k ==> check(vs[1..][j]).None?;
      assert r.Some? ==> exists k :: 1 <= k < |vs| && check(vs[k]) == r && forall j :: 1 <= j < k ==> check(vs[j]).None?;
      r
  }

  /** With a stateless callback the walk fails exactly with the first failing visit's error. */
  lemma {:induction false} WalkLift<S, E>(vs: seq<Visit>, s: S, check: Visit -> Option<E>)
    ensures Walk(vs, s, Lift(check)) == if FirstError(vs, check).Some? then Err(FirstError(vs, check).value) else Ok(s)
    decreases |vs|
  {
    if vs != [] && check(vs[0]).None? {
      WalkLift(vs[1..], s, check);
    }
  }

  /** The loop of `iterateOverWindowsSecurityOptions`: the pod-level options first
      (index -1) when set, then each container that has options, with its index;
      the first error returned by `f` ends the loop and is returned unchanged. */
  method IterateOverWindowsSecurityOptions<S, E>(pod: Pod, s0: S, f: (S, Visit) -> Result<S, E>) returns (r: Result<S, E>)
    ensures r == Walk(Visits(pod), s0, f)
  {
    var cs := pod.containers;
    var s := s0;
    if pod.windowsOptions.Some? {
      var v := Visit(pod.windowsOptions.value, PodKind, pod.name, -1);
      assert Visits(pod) == [v] + ContainerVisits(cs, 0);
      var step := f(s, v);
      if step.Err? {
        return Err(step.error);
      }
      s := step.value;
    } else {
      assert Visits(pod) == ContainerVisits(cs, 0);
    }
    assert cs[0..] == cs;
    for i := 0 to |cs|
      invariant Walk(Visits(pod), s0, f) == Walk(ContainerVisits(cs[i..], i), s, f)
    {
      assert cs[i..][1..] == cs[i + 1..];
      var c := cs[i];
      if c.windowsOptions.Some? {
        var v := Visit(c.windowsOptions.value, ContainerKind, c.name, i);
        assert ContainerVisits(cs[i..], i) == [v] + ContainerVisits(cs[i + 1..], i + 1);
        var step := f(s, v);
        if step.Err? {
          return Err(step.error);
        }
        s := step.value;
      } else {
        assert ContainerVisits(cs[i..], i) == ContainerVisits(cs[i + 1..], i + 1);
      }
    }
    return Ok(s);
  }
}
