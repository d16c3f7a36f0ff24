/** The admission vocabulary: the error the checks return (`podAdmissionError`),
    the `AdmissionResponse` sent back to the API server, and its construction from
    an error by `deniedAdmissionResponse`. */
module Admission {
  import opened Wrappers
  import opened Pods
  import opened JsonPatch

  /** `podAdmissionError`: the error's text, the HTTP code to answer with, and the
      pod it concerns (nil when the request could not be read as a pod). */
  datatype PodAdmissionError = PodAdmissionError(message: string, code: int, pod: Option<Pod>)

  /** `metav1.Status`, reduced to the two fields the webhook sets. */
  datatype Status = Status(message: string, code: int)

  datatype PatchType = JSONPatch

  /** `admissionV1.AdmissionResponse`. The patch is kept as the list of operations
      `json.Marshal` turns into the `Patch` bytes. */
  datatype AdmissionResponse = AdmissionResponse(
    uid: string,
    allowed: bool,
    result: Option<Status>,
    patch: Option<seq<PatchOp>>,
    patchType: Option<PatchType>)

  /** `&admissionV1.AdmissionResponse{Allowed: true}`. */
  const AllowedResponse := AdmissionResponse("", true, None, None, None)

  /** The `error` given to `deniedAdmissionResponse`: a `*podAdmissionError`, or
      any other error, which carries no code. */
  datatype DeniedError = PodError(admissionError: PodAdmissionError) | OtherError(message: string)

  function ErrorMessage(err: DeniedError): string {
    match err
    case PodError(e) => e.message
    case OtherError(m) => m
  }

  const TwoTo31: int := 0x8000_0000
  const TwoTo32: int := 0x1_0000_0000

  /** Go's `int32(code)` conversion: the low 32 bits, read as two's complement. */
  function Int32(n: int): (r: int)
    ensures -TwoTo31 <= r < TwoTo31
    ensures (n - r) % TwoTo32 == 0
  {
    var m := n % TwoTo32;
    if m >= TwoTo31 then m - TwoTo32 else m
  }

  /** A code that fits in 32 bits, such as every HTTP status code, is kept unchanged. */
  lemma Int32InRange(n: int)
    ensures -TwoTo31 <= n < TwoTo31 ==> Int32(n) == n
  {
    if -TwoTo31 <= n < 0 {
      assert (n + TwoTo32) % TwoTo32 == n % TwoTo32;
    }
  }

  /** The code `deniedAdmissionResponse` answers with: the first explicit code if
      one is given, else the podAdmissionError's code, else 0. */
  function DeniedCode(err: DeniedError, httpCode: seq<int>): (code: int)
    ensures |httpCode| > 0 ==> code == httpCode[0]
    ensures |httpCode| == 0 && err.PodError? ==> code == err.admissionError.code
    ensures |httpCode| == 0 && err.OtherError? ==> code == 0
  {
    if |httpCode| > 0 then httpCode[0]
    else if err.PodError? then err.admissionError.code
    else 0
  }

  /** `deniedAdmissionResponse(err, httpCode...)`: a refusal whose status carries
      the error's text and the code, converted to int32. */
  function DeniedAdmissionResponse(err: DeniedError, httpCode: seq<int>): (r: AdmissionResponse)
    ensures !r.allowed && r.patch.None? && r.patchType.None? && r.uid == "" && r.result.Some?
    ensures err.PodError? ==> r.result.value.message == err.admissionError.message
    ensures err.OtherError? ==> r.result.value.message == err.message
    ensures |httpCode| > 0 ==> r.result.value.code == Int32(httpCode[0])
    ensures |httpCode| == 0 && err.PodError? ==> r.result.value.code == Int32(err.admissionError.code)
    ensures |httpCode| == 0 && err.OtherError? ==> r.result.value.code == 0
  {
    AdmissionResponse("", false, Some(Status(ErrorMessage(err), Int32(DeniedCode(err, httpCode)))), None, None)
  }

  /** The refusal built from a podAdmissionError alone answers with exactly that
      error's status code and message, and the explicit code always wins over it. */
  lemma DeniedKeepsStatusCode(e: PodAdmissionError, httpCode: seq<int>)
    requires 0 <= e.code < 1000
    requires forall i :: 0 <= i < |httpCode| ==> 0 <= httpCode[i] < 1000
    ensures DeniedAdmissionResponse(PodError(e), []).result == Some(Status(e.message, e.code))
    ensures |httpCode| > 0 ==> DeniedAdmissionResponse(PodError(e), httpCode).result == Some(Status(e.message, httpCode[0]))
  {
    Int32InRange(e.code);
    if |httpCode| > 0 {
      Int32InRange(httpCode[0]);
    }
  }

  /** The tail of `httpRequestToAdmissionResponse`: the outcome of the checks, an
      error turned into a refusal, answered under the request's UID. */
  function ToAdmissionResponse(outcome: Result<AdmissionResponse, PodAdmissionError>, uid: string): (r: AdmissionResponse)
    ensures r.uid == uid
    ensures outcome.Ok? ==> r == outcome.value.(uid := uid)
    ensures outcome.Err? ==> !r.allowed && r.patch.None?
    ensures outcome.Err? ==> r.result == Some(Status(outcome.error.message, Int32(outcome.error.code)))
    ensures outcome.Err? && 0 <= outcome.error.code < 1000 ==>
              r.result == Some(Status(outcome.error.message, outcome.error.code))
  {
    match outcome
    case Ok(response) => response.(uid := uid)
    case Err(e) =>
      Int32InRange(e.code);
      DeniedAdmissionResponse(PodError(e), []).(uid := uid)
  }
}
