/** `kubeClientInterface`: the two questions the admission checks ask the cluster. */
module KubeClientInterface {
  import opened Wrappers

  /** The `(authorized, reason)` answer of `isAuthorizedToUseCredSpec`. */
  datatype Authorization = Authorization(authorized: bool, reason: string)

  /** The `(contents, httpCode, err)` answer of `retrieveCredSpecContents`; a nil
      error is `None`. */
  datatype Retrieval = Retrieval(contents: string, code: int, err: Option<string>)

  /** A client: `isAuthorizedToUseCredSpec(serviceAccountName, namespace, credSpecName)`
      and `retrieveCredSpecContents(credSpecName)`. The request context is not modelled. */
  datatype KubeClient = KubeClient(
    isAuthorizedToUseCredSpec: (string, string, string) -> Authorization,
    retrieveCredSpecContents: string -> Retrieval)
}
