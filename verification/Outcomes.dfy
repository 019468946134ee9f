/** Optional values, and the errors the operator's core reports. */
module Outcomes {

  datatype Option<+T> = None | Some(value: T)

  datatype Error =
    | InvalidZone
    | InvalidHost
    | InvalidVaultName
    | UnknownGrouping
    | NoCertificates
    | UnparsableCertificate
    | NoPrivateKey
    | KeyMismatch
    | Expired
    | NotYetValid
    | NoDNSNames
    | SourceUnavailable
    | EncodingFailed
    | VaultUnavailable
    | DiscoveryFailed
    | ClusterUnavailable

  datatype Result<+T> = Ok(value: T) | Err(error: Error) {
    predicate IsFailure() {
      Err?
    }

    function PropagateFailure<U>(): Result<U>
      requires Err?
    {
      Err(error)
    }

    function Extract(): T
      requires Ok?
    {
      value
    }
  }
}
