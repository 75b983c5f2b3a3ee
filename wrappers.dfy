/** Option, Result and the error values of the package-acquisition engine. */
module Wrappers {

  datatype Option<+T> = None | Some(value: T)

  /** The errors the modelled Go code returns, one constructor per distinct `return ..., err`. */
  datatype Error =
    | UnexpectedChecksum(checksum: string)   // checksum without the "Q1" tag
    | BadBase64                              // base64.StdEncoding.DecodeString failed
    | NotExist(path: string)                 // os.Stat failed: the file is not there
    | ControlUnreadable(path: string)        // the control archive could not be read for "datahash"
    | DatahashCount(count: nat)              // "saw %d datahash values"
    | BadHex                                 // hex.DecodeString failed
    | CacheDirFailed                         // cacheDirForPackage failed
    | MkdirFailed(dir: string)               // "unable to create cache directory"
    | FetchFailed(name: string)              // "fetching package"
    | ExpandFailed(name: string)             // "expanding" (archive could not be split)
    | ExpansionMissing(name: string)         // "expansion of %s failed" (producer left a nil slot)
    | PkgInfoUnreadable(name: string)        // "failed to read .PKGINFO"
    | InstallFailed(name: string)            // "installing %s"

  datatype Result<+T> = Ok(value: T) | Err(error: Error) {
    predicate IsFailure() { Err? }

    function PropagateFailure<U>(): Result<U>
      requires Err?
    {
      Err(error)
    }

    function Extract(): T
      requires Ok?
    {
      value
    }
  }
}
