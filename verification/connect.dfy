/**
 * The RPC framework's error and principal values: `connect.Code`,
 * `connect.NewError`, `connect.CodeOf`, and the `any` principal an
 * authentication function hands to the handlers (`authn.GetInfo`).
 */
module Connect {
  import opened GoTypes

  /** The status codes the core produces. */
  datatype Code = Unknown | InvalidArgument | Internal | Unauthenticated

  /** Wire number of a code. */
  function CodeNumber(c: Code): nat {
    match c
    case Unknown => 2
    case InvalidArgument => 3
    case Internal => 13
    case Unauthenticated => 16
  }

  /** A handler error: one built by `connect.NewError`, or a plain Go `error`. */
  datatype Error = ConnectError(code: Code, msg: string) | PlainError(msg: string)

  /** `connect.CodeOf`: the code of a connect error, `Unknown` for any other error. */
  function CodeOf(e: Error): (c: Code)
    ensures e.PlainError? ==> c == Unknown
  {
    match e
    case ConnectError(code, _) => code
    case PlainError(_) => Unknown
  }

  /**
   * The principal value stored in a request context: none at all, an `int64`
   * (as the bearer-token interceptor stores it) or an `*int64` (as the cookie
   * middleware does; `None` is a typed nil pointer).
   */
  datatype Info = NoInfo | Int64Value(id: Int64) | Int64Pointer(target: Option<Int64>)
}
