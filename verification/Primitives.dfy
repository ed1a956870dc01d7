/** Types shared by all parts of the model. */
module Primitives {

  type Felt = nat

  datatype Option<+T> = None | Some(value: T)

  datatype Result<+T, +E> = Ok(value: T) | Err(error: E)

  /** At most the first `n` elements. */
  function Taken<T>(s: seq<T>, n: nat): seq<T> {
    if |s| <= n then s else s[..n]
  }
}
