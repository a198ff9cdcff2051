/** Shared vocabulary: optional values, sequence ends, and the error numbers of the library. */
module Basics {

  datatype Option<+T> = None | Some(value: T)

  const OK: int := 0
  const ERROR: int := -1
  const EIO: int := 5
  const EAGAIN: int := 11
  const ENOMEM: int := 12
  const EINVAL: int := 22

  function Min(a: nat, b: nat): nat { if a <= b then a else b }

  function Front<T>(s: seq<T>): seq<T>
    requires s != []
  {
    s[..|s| - 1]
  }

  function Last<T>(s: seq<T>): T
    requires s != []
  {
    s[|s| - 1]
  }
}
