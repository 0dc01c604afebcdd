/** Vocabulary shared by every other module: options, status codes and the width of `size_t`. */
module Prelude {

  datatype Option<+T> = None | Some(value: T)

  /** The status codes an API call can return. */
  datatype Status =
    | Ok
    | InvalidArgument
    | InvalidTopology
    | Unsupported
    | OutOfMemory
    | BackendError
    | InternalError

  /** Largest value of the 64-bit `size_t`. */
  const SIZE_MAX: nat := 0xFFFF_FFFF_FFFF_FFFF

  /** A `size_t`. */
  type Size = n: nat | n <= SIZE_MAX

  /** Addition on `size_t`: silently reduced modulo 2^64. */
  function WrapAdd(a: Size, b: Size): Size {
    (a + b) % (SIZE_MAX + 1)
  }

  /** A subset is no larger, and one of the same size is the whole set. */
  lemma SubsetSize<T>(a: set<T>, b: set<T>)
    requires a <= b
    ensures |a| <= |b|
    ensures |a| == |b| ==> a == b
  {
    assert b == a + (b - a);
  }
}
