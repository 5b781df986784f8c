/** Failure-compatible wrappers shared by every module. */
module Common {
  datatype Option<+T> = None | Some(value: T)

  datatype Result<+T> = Ok(value: T) | Err {
    predicate IsFailure() { Err? }
    function PropagateFailure<U>(): Result<U> requires Err? { Result<U>.Err }
    function Extract(): T requires Ok? { value }
  }

  type Byte = b: int | 0 <= b < 256

  /** 2^64. */
  const U64_LIMIT := 0x1_0000_0000_0000_0000

  function Min(a: nat, b: nat): nat { if a <= b then a else b }

  /** All elements of `xs`, in order, as one sequence. */
  function Concat<T>(xs: seq<seq<T>>): (r: seq<T>) {
    if xs == [] then [] else Concat(xs[..|xs| - 1]) + xs[|xs| - 1]
  }

  lemma Assoc<T>(x: seq<T>, y: seq<T>, z: seq<T>)
    ensures (x + y) + z == x + (y + z)
  {
  }
}
