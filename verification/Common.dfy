/** What several of the models use. */
module Common {

  datatype Option<T> = None | Some(value: T)

  const WORD64: nat := 0x1_0000_0000_0000_0000

  function Zeros(n: nat): (z: seq<bv8>)
    ensures |z| == n && forall i :: 0 <= i < n ==> z[i] == 0
  {
    if n == 0 then [] else Zeros(n - 1) + [0]
  }

  /** The initial contents of a zeroed array. */
  function ZeroAt(i: nat): bv8
  {
    0
  }
}
