/** Types shared by every module. */
module Common {

  datatype Option<+T> = None | Some(value: T)

  type byte = b: int | 0 <= b < 0x100

  /** Some lines of the repository depart from what the code around them sets up.
      Every definition that contains such a line takes a Form:
      Written follows the line as it stands, Intended follows the evident intent.
      README.md lists the lines. */
  datatype Form = Written | Intended

  const U32: nat := 0x1_0000_0000

  /** The TCP option that fills a byte. */
  const NOOP: byte := 1

  function Min(a: int, b: int): int {
    if a <= b then a else b
  }

  function Repeat<T>(x: T, n: nat): (r: seq<T>)
    ensures |r| == n && forall i :: 0 <= i < n ==> r[i] == x
  {
    if n == 0 then [] else Repeat(x, n - 1) + [x]
  }

  function Max(a: int, b: int): int {
    if a >= b then a else b
  }
}
