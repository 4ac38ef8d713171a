/** Vocabulary shared by the inventory and buildplate modules: optional values,
    identifiers, C#'s 32-bit `int` arithmetic and the first-match lookup of
    `List<T>.IndexOf`. */
module Common {

  /** A value that may be absent (a C# reference that may be null). */
  datatype Option<T> = None | Some(value: T)

  /** Guids and the string ids of instances and shares are only ever compared
      for equality and concatenated, so their text stands for them. */
  type Guid = string

  /** C#'s `int`. */
  type Int32 = x: int | -0x8000_0000 <= x < 0x8000_0000

  /** The unchecked (wrapping) 32-bit value of a sum or difference of two
      `Int32` values; exact whenever the true value fits. */
  function Wrap(x: int): (r: Int32)
    requires -0x1_0000_0000 <= x < 0x1_0000_0000
    ensures r == x || r == x - 0x1_0000_0000 || r == x + 0x1_0000_0000
    ensures -0x8000_0000 <= x < 0x8000_0000 ==> r == x
  {
    if x >= 0x8000_0000 then x - 0x1_0000_0000
    else if x < -0x8000_0000 then x + 0x1_0000_0000
    else x
  }

  /** `a + b` on C# ints. */
  function Add32(a: Int32, b: Int32): Int32 { Wrap(a + b) }

  /** `a - b` on C# ints. */
  function Sub32(a: Int32, b: Int32): Int32 { Wrap(a - b) }

  /** `List<T>.IndexOf`: the position of the first occurrence of `x`, or -1. */
  function IndexOf<T(==)>(s: seq<T>, x: T): (k: int)
    ensures -1 <= k < |s|
    ensures k >= 0 ==> s[k] == x && x !in s[..k]
    ensures k < 0 <==> x !in s
  {
    if |s| == 0 then -1
    else if s[0] == x then 0
    else
      var k := IndexOf(s[1..], x);
      if k < 0 then -1
      else
        assert s[..k + 1] == [s[0]] + s[1..][..k];
        k + 1
  }

  /** No value occurs twice. */
  predicate NoDuplicates<T(==)>(s: seq<T>) {
    forall i, j :: 0 <= i < j < |s| ==> s[i] != s[j]
  }
}
