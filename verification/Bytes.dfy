/** Bytes, and unsigned numbers in big-endian order. */
module Bytes {

  type Byte = x: int | 0 <= x < 256

  function Pow256(width: nat): (p: nat)
    ensures p > 0
  {
    if width == 0 then 1 else 256 * Pow256(width - 1)
  }

  // The low `width` bytes of n, as to_be_bytes gives them.
  function Be(n: nat, width: nat): (s: seq<Byte>)
    ensures |s| == width
  {
    if width == 0 then [] else Be(n / 256, width - 1) + [n % 256]
  }

  // from_be_bytes
  function Num(s: seq<Byte>): (n: nat)
    ensures n < Pow256(|s|)
  {
    if s == [] then 0
    else
      var high: nat := Num(s[..|s| - 1]);
      assert high <= Pow256(|s| - 1) - 1;
      256 * high + s[|s| - 1] as int
  }

  lemma {:induction false} NumBe(n: nat, width: nat)
    requires n < Pow256(width)
    ensures Num(Be(n, width)) == n
  {
    if width > 0 {
      NumBe(n / 256, width - 1);
      assert Be(n, width)[..width - 1] == Be(n / 256, width - 1);
    }
  }
}
