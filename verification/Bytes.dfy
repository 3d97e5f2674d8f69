/** Bytes, fixed-width unsigned numbers and the small wrappers every other module uses. */
module Bytes {

  type byte = b: nat | b < 256

  const U32_LIMIT: nat := 0x1_0000_0000

  type u32 = n: nat | n < U32_LIMIT

  datatype Option<+T> = None | Some(value: T)

  datatype Result<+T, +E> = Ok(value: T) | Err(error: E)

  function Min(a: nat, b: nat): (r: nat)
    ensures r <= a && r <= b && (r == a || r == b)
  {
    if a <= b then a else b
  }

  /** `saturating_sub` of the unsigned types. */
  function SatSub(a: nat, b: nat): (r: nat)
    ensures r <= a && (b <= a ==> r + b == a) && (a <= b ==> r == 0)
  {
    if b <= a then a - b else 0
  }

  /** Number of `size`-byte pieces needed to carry `n` bytes. */
  function CeilDiv(n: nat, size: nat): (r: nat)
    requires size > 0
  {
    if n == 0 then 0 else 1 + CeilDiv(n - Min(n, size), size)
  }

  /** `n` copies of the byte that pads a short Data-In transfer. */
  function Fill(n: nat): (s: seq<byte>)
    ensures |s| == n
    ensures forall i :: 0 <= i < n ==> s[i] == 0xFF
  {
    seq(n, _ => 0xFF)
  }

  function Le32(n: u32): (s: seq<byte>)
    ensures |s| == 4
  {
    [n % 256, n / 256 % 256, n / 256 / 256 % 256, n / 256 / 256 / 256]
  }

  function FromLe32(s: seq<byte>): (n: u32)
    requires |s| == 4
  {
    var b0: nat, b1: nat, b2: nat, b3: nat := s[0], s[1], s[2], s[3];
    b0 + 256 * b1 + 65536 * b2 + 16777216 * b3
  }

  lemma Le32RoundTrip(n: u32)
    ensures FromLe32(Le32(n)) == n
  {
    var n1, n2 := n / 256, n / 256 / 256;
    assert n == 256 * n1 + n % 256 && n1 == 256 * n2 + n1 % 256 && n2 == 256 * (n2 / 256) + n2 % 256;
  }

  lemma FromLe32RoundTrip(s: seq<byte>)
    requires |s| == 4
    ensures Le32(FromLe32(s)) == s
  {
    var n := FromLe32(s);
    var b0: nat, b1: nat, b2: nat, b3: nat := s[0], s[1], s[2], s[3];
    var n2 := b2 + 256 * b3;
    var n1 := b1 + 256 * n2;
    assert n == b0 + 256 * n1;
    assert n % 256 == b0 && n / 256 == n1;
    assert n1 % 256 == b1 && n1 / 256 == n2;
    assert n2 % 256 == b2 && n2 / 256 == b3;
  }
}
