/** Byte strings and the fixed-width big-endian integers that the wire and key formats are built from. */
module Bytes {
  import opened Sequences

  type Byte = b: int | 0 <= b < 256
  type Bytes = seq<Byte>

  const TWO_64: int := 0x1_0000_0000_0000_0000
  const TWO_32: int := 0x1_0000_0000

  function Pow256(width: nat): (p: int)
    ensures p > 0
  {
    if width == 0 then 1 else 256 * Pow256(width - 1)
  }

  lemma Widths()
    ensures Pow256(2) == 65536 && Pow256(4) == TWO_32 && Pow256(8) == TWO_64
  {
  }

  /** The `k`-th base-256 digit of `n`, least significant first; negative numbers are in two's complement. */
  function Digit(n: int, k: nat): Byte
    decreases k
  {
    if k == 0 then n % 256 else Digit(n / 256, k - 1)
  }

  /** The low `width` bytes of `n`, most significant first, as Go's `binary.BigEndian` writes them. */
  function BigEndian(n: int, width: nat): (r: Bytes)
    ensures |r| == width
  {
    seq(width, i requires 0 <= i < width => Digit(n, width - 1 - i))
  }

  lemma BigEndianStep(n: int, width: nat)
    requires width > 0
    ensures BigEndian(n, width) == BigEndian(n / 256, width - 1) + [n % 256]
  {
    forall i | 0 <= i < width
      ensures BigEndian(n, width)[i] == (BigEndian(n / 256, width - 1) + [n % 256])[i]
    {
      assert BigEndian(n, width)[i] == Digit(n, width - 1 - i);
    }
  }

  function ReadBigEndian(s: Bytes): (n: int)
    ensures n >= 0
  {
    if s == [] then 0 else ReadBigEndian(s[..|s| - 1]) * 256 + s[|s| - 1] as int
  }

  /** Numbers less than 256^width apart have different encodings. */
  lemma {:induction false} BigEndianInjective(m: int, n: int, width: nat)
    requires BigEndian(m, width) == BigEndian(n, width)
    requires -Pow256(width) < m - n < Pow256(width)
    ensures m == n
    decreases width
  {
    if width > 0 {
      var a, b := BigEndian(m / 256, width - 1), BigEndian(n / 256, width - 1);
      BigEndianStep(m, width);
      BigEndianStep(n, width);
      SplitConcat(a, b, [m % 256], [n % 256]);
      assert m - n == 256 * (m / 256 - n / 256);
      BigEndianInjective(m / 256, n / 256, width - 1);
    }
  }

  lemma {:induction false} ReadWrite(n: int, width: nat)
    requires 0 <= n < Pow256(width)
    ensures ReadBigEndian(BigEndian(n, width)) == n
    decreases width
  {
    if width > 0 {
      var r := BigEndian(n, width);
      BigEndianStep(n, width);
      assert r[..|r| - 1] == BigEndian(n / 256, width - 1);
      ReadWrite(n / 256, width - 1);
    }
  }

  lemma {:induction false} WriteRead(s: Bytes)
    ensures 0 <= ReadBigEndian(s) < Pow256(|s|)
    ensures BigEndian(ReadBigEndian(s), |s|) == s
    decreases |s|
  {
    if s != [] {
      var front, last := s[..|s| - 1], s[|s| - 1];
      WriteRead(front);
      assert ReadBigEndian(s) / 256 == ReadBigEndian(front);
      assert s == front + [last];
      BigEndianStep(ReadBigEndian(s), |s|);
    }
  }
}
