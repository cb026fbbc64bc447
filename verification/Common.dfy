/** Optional values, and small text functions that several parts share. */
module Common {
  datatype Option<+T> = None | Some(value: T)

  /** A natural number in decimal digits. */
  function Decimal(n: nat): string {
    if n < 10 then ['0' + n as char] else Decimal(n / 10) + ['0' + (n % 10) as char]
  }

  /** What a text of decimal digits stands for. */
  function ReadDecimal(s: string): int {
    if s == "" then 0 else ReadDecimal(s[..|s| - 1]) * 10 + (s[|s| - 1] as int - '0' as int)
  }

  lemma {:induction false} ReadDecimalOf(n: nat)
    ensures ReadDecimal(Decimal(n)) == n && Decimal(n) != ""
    ensures forall i :: 0 <= i < |Decimal(n)| ==> '0' <= Decimal(n)[i] <= '9'
  {
    if n >= 10 {
      ReadDecimalOf(n / 10);
      assert Decimal(n)[..|Decimal(n)| - 1] == Decimal(n / 10);
    } else {
      assert Decimal(n)[..0] == "";
    }
  }

  lemma DecimalInjective(m: nat, n: nat)
    ensures Decimal(m) == Decimal(n) ==> m == n
  {
    ReadDecimalOf(m);
    ReadDecimalOf(n);
  }

  /** The chunks of a body put together. */
  function Concat(chunks: seq<string>): string {
    if chunks == [] then "" else Concat(chunks[..|chunks| - 1]) + chunks[|chunks| - 1]
  }
}
