/** Identity types shared by every component, and the Option wrapper that
    stands for `std::optional` and for nullable pointers. */
module Basic {

  /** An opaque AST/type identity (`basic::NodeId`). */
  type NodeId = nat

  /** A compilation-unit number (`basic::CrateNum`). The value of the
      `UNKNOWN_CREATENUM` sentinel is not part of this model, so it is a
      constructor of its own. */
  datatype CrateNum = UnknownCrate | Crate(n: nat)

  datatype Option<+T> = None | Some(value: T)

  /** A C++ `char`, seen as the byte it holds: codes 128-255 are the
      negative values of a signed `char`. */
  type CChar = c: char | c as int < 256 witness '\0'

  /** A `uint32_t`. */
  type U32 = x: nat | x < 0x1_0000_0000

  /** The value of a C++ `char` as a signed `char`. */
  function SignedValue(c: CChar): (v: int)
    ensures -128 <= v < 128
    ensures v >= 0 <==> c as int < 128
    ensures v % 256 == c as int
  {
    if c as int < 128 then c as int else c as int - 256
  }

  /** Decimal rendering of a natural number, as `std::to_string` gives it. */
  function NatToString(n: nat): (s: string)
    ensures |s| >= 1
    ensures forall i :: 0 <= i < |s| ==> '0' <= s[i] <= '9'
    ensures n < 10 <==> |s| == 1
    decreases n
  {
    if n < 10 then [DigitChar(n)] else NatToString(n / 10) + [DigitChar(n % 10)]
  }

  function DigitChar(d: nat): (c: char)
    requires d < 10
    ensures '0' <= c <= '9' && c as int - '0' as int == d
  {
    ('0' as int + d) as char
  }

  /** The value a decimal string denotes; used to show that
      `NatToString` is injective. */
  function DecimalValue(s: string): nat
    requires forall i :: 0 <= i < |s| ==> '0' <= s[i] <= '9'
  {
    if s == [] then 0 else DecimalValue(s[..|s| - 1]) * 10 + (s[|s| - 1] as int - '0' as int)
  }

  lemma {:induction false} NatToStringValue(n: nat)
    ensures DecimalValue(NatToString(n)) == n
    decreases n
  {
    if n >= 10 {
      NatToStringValue(n / 10);
      var s := NatToString(n);
      assert s[..|s| - 1] == NatToString(n / 10);
    }
  }

  /** Different numbers get different decimal names (the tuple-struct field
      names "0", "1", ... are pairwise distinct). */
  lemma NatToStringInjective(m: nat, n: nat)
    requires m != n
    ensures NatToString(m) != NatToString(n)
  {
    NatToStringValue(m);
    NatToStringValue(n);
  }
}
