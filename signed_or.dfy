/** Bitwise OR of two C `int`s in 32-bit two's complement, the operator that
    combines the two statuses of a split-register control write. */
module SignedOr {
  import opened Registers

  function Pow2(n: nat): (p: nat)
    ensures p >= 1
  {
    if n == 0 then 1 else 2 * Pow2(n - 1)
  }

  lemma {:induction false} Pow2Add(a: nat, b: nat)
    ensures Pow2(a + b) == Pow2(a) * Pow2(b)
  {
    if a > 0 {
      Pow2Add(a - 1, b);
    }
  }

  lemma Pow2Word()
    ensures Pow2(31) == 0x8000_0000 && Pow2(32) == 0x1_0000_0000
  {
    assert Pow2(2) == 4;
    Pow2Add(2, 2);
    Pow2Add(4, 4);
    Pow2Add(8, 8);
    Pow2Add(16, 16);
  }

  /** The OR of the lowest `n` bits of two naturals. */
  function BitOr(a: nat, b: nat, n: nat): nat
  {
    if n == 0 then 0
    else 2 * BitOr(a / 2, b / 2, n - 1) + (if a % 2 == 1 || b % 2 == 1 then 1 else 0)
  }

  /** On `n`-bit operands, OR stays within `n` bits, sets every bit either
      operand has (so it is at least each of them), is zero only when both
      operands are zero, has zero as identity and is idempotent. */
  lemma {:induction false} BitOrFacts(a: nat, b: nat, n: nat)
    requires a < Pow2(n) && b < Pow2(n)
    ensures BitOr(a, b, n) < Pow2(n)
    ensures a <= BitOr(a, b, n) && b <= BitOr(a, b, n)
    ensures BitOr(a, b, n) == 0 <==> a == 0 && b == 0
    ensures a == 0 ==> BitOr(a, b, n) == b
    ensures b == 0 ==> BitOr(a, b, n) == a
    ensures a == b ==> BitOr(a, b, n) == a
  {
    if n > 0 {
      BitOrFacts(a / 2, b / 2, n - 1);
    }
  }

  /** OR with all `n` bits set gives all `n` bits set. */
  lemma {:induction false} BitOrAllOnes(x: nat, n: nat)
    requires x < Pow2(n)
    ensures BitOr(x, Pow2(n) - 1, n) == Pow2(n) - 1
  {
    if n > 0 {
      assert (Pow2(n) - 1) / 2 == Pow2(n - 1) - 1;
      BitOrAllOnes(x / 2, n - 1);
    }
  }

  /** The 32-bit pattern of a C `int`. */
  function Unsigned(x: I32): (u: nat)
    ensures u < 0x1_0000_0000
    ensures x < 0 <==> u >= 0x8000_0000
  {
    if x >= 0 then x else x + 0x1_0000_0000
  }

  /** The C `int` whose 32-bit pattern is `u`. */
  function Signed(u: nat): (x: I32)
    requires u < 0x1_0000_0000
    ensures Unsigned(x) == u
  {
    if u < 0x8000_0000 then u else u - 0x1_0000_0000
  }

  /** `a | b` on C `int`s, as in `ret = first; ret |= second;`. The result
      is zero exactly when both statuses are zero, is either operand when
      the other is zero, and when an operand is negative is negative and no
      smaller than that operand; two equal statuses combine to themselves.
      Two different negative errnos may combine to an errno that is
      neither. */
  function OrStatus(a: I32, b: I32): (r: I32)
    ensures r == 0 <==> a == 0 && b == 0
    ensures a == 0 ==> r == b
    ensures b == 0 ==> r == a
    ensures a < 0 ==> a <= r < 0
    ensures b < 0 ==> b <= r < 0
    ensures a == b ==> r == a
  {
    var ua := Unsigned(a);
    var ub := Unsigned(b);
    Pow2Word();
    BitOrFacts(ua, ub, 32);
    Signed(BitOr(ua, ub, 32))
  }

  /** Two failed writes can combine to a status neither returned: `-EIO`
      (`-5`) OR `-ENOENT` (`-2`) is `-1`, which reads as `-EPERM`. */
  lemma OrStatusMixesErrnos()
    ensures OrStatus(-5, -2) == -1
  {
    Pow2Word();
    BitOrAllOnes(0x7FFF_FFFD, 31);
    assert BitOr(0xFFFF_FFFB, 0xFFFF_FFFE, 32) == 2 * BitOr(0x7FFF_FFFD, 0x7FFF_FFFF, 31) + 1;
  }
}
