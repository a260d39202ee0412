/** The 64-bit seed arithmetic of `seedFor` (OpcodeMethodEncoder.kt): Kotlin's
    Long shifts, multiplication and xor wrap at 64 bits, which bv64 does too. */
module Seeds {

  /** `Int.toLong()`: sign extension of a 32-bit word to 64 bits (bit 31 is
      copied into the upper half). */
  function SignExtend(h: bv32): bv64 {
    if h & 0x8000_0000 != 0 then (h as bv64) | 0xFFFF_FFFF_0000_0000 else h as bv64
  }

  /** The mixing step of `seedFor`: (h shl 32) xor (h * 123456789), wrapping at 64 bits. */
  function Mix(h: bv64): bv64 {
    (h << 32) ^ (h * 123456789)
  }

  /** `seedFor` once the token's hash has been widened to the Long hl:
      baseSeed xor Mix(hl). */
  function SeedFor(baseSeed: bv64, hl: bv64): bv64 {
    baseSeed ^ Mix(hl)
  }

  lemma LowHalfXor(a: bv64, b: bv64)
    ensures ((a << 32) ^ b) & 0xFFFF_FFFF == b & 0xFFFF_FFFF
  {
  }

  lemma XorCancel(a: bv64, x: bv64)
    ensures (a ^ x) ^ a == x
  {
  }

  /** Shifting left by 32 clears the low half, so the low 32 bits of the
      seed's mixed part are those of h * 123456789 alone. */
  lemma SeedForLowBits(baseSeed: bv64, hl: bv64)
    ensures (SeedFor(baseSeed, hl) ^ baseSeed) & 0xFFFF_FFFF == (hl * 123456789) & 0xFFFF_FFFF
  {
    XorCancel(baseSeed, Mix(hl));
    LowHalfXor(hl, hl * 123456789);
  }
}
