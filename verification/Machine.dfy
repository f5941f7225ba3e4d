/** The widths of the machine integers that the modelled code depends on. */
module Machine {

  const USIZE_MAX: nat := 0xFFFF_FFFF_FFFF_FFFF
  const U64_MAX: nat := 0xFFFF_FFFF_FFFF_FFFF
  const U128_MAX: nat := 0xFFFF_FFFF_FFFF_FFFF_FFFF_FFFF_FFFF_FFFF

  /** One more, unless that leaves the width. */
  function SaturatingNext(n: nat, max: nat): nat {
    if n < max then n + 1 else max
  }

  function SaturatingMinus(a: nat, b: nat): nat {
    if a < b then 0 else a - b
  }

  /** A sum or product of word-sized numbers that stops at the largest. */
  function Saturate(n: nat): nat {
    if n < USIZE_MAX then n else USIZE_MAX
  }

}
