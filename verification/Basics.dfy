/** What several components share: optional values, machine-integer limits, order facts of products and quotients. */
module Basics {
  datatype Option<T> = None | Some(value: T)

  const U32_MAX: nat := 0xFFFF_FFFF
  const U64_MAX: nat := 0xFFFF_FFFF_FFFF_FFFF

  function Min(a: nat, b: nat): nat { if a < b then a else b }

  function Max(a: nat, b: nat): nat { if a < b then b else a }

  function SaturatingSucc(n: nat, max: nat): nat { if n < max then n + 1 else max }

  lemma MulMonotone(a: nat, b: nat, c: nat)
    requires a <= b
    ensures a * c <= b * c
  {
  }

  lemma DivMonotone(a: nat, b: nat, d: nat)
    requires d > 0 && a <= b
    ensures a / d <= b / d
  {
    if b / d < a / d { MulMonotone(b / d + 1, a / d, d); }
  }

  lemma DivIs(n: nat, d: nat, q: nat)
    requires d > 0 && q * d <= n < q * d + d
    ensures n / d == q
  {
    if q < n / d { MulMonotone(q + 1, n / d, d); }
    if n / d < q { MulMonotone(n / d + 1, q, d); }
  }
}
