/** Multiplication, division and remainder as linear recursions, which the solver handles well,
    and their agreement with the built-in operators. */
module Arith {

  function Max1(n: nat): nat { if n == 0 then 1 else n }

  /** n - k, but not below zero */
  function Less(n: nat, k: nat): nat { if n < k then 0 else n - k }

  /** n steps of size h */
  function Span(h: nat, n: nat): nat
    decreases n
  {
    if n == 0 then 0 else h + Span(h, n - 1)
  }

  /** x divided by d */
  function Quot(x: nat, d: nat): nat
    requires d > 0
    decreases x
  {
    if x < d then 0 else 1 + Quot(x - d, d)
  }

  /** x modulo m */
  function Wrap(x: nat, m: nat): nat
    requires m > 0
    decreases x
  {
    if x < m then x else Wrap(x - m, m)
  }

  lemma {:induction false} SpanIsProduct(h: nat, n: nat)
    ensures Span(h, n) == h * n
  {
    if n != 0 { SpanIsProduct(h, n - 1); }
  }

  lemma {:induction false} SpanAdd(h: nat, m: nat, n: nat)
    ensures Span(h, m + n) == Span(h, m) + Span(h, n)
    decreases m
  {
    if m != 0 { SpanAdd(h, m - 1, n); }
  }

  lemma {:induction false} SpanMono(h: nat, m: nat, n: nat)
    requires m <= n
    ensures Span(h, m) <= Span(h, n)
    decreases n
  {
    if m < n { SpanMono(h, m, n - 1); }
  }

  lemma MulMono(a: int, b: int, d: int)
    requires a <= b && d >= 0
    ensures a * d <= b * d
  {
    assert (b - a) * d >= 0;
    assert (b - a) * d == b * d - a * d;
  }

  lemma SameQuotient(d: int, p: int, q: int, r: int, s: int)
    requires p * d + r == q * d + s && 0 <= r < d && 0 <= s < d
    ensures p == q
  {
    assert (p + 1) * d == p * d + d && (q + 1) * d == q * d + d;
    if p < q { MulMono(p + 1, q, d); }
    if q < p { MulMono(q + 1, p, d); }
  }

  lemma {:induction false} QuotWrap(x: nat, d: nat)
    requires d > 0
    ensures x == Span(d, Quot(x, d)) + Wrap(x, d) && Wrap(x, d) < d
    decreases x
  {
    if x >= d { QuotWrap(x - d, d); }
  }

  /** The recursions are the built-in operators. */
  lemma QuotIsDiv(x: nat, d: nat)
    requires d > 0
    ensures Quot(x, d) == x / d && Wrap(x, d) == x % d
  {
    QuotWrap(x, d);
    SpanIsProduct(d, Quot(x, d));
    assert d * Quot(x, d) == Quot(x, d) * d;
    SameQuotient(d, Quot(x, d), x / d, Wrap(x, d), x % d);
  }

  lemma QuotIs(x: nat, d: nat, q: nat)
    requires d > 0 && Span(d, q) <= x < Span(d, q) + d
    ensures Quot(x, d) == q
  {
    QuotWrap(x, d);
    var p := Quot(x, d);
    SpanMono(d, if p < q then p + 1 else p, if p < q then q else p);
    SpanMono(d, if q < p then q + 1 else q, if q < p then p else q);
  }
}
