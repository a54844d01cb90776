/** The few facts about products and quotients the other modules need. */
module Arith {

  function Abs(x: int): nat {
    if x < 0 then -x else x
  }

  lemma {:induction false} MulMono(a: int, b: int, c: int)
    requires a <= b && c >= 0
    ensures a * c <= b * c
    decreases c
  {
    if c > 0 {
      MulMono(a, b, c - 1);
      assert a * c == a * (c - 1) + a && b * c == b * (c - 1) + b;
    }
  }

  /** Different multiples of a positive step are at least one step apart. */
  lemma MulGap(p: int, q: int, w: int)
    requires p < q && w > 0
    ensures p * w + w <= q * w
  {
    MulMono(p + 1, q, w);
    assert (p + 1) * w == p * w + w;
  }

  lemma DivUnique(x: int, n: int, q: int, r: int)
    requires n > 0 && x == q * n + r && 0 <= r < n
    ensures x / n == q && x % n == r
  {
    var p := x / n;
    assert x == p * n + x % n;
    if p < q {
      MulGap(p, q, n);
    } else if q < p {
      MulGap(q, p, n);
    }
  }

  lemma CeilDiv(n: int, k: int)
    requires n >= 1 && k >= 1
    ensures var r := (n + k - 1) / k; r >= 1 && (r - 1) * k < n <= r * k
  {
    var r := (n + k - 1) / k;
    assert n + k - 1 == r * k + (n + k - 1) % k;
    assert (r - 1) * k == r * k - k;
    if r <= 0 {
      MulMono(r, 0, k);
    }
  }

  /** k of `parts` equal slices fit in `len`. */
  lemma SliceFits(k: int, parts: int, len: int)
    requires 0 <= k < parts <= len
    ensures len / parts >= 1 && k * (len / parts) + len / parts <= len
  {
    var s := len / parts;
    assert len == s * parts + len % parts;
    if s <= 0 {
      MulMono(s, 0, parts);
    }
    MulMono(k + 1, parts, s);
    assert (k + 1) * s == k * s + s && parts * s == s * parts;
  }
}
