/**
 Division with remainder by a positive number that is not a literal, which the
 verifier has to be led through: block and ring arithmetic goes by these.
 */
module Arithmetic {

  function Quot(b: nat, d: nat): nat
    requires 0 < d
  {
    b / d
  }

  function Rem(b: nat, d: nat): (r: nat)
    requires 0 < d
    ensures r < d
  {
    b % d
  }

  lemma DivAt(q: nat, r: nat, d: nat)
    requires r < d
    ensures (q * d + r) / d == q && (q * d + r) % d == r
  {
    var x := q * d + r;
    if x / d < q {
      MulMonotone(x / d + 1, q, d);
    } else if x / d > q {
      MulMonotone(q + 1, x / d, d);
    }
  }

  lemma MulMonotone(a: nat, b: nat, d: nat)
    requires a <= b
    ensures a * d <= b * d
  {
  }

  lemma Stays(p: nat, q: nat, d: nat)
    requires 0 < d && Rem(p, d) + q < d
    ensures Quot(p + q, d) == Quot(p, d) && Rem(p + q, d) == Rem(p, d) + q
  {
    assert p == p / d * d + p % d;
    DivAt(p / d, p % d + q, d);
  }

  lemma Advances(p: nat, d: nat)
    requires 0 < d
    ensures Quot(p + (d - Rem(p, d)), d) == Quot(p, d) + 1 && Rem(p + (d - Rem(p, d)), d) == 0
  {
    assert p == p / d * d + p % d;
    assert (p / d + 1) * d == p / d * d + d;
    DivAt(p / d + 1, 0, d);
  }

  lemma QuotBelow(p: nat, n: nat, d: nat)
    requires 0 < d && p < n * d
    ensures Quot(p, d) < n
  {
    assert p == p / d * d + p % d;
    if n <= p / d {
      MulMonotone(n, p / d, d);
    }
  }

  lemma SameQuot(p: nat, q: nat, d: nat)
    requires 0 < d && Quot(p, d) == Quot(q, d)
    ensures Rem(q, d) - Rem(p, d) == q - p
  {
    assert p == p / d * d + p % d && q == q / d * d + q % d;
  }

  lemma QuotMonotone(p: nat, q: nat, d: nat)
    requires 0 < d && p <= q
    ensures Quot(p, d) <= Quot(q, d)
  {
    assert p == p / d * d + p % d && q == q / d * d + q % d;
    if q / d < p / d {
      MulMonotone(q / d + 1, p / d, d);
    }
  }

  lemma LastByteBefore(off: nat, d: nat)
    requires 0 < d && Rem(off, d) != 0
    ensures 0 < off && Quot(off - 1, d) == Quot(off, d)
  {
    assert off == off / d * d + off % d;
    DivAt(off / d, off % d - 1, d);
  }

  lemma SpanQuot(off: nat, n: nat, q: nat, d: nat)
    requires 0 < d && 0 < n <= q * d
    ensures Quot(off + n - 1, d) + 1 - Quot(off, d) <= q + if Rem(off, d) == 0 then 0 else 1
  {
    hide Quot, Rem;
    var b := Quot(off, d);
    QuotRem(off, d);
    Distribute(b, q, d);
    Distribute(b + q, 1, d);
    QuotBelow(off + n - 1, if Rem(off, d) == 0 then b + q else b + q + 1, d);
  }

  lemma QuotRem(p: nat, d: nat)
    requires 0 < d
    ensures p == Quot(p, d) * d + Rem(p, d)
  {
  }

  lemma Distribute(a: nat, b: nat, d: nat)
    ensures (a + b) * d == a * d + b * d
  {
  }

  /** Numbers less than d apart leave different remainders. */
  lemma RemsDiffer(j: nat, k: nat, d: nat)
    requires 0 < d && j < k < j + d
    ensures Rem(j, d) != Rem(k, d)
  {
    hide Quot, Rem;
    QuotRem(j, d);
    QuotRem(k, d);
    QuotMonotone(j, k, d);
    var p, q := Quot(j, d), Quot(k, d);
    if Rem(j, d) == Rem(k, d) {
      if p < q {
        MulMonotone(p + 1, q, d);
        Distribute(p, 1, d);
      }
    }
  }

  /** Reducing modulo a multiple of d first does not change the remainder. */
  lemma RemOfRem(k: nat, w: nat, d: nat, m: nat)
    requires 0 < d && 0 < w && w == m * d
    ensures Rem(Rem(k, w), d) == Rem(k, d)
  {
    var q, r := k / w, k % w;
    assert k == q * w + r;
    var s, u := r / d, r % d;
    assert r == s * d + u;
    assert q * w == q * m * d;
    Distribute(q * m, s, d);
    DivAt(q * m + s, u, d);
  }

  // ---------- Counts kept in w values ----------

  /** The ring has n places, and w is m times that. */
  ghost predicate Divides(n: nat, w: nat, m: nat) {
    0 < n < w && w == m * n
  }

  /** The index of a count, reduced modulo w, finds the ring place of the count itself, and so does the next index. */
  lemma IndexFinds(k: nat, w: nat, n: nat, m: nat)
    requires Divides(n, w, m)
    ensures Rem(Rem(k, w), n) == Rem(k, n) && (Rem(k, w) + 1) % w == Rem(k + 1, w)
  {
    hide Rem, Quot;
    RemOfRem(k, w, n, m);
    QuotRem(k, w);
    var q, r := Quot(k, w), Rem(k, w);
    Distribute(q, 1, w);
    RemAt(if r + 1 < w then q else q + 1, if r + 1 < w then r + 1 else 0, w);
    RemAt(if r + 1 < w then 0 else 1, if r + 1 < w then r + 1 else 0, w);
  }

  lemma RemAt(q: nat, r: nat, d: nat)
    requires r < d
    ensures Rem(q * d + r, d) == r == (q * d + r) % d
  {
    DivAt(q, r, d);
  }
}
