/** Rounded-up division, as both connectors and the chunking compute it, and facts about it. */
module Arithmetic {

  /** Python's `-(-n // size)`. */
  function CeilDiv(n: int, size: int): (q: int)
    requires size > 0
    ensures n >= 0 ==> q >= 0
  {
    -(-n / size)
  }

  lemma {:induction false} CeilDivStep(n: int, size: int)
    requires size > 0
    ensures CeilDiv(n, size) == 1 + CeilDiv(n - size, size)
    ensures 0 < n <= size ==> CeilDiv(n, size) == 1
    ensures CeilDiv(0, size) == 0
  {
    var m := -n;
    assert m / size + 1 == (m + size) / size by {
      assert m + size == size * (m / size + 1) + m % size;
      DivisionUnique(m + size, size, m / size + 1, m % size);
    }
    if 0 < n <= size {
      DivisionUnique(-n, size, -1, size - n);
    }
    DivisionUnique(0, size, 0, 0);
  }

  lemma {:induction false} NoSmallMultiple(d: int, x: int)
    requires d > 0
    ensures x == 0 || (x > 0 && d * x >= d) || (x < 0 && d * x <= -d)
  {
    if x > 0 {
      assert d * (x - 1) >= 0;
    } else if x < 0 {
      assert d * (-x - 1) >= 0;
    }
  }

  lemma {:induction false} FewerTimes(j: int, k: int, size: int)
    requires size > 0 && j * size < k * size
    ensures j < k
  {
    assert size * (k - j) == k * size - j * size;
    NoSmallMultiple(size, k - j);
  }

  lemma {:induction false} CeilDivBounds(n: int, d: int)
    requires d > 0
    ensures n <= CeilDiv(n, d) * d < n + d
  {
    assert 0 - n == d * ((0 - n) / d) + (0 - n) % d;
    assert CeilDiv(n, d) * d == -(d * ((0 - n) / d));
  }

  lemma {:induction false} DivisionStep(n: int, d: int)
    requires d > 0
    ensures n / d == 1 + (n - d) / d
  {
    DivisionUnique(n, d, 1 + (n - d) / d, (n - d) % d);
  }

  lemma {:induction false} DivisionUnique(n: int, d: int, q: int, r: int)
    requires d > 0 && 0 <= r < d && n == d * q + r
    ensures n / d == q && n % d == r
  {
    NoSmallMultiple(d, n / d - q);
    assert d * (n / d - q) == r - n % d;
  }

  lemma {:induction false} CeilDivIsFloor(n: nat, size: nat)
    requires size > 0
    ensures n % size == 0 ==> CeilDiv(n, size) == n / size
    ensures n % size != 0 ==> CeilDiv(n, size) == n / size + 1
    ensures n / size * size <= n < n / size * size + size
  {
    var q, rem := n / size, n % size;
    assert n == size * q + rem;
    if rem == 0 {
      DivisionUnique(0 - n, size, 0 - q, 0);
    } else {
      DivisionUnique(0 - n, size, 0 - q - 1, size - rem);
    }
  }

  lemma {:induction false} QuotientBelow(l: nat, n: nat, size: nat)
    requires size > 0 && l < n
    ensures l / size < CeilDiv(n, size)
  {
    hide CeilDiv;
    CeilDivIsFloor(l, size);
    CeilDivBounds(n, size);
    FewerTimes(l / size, CeilDiv(n, size), size);
  }

  lemma {:induction false} ExactCeilDiv(q: nat, size: nat)
    requires size > 0
    ensures CeilDiv(q * size, size) == q
  {
    DivisionUnique(0 - q * size, size, 0 - q, 0);
  }

  lemma {:induction false} CeilDivApart(n: nat, computed: nat, size: nat)
    requires size > 0 && computed < n
    ensures var needed, staged := CeilDiv(n, size), CeilDiv(n - computed, size);
      && 0 < staged <= needed
      && (staged == needed <==> computed < n - (needed - 1) * size)
  {
    hide CeilDiv;
    var needed, staged := CeilDiv(n, size), CeilDiv(n - computed, size);
    CeilDivBounds(n, size);
    CeilDivBounds(n - computed, size);
    assert (needed - 1) * size == needed * size - size;
    assert (staged - 1) * size == staged * size - size;
    assert (needed + 1) * size == needed * size + size;
    FewerTimes(0, staged, size);
    FewerTimes(staged, needed + 1, size);
    if computed < n - (needed - 1) * size {
      FewerTimes(needed - 1, staged, size);
    }
  }
}
