/** Facts about remainders that the solver does not find by itself. */
module Division {
  lemma AddMod(a: int, b: int, m: int)
    requires m > 0
    ensures ((a % m) + b) % m == (a + b) % m
  {
    var q := a / m;
    assert a == q * m + a % m;
    ModShift((a % m) + b, q, m);
  }

  lemma ModShift(x: int, q: int, m: int)
    requires m > 0
    ensures (x + q * m) % m == x % m
  {
    var r, d := x % m, x / m;
    assert x + q * m == (d + q) * m + r;
    DivUnique(x + q * m, d + q, r, m);
  }

  lemma DivUnique(x: int, d: int, r: int, m: int)
    requires m > 0 && 0 <= r < m && x == d * m + r
    ensures x % m == r
  {
    DivisionUnique(d, r, x / m, x % m, m);
  }

  lemma DivisionUnique(d: int, r: int, d': int, r': int, m: int)
    requires 0 <= r < m && 0 <= r' < m && d * m + r == d' * m + r'
    ensures r == r'
  {
    if d > d' {
      assert (d - d') * m == d * m - d' * m;
      MulGrows(d - d', m);
    } else if d < d' {
      assert (d' - d) * m == d' * m - d * m;
      MulGrows(d' - d, m);
    }
  }

  lemma MulGrows(e: int, m: int)
    requires e >= 1 && m > 0
    ensures e * m >= m
  {
  }
}
