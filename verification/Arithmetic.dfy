// Remainders and multiples, shared by the ring indices and the block counts.
module Arithmetic {
  lemma MulBounds(n: nat, k: int)
    ensures k >= 1 ==> n * k >= n
    ensures k <= -1 ==> n * k + n <= 0
  {
  }

  lemma ModIs(x: int, n: nat, q: int, r: nat)
    requires n > 0 && r < n && x == n * q + r
    ensures x % n == r
  {
    var q', r' := x / n, x % n;
    assert x == n * q' + r';
    assert n * (q - q') == r' - r;
    MulBounds(n, q - q');
  }

  lemma DivIs(x: int, n: nat, q: int, r: nat)
    requires n > 0 && r < n && x == n * q + r
    ensures x / n == q
  {
    ModIs(x, n, q, r);
    assert n * (x / n - q) == 0;
    MulBounds(n, x / n - q);
  }

  lemma ModWindow(a: nat, b: nat, n: nat)
    requires n > 0 && a <= b && b - a < n
    ensures a % n == b % n <==> a == b
    ensures b % n == if a % n + (b - a) < n then a % n + (b - a) else a % n + (b - a) - n
  {
    var q := a / n;
    assert a == n * q + a % n;
    var d := a % n + (b - a);
    if d < n {
      ModIs(b, n, q, d);
    } else {
      assert b == n * (q + 1) + (d - n);
      ModIs(b, n, q + 1, d - n);
    }
  }

  lemma NextMod(a: nat, n: nat)
    requires n > 0
    ensures (a % n + 1) % n == (a + 1) % n
  {
    if n == 1 {
      ModIs(a + 1, 1, a + 1, 0);
    } else {
      ModWindow(a, a + 1, n);
      ModWindow(a % n, a % n + 1, n);
      ModIs(a % n, n, 0, a % n);
    }
  }

  lemma Associate(a: int, b: int, c: int)
    ensures a * b * c == a * (b * c)
  {
  }

  lemma Grows(c: nat, a: int, b: int)
    requires a <= b
    ensures c * a <= c * b
  {
    assert c * (b - a) >= 0;
  }

  lemma Scaled(e: nat, k: int, c: int)
    requires k < c
    ensures e * k + e <= e * c
  {
    Grows(e, k + 1, c);
  }

  lemma Multiple(b: nat, k: nat)
    requires b > 0
    ensures b * k % b == 0
  {
    if k > 0 {
      Multiple(b, k - 1);
      assert b * k == b * (k - 1) + b;
      AddBlock(b * (k - 1), b);
    }
  }

  lemma AddBlock(n: nat, b: nat)
    requires b > 0
    ensures (n + b) % b == n % b
  {
    var q, r := n / b, n % b;
    assert n + b == b * (q + 1) + r;
    var q', r' := (n + b) / b, (n + b) % b;
    assert b * (q + 1 - q') == r' - r;
    MulBounds(b, q + 1 - q');
  }

  lemma LastBlock(n: nat, b: nat)
    requires n > 0 && b > 0 && n % b == 0
    ensures n >= b && (n - b) % b == 0
  {
    assert n == b * (n / b);
    assert n / b >= 1;
    assert n - b == b * (n / b - 1);
    Multiple(b, n / b - 1);
  }

  lemma {:induction false} AddBlocks(n: nat, m: nat, b: nat)
    requires b > 0 && n % b == 0 && m % b == 0
    ensures (n + m) % b == 0
    decreases m
  {
    if m > 0 {
      LastBlock(m, b);
      AddBlocks(n, m - b, b);
      AddBlock(n + m - b, b);
    }
  }

  lemma {:induction false} Remainder(n: nat, m: nat, b: nat)
    requires b > 0 && m <= n && n % b == 0 && m % b == 0
    ensures (n - m) % b == 0
    decreases m
  {
    if m > 0 {
      LastBlock(m, b);
      Remainder(n, m - b, b);
      LastBlock(n - (m - b), b);
    }
  }

  lemma SameMod(x: int, y: int, n: nat, k: int)
    requires n > 0 && x == y + n * k
    ensures x % n == y % n
  {
    assert x == n * (y / n + k) + y % n;
    ModIs(x, n, y / n + k, y % n);
  }

  // off by something that is no multiple of n
  lemma OffMod(x: int, v: nat, n: nat, k: int, d: nat)
    requires v < n && 0 < d < n && x == v + n * k + d
    ensures x % n != v
  {
    if v + d < n {
      ModIs(x, n, k, v + d);
    } else {
      assert n * (k + 1) == n * k + n;
      ModIs(x, n, k + 1, v + d - n);
    }
  }

  lemma CompareMod(x: int, v: nat, n: nat, k: int, lost: nat)
    requires v < n && lost < n && x == v + n * k + lost
    ensures v == x % n <==> lost == 0
  {
    if lost == 0 {
      ModIs(x, n, k, v);
    } else {
      OffMod(x, v, n, k, lost);
    }
  }
}
