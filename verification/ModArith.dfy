/** Modular arithmetic over an arbitrary modulus: what the secp256k1 code gets from math/big. */
module ModArith {
  import opened Radix

  /** a and b differ by a multiple of m. */
  ghost predicate Cong(a: int, b: int, m: nat)
    requires m > 0
  {
    exists k: int :: a == b + m * k
  }

  /** big.Int.Exp with a modulus. */
  function ModPow(b: nat, e: nat, m: nat): (r: nat)
    requires m > 0
    ensures r < m
    decreases e
  {
    if e == 0 then 1 % m else (b * ModPow(b, e - 1, m)) % m
  }

  /** Extended Euclid: the gcd of a and b with its Bezout coefficients. */
  function EGcd(a: nat, b: nat): (r: (nat, int, int))
    decreases b
  {
    if b == 0 then (a, 1, 0)
    else
      var (g, x, y) := EGcd(b, a % b);
      (g, y, x - (a / b) * y)
  }

  /** big.Int.ModInverse, which leaves its receiver unchanged when there is no inverse. */
  function ModInverse(a: nat, m: nat): (r: nat)
    requires m > 0
  {
    var (g, x, _) := EGcd(a, m);
    if g == 1 then x % m else a
  }

  // ------------------------------------------------------------------ congruence

  lemma CongMod(a: int, m: nat)
    requires m > 0
    ensures Cong(a % m, a, m) && Cong(a, a % m, m)
  {
    assert a == a % m + m * (a / m);
    assert a % m == a + m * (-(a / m));
  }

  lemma CongEqual(a: int, b: int, m: nat)
    requires m > 0 && Cong(a, b, m)
    ensures a % m == b % m
  {
    var k :| a == b + m * k;
    DivMod(m, k, b);
  }

  lemma CongRefl(a: int, m: nat)
    requires m > 0
    ensures Cong(a, a, m)
  {
    assert a == a + m * 0;
  }

  lemma CongSym(a: int, b: int, m: nat)
    requires m > 0 && Cong(a, b, m)
    ensures Cong(b, a, m)
  {
    var k :| a == b + m * k;
    assert b == a + m * (-k);
  }

  lemma CongTrans(a: int, b: int, c: int, m: nat)
    requires m > 0 && Cong(a, b, m) && Cong(b, c, m)
    ensures Cong(a, c, m)
  {
    var j :| a == b + m * j;
    var k :| b == c + m * k;
    Distribute(m, j, k);
    assert a == c + m * (j + k);
  }

  lemma CongAdd(a: int, b: int, c: int, d: int, m: nat)
    requires m > 0 && Cong(a, b, m) && Cong(c, d, m)
    ensures Cong(a + c, b + d, m) && Cong(a - c, b - d, m)
  {
    var j :| a == b + m * j;
    var k :| c == d + m * k;
    Distribute(m, j, k);
    Distribute(m, j, -k);
    assert a + c == (b + d) + m * (j + k);
    assert a - c == (b - d) + m * (j - k);
  }

  lemma CongMul(a: int, b: int, c: int, d: int, m: nat)
    requires m > 0 && Cong(a, b, m) && Cong(c, d, m)
    ensures Cong(a * c, b * d, m)
  {
    var j :| a == b + m * j;
    var k :| c == d + m * k;
    Product(b, d, m, j, k);
    assert a * c == b * d + m * (j * d + b * k + m * (j * k));
  }

  lemma Product(b: int, d: int, m: int, j: int, k: int)
    ensures (b + m * j) * (d + m * k) == b * d + m * (j * d + b * k + m * (j * k))
  {
    calc {
      (b + m * j) * (d + m * k);
      b * (d + m * k) + (m * j) * (d + m * k);
      b * d + b * (m * k) + (m * j) * d + (m * j) * (m * k);
      b * d + m * (b * k) + m * (j * d) + m * (m * (j * k));
    }
  }

  // ------------------------------------------------------------------ powers

  lemma {:induction false} ModPowAdd(b: nat, e: nat, f: nat, m: nat)
    requires m > 0
    ensures Cong(ModPow(b, e + f, m), ModPow(b, e, m) * ModPow(b, f, m), m)
    decreases e
  {
    var pf := ModPow(b, f, m);
    if e == 0 {
      CongMod(1, m);
      CongRefl(pf, m);
      CongMul(1, 1 % m, pf, pf, m);
    } else {
      ModPowAdd(b, e - 1, f, m);
      ModPowStep(b, e - 1 + f, m);
      ModPowStep(b, e - 1, m);
      Assemble(b, ModPow(b, e - 1 + f, m), ModPow(b, e - 1, m), pf, ModPow(b, e + f, m), ModPow(b, e, m), m);
    }
  }

  lemma {:induction false} Assemble(b: nat, p: nat, q: nat, pf: nat, whole: nat, part: nat, m: nat)
    requires m > 0 && Cong(p, q * pf, m) && Cong(whole, b * p, m) && Cong(part, b * q, m)
    ensures Cong(whole, part * pf, m)
  {
    CongRefl(b, m);
    CongMul(b, b, p, q * pf, m);
    CongSym(part, b * q, m);
    CongRefl(pf, m);
    CongMul(b * q, part, pf, pf, m);
    assert b * (q * pf) == (b * q) * pf;
    CongTrans(b * p, (b * q) * pf, part * pf, m);
    CongTrans(whole, b * p, part * pf, m);
  }

  lemma ModPowStep(b: nat, e: nat, m: nat)
    requires m > 0
    ensures Cong(ModPow(b, e + 1, m), b * ModPow(b, e, m), m)
  {
    CongMod(b * ModPow(b, e, m), m);
  }

  lemma ModPowOne(b: nat, m: nat)
    requires m > 0
    ensures Cong(ModPow(b, 1, m), b, m)
  {
    ModPowStep(b, 0, m);
    CongMod(1, m);
    CongRefl(b, m);
    CongMul(b, b, 1 % m, 1, m);
    CongTrans(ModPow(b, 1, m), b * (1 % m), b * 1, m);
  }

  lemma ModPowTwo(b: nat, m: nat)
    requires m > 0
    ensures Cong(ModPow(b, 2, m), b * b, m)
  {
    ModPowStep(b, 1, m);
    ModPowOne(b, m);
    CongRefl(b, m);
    CongMul(b, b, ModPow(b, 1, m), b, m);
    CongTrans(ModPow(b, 2, m), b * ModPow(b, 1, m), b * b, m);
  }

  lemma ModPowThree(b: nat, m: nat)
    requires m > 0
    ensures Cong(ModPow(b, 3, m), b * b * b, m)
  {
    ModPowStep(b, 2, m);
    ModPowTwo(b, m);
    CongRefl(b, m);
    CongMul(b, b, ModPow(b, 2, m), b * b, m);
    CongTrans(ModPow(b, 3, m), b * ModPow(b, 2, m), b * (b * b), m);
    assert b * (b * b) == b * b * b;
  }

  /** Powers of congruent bases are equal. */
  lemma {:induction false} ModPowBase(a: nat, b: nat, e: nat, m: nat)
    requires m > 0 && Cong(a, b, m)
    ensures ModPow(a, e, m) == ModPow(b, e, m)
    decreases e
  {
    if e > 0 {
      ModPowBase(a, b, e - 1, m);
      CongRefl(ModPow(a, e - 1, m), m);
      CongMul(a, b, ModPow(a, e - 1, m), ModPow(a, e - 1, m), m);
      CongEqual(a * ModPow(a, e - 1, m), b * ModPow(b, e - 1, m), m);
    }
  }

  /** (b*b)^e is b^(2e). */
  lemma {:induction false} ModPowSquare(b: nat, e: nat, m: nat)
    requires m > 0
    ensures ModPow(b * b, e, m) == ModPow(b, 2 * e, m)
    decreases e
  {
    if e > 0 {
      ModPowSquare(b, e - 1, m);
      var p := ModPow(b, 2 * e - 2, m);
      ModPowStep(b * b, e - 1, m);
      ModPowAdd(b, 2, 2 * e - 2, m);
      ModPowTwo(b, m);
      CongRefl(p, m);
      CongMul(ModPow(b, 2, m), b * b, p, p, m);
      CongTrans(ModPow(b, 2 * e, m), ModPow(b, 2, m) * p, (b * b) * p, m);
      CongSym(ModPow(b, 2 * e, m), (b * b) * p, m);
      CongTrans(ModPow(b * b, e, m), (b * b) * p, ModPow(b, 2 * e, m), m);
      CongEqual(ModPow(b * b, e, m), ModPow(b, 2 * e, m), m);
      DivMod(m, 0, ModPow(b * b, e, m));
      DivMod(m, 0, ModPow(b, 2 * e, m));
    }
  }

  // ------------------------------------------------------------------ inverses

  lemma {:induction false} Bezout(a: nat, b: nat)
    ensures var (g, x, y) := EGcd(a, b); g == a * x + b * y
    ensures var (g, _, _) := EGcd(a, b); exists p: int, q: int {:trigger g * p, g * q} :: a == g * p && b == g * q
    decreases b
  {
    if b > 0 {
      var (g, x, y) := EGcd(b, a % b);
      Bezout(b, a % b);
      var d := a / b;
      assert a == b * d + a % b;
      assert a * y + b * (x - d * y) == b * x + (a % b) * y by { Regroup(a, b, d, a % b, x, y); }
      var p: int, q: int :| b == g * p && a % b == g * q;
      assert a == g * (p * d + q) by { Factor(g, p, q, d); }
      assert b == g * p;
    } else {
      assert a == a * 1 && b == a * 0;
    }
  }

  lemma Regroup(a: int, b: int, d: int, r: int, x: int, y: int)
    requires a == b * d + r
    ensures a * y + b * (x - d * y) == b * x + r * y
  {
    calc {
      a * y + b * (x - d * y);
      (b * d + r) * y + (b * x - b * (d * y));
      b * (d * y) + r * y + b * x - b * (d * y);
    }
  }

  lemma Factor(g: int, p: int, q: int, d: int)
    ensures (g * p) * d + g * q == g * (p * d + q)
  {}

  /** If a has an inverse at all, its gcd with m is 1. */
  lemma {:induction false} Coprime(a: nat, i: int, m: nat)
    requires m > 1 && Cong(a * i, 1, m)
    ensures EGcd(a, m).0 == 1
  {
    var g := EGcd(a, m).0;
    Bezout(a, m);
    var p: int, q: int :| a == g * p && m == g * q;
    var k :| a * i == 1 + m * k;
    Combine(g, p, q, i, k);
    DividesOne(g, p * i - q * k);
  }

  lemma Combine(g: int, p: int, q: int, i: int, k: int)
    ensures g * (p * i - q * k) == (g * p) * i - (g * q) * k
  {}

  /** ... and then ModInverse finds an inverse. */
  lemma {:induction false} InverseFound(a: nat, i: int, m: nat)
    requires m > 1 && Cong(a * i, 1, m)
    ensures Cong(a * ModInverse(a, m), 1, m)
  {
    Coprime(a, i, m);
    var (g, x, y) := EGcd(a, m);
    Bezout(a, m);
    assert a * x == 1 + m * (-y);
    InverseReduced(a, x, m);
  }

  lemma {:induction false} InverseReduced(a: nat, x: int, m: nat)
    requires m > 1 && Cong(a * x, 1, m)
    ensures Cong(a * (x % m), 1, m)
  {
    CongMod(x, m);
    CongRefl(a, m);
    CongMul(a, a, x % m, x, m);
    CongTrans(a * (x % m), a * x, 1, m);
  }

  lemma DividesOne(g: nat, k: int)
    requires g * k == 1
    ensures g == 1
  {
    if g >= 2 && k >= 1 { MulMono(2, g, 1, k); }
  }
}
