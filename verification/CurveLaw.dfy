/** What the sum of two curve points is, said without its slope: the chord and tangent law of section
    2.2.1 of SEC 1, and that compression loses nothing (internal/btc/secp256k1.go). */
module CurveLaw {
  import opened Radix
  import opened Results
  import opened ModArith
  import opened Base58
  import opened Secp256k1

  // ---------------------------------------------------------- a line of slope num / den

  /** (rx, -ry) is where the line through (ax, ay) of slope num / den meets the curve for the third time,
      after ax and bx: the abscissas add up to the squared slope, and the line passes through both. */
  ghost predicate OnLine(ax: int, ay: int, bx: int, num: int, den: int, rx: int, ry: int, m: nat)
    requires m > 0
  {
    Cong((rx + ax + bx) * (den * den), num * num, m) && Cong((ry + ay) * den, num * (ax - rx), m)
  }

  lemma {:induction false} AbscissaOnLine(s: int, l: int, x: int, num: int, den: int, m: nat)
    requires m > 0 && x == (l * l - s) % m && Cong(l * den, num, m)
    ensures Cong((x + s) * (den * den), num * num, m)
  {
    CongMod(l * l - s, m);
    CongRefl(s, m);
    CongAdd(x, l * l - s, s, s, m);
    CongRefl(den * den, m);
    CongMul(x + s, l * l, den * den, den * den, m);
    CongMul(l * den, num, l * den, num, m);
    assert (l * l) * (den * den) == (l * den) * (l * den);
    CongTrans((x + s) * (den * den), (l * l) * (den * den), num * num, m);
  }

  lemma {:induction false} OrdinateOnLine(d: int, ay: int, l: int, y: int, num: int, den: int, m: nat)
    requires m > 0 && y == (d * l - ay) % m && Cong(l * den, num, m)
    ensures Cong((y + ay) * den, num * d, m)
  {
    CongMod(d * l - ay, m);
    CongRefl(ay, m);
    CongAdd(y, d * l - ay, ay, ay, m);
    CongRefl(den, m);
    CongMul(y + ay, d * l, den, den, m);
    CongRefl(d, m);
    CongMul(l * den, num, d, d, m);
    assert (d * l) * den == (l * den) * d;
    CongTrans((y + ay) * den, (d * l) * den, num * d, m);
  }

  lemma {:induction false} ThirdOnLine(a: Point, bx: nat, l: nat, num: int, den: int, p: Modulus)
    requires a.Affine? && Cong(l * den, num, p)
    ensures var r := Third(a, bx, l, p); OnLine(a.x, a.y, bx, num, den, r.x, r.y, p)
  {
    var r := Third(a, bx, l, p);
    assert l * l - a.x - bx == l * l - (a.x + bx);
    AbscissaOnLine(a.x + bx, l, r.x, num, den, p);
    assert r.x + a.x + bx == r.x + (a.x + bx);
    OrdinateOnLine(a.x - r.x, a.y, l, r.y, num, den, p);
  }

  lemma {:induction false} CancelCong(a: int, b: int, c: int, d: int, i: int, m: nat)
    requires m > 0 && Cong(a * d, c, m) && Cong(b * d, c, m) && Cong(d * i, 1, m)
    ensures Cong(a, b, m)
  {
    CongSym(b * d, c, m);
    CongTrans(a * d, c, b * d, m);
    CongZero(a * d, b * d, m);
    assert a * d - b * d == (a - b) * d;
    CancelFactor(a - b, d, i, m);
    CongZero(a, b, m);
  }

  lemma {:induction false} CancelTwice(a: int, b: int, c: int, d: int, i: int, m: nat)
    requires m > 0 && Cong(a * (d * d), c, m) && Cong(b * (d * d), c, m) && Cong(d * i, 1, m)
    ensures Cong(a, b, m)
  {
    CongMul(d * i, 1, d * i, 1, m);
    assert (d * i) * (d * i) == (d * d) * (i * i);
    CancelCong(a, b, c, d * d, i * i, m);
  }

  lemma CongShift(a: int, b: int, c: int, m: nat)
    requires m > 0 && Cong(a + c, b + c, m)
    ensures Cong(a, b, m)
  {
    CongRefl(c, m);
    CongAdd(a + c, b + c, c, c, m);
  }

  /** A line has one such point. */
  lemma {:induction false} OneOnLine(ax: int, ay: int, bx: int, num: int, den: int, i: int, r: Point, q: Point, p: Modulus)
    requires Cong(den * i, 1, p) && r.Affine? && q.Affine? && r.x < p && r.y < p && q.x < p && q.y < p
    requires OnLine(ax, ay, bx, num, den, r.x, r.y, p) && OnLine(ax, ay, bx, num, den, q.x, q.y, p)
    ensures r == q
  {
    CancelTwice(r.x + ax + bx, q.x + ax + bx, num * num, den, i, p);
    CongShift(r.x, q.x, ax + bx, p);
    SmallCong(r.x, q.x, p);
    CancelCong(r.y + ay, q.y + ay, num * (ax - r.x), den, i, p);
    CongShift(r.y, q.y, ay, p);
    SmallCong(r.y, q.y, p);
  }

  // ------------------------------------------------------------ the law of the sum

  /** The line through two points with different abscissas, and the tangent at one. */
  ghost predicate OnChord(a: Point, b: Point, r: Point, p: Modulus)
    requires a.Affine? && b.Affine? && r.Affine?
  {
    OnLine(a.x, a.y, b.x, b.y - a.y, b.x - a.x, r.x, r.y, p)
  }

  ghost predicate OnTangent(a: Point, r: Point, p: Modulus)
    requires a.Affine? && r.Affine?
  {
    OnLine(a.x, a.y, a.x, a.x * a.x * 3, a.y * 2, r.x, r.y, p)
  }

  /** For points with different abscissas the sum is the one point that the chord names: r is the sum if
      and only if r.x + a.x + b.x is the squared slope and (r.x, -r.y) lies on the line. */
  lemma {:induction false} ChordLaw(a: Point, b: Point, r: Point, p: Modulus)
    requires PrimeField(p) && a.Affine? && b.Affine? && IsPoint(a, p) && IsPoint(b, p) && a.x != b.x
    requires r.Affine? && r.x < p && r.y < p
    ensures r == Add(a, b, p) <==>
              && Cong((r.x + a.x + b.x) * ((b.x - a.x) * (b.x - a.x)), (b.y - a.y) * (b.y - a.y), p)
              && Cong((r.y + a.y) * (b.x - a.x), (b.y - a.y) * (a.x - r.x), p)
  {
    var q, i := Add(a, b, p), ModInverse((b.x - a.x) % p, p);
    ChordSlope(a, b, p);
    ThirdOnLine(a, b.x, Slope(a, b, p), b.y - a.y, b.x - a.x, p);
    assert OnChord(a, b, q, p);
    if OnChord(a, b, r, p) { OneOnLine(a.x, a.y, b.x, b.y - a.y, b.x - a.x, i, r, q, p); }
  }

  lemma {:induction false} TangentLaw(a: Point, r: Point, p: Modulus)
    requires PrimeField(p) && a.Affine? && IsPoint(a, p) && a.y != 0
    requires r.Affine? && r.x < p && r.y < p
    ensures r == Add(a, a, p) <==>
              && Cong((r.x + a.x + a.x) * ((a.y * 2) * (a.y * 2)), (a.x * a.x * 3) * (a.x * a.x * 3), p)
              && Cong((r.y + a.y) * (a.y * 2), (a.x * a.x * 3) * (a.x - r.x), p)
  {
    var q, i := Add(a, a, p), ModInverse((a.y * 2) % p, p);
    TangentSlope(a, p);
    DoubleNonzero(a.y, p);
    SlopeInverse(a.y * 2, p);
    ThirdOnLine(a, a.x, Slope(a, a, p), a.x * a.x * 3, a.y * 2, p);
    assert OnTangent(a, q, p);
    if OnTangent(a, r, p) { OneOnLine(a.x, a.y, a.x, a.x * a.x * 3, a.y * 2, i, r, q, p); }
  }

  // ------------------------------------------------------------------------ negation

  function Negated(a: Point, p: Modulus): Point {
    if a.Infinity? then Infinity else Affine(a.x, (p - a.y) % p)
  }

  /** Two roots of one square are equal or add up to zero. */
  lemma {:induction false} OppositeRoots(y: nat, z: nat, c: int, p: Modulus)
    requires PrimeField(p) && y < p && z < p && y != z && Cong(y * y, c, p) && Cong(z * z, c, p)
    ensures y + z == p
  {
    var d := y - z;
    CongSym(z * z, c, p);
    CongTrans(y * y, c, z * z, p);
    CongZero(y * y, z * z, p);
    assert y * y - z * z == (y + z) * d;
    Nonzero(d, p);
    SlopeInverse(d, p);
    CancelFactor(y + z, d, ModInverse(d % p, p), p);
    Halfway(y, z, p);
  }

  lemma Halfway(y: nat, z: nat, m: nat)
    requires y < m && z < m && y != z && Cong(y + z, 0, m)
    ensures y + z == m
  {
    if y + z < m {
      SmallCong(y + z, 0, m);
    } else {
      CongRefl(m, m);
      assert Cong(m, 0, m) by { assert m == 0 + m * 1; }
      CongAdd(y + z, 0, m, 0, m);
      SmallCong(y + z - m, 0, m);
    }
  }

  lemma NegatedY(y: nat, p: Modulus)
    requires y < p
    ensures (p - y) % p == if y == 0 then 0 else p - y
  {
    if y == 0 { DivMod(p, 1, 0); } else { DivMod(p, 0, p - y); }
  }

  /** A sum of curve points is the point at infinity exactly when one is the other's negation. */
  lemma {:induction false} InfinityExactly(a: Point, b: Point, p: Modulus)
    requires PrimeField(p) && IsPoint(a, p) && IsPoint(b, p)
    ensures Add(a, b, p).Infinity? <==> b == Negated(a, p)
  {
    if a.Affine? && b.Affine? && a.x == b.x {
      NegatedY(a.y, p);
      if a.y != b.y { OppositeRoots(a.y, b.y, a.x * a.x * a.x + 7, p); }
    }
  }

  lemma {:induction false} ChordSwaps(a: Point, b: Point, r: Point, p: Modulus)
    requires a.Affine? && b.Affine? && r.Affine? && OnChord(a, b, r, p)
    ensures OnChord(b, a, r, p)
  {
    var e, d := b.y - a.y, b.x - a.x;
    assert (a.x - b.x) * (a.x - b.x) == d * d && (a.y - b.y) * (a.y - b.y) == e * e;
    assert r.x + b.x + a.x == r.x + a.x + b.x;
    var left, right := (r.y + a.y) * d, e * (a.x - r.x);
    CongRefl(0, p);
    CongRefl(e * d, p);
    CongAdd(left, right, e * d, e * d, p);
    CongAdd(0, 0, left + e * d, right + e * d, p);
    Swap(r.y, a.y, b.y, d, e, r.x, a.x, b.x);
  }

  lemma Swap(ry: int, y1: int, y2: int, d: int, e: int, rx: int, x1: int, x2: int)
    requires d == x2 - x1 && e == y2 - y1
    ensures (ry + y2) * (x1 - x2) == 0 - ((ry + y1) * d + e * d)
    ensures (y1 - y2) * (x2 - rx) == 0 - (e * (x1 - rx) + e * d)
  {
    assert (ry + y2) * (0 - d) == 0 - (ry + y1 + e) * d;
    assert (ry + y1 + e) * d == (ry + y1) * d + e * d;
    assert (0 - e) * (x2 - rx) == 0 - e * ((x1 - rx) + d);
    assert e * ((x1 - rx) + d) == e * (x1 - rx) + e * d;
  }

  /** Addition is commutative on the curve. */
  lemma {:induction false} AddCommutes(a: Point, b: Point, p: Modulus)
    requires PrimeField(p) && IsPoint(a, p) && IsPoint(b, p)
    ensures Add(a, b, p) == Add(b, a, p)
  {
    if a.Affine? && b.Affine? && a.x != b.x {
      var r := Add(a, b, p);
      ChordLaw(a, b, r, p);
      assert OnChord(a, b, r, p);
      ChordSwaps(a, b, r, p);
      ChordLaw(b, a, r, p);
    }
  }

  // --------------------------------------------------------------------- compression

  /** Reading back the compressed form of a curve point gives the point itself. */
  lemma {:induction false} CompressRoundTrip(pt: Point, p: Modulus)
    requires PrimeField(p) && pt.Affine? && IsPoint(pt, p) && pt.y != 0 && p <= Pow(256, 32)
    ensures Decompress(Compress(pt), p) == Some(pt)
  {
    var c := Compress(pt);
    CompressedOnCurve(pt, p);
    SquareNonzero(pt.x, pt.y, p);
    DecompressAccepts(c, p);
    DecompressSound(c, p);
    var q := Decompress(c, p).value;
    if q.y != pt.y {
      OppositeRoots(q.y, pt.y, pt.x * pt.x * pt.x + 7, p);
      OtherParity(pt.y, p / 4, p);
    }
  }

  lemma {:induction false} SquareNonzero(x: nat, y: nat, p: Modulus)
    requires PrimeField(p) && 0 < y < p && OnEquation(x, y, p)
    ensures Rhs(x, p) != 0
  {
    SquareIsRhs(x, y, p);
    if Rhs(x, p) == 0 {
      Invertible(y, p);
      CancelFactor(y, y, ModInverse(y, p), p);
      SmallCong(y, 0, p);
    }
  }

  /** Twice the generator, as published for secp256k1. */
  const TWO_G := Affine(0xc6047f94_41ed7d6d_3045406e_95c07cd8_5c778e4b_8cef3ca7_abac09b9_5c709ee5,
                        0x1ae168fe_a63dc339_a3c58419_466ceaee_f7f63265_3266d0e1_236431a9_50cfe52a)

  lemma {:induction false} DoubledGenerator()
    requires PrimeField(P)
    ensures Add(G, G, P) == TWO_G
  {
    var r := TWO_G;
    GeneratorOnCurve();
    var k1 := -0x75d83170_104f018f_4f18c5c6_4e0a1c9a_18b8ec99_73066a68_2f419799_d720db6f_0a89999e_eb23eb02_9df7812a_7acaf13e_ed729134_32a64597_3481d6f0_a90d651f_4816c4eb_596adfb0_5dfb90bf_b68ecfb4_1fde0a9e_6cee299f_d542a603_7577c500;
    var k2 := 0x33bffeaa_999301d5_15ad9044_e6ff7175_a69e692f_4b421e85_403ee135_18cd10f5_3200a7d5_0ed79d81_b81a9a40_e361e6bf_8a779ed4_53037fc1_f2d80b08_45099d60;
    assert (r.x + G.x + G.x) * ((G.y * 2) * (G.y * 2)) == (G.x * G.x * 3) * (G.x * G.x * 3) + P * k1;
    assert (r.y + G.y) * (G.y * 2) == (G.x * G.x * 3) * (G.x - r.x) + P * k2;
    TangentLaw(G, r, P);
  }
}
