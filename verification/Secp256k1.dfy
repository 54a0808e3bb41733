/** The secp256k1 arithmetic of internal/btc/secp256k1.go: y^2 = x^3 + 7 over the field of P elements. */
module Secp256k1 {
  import opened Radix
  import opened Results
  import opened ModArith
  import opened Base58

  /** A field size for which (p + 1) / 4 is a square-root exponent. Everything below holds for any
      of them, so that no proof depends on the digits of secp256k1's. */
  type Modulus = p: nat | p > 7 && p % 4 == 3 witness 11

  const P: Modulus := 0xffffffff_ffffffff_ffffffff_ffffffff_ffffffff_ffffffff_fffffffe_fffffc2f
  const N: nat := 0xffffffff_ffffffff_ffffffff_fffffffe_baaedce6_af48a03b_bfd25e8c_d0364141

  /** Point{} of the source, whose X is nil, is Infinity. */
  datatype Point = Infinity | Affine(x: nat, y: nat)

  const G := Affine(0x79be667e_f9dcbbac_55a06295_ce870b07_029bfcdb_2dce28d9_59f2815b_16f81798,
                    0x483ada77_26a3c465_5da4fbfc_0e1108a8_fd17b448_a6855419_9c47d08f_fb10d4b8)

  /** x^3 + 7 in the field. */
  function Rhs(x: nat, p: Modulus): (r: nat)
    ensures r < p
  {
    (ModPow(x, 3, p) + 7) % p
  }

  /** x < p, and x^3 + 7 is a square by Euler's criterion. */
  predicate OnCurve(c: Bytes, p: Modulus) {
    && |c| == 33
    && (c[0] == 2 || c[0] == 3)
    && var x := BigEndian(c[1..], 256);
    && x < p
    && (Rhs(x, p) == 0 || ModPow(Rhs(x, p), (p - 1) / 2, p) == 1)
  }

  function RootExponent(p: Modulus): (e: nat)
    ensures 2 * e == (p - 1) / 2 + 1 && e > 0
  {
    (p + 1) / 4
  }

  /** The root of the requested parity. */
  function Signed(y: nat, bit: nat, p: Modulus): (r: nat)
    requires 0 < y < p && bit < 2
    ensures 0 < r < p && r % 2 == bit
  {
    OtherParity(y, p / 4, p);
    if y % 2 != bit then p - y else y
  }

  lemma OtherParity(y: nat, q: nat, p: nat)
    requires 0 < y < p == 4 * q + 3
    ensures 0 < p - y < p && (p - y) % 2 != y % 2
  {}

  function Decompress(c: Bytes, p: Modulus): (r: Option<Point>) {
    if !OnCurve(c, p) then None
    else
      var x := BigEndian(c[1..], 256);
      var y := ModPow(Rhs(x, p), RootExponent(p), p);
      if ModPow(y, 2, p) != Rhs(x, p) || y == 0 then None
      else Some(Affine(x, Signed(y, c[0] % 2, p)))
  }

  function Compress(pt: Point): (c: Bytes)
    requires pt.Affine?
    ensures |c| == 33
  {
    [2 + pt.y % 2] + Fixed(pt.x, 256, 32)
  }

  function Add(a: Point, b: Point, p: Modulus): (r: Point) {
    if a.Infinity? then b
    else if b.Infinity? then a
    else if a.x == b.x && (a.y != b.y || a.y == 0) then Infinity
    else
      Third(a, b.x, Slope(a, b, p), p)
  }

  /** The slope of the chord, or of the tangent when both points are the same. */
  function Slope(a: Point, b: Point, p: Modulus): (l: nat)
    requires a.Affine? && b.Affine?
    ensures l < p
  {
    if a.x == b.x then ((a.x * a.x * 3) * ModInverse((a.y * 2) % p, p)) % p
    else ((b.y - a.y) * ModInverse((b.x - a.x) % p, p)) % p
  }

  /** Where the line of slope l through a meets the curve again, reflected. */
  function Third(a: Point, bx: nat, l: nat, p: Modulus): (r: Point)
    requires a.Affine?
    ensures r.Affine? && r.x < p && r.y < p
  {
    var x := (l * l - a.x - bx) % p;
    Affine(x, ((a.x - x) * l - a.y) % p)
  }

  function Adder(p: Modulus): (f: (Point, Point) -> Point) {
    (a, b) => Add(a, b, p)
  }

  /** k copies of x added up. */
  function Times<T>(k: nat, x: T, zero: T, add: (T, T) -> T): (r: T) {
    if k == 0 then zero else add(Times(k - 1, x, zero, add), x)
  }

  function DoubleAndAdd<T>(k: nat, x: T, zero: T, add: (T, T) -> T): (r: T) {
    if k == 0 then zero
    else
      var r := DoubleAndAdd(k / 2, x, zero, add);
      if k % 2 == 1 then add(add(r, r), x) else add(r, r)
  }

  function Shr(k: nat, i: nat): (r: nat) {
    if i == 0 then k else Shr(k, i - 1) / 2
  }

  function BitLen(k: nat): (n: nat) {
    if k == 0 then 0 else 1 + BitLen(k / 2)
  }

  lemma {:induction false} ShrHalf(k: nat, i: nat)
    requires i > 0
    ensures Shr(k, i) == Shr(k / 2, i - 1)
    decreases i
  {
    if i > 1 { ShrHalf(k, i - 1); }
  }

  lemma {:induction false} ShrAll(k: nat)
    ensures Shr(k, BitLen(k)) == 0
  {
    if k > 0 {
      ShrHalf(k, BitLen(k));
      ShrAll(k / 2);
    }
  }

  method Mul(k: nat, pt: Point, p: Modulus) returns (r: Point)
    ensures r == DoubleAndAdd(k, pt, Infinity, Adder(p))
    ensures MultiplesAssociate(pt, Infinity, Adder(p)) ==> r == Times(k, pt, Infinity, Adder(p))
  {
    r := Infinity;
    var i := BitLen(k) - 1;
    ShrAll(k);
    while i >= 0
      invariant -1 <= i < BitLen(k)
      invariant r == DoubleAndAdd(Shr(k, i + 1), pt, Infinity, Adder(p))
    {
      r := Add(r, r, p);
      if Shr(k, i) % 2 == 1 {
        r := Add(r, pt, p);
      }
      i := i - 1;
    }
    if MultiplesAssociate(pt, Infinity, Adder(p)) { DoubleAndAddIsTimes(k, pt, Infinity, Adder(p)); }
  }

  // ----------------------------------------------------------- multiplication

  /** Addition is associative on the multiples of x, and zero is its identity (on a curve it is a
      group operation). */
  ghost predicate MultiplesAssociate<T(!new)>(x: T, zero: T, add: (T, T) -> T) {
    && (forall a: T :: add(a, zero) == a && add(zero, a) == a)
    && (forall a: nat, b: nat, c: nat :: AssociateAt(a, b, c, x, zero, add))
  }

  ghost predicate AssociateAt<T>(a: nat, b: nat, c: nat, x: T, zero: T, add: (T, T) -> T) {
    add(add(Times(a, x, zero, add), Times(b, x, zero, add)), Times(c, x, zero, add))
    == add(Times(a, x, zero, add), add(Times(b, x, zero, add), Times(c, x, zero, add)))
  }

  lemma {:induction false} TimesAdd<T(!new)>(a: nat, b: nat, x: T, zero: T, add: (T, T) -> T)
    requires MultiplesAssociate(x, zero, add)
    ensures add(Times(a, x, zero, add), Times(b, x, zero, add)) == Times(a + b, x, zero, add)
    decreases b
  {
    if b > 0 {
      TimesAdd(a, b - 1, x, zero, add);
      assert Times(1, x, zero, add) == x by { assert Times(0, x, zero, add) == zero; }
      assert AssociateAt(a, b - 1, 1, x, zero, add);
    }
  }

  /** Double-and-add is k-fold addition, for every k, from associativity and the identity alone. */
  lemma {:induction false} DoubleAndAddIsTimes<T(!new)>(k: nat, x: T, zero: T, add: (T, T) -> T)
    requires MultiplesAssociate(x, zero, add)
    ensures DoubleAndAdd(k, x, zero, add) == Times(k, x, zero, add)
  {
    if k > 0 {
      DoubleAndAddIsTimes(k / 2, x, zero, add);
      TimesAdd(k / 2, k / 2, x, zero, add);
    }
  }

  // ------------------------------------------------------------- compressed keys

  /** The curve equation, with coordinates reduced. */
  ghost predicate IsPoint(pt: Point, p: Modulus) {
    pt.Affine? ==> pt.x < p && pt.y < p && OnEquation(pt.x, pt.y, p)
  }

  ghost predicate OnEquation(x: int, y: int, m: nat)
    requires m > 0
  {
    Cong(y * y, x * x * x + 7, m)
  }

  lemma RhsIsCubic(x: nat, p: Modulus)
    ensures Cong(Rhs(x, p), x * x * x + 7, p)
  {
    ModPowThree(x, p);
    CongRefl(7, p);
    CongAdd(ModPow(x, 3, p), x * x * x, 7, 7, p);
    CongMod(ModPow(x, 3, p) + 7, p);
    CongTrans(Rhs(x, p), ModPow(x, 3, p) + 7, x * x * x + 7, p);
  }

  lemma SmallCong(a: nat, b: nat, m: nat)
    requires a < m && b < m && Cong(a, b, m)
    ensures a == b
  {
    CongEqual(a, b, m);
    DivMod(m, 0, a);
    DivMod(m, 0, b);
  }

  /** If h is half of p - 1 and rhs passes Euler's criterion, rhs^((h+1)/2) is a square root of it. */
  lemma {:induction false} SquareRoot(rhs: nat, e: nat, h: nat, m: nat)
    requires 2 * e == h + 1 && rhs < m && m > 1 && ModPow(rhs, h, m) == 1
    ensures ModPow(ModPow(rhs, e, m), 2, m) == rhs
  {
    var y := ModPow(rhs, e, m);
    ModPowTwo(y, m);
    ModPowAdd(rhs, e, e, m);
    CongSym(ModPow(rhs, 2 * e, m), y * y, m);
    CongTrans(ModPow(y, 2, m), y * y, ModPow(rhs, 2 * e, m), m);
    ModPowStep(rhs, h, m);
    CongTrans(ModPow(y, 2, m), ModPow(rhs, 2 * e, m), rhs * 1, m);
    SmallCong(ModPow(y, 2, m), rhs, m);
  }

  lemma {:induction false} RootNonzero(y: nat, p: Modulus)
    requires ModPow(y, 2, p) != 0
    ensures y != 0
  {
    if y == 0 {
      ModPowTwo(0, p);
      SmallCong(ModPow(0, 2, p), 0, p);
    }
  }

  /** A key decompresses exactly when it passes OnCurve and x^3 + 7 is not zero: the recheck of
      y^2 in the source never fails. */
  lemma {:induction false} DecompressAccepts(c: Bytes, p: Modulus)
    ensures Decompress(c, p).Some? <==> OnCurve(c, p) && Rhs(BigEndian(c[1..], 256), p) != 0
  {
    if OnCurve(c, p) {
      var rhs, e := Rhs(BigEndian(c[1..], 256), p), RootExponent(p);
      if rhs == 0 {
        ZeroPow(e, p);
      } else {
        SquareRoot(rhs, e, (p - 1) / 2, p);
        RootNonzero(ModPow(rhs, e, p), p);
      }
    }
  }

  lemma ZeroPow(e: nat, p: Modulus)
    requires e > 0
    ensures ModPow(0, e, p) == 0
  {
    DivMod(p, 0, 0);
  }

  lemma NegatedRoot(y: int, v: int, m: nat)
    requires m > 0 && Cong(y * y, v, m)
    ensures Cong((m - y) * (m - y), v, m)
  {
    assert (m - y) * (m - y) == y * y + m * (m - 2 * y);
    assert Cong((m - y) * (m - y), y * y, m);
    CongTrans((m - y) * (m - y), y * y, v, m);
  }

  lemma RootOnCurve(x: nat, y: nat, p: Modulus)
    requires x < p && 0 < y < p && ModPow(y, 2, p) == Rhs(x, p)
    ensures OnEquation(x, y, p) && OnEquation(x, p - y, p)
  {
    ModPowTwo(y, p);
    CongSym(ModPow(y, 2, p), y * y, p);
    RhsIsCubic(x, p);
    CongTrans(y * y, Rhs(x, p), x * x * x + 7, p);
    NegatedRoot(y, x * x * x + 7, p);
  }

  /** What Decompress returns lies on the curve, has the parity the key names, and compresses
      back to the same 33 bytes. */
  lemma {:induction false} DecompressSound(c: Bytes, p: Modulus)
    requires Decompress(c, p).Some?
    ensures var pt := Decompress(c, p).value;
            && pt.Affine? && IsPoint(pt, p) && 0 < pt.y
            && pt.x == BigEndian(c[1..], 256) && pt.y % 2 == c[0] - 2
            && Compress(pt) == c
  {
    var x := BigEndian(c[1..], 256);
    var y := ModPow(Rhs(x, p), RootExponent(p), p);
    var y' := Signed(y, c[0] % 2, p);
    assert Decompress(c, p) == Some(Affine(x, y'));
    RootOnCurve(x, y, p);
    CompressBytes(c, y');
    Assembled(Affine(x, y'), x, y', p);
  }

  lemma CompressBytes(c: Bytes, y: nat)
    requires |c| == 33 && (c[0] == 2 || c[0] == 3) && y % 2 == c[0] % 2
    ensures Compress(Affine(BigEndian(c[1..], 256), y)) == c
  {
    FixedOfBigEndian(c[1..], 256);
    assert c == [c[0]] + c[1..];
  }

  // -------------------------------------------------------------- the group law

  /** Fermat's little theorem for p, the one consequence of its primality that is used. */
  ghost predicate PrimeField(p: Modulus) {
    forall a: nat :: 0 < a < p ==> Fermat(a, p)
  }

  predicate Fermat(a: nat, m: nat)
    requires m > 0
  {
    ModPow(a, m - 1, m) == 1
  }

  lemma {:induction false} Invertible(a: nat, p: Modulus)
    requires PrimeField(p) && 0 < a < p
    ensures Cong(a * ModInverse(a, p), 1, p)
  {
    assert Fermat(a, p);
    var i := ModPow(a, p - 2, p);
    ModPowStep(a, p - 2, p);
    CongSym(ModPow(a, p - 1, p), a * i, p);
    InverseFound(a, i, p);
  }

  /** The coefficient of x when the curve cubic minus the squared chord is divided by
      (x - x1)(x - x2)(x - x3). */
  function Slack(x1: int, y1: int, x2: int, l: int): int {
    var x3 := l * l - x1 - x2;
    -2 * l * (y1 - l * x1) - (x1 * x2 + x1 * x3 + x2 * x3)
  }

  lemma Cubics(x1: int, x2: int, x3: int)
    ensures var u := x1 - x3;
            (x1 + x2 + x3) * (u * u) - x3 * x3 * x3
            == -(x1 * x1 * x1) + (2 * (x1 + x2 + x3) * x1 - (x1 * x2 + x1 * x3 + x2 * x3)) * u
  {}

  lemma SquareOfLine(l: int, u: int, y1: int)
    ensures (l * u - y1) * (l * u - y1) == (l * l) * (u * u) - (2 * l * y1) * u + y1 * y1
  {}

  lemma SlackIs(x1: int, y1: int, x2: int, l: int)
    ensures var x3 := l * l - x1 - x2;
            Slack(x1, y1, x2, l) == -(2 * l * y1) + (2 * (x1 + x2 + x3) * x1 - (x1 * x2 + x1 * x3 + x2 * x3))
  {}

  lemma {:induction false} ThirdPoint(x1: int, y1: int, x2: int, l: int)
    ensures var x3 := l * l - x1 - x2;
            var y3 := l * (x1 - x3) - y1;
            y3 * y3 - (x3 * x3 * x3 + 7) == (y1 * y1 - (x1 * x1 * x1 + 7)) - Slack(x1, y1, x2, l) * (x3 - x1)
  {
    var x3 := l * l - x1 - x2;
    var u := x1 - x3;
    var t := 2 * (x1 + x2 + x3) * x1 - (x1 * x2 + x1 * x3 + x2 * x3);
    Cubics(x1, x2, x3);
    SquareOfLine(l, u, y1);
    SlackIs(x1, y1, x2, l);
    assert l * l == x1 + x2 + x3;
    assert (-(2 * l * y1) + t) * u == -((2 * l * y1) * u) + t * u;
    assert Slack(x1, y1, x2, l) * (x3 - x1) == -(Slack(x1, y1, x2, l) * u);
  }

  lemma ChordSlack(x1: int, y1: int, x2: int, l: int)
    ensures var d := x2 - x1;
            Slack(x1, y1, x2, l) * d == (y1 * y1 - (x1 * x1 * x1 + 7)) - ((l * d + y1) * (l * d + y1) - (x2 * x2 * x2 + 7))
  {}

  lemma TangentSlack(x1: int, y1: int, l: int)
    ensures Slack(x1, y1, x1, l) == -(l * (2 * y1) - 3 * (x1 * x1))
  {}

  lemma CongZero(a: int, b: int, m: nat)
    requires m > 0
    ensures Cong(a, b, m) <==> Cong(a - b, 0, m)
  {
    if Cong(a, b, m) {
      var k :| a == b + m * k;
      assert a - b == 0 + m * k;
    }
    if Cong(a - b, 0, m) {
      var k :| a - b == 0 + m * k;
      assert a == b + m * k;
    }
  }

  /** A zero slack puts the third point on the curve. */
  lemma {:induction false} ThirdPointOnCurve(x1: int, y1: int, x2: int, l: int, m: nat)
    requires m > 0 && OnEquation(x1, y1, m) && Cong(Slack(x1, y1, x2, l), 0, m)
    ensures var x3 := l * l - x1 - x2; OnEquation(x3, l * (x1 - x3) - y1, m)
  {
    var x3 := l * l - x1 - x2;
    var y3 := l * (x1 - x3) - y1;
    var s := Slack(x1, y1, x2, l);
    ThirdPoint(x1, y1, x2, l);
    CongRefl(x3 - x1, m);
    CongMul(s, 0, x3 - x1, x3 - x1, m);
    CongZero(y1 * y1, x1 * x1 * x1 + 7, m);
    CongAdd(y1 * y1 - (x1 * x1 * x1 + 7), 0, s * (x3 - x1), 0, m);
    CongZero(y3 * y3, x3 * x3 * x3 + 7, m);
  }

  /** Multiplying by an invertible d loses nothing. */
  lemma {:induction false} CancelFactor(s: int, d: int, i: int, m: nat)
    requires m > 0 && Cong(s * d, 0, m) && Cong(d * i, 1, m)
    ensures Cong(s, 0, m)
  {
    CongRefl(s, m);
    CongMul(s, s, d * i, 1, m);
    CongSym(s * (d * i), s, m);
    CongRefl(i, m);
    CongMul(s * d, 0, i, i, m);
    assert s * (d * i) == (s * d) * i;
    CongTrans(s, s * (d * i), 0, m);
  }

  lemma {:induction false} SlopeIsQuotient(num: int, den: int, i: int, l: int, m: nat)
    requires m > 0 && Cong(den * i, 1, m) && l == (num * i) % m
    ensures Cong(l * den, num, m)
  {
    CongMod(num * i, m);
    CongRefl(den, m);
    CongMul(l, num * i, den, den, m);
    assert (num * i) * den == num * (den * i);
    CongRefl(num, m);
    CongMul(num, num, den * i, 1, m);
    CongTrans(l * den, num * (den * i), num, m);
  }

  lemma {:induction false} ChordOnCurve(x1: int, y1: int, x2: int, y2: int, l: int, i: int, m: nat)
    requires m > 0 && OnEquation(x1, y1, m) && OnEquation(x2, y2, m)
    requires Cong((x2 - x1) * i, 1, m) && Cong(l * (x2 - x1), y2 - y1, m)
    ensures var x3 := l * l - x1 - x2; OnEquation(x3, l * (x1 - x3) - y1, m)
  {
    var d, s := x2 - x1, Slack(x1, y1, x2, l);
    var e := l * d + y1;
    CongRefl(y1, m);
    CongAdd(l * d, y2 - y1, y1, y1, m);
    CongMul(e, y2, e, y2, m);
    CongTrans(e * e, y2 * y2, x2 * x2 * x2 + 7, m);
    CongZero(e * e, x2 * x2 * x2 + 7, m);
    CongZero(y1 * y1, x1 * x1 * x1 + 7, m);
    CongAdd(y1 * y1 - (x1 * x1 * x1 + 7), 0, e * e - (x2 * x2 * x2 + 7), 0, m);
    ChordSlack(x1, y1, x2, l);
    CancelFactor(s, d, i, m);
    ThirdPointOnCurve(x1, y1, x2, l, m);
  }

  lemma {:induction false} TangentOnCurve(x1: int, y1: int, l: int, m: nat)
    requires m > 0 && OnEquation(x1, y1, m) && Cong(l * (y1 * 2), x1 * x1 * 3, m)
    ensures var x3 := l * l - x1 - x1; OnEquation(x3, l * (x1 - x3) - y1, m)
  {
    TangentSlack(x1, y1, l);
    CongZero(l * (y1 * 2), x1 * x1 * 3, m);
    CongRefl(0, m);
    CongAdd(0, 0, l * (y1 * 2) - x1 * x1 * 3, 0, m);
    ThirdPointOnCurve(x1, y1, x1, l, m);
  }

  /** Reducing both coordinates keeps a point on the curve. */
  lemma {:induction false} ReducedOnCurve(x1: int, y1: int, l: int, x3: int, m: nat)
    requires m > 0 && OnEquation(x3, l * (x1 - x3) - y1, m)
    ensures OnEquation(x3 % m, ((x1 - x3 % m) * l - y1) % m, m)
  {
    var x, y := x3 % m, l * (x1 - x3) - y1;
    var y' := ((x1 - x) * l - y1) % m;
    CongMod(x3, m);
    CongRefl(x1, m);
    CongAdd(x1, x1, x, x3, m);
    CongRefl(l, m);
    CongMul(x1 - x, x1 - x3, l, l, m);
    CongRefl(y1, m);
    CongAdd((x1 - x) * l, (x1 - x3) * l, y1, y1, m);
    CongMod((x1 - x) * l - y1, m);
    assert (x1 - x3) * l - y1 == y;
    CongTrans(y', (x1 - x) * l - y1, y, m);
    CongMul(y', y, y', y, m);
    CongMul(x3, x, x3, x, m);
    CongMul(x3 * x3, x * x, x3, x, m);
    CongRefl(7, m);
    CongAdd(x3 * x3 * x3, x * x * x, 7, 7, m);
    CongTrans(y' * y', y * y, x3 * x3 * x3 + 7, m);
    CongTrans(y' * y', x3 * x3 * x3 + 7, x * x * x + 7, m);
  }

  lemma {:induction false} Nonzero(a: int, m: nat)
    requires m > 0 && a != 0 && 0 - m < a < m
    ensures 0 < a % m < m
  {
    DivMod(m, 0, a);
    if a < 0 { DivMod(m, -1, a + m); }
  }

  lemma {:induction false} SlopeInverse(den: int, p: Modulus)
    requires PrimeField(p) && 0 < den % p
    ensures Cong(den * ModInverse(den % p, p), 1, p)
  {
    var i := ModInverse(den % p, p);
    Invertible(den % p, p);
    CongMod(den, p);
    CongRefl(i, p);
    CongMul(den, den % p, i, i, p);
    CongTrans(den * i, (den % p) * i, 1, p);
  }

  lemma {:induction false} ThirdOnCurve(a: Point, bx: nat, l: nat, p: Modulus)
    requires a.Affine?
    requires var x3 := l * l - a.x - bx; OnEquation(x3, l * (a.x - x3) - a.y, p)
    ensures IsPoint(Third(a, bx, l, p), p)
  {
    ReducedOnCurve(a.x, a.y, l, l * l - a.x - bx, p);
  }

  lemma {:induction false} ChordSlope(a: Point, b: Point, p: Modulus)
    requires PrimeField(p) && a.Affine? && b.Affine? && a.x < p && b.x < p && a.x != b.x
    ensures Cong((b.x - a.x) * ModInverse((b.x - a.x) % p, p), 1, p)
    ensures Cong(Slope(a, b, p) * (b.x - a.x), b.y - a.y, p)
  {
    var d := b.x - a.x;
    Nonzero(d, p);
    SlopeInverse(d, p);
    SlopeIsQuotient(b.y - a.y, d, ModInverse(d % p, p), Slope(a, b, p), p);
  }

  lemma {:induction false} ChordThird(a: Point, b: Point, l: nat, i: nat, p: Modulus)
    requires a.Affine? && b.Affine? && IsPoint(a, p) && IsPoint(b, p)
    requires Cong((b.x - a.x) * i, 1, p) && Cong(l * (b.x - a.x), b.y - a.y, p)
    ensures IsPoint(Third(a, b.x, l, p), p)
  {
    ChordOnCurve(a.x, a.y, b.x, b.y, l, i, p);
    ThirdOnCurve(a, b.x, l, p);
  }

  lemma {:induction false} AddChord(a: Point, b: Point, p: Modulus)
    requires PrimeField(p) && a.Affine? && b.Affine? && IsPoint(a, p) && IsPoint(b, p) && a.x != b.x
    ensures IsPoint(Third(a, b.x, Slope(a, b, p), p), p)
  {
    ChordSlope(a, b, p);
    ChordThird(a, b, Slope(a, b, p), ModInverse((b.x - a.x) % p, p), p);
  }

  lemma {:induction false} DoubleNonzero(y: nat, m: nat)
    requires 0 < y < m && m % 2 == 1
    ensures 0 < (y * 2) % m
  {
    var d := y * 2;
    if d < m { Nonzero(d, m); } else { DivMod(m, 1, d - m); Nonzero(d - m, m); }
  }

  lemma {:induction false} TangentSlope(a: Point, p: Modulus)
    requires PrimeField(p) && a.Affine? && 0 < a.y < p
    ensures Cong(Slope(a, a, p) * (a.y * 2), a.x * a.x * 3, p)
  {
    DoubleNonzero(a.y, p);
    SlopeInverse(a.y * 2, p);
    SlopeIsQuotient(a.x * a.x * 3, a.y * 2, ModInverse((a.y * 2) % p, p), Slope(a, a, p), p);
  }

  lemma {:induction false} AddTangent(a: Point, p: Modulus)
    requires PrimeField(p) && a.Affine? && IsPoint(a, p) && a.y != 0
    ensures IsPoint(Third(a, a.x, Slope(a, a, p), p), p)
  {
    var l := Slope(a, a, p);
    TangentSlope(a, p);
    TangentOnCurve(a.x, a.y, l, p);
    ThirdOnCurve(a, a.x, l, p);
  }

  lemma Assembled(r: Point, x: nat, y: nat, p: Modulus)
    requires r == Affine(x, y) && x < p && y < p && OnEquation(x, y, p)
    ensures IsPoint(r, p)
  {}

  /** The affine formulas never leave the curve. */
  lemma {:induction false} AddClosed(a: Point, b: Point, p: Modulus)
    requires PrimeField(p) && IsPoint(a, p) && IsPoint(b, p)
    ensures IsPoint(Add(a, b, p), p)
  {
    if a.Affine? && b.Affine? {
      if a.x != b.x {
        AddChord(a, b, p);
      } else if a.y == b.y && a.y != 0 {
        AddTangent(a, p);
      }
    }
  }

  lemma {:induction false} MulClosed(k: nat, pt: Point, p: Modulus)
    requires PrimeField(p) && IsPoint(pt, p)
    ensures IsPoint(DoubleAndAdd(k, pt, Infinity, Adder(p)), p)
  {
    if k > 0 {
      MulClosed(k / 2, pt, p);
      var r := DoubleAndAdd(k / 2, pt, Infinity, Adder(p));
      AddClosed(r, r, p);
      AddClosed(Add(r, r, p), pt, p);
    }
  }

  lemma FieldFitsBytes()
    ensures P < Pow(256, 32)
  {
    PowAdd(256, 16, 16);
    PowAdd(256, 8, 8);
    assert Pow(256, 8) == 0x1_00000000_00000000;
  }

  lemma CompressX(pt: Point, p: Modulus)
    requires pt.Affine? && pt.x < p <= Pow(256, 32)
    ensures BigEndian(Compress(pt)[1..], 256) == pt.x
  {
    assert Compress(pt)[1..] == Fixed(pt.x, 256, 32);
    BigEndianOfFixed(pt.x, 256, 32);
  }

  /** Every affine curve point compresses to a key that OnCurve accepts: its x^3 + 7 is a square. */
  lemma {:induction false} CompressedOnCurve(pt: Point, p: Modulus)
    requires PrimeField(p) && pt.Affine? && IsPoint(pt, p) && p <= Pow(256, 32)
    ensures OnCurve(Compress(pt), p) && BigEndian(Compress(pt)[1..], 256) == pt.x
  {
    CompressX(pt, p);
    SquareHasRoot(pt.x, pt.y, p);
  }

  lemma SquareIsRhs(x: nat, y: nat, p: Modulus)
    requires OnEquation(x, y, p)
    ensures Cong(y * y, Rhs(x, p), p)
  {
    RhsIsCubic(x, p);
    CongSym(Rhs(x, p), x * x * x + 7, p);
    CongTrans(y * y, x * x * x + 7, Rhs(x, p), p);
  }

  lemma {:induction false} SquareHasRoot(x: nat, y: nat, p: Modulus)
    requires PrimeField(p) && x < p && y < p && OnEquation(x, y, p)
    ensures Rhs(x, p) == 0 || ModPow(Rhs(x, p), (p - 1) / 2, p) == 1
  {
    var rhs, h := Rhs(x, p), (p - 1) / 2;
    SquareIsRhs(x, y, p);
    if y == 0 {
      SmallCong(0, rhs, p);
    } else {
      assert Fermat(y, p);
      ModPowBase(y * y, rhs, h, p);
      ModPowSquare(y, h, p);
    }
  }

  /** The generator satisfies the curve equation over the field of P elements. */
  lemma GeneratorOnCurve()
    ensures IsPoint(G, P)
  {
    var k := -1442042049659660869506300006036683750029629333882594701370927246876626245108435922902327776681700708714008192087431130951749952236093997894375239788520937;
    assert G.y * G.y == G.x * G.x * G.x + 7 + P * k;
  }
}
