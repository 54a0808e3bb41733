/** Positional notation in an arbitrary base, shared by the Base58Check codec, the
    extended-key format, compressed points and the money parser. */
module Radix {

  function Reverse<T>(s: seq<T>): (r: seq<T>)
    ensures |r| == |s|
    ensures forall i :: 0 <= i < |s| ==> r[i] == s[|s| - 1 - i]
  {
    if s == [] then [] else Reverse(s[1..]) + [s[0]]
  }

  lemma ReverseTwice<T>(s: seq<T>)
    ensures Reverse(Reverse(s)) == s
  {}

  lemma ReverseAppend<T>(s: seq<T>, t: seq<T>)
    ensures Reverse(s + t) == Reverse(t) + Reverse(s)
  {}

  function Repeat<T>(x: T, n: nat): (s: seq<T>)
    ensures |s| == n && forall i :: 0 <= i < n ==> s[i] == x
  {
    if n == 0 then [] else Repeat(x, n - 1) + [x]
  }

  function Zeros(n: nat): (s: seq<nat>)
    ensures |s| == n && forall i :: 0 <= i < n ==> s[i] == 0
  {
    Repeat(0, n)
  }

  predicate InBase(ds: seq<nat>, b: nat) {
    forall i :: 0 <= i < |ds| ==> ds[i] < b
  }

  function Pow(b: nat, e: nat): (p: nat) {
    if e == 0 then 1 else b * Pow(b, e - 1)
  }

  /** The digits of n, least significant first, without superfluous zeros. */
  function Digits(n: nat, b: nat): (ds: seq<nat>)
    requires b >= 2
    ensures InBase(ds, b)
    ensures ds != [] ==> ds[|ds| - 1] != 0
    ensures ds == [] <==> n == 0
    decreases n
  {
    if n == 0 then [] else
      DivShrinks(n, b);
      var rest := Digits(n / b, b);
      assert rest == [] ==> n % b == n by { if rest == [] { DivMod(b, 0, n); } }
      [n % b] + rest
  }

  /** The number whose digits, most significant first, are ds. */
  function BigEndian(ds: seq<nat>, b: nat): (n: nat) {
    if ds == [] then 0 else BigEndian(ds[..|ds| - 1], b) * b + ds[|ds| - 1]
  }

  /** The len lowest digits of n, most significant first. */
  function Fixed(n: nat, b: nat, len: nat): (ds: seq<nat>)
    requires b >= 2
    ensures |ds| == len && InBase(ds, b)
    decreases len
  {
    if len == 0 then [] else Fixed(n / b, b, len - 1) + [n % b]
  }

  /** One pass of a multiply-and-add over least-significant-first digits, the carry spilling
      into new digits at the end: the inner loops of both Base58 directions. */
  function MulAdd(ds: seq<nat>, m: nat, carry: nat, b: nat): (r: seq<nat>)
    requires b >= 2
    decreases |ds|, carry
  {
    if ds != [] then
      QuotientNat(carry + ds[0] * m, b);
      [(carry + ds[0] * m) % b] + MulAdd(ds[1..], m, (carry + ds[0] * m) / b, b)
    else if carry == 0 then []
    else
      DivShrinks(carry, b);
      [carry % b] + MulAdd([], m, carry / b, b)
  }

  // ---------------------------------------------------------------- arithmetic

  lemma DivShrinks(n: nat, b: nat)
    requires n > 0 && b >= 2
    ensures 0 <= n / b < n
  {
    var q := n / b;
    assert n == b * q + n % b;
    MulMono(2, b, q, q);
  }

  lemma QuotientNat(t: nat, b: nat)
    requires b >= 2
    ensures t / b >= 0 && 0 <= t % b < b
  {
    if t > 0 { DivShrinks(t, b); } else { DivMod(b, 0, 0); }
  }

  lemma Distribute(b: int, x: int, y: int)
    ensures b * (x + y) == b * x + b * y
  {}

  lemma {:induction false} Unique(b: nat, q: int, r: int, q': int, r': int)
    requires b > 0 && 0 <= r < b && 0 <= r' < b && b * q + r == b * q' + r'
    ensures q == q' && r == r'
  {
    Distribute(b, q', q - q');
    if q > q' { MulMono(b, b, 1, q - q'); }
    Distribute(b, q, q' - q);
    if q < q' { MulMono(b, b, 1, q' - q); }
  }

  lemma {:induction false} DivMod(b: nat, k: int, t: int)
    requires b > 0
    ensures (b * k + t) / b == k + t / b
    ensures (b * k + t) % b == t % b
    ensures 0 <= t < b ==> t / b == 0 && t % b == t
  {
    var n := b * k + t;
    Distribute(b, k, t / b);
    Unique(b, n / b, n % b, k + t / b, t % b);
    if 0 <= t < b { Unique(b, t / b, t % b, 0, t); }
  }

  /** The quotient and remainder of n * m + c, from those of n. */
  lemma {:induction false} Carry(n: nat, m: nat, c: nat, b: nat)
    requires b >= 2
    ensures var t := c + (n % b) * m;
            (n * m + c) % b == t % b && (n * m + c) / b == (n / b) * m + t / b
  {
    var q, r := n / b, n % b;
    var t := c + r * m;
    assert n == b * q + r;
    Expand(b, q, r, m);
    DivMod(b, q * m, t);
  }

  lemma Expand(b: int, q: int, r: int, m: int)
    ensures (b * q + r) * m == b * (q * m) + r * m
  {}

  lemma PowAdd(b: nat, m: nat, n: nat)
    ensures Pow(b, m + n) == Pow(b, m) * Pow(b, n)
    decreases m
  {
    if m > 0 {
      PowAdd(b, m - 1, n);
      calc {
        Pow(b, m + n);
        b * (Pow(b, m - 1) * Pow(b, n));
        (b * Pow(b, m - 1)) * Pow(b, n);
      }
    }
  }

  lemma MulMono(a: nat, b: nat, c: nat, d: nat)
    requires a <= b && c <= d
    ensures a * c <= b * d
  {
    assert a * c <= b * c;
    assert b * c <= b * d;
  }

  // ------------------------------------------------------------------- theorems

  lemma {:induction false} SpillIsDigits(m: nat, c: nat, b: nat)
    requires b >= 2
    ensures MulAdd([], m, c, b) == Digits(c, b)
    decreases c
  {
    if c > 0 {
      DivShrinks(c, b);
      SpillIsDigits(m, c / b, b);
    }
  }

  /** Multiplying and adding digit by digit with a carry computes the digits of n * m + c. */
  lemma {:induction false} MulAddIsArithmetic(n: nat, m: nat, c: nat, b: nat)
    requires b >= 2 && m >= 1
    ensures MulAdd(Digits(n, b), m, c, b) == Digits(n * m + c, b)
    decreases n
  {
    if n == 0 {
      SpillIsDigits(m, c, b);
    } else {
      DivShrinks(n, b);
      var q, t, total := CarryStep(n, m, c, b);
      MulAddIsArithmetic(q, m, t / b, b);
      DigitsStep(total, b);
    }
  }

  lemma {:induction false} CarryStep(n: nat, m: nat, c: nat, b: nat) returns (q: nat, t: nat, total: nat)
    requires b >= 2 && m >= 1 && n > 0
    ensures q == n / b && total == n * m + c > 0 && t / b >= 0
    ensures MulAdd(Digits(n, b), m, c, b) == [t % b] + MulAdd(Digits(q, b), m, t / b, b)
    ensures total % b == t % b && total / b == q * m + t / b
  {
    q, t, total := n / b, c + (n % b) * m, n * m + c;
    MulMono(1, n, 1, m);
    Carry(n, m, c, b);
    DigitsStep(n, b);
    MulAddStep(n % b, Digits(q, b), m, c, b);
  }

  lemma MulAddStep(d: nat, rest: seq<nat>, m: nat, c: nat, b: nat)
    requires b >= 2
    ensures var t := c + d * m;
            t / b >= 0 && MulAdd([d] + rest, m, c, b) == [t % b] + MulAdd(rest, m, t / b, b)
  {
    assert ([d] + rest)[1..] == rest;
  }

  lemma DigitsStep(n: nat, b: nat)
    requires b >= 2 && n > 0
    ensures n / b >= 0 && Digits(n, b) == [n % b] + Digits(n / b, b)
  {}

  lemma Recompose(n: nat, b: nat)
    requires b > 0
    ensures n == (n / b) * b + n % b
  {}

  lemma BigEndianAppend(ds: seq<nat>, d: nat, b: nat)
    ensures BigEndian(ds + [d], b) == BigEndian(ds, b) * b + d
  {
    assert (ds + [d])[..|ds|] == ds;
  }

  lemma {:induction false} BigEndianOfDigits(n: nat, b: nat)
    requires b >= 2
    ensures BigEndian(Reverse(Digits(n, b)), b) == n
    decreases n
  {
    if n > 0 {
      DivShrinks(n, b);
      BigEndianOfDigits(n / b, b);
      DigitsStep(n, b);
      Recompose(n, b);
      BigEndianAppend(Reverse(Digits(n / b, b)), n % b, b);
    }
  }

  lemma AppendDivMod(v: nat, d: nat, b: nat)
    requires d < b
    ensures (v * b + d) % b == d && (v * b + d) / b == v
    ensures v > 0 || d > 0 ==> v * b + d > 0
  {
    assert v * b == b * v;
    DivMod(b, v, d);
    MulMono(v, v, 1, b);
  }

  /** A digit string with no leading zero is the only one for its value. */
  lemma {:induction false} DigitsOfBigEndian(ds: seq<nat>, b: nat)
    requires b >= 2 && InBase(ds, b)
    requires ds != [] ==> ds[0] != 0
    ensures Reverse(Digits(BigEndian(ds, b), b)) == ds
    ensures ds != [] ==> BigEndian(ds, b) > 0
  {
    if ds != [] {
      var init, d := ds[..|ds| - 1], ds[|ds| - 1];
      var v, n := BigEndian(init, b), BigEndian(ds, b);
      DigitsOfBigEndian(init, b);
      assert ds == init + [d];
      AppendDivMod(v, d, b);
      BigEndianAppend(init, d, b);
      DigitsStep(n, b);
      assert Digits(n, b)[1..] == Digits(v, b);
    }
  }

  lemma {:induction false} AllZeros(z: nat, b: nat)
    ensures BigEndian(Zeros(z), b) == 0
  {
    if z > 0 {
      AllZeros(z - 1, b);
      BigEndianAppend(Zeros(z - 1), 0, b);
      assert Zeros(z) == Zeros(z - 1) + [0];
    }
  }

  lemma {:induction false} LeadingZeros(z: nat, ds: seq<nat>, b: nat)
    ensures BigEndian(Zeros(z) + ds, b) == BigEndian(ds, b)
    decreases |ds|
  {
    if ds == [] {
      AllZeros(z, b);
      assert Zeros(z) + ds == Zeros(z);
    } else {
      var init, d := ds[..|ds| - 1], ds[|ds| - 1];
      LeadingZeros(z, init, b);
      assert Zeros(z) + ds == (Zeros(z) + init) + [d];
      BigEndianAppend(Zeros(z) + init, d, b);
      assert ds == init + [d];
      BigEndianAppend(init, d, b);
    }
  }

  lemma {:induction false} BigEndianBound(ds: seq<nat>, b: nat)
    requires b >= 2 && InBase(ds, b)
    ensures BigEndian(ds, b) < Pow(b, |ds|)
  {
    if ds != [] {
      var init := ds[..|ds| - 1];
      BigEndianBound(init, b);
      BoundStep(BigEndian(init, b), ds[|ds| - 1], b, Pow(b, |init|));
    }
  }

  lemma {:induction false} BoundStep(v: nat, d: nat, b: nat, p: nat)
    requires v < p && d < b
    ensures v * b + d < b * p
  {
    MulMono(v + 1, p, b, b);
    Distribute(b, v, 1);
  }

  lemma {:induction false} QuotientBound(n: nat, b: nat, p: nat)
    requires b >= 2 && n < b * p
    ensures 0 <= n / b < p
  {
    Recompose(n, b);
    if n / b >= p { MulMono(b, b, p, n / b); }
  }

  /** A number below b^k has at most k digits. */
  lemma {:induction false} DigitsLength(n: nat, b: nat, k: nat)
    requires b >= 2 && n < Pow(b, k)
    ensures |Digits(n, b)| <= k
    decreases n
  {
    if n > 0 {
      DivShrinks(n, b);
      QuotientBound(n, b, Pow(b, k - 1));
      DigitsLength(n / b, b, k - 1);
    }
  }

  lemma {:induction false} FixedOfBigEndian(ds: seq<nat>, b: nat)
    requires b >= 2 && InBase(ds, b)
    ensures Fixed(BigEndian(ds, b), b, |ds|) == ds
  {
    if ds != [] {
      var init, d := ds[..|ds| - 1], ds[|ds| - 1];
      FixedOfBigEndian(init, b);
      AppendDivMod(BigEndian(init, b), d, b);
      assert ds == init + [d];
    }
  }

  lemma {:induction false} BigEndianOfFixed(n: nat, b: nat, len: nat)
    requires b >= 2 && n < Pow(b, len)
    ensures BigEndian(Fixed(n, b, len), b) == n
    decreases len
  {
    if len > 0 {
      QuotientBound(n, b, Pow(b, len - 1));
      BigEndianOfFixed(n / b, b, len - 1);
      Recompose(n, b);
      BigEndianAppend(Fixed(n / b, b, len - 1), n % b, b);
    }
  }
}
