/** Linear recurrences over GF(2), for any type of words with an exclusive-or. */
module Gf2 {

  predicate GroupAt<T(==)>(x: (T, T) -> T, zero: T, a: T, b: T, c: T) {
    x(a, b) == x(b, a) && x(x(a, b), c) == x(a, x(b, c)) && x(a, zero) == a && x(a, a) == zero
  }

  /** x is commutative and associative, with identity zero, and every word is its own inverse. */
  ghost predicate XorGroup<T(!new)>(x: (T, T) -> T, zero: T) {
    forall a, b, c :: GroupAt(x, zero, a, b, c)
  }

  function Select<T>(zero: T, on: bool, g: T): T {
    if on then g else zero
  }

  /** The exclusive-or of the words whose bit is set. */
  function Reduce<T>(x: (T, T) -> T, zero: T, bits: seq<bool>, gens: seq<T>): T
    requires |bits| == |gens|
    decreases |bits|
  {
    if bits == [] then zero else x(Select(zero, bits[0], gens[0]), Reduce(x, zero, bits[1..], gens[1..]))
  }

  /** The state after feeding vs, one by one, into a register. */
  function Run<T>(step: (T, T) -> T, c: T, vs: seq<T>): T
    decreases |vs|
  {
    if vs == [] then c else Run(step, step(c, vs[0]), vs[1..])
  }

  function Differ(p: seq<bool>, q: seq<bool>): (r: seq<bool>)
    requires |p| == |q|
    ensures |r| == |p|
  {
    seq(|p|, i requires 0 <= i < |p| => p[i] != q[i])
  }

  function XorAll<T>(x: (T, T) -> T, vs: seq<T>, ws: seq<T>): (xs: seq<T>)
    requires |vs| == |ws|
    ensures |xs| == |vs|
  {
    seq(|vs|, i requires 0 <= i < |vs| => x(vs[i], ws[i]))
  }

  lemma Interchange<T(!new)>(x: (T, T) -> T, zero: T, a: T, b: T, c: T, d: T)
    requires XorGroup(x, zero)
    ensures x(x(a, b), x(c, d)) == x(x(a, c), x(b, d))
  {
    assert GroupAt(x, zero, a, b, x(c, d));
    assert GroupAt(x, zero, a, c, x(b, d));
    assert GroupAt(x, zero, b, c, d);
    assert GroupAt(x, zero, c, b, d);
  }

  lemma Selects<T(!new)>(x: (T, T) -> T, zero: T, p: bool, q: bool, g: T)
    requires XorGroup(x, zero)
    ensures Select(zero, p != q, g) == x(Select(zero, p, g), Select(zero, q, g))
  {
    assert GroupAt(x, zero, g, g, g);
    assert GroupAt(x, zero, zero, g, g);
    assert GroupAt(x, zero, g, zero, g);
  }

  lemma {:induction false} ReduceLinear<T(!new)>(x: (T, T) -> T, zero: T, p: seq<bool>, q: seq<bool>, gens: seq<T>)
    requires XorGroup(x, zero) && |p| == |q| == |gens|
    ensures Reduce(x, zero, Differ(p, q), gens) == x(Reduce(x, zero, p, gens), Reduce(x, zero, q, gens))
    decreases |p|
  {
    if p == [] {
      assert GroupAt(x, zero, zero, zero, zero);
      assert Differ(p, q) == [];
    } else {
      ReduceLinear(x, zero, p[1..], q[1..], gens[1..]);
      assert Differ(p, q)[1..] == Differ(p[1..], q[1..]);
      Selects(x, zero, p[0], q[0], gens[0]);
      Interchange(x, zero, Select(zero, p[0], gens[0]), Select(zero, q[0], gens[0]),
                  Reduce(x, zero, p[1..], gens[1..]), Reduce(x, zero, q[1..], gens[1..]));
    }
  }

  predicate LinearAt<T(==)>(x: (T, T) -> T, step: (T, T) -> T, c: T, d: T, v: T, w: T) {
    step(x(c, d), x(v, w)) == x(step(c, v), step(d, w))
  }

  ghost predicate Linear<T(!new)>(x: (T, T) -> T, step: (T, T) -> T) {
    forall c, d, v, w :: LinearAt(x, step, c, d, v, w)
  }

  /** Running a linear register on the difference of two inputs gives the difference of the results. */
  lemma {:induction false} RunLinear<T(!new)>(x: (T, T) -> T, step: (T, T) -> T, c: T, d: T, vs: seq<T>, ws: seq<T>)
    requires Linear(x, step) && |vs| == |ws|
    ensures Run(step, x(c, d), XorAll(x, vs, ws)) == x(Run(step, c, vs), Run(step, d, ws))
    decreases |vs|
  {
    if vs != [] {
      assert LinearAt(x, step, c, d, vs[0], ws[0]);
      RunLinear(x, step, step(c, vs[0]), step(d, ws[0]), vs[1..], ws[1..]);
      assert XorAll(x, vs, ws)[1..] == XorAll(x, vs[1..], ws[1..]);
    }
  }

  lemma {:induction false} RunAppend<T>(step: (T, T) -> T, c: T, vs: seq<T>, ws: seq<T>)
    ensures Run(step, c, vs + ws) == Run(step, Run(step, c, vs), ws)
    decreases |vs|
  {
    if vs == [] {
      assert vs + ws == ws;
    } else {
      RunAppend(step, step(c, vs[0]), vs[1..], ws);
      assert (vs + ws)[1..] == vs[1..] + ws;
    }
  }

  /** The n lowest bits of a word, lowest first. */
  function LowBits<T>(bit: T -> bool, half: T -> T, t: T, n: nat): (bits: seq<bool>)
    ensures |bits| == n
  {
    if n == 0 then [] else [bit(t)] + LowBits(bit, half, half(t), n - 1)
  }

  predicate BitsAt<T(==)>(x: (T, T) -> T, bit: T -> bool, half: T -> T, t: T, u: T) {
    bit(x(t, u)) == (bit(t) != bit(u)) && half(x(t, u)) == x(half(t), half(u))
  }

  lemma {:induction false} LowBitsXor<T(!new)>(x: (T, T) -> T, bit: T -> bool, half: T -> T, t: T, u: T, n: nat)
    requires forall a, b :: BitsAt(x, bit, half, a, b)
    ensures LowBits(bit, half, x(t, u), n) == Differ(LowBits(bit, half, t, n), LowBits(bit, half, u, n))
    decreases n
  {
    if n > 0 {
      assert BitsAt(x, bit, half, t, u);
      LowBitsXor(x, bit, half, half(t), half(u), n - 1);
    }
  }

  /** Reduce over five generators, written out. */
  lemma FiveSelected<T>(x: (T, T) -> T, zero: T, b: seq<bool>, g: seq<T>)
    requires |b| == |g| == 5
    ensures Reduce(x, zero, b, g)
         == x(Select(zero, b[0], g[0]), x(Select(zero, b[1], g[1]), x(Select(zero, b[2], g[2]),
              x(Select(zero, b[3], g[3]), x(Select(zero, b[4], g[4]), zero)))))
  {
    ReduceFrom(x, zero, b, g, 0);
    ReduceFrom(x, zero, b, g, 1);
    ReduceFrom(x, zero, b, g, 2);
    ReduceFrom(x, zero, b, g, 3);
    ReduceFrom(x, zero, b, g, 4);
    assert b[0..] == b && g[0..] == g && b[5..] == [];
  }

  lemma ReduceFrom<T>(x: (T, T) -> T, zero: T, b: seq<bool>, g: seq<T>, i: nat)
    requires |b| == |g| && i < |b|
    ensures Reduce(x, zero, b[i..], g[i..]) == x(Select(zero, b[i], g[i]), Reduce(x, zero, b[i + 1..], g[i + 1..]))
  {
    assert b[i..][1..] == b[i + 1..] && g[i..][1..] == g[i + 1..];
  }

  lemma FiveBits<T>(bit: T -> bool, half: T -> T, t: T)
    ensures var t1 := half(t);
            var t2 := half(t1);
            var t3 := half(t2);
            LowBits(bit, half, t, 5) == [bit(t), bit(t1), bit(t2), bit(t3), bit(half(t3))]
  {
    var t3 := half(half(half(t)));
    assert LowBits(bit, half, half(t3), 1) == [bit(half(t3))];
    assert LowBits(bit, half, t3, 2) == [bit(t3), bit(half(t3))];
    assert LowBits(bit, half, half(half(t)), 3) == [bit(half(half(t))), bit(t3), bit(half(t3))];
  }

  // ------------------------------------------------- a register read back symbol by symbol

  /** The n symbols of a word, most significant first. */
  function Unpacked<T>(down: T -> T, low: T -> T, x: T, n: nat): (vs: seq<T>)
    ensures |vs| == n
  {
    if n == 0 then [] else Unpacked(down, low, down(x), n - 1) + [low(x)]
  }

  lemma {:induction false} UnpackedAll<T(!new)>(down: T -> T, low: T -> T, sym: T -> bool, x: T, n: nat)
    requires forall y :: sym(low(y))
    ensures forall i :: 0 <= i < n ==> sym(Unpacked(down, low, x, n)[i])
  {
    if n > 0 { UnpackedAll(down, low, sym, down(x), n - 1); }
  }

  /** A register that only shifts while it holds at most cap symbols. */
  datatype Shifter<!T> = Shifter(step: (T, T) -> T, down: T -> T, low: T -> T, sym: T -> bool, fits: (T, nat) -> bool,
                                 zero: T, cap: nat)

  /** Taking the last symbol off a word of n symbols and feeding it again. */
  predicate SplitAt<T(==)>(m: Shifter<T>, x: T, n: nat) {
    0 < n <= m.cap && m.fits(x, n) ==> m.fits(m.down(x), n - 1) && m.sym(m.low(x)) && m.step(m.down(x), m.low(x)) == x
  }

  /** Feeding a symbol to a word of n symbols and taking it off again. */
  predicate JoinAt<T(==)>(m: Shifter<T>, x: T, v: T, n: nat) {
    n < m.cap && m.fits(x, n) && m.sym(v) ==> m.fits(m.step(x, v), n + 1) && m.down(m.step(x, v)) == x && m.low(m.step(x, v)) == v
  }

  predicate EmptyAt<T(==)>(m: Shifter<T>, x: T) {
    m.sym(m.zero) && (m.fits(x, 0) <==> x == m.zero)
  }

  ghost predicate Shifts<T(!new)>(m: Shifter<T>) {
    (forall x :: EmptyAt(m, x)) && (forall x, n :: SplitAt(m, x, n)) && (forall x, v, n :: JoinAt(m, x, v, n))
  }

  lemma {:induction false} RunLast<T>(step: (T, T) -> T, c: T, vs: seq<T>, v: T)
    ensures Run(step, c, vs + [v]) == step(Run(step, c, vs), v)
  {
    RunAppend(step, c, vs, [v]);
    assert [v][1..] == [];
  }

  /** Feeding the symbols of x to an empty register leaves x. */
  lemma {:induction false} RunUnpacked<T(!new)>(m: Shifter<T>, x: T, n: nat)
    requires Shifts(m) && n <= m.cap && m.fits(x, n)
    ensures Run(m.step, m.zero, Unpacked(m.down, m.low, x, n)) == x
    decreases n
  {
    if n == 0 {
      assert EmptyAt(m, x);
    } else {
      assert SplitAt(m, x, n);
      RunUnpacked(m, m.down(x), n - 1);
      RunLast(m.step, m.zero, Unpacked(m.down, m.low, m.down(x), n - 1), m.low(x));
    }
  }

  /** An empty register holds the symbols fed to it, up to its capacity. */
  lemma {:induction false} UnpackedRun<T(!new)>(m: Shifter<T>, vs: seq<T>)
    requires Shifts(m) && |vs| <= m.cap && forall i :: 0 <= i < |vs| ==> m.sym(vs[i])
    ensures var x := Run(m.step, m.zero, vs); m.fits(x, |vs|) && Unpacked(m.down, m.low, x, |vs|) == vs
    decreases |vs|
  {
    if vs == [] {
      assert EmptyAt(m, m.zero);
    } else {
      var k := |vs| - 1;
      UnpackedRun(m, vs[..k]);
      var x := Run(m.step, m.zero, vs[..k]);
      assert vs == vs[..k] + [vs[k]];
      RunLast(m.step, m.zero, vs[..k], vs[k]);
      assert JoinAt(m, x, vs[k], k);
    }
  }

  /** Two different words of symbols leave different states, whatever state they start from. */
  lemma {:induction false} WordsSeparate<T(!new)>(x: (T, T) -> T, m: Shifter<T>, s: T, vs: seq<T>, ws: seq<T>)
    requires XorGroup(x, m.zero) && Linear(x, m.step) && Shifts(m)
    requires |vs| == |ws| <= m.cap && vs != ws
    requires forall i :: 0 <= i < |vs| ==> m.sym(x(vs[i], ws[i]))
    ensures Run(m.step, s, vs) != Run(m.step, s, ws)
  {
    if Run(m.step, s, vs) == Run(m.step, s, ws) {
      var n := |vs|;
      var d := XorAll(x, vs, ws);
      RunLinear(x, m.step, s, s, vs, ws);
      assert GroupAt(x, m.zero, s, s, s);
      assert GroupAt(x, m.zero, Run(m.step, s, vs), Run(m.step, s, vs), s);
      UnpackedRun(m, d);
      var same := XorAll(x, vs, vs);
      RunLinear(x, m.step, s, s, vs, vs);
      forall i | 0 <= i < n ensures same[i] == m.zero && m.sym(m.zero) {
        assert GroupAt(x, m.zero, vs[i], vs[i], s);
        assert EmptyAt(m, s);
      }
      UnpackedRun(m, same);
      assert d == same;
      forall i | 0 <= i < n ensures vs[i] == ws[i] {
        assert x(vs[i], ws[i]) == d[i] == m.zero;
        assert GroupAt(x, m.zero, vs[i], vs[i], ws[i]);
        assert GroupAt(x, m.zero, ws[i], m.zero, vs[i]);
        assert GroupAt(x, m.zero, m.zero, ws[i], vs[i]);
        assert GroupAt(x, m.zero, vs[i], m.zero, vs[i]);
      }
    }
  }

  function Same<T>(x: T, n: nat): (s: seq<T>)
    ensures |s| == n && forall i :: 0 <= i < n ==> s[i] == x
  {
    seq(n, _ => x)
  }

  /** Feeding e and then the symbols of A + goal, where A is the state after e and cap zeros, ends in goal. */
  lemma {:induction false} Completes<T(!new)>(x: (T, T) -> T, m: Shifter<T>, start: T, goal: T, e: seq<T>)
    requires XorGroup(x, m.zero) && Linear(x, m.step) && Shifts(m)
    requires m.fits(x(Run(m.step, start, e + Same(m.zero, m.cap)), goal), m.cap)
    ensures var last := Run(m.step, start, e + Same(m.zero, m.cap));
            Run(m.step, start, e + Unpacked(m.down, m.low, x(last, goal), m.cap)) == goal
  {
    var zeros := Same(m.zero, m.cap);
    var s := Run(m.step, start, e);
    RunAppend(m.step, start, e, zeros);
    var last := Run(m.step, s, zeros);
    var check := Unpacked(m.down, m.low, x(last, goal), m.cap);
    RunAppend(m.step, start, e, check);
    RunLinear(x, m.step, s, m.zero, zeros, check);
    AddZeros(x, m.zero, check);
    RunUnpacked(m, x(last, goal), m.cap);
    assert GroupAt(x, m.zero, s, m.zero, s);
    assert GroupAt(x, m.zero, last, last, goal);
    assert GroupAt(x, m.zero, m.zero, goal, goal);
    assert GroupAt(x, m.zero, goal, goal, goal);
  }

  lemma {:induction false} AddZeros<T(!new)>(x: (T, T) -> T, zero: T, vs: seq<T>)
    requires XorGroup(x, zero)
    ensures XorAll(x, Same(zero, |vs|), vs) == vs
  {
    forall i | 0 <= i < |vs| ensures x(zero, vs[i]) == vs[i] {
      assert GroupAt(x, zero, zero, vs[i], zero);
      assert GroupAt(x, zero, vs[i], zero, zero);
    }
  }

  predicate StepsInside<T>(step: (T, T) -> T, ok: T -> bool, sym: T -> bool, c: T, v: T) {
    ok(c) && sym(v) ==> ok(step(c, v))
  }

  predicate StepsApart<T(==)>(step: (T, T) -> T, ok: T -> bool, c: T, d: T, v: T) {
    ok(c) && ok(d) && step(c, v) == step(d, v) ==> c == d
  }

  lemma {:induction false} RunInside<T(!new)>(step: (T, T) -> T, ok: T -> bool, sym: T -> bool, c: T, vs: seq<T>)
    requires forall c, v :: StepsInside(step, ok, sym, c, v)
    requires ok(c) && forall i :: 0 <= i < |vs| ==> sym(vs[i])
    ensures ok(Run(step, c, vs))
    decreases |vs|
  {
    if vs != [] {
      assert StepsInside(step, ok, sym, c, vs[0]);
      RunInside(step, ok, sym, step(c, vs[0]), vs[1..]);
    }
  }

  /** A difference in the state survives any further symbols. */
  lemma {:induction false} RunApart<T(!new)>(step: (T, T) -> T, ok: T -> bool, sym: T -> bool, c: T, d: T, vs: seq<T>)
    requires forall c, v :: StepsInside(step, ok, sym, c, v)
    requires forall c, d, v :: StepsApart(step, ok, c, d, v)
    requires ok(c) && ok(d) && c != d && forall i :: 0 <= i < |vs| ==> sym(vs[i])
    ensures Run(step, c, vs) != Run(step, d, vs)
    decreases |vs|
  {
    if vs != [] {
      assert StepsInside(step, ok, sym, c, vs[0]);
      assert StepsInside(step, ok, sym, d, vs[0]);
      assert StepsApart(step, ok, c, d, vs[0]);
      RunApart(step, ok, sym, step(c, vs[0]), step(d, vs[0]), vs[1..]);
    }
  }

  // --------------------------------------------------------- numbers as words, bit by bit

  function Word<T>(double: (T, bool) -> T, zero: T, n: nat): T {
    if n == 0 then zero else double(Word(double, zero, n / 2), n % 2 == 1)
  }

  /** While a has k bits: doubling gives k + 1 bits and loses nothing. */
  predicate DoubleAt<T(==)>(double: (T, bool) -> T, zero: T, fits: (T, nat) -> bool, a: T, p: bool, b: T, q: bool, k: nat) {
    && fits(zero, k) && double(zero, false) == zero
    && (fits(a, k) ==> fits(double(a, p), k + 1))
    && (fits(a, k) && fits(b, k) && double(a, p) == double(b, q) ==> a == b && p == q)
  }

  ghost predicate Doubles<T(!new)>(double: (T, bool) -> T, zero: T, fits: (T, nat) -> bool, cap: nat) {
    forall a, p, b, q, k: nat :: k < cap ==> DoubleAt(double, zero, fits, a, p, b, q, k)
  }

  function TwoTo(k: nat): (r: nat)
    ensures r > 0
  {
    if k == 0 then 1 else 2 * TwoTo(k - 1)
  }

  lemma WordHalf<T>(double: (T, bool) -> T, zero: T, n: nat)
    requires double(zero, false) == zero
    ensures Word(double, zero, n) == double(Word(double, zero, n / 2), n % 2 == 1)
  {}

  lemma {:induction false} WordFits<T(!new)>(double: (T, bool) -> T, zero: T, fits: (T, nat) -> bool, cap: nat, n: nat, k: nat)
    requires Doubles(double, zero, fits, cap) && k <= cap && n < TwoTo(k) && fits(zero, cap)
    ensures fits(Word(double, zero, n), k)
    decreases k
  {
    if k == 0 {
      if cap > 0 { assert DoubleAt(double, zero, fits, zero, true, zero, true, 0); }
    } else {
      var a := Word(double, zero, n / 2);
      assert DoubleAt(double, zero, fits, a, n % 2 == 1, a, true, k - 1);
      WordFits(double, zero, fits, cap, n / 2, k - 1);
      WordHalf(double, zero, n);
    }
  }

  lemma {:induction false} WordInjective<T(!new)>(double: (T, bool) -> T, zero: T, fits: (T, nat) -> bool, cap: nat, n: nat, m: nat, k: nat)
    requires Doubles(double, zero, fits, cap) && k <= cap && n < TwoTo(k) && m < TwoTo(k) && fits(zero, cap)
    requires Word(double, zero, n) == Word(double, zero, m)
    ensures n == m
    decreases k
  {
    if k > 0 {
      var a, b := Word(double, zero, n / 2), Word(double, zero, m / 2);
      assert DoubleAt(double, zero, fits, a, n % 2 == 1, b, m % 2 == 1, k - 1);
      WordFits(double, zero, fits, cap, n / 2, k - 1);
      WordFits(double, zero, fits, cap, m / 2, k - 1);
      WordHalf(double, zero, n);
      WordHalf(double, zero, m);
      WordInjective(double, zero, fits, cap, n / 2, m / 2, k - 1);
    }
  }
}
