/** What the BIP 380 checksum guarantees: the code word it completes, and the changes it always
    detects (internal/btc/descriptor.go). */
module DescriptorCode {
  import opened Results
  import opened Gf2
  import opened Descriptor

  // ---------------------------------------------------------- bounds on the state

  /** 32^n, for up to eight symbols. */
  function Limit(n: nat): bv64
    requires n <= 8
  {
    match n
    case 0 => 1
    case 1 => 0x20
    case 2 => 0x400
    case 3 => 0x8000
    case 4 => 0x10_0000
    case 5 => 0x200_0000
    case 6 => 0x4000_0000
    case 7 => 0x8_0000_0000
    case 8 => 0x100_0000_0000
  }

  lemma ShiftDown(x: bv64, n: nat)
    requires 0 < n <= 8 && x < Limit(n)
    ensures x >> 5 < Limit(n - 1)
  {}

  lemma ShiftUp(x: bv64, v: bv64, n: nat)
    requires n <= 7 && x < Limit(n) && v < 32
    ensures (x << 5) | v < Limit(n + 1)
    ensures x < Limit(7)
  {}

  lemma Join(x: bv64, v: bv64)
    requires x < Limit(7) && v < 32
    ensures ((x << 5) | v) >> 5 == x && Low((x << 5) | v) == v
  {}

  lemma {:induction false} SmallStep(x: bv64, v: bv64)
    requires x < Limit(7) && v < 32
    ensures STEP(x, v) == (x << 5) | v
  {
    PolymodIsWritten(x, v);
    WrittenSmall(x, v);
  }

  lemma {:induction false} Bounded(c: bv64, v: bv64)
    requires c < FULL && v < 32
    ensures STEP(c, v) < FULL
  {
    PolymodIsWritten(c, v);
    WrittenBounded(c, v);
  }

  lemma {:induction false} Kernel(c: bv64)
    requires c < FULL && STEP(c, 0) == 0
    ensures c == 0
  {
    PolymodIsWritten(c, 0);
    WrittenKernel(c);
  }

  // --------------------------------- up to eight symbols are the state, and back

  predicate Within(x: bv64, n: nat) {
    n <= 8 && x < Limit(n)
  }

  const WITHIN: (bv64, nat) -> bool := Within

  /** The 40-bit state, as a register of eight symbols. */
  const CODE: Shifter<bv64> := Shifter(STEP, DOWN, LOW, SYM, WITHIN, 0, 8)

  lemma EmptyCode(x: bv64)
    ensures EmptyAt(CODE, x)
  {}

  lemma SplitParts(x: bv64, a: bv64, b: bv64)
    requires x < FULL && a == x >> 5 && b == x & 31
    ensures x == (a << 5) | b && a < 0x8_0000_0000 && b < 32
  {}

  lemma PartsAre(x: bv64)
    ensures DOWN(x) == x >> 5 && LOW(x) == x & 31
  {}

  lemma SplitStep(x: bv64)
    requires x < FULL
    ensures STEP(DOWN(x), LOW(x)) == x
  {
    var a, b := DOWN(x), LOW(x);
    PartsAre(x);
    SplitParts(x, a, b);
    JoinStep(a, b, x, 7);
  }

  lemma SplitWithin(x: bv64, n: nat)
    requires WITHIN(x, n) && n > 0
    ensures WITHIN(DOWN(x), n - 1) && x < FULL
  {
    ShiftDown(x, n);
  }

  lemma SplitCode(x: bv64, n: nat)
    ensures SplitAt(CODE, x, n)
  {
    if n > 0 && WITHIN(x, n) {
      LowIsSymbol(x);
      SplitWithin(x, n);
      SplitStep(x);
      SplitFrom(CODE, x, n);
    }
  }

  lemma SplitFrom<T>(m: Shifter<T>, x: T, n: nat)
    requires 0 < n ==> m.fits(m.down(x), n - 1) && m.sym(m.low(x)) && m.step(m.down(x), m.low(x)) == x
    ensures SplitAt(m, x, n)
  {}

  lemma JoinStep(x: bv64, v: bv64, y: bv64, n: nat)
    requires WITHIN(x, n) && n < 8 && SYM(v) && y == (x << 5) | v
    ensures STEP(x, v) == y
  {
    ShiftUp(x, v, n);
    SmallStep(x, v);
  }

  lemma JoinWithin(x: bv64, v: bv64, y: bv64, n: nat)
    requires WITHIN(x, n) && n < 8 && SYM(v) && y == (x << 5) | v
    ensures WITHIN(y, n + 1) && DOWN(y) == x && LOW(y) == v
  {
    ShiftUp(x, v, n);
    Join(x, v);
  }

  lemma JoinCode(x: bv64, v: bv64, n: nat)
    ensures JoinAt(CODE, x, v, n)
  {
    if n < 8 && WITHIN(x, n) && SYM(v) {
      var y := (x << 5) | v;
      JoinWithin(x, v, y, n);
      JoinStep(x, v, y, n);
      JoinFrom(CODE, x, v, y, n);
    }
  }

  lemma JoinFrom<T>(m: Shifter<T>, x: T, v: T, y: T, n: nat)
    requires m.step(x, v) == y && m.fits(y, n + 1) && m.down(y) == x && m.low(y) == v
    ensures JoinAt(m, x, v, n)
  {}

  lemma {:induction false} CodeShifts()
    ensures Shifts(CODE)
  {
    forall x ensures EmptyAt(CODE, x) { EmptyCode(x); }
    forall x, n ensures SplitAt(CODE, x, n) { SplitCode(x, n); }
    forall x, v, n ensures JoinAt(CODE, x, v, n) { JoinCode(x, v, n); }
  }

  predicate Fits40(c: bv64) {
    c < FULL
  }

  const FITS: bv64 -> bool := Fits40

  lemma StateInside(c: bv64, v: bv64)
    ensures StepsInside(STEP, FITS, SYM, c, v)
  {
    if FITS(c) && SYM(v) { Bounded(c, v); }
  }

  lemma XorFits(c: bv64, d: bv64)
    requires FITS(c) && FITS(d)
    ensures FITS(XOR(c, d))
  {}

  lemma XorSymbol(v: bv64, w: bv64)
    requires SYM(v) && SYM(w)
    ensures SYM(XOR(v, w))
  {}

  lemma XorZero(c: bv64, d: bv64)
    requires XOR(c, d) == 0
    ensures c == d
  {}

  lemma {:induction false} StateApart(c: bv64, d: bv64, v: bv64)
    requires Linear(XOR, STEP)
    ensures StepsApart(STEP, FITS, c, d, v)
  {
    if FITS(c) && FITS(d) && STEP(c, v) == STEP(d, v) {
      assert LinearAt(XOR, STEP, c, d, v, v);
      XorCancels(v);
      XorCancels(STEP(c, v));
      XorFits(c, d);
      Kernel(XOR(c, d));
      XorZero(c, d);
    }
  }

  // --------------------------------------------------------- symbols of a descriptor

  ghost predicate InRange(ps: seq<nat>) {
    forall i :: 0 <= i < |ps| ==> ps[i] < 96
  }

  lemma {:induction false} ExpandBelow(ps: seq<nat>)
    requires InRange(ps)
    ensures forall i :: 0 <= i < |Expand(ps)| ==> Expand(ps)[i] < 32
  {
    if |ps| >= 3 { ExpandBelow(ps[3..]); }
  }

  lemma {:induction false} ExpandSplit(ps: seq<nat>, qs: seq<nat>)
    requires |ps| % 3 == 0
    ensures Expand(ps + qs) == Expand(ps) + Expand(qs)
  {
    if ps == [] {
      assert ps + qs == qs;
    } else {
      ExpandSplit(ps[3..], qs);
      assert (ps + qs)[3..] == ps[3..] + qs;
    }
  }

  lemma DigitsApart(a: nat, b: nat, c: nat, x: nat, y: nat, z: nat)
    requires a < 3 && b < 3 && c < 3 && x < 3 && y < 3 && z < 3 && a * 9 + b * 3 + c == x * 9 + y * 3 + z
    ensures a == x && b == y && c == z
  {}

  lemma Rebuild(p: nat, q: nat)
    requires p % 32 == q % 32 && p / 32 == q / 32
    ensures p == q
  {}

  lemma {:induction false} ExpandInjective(ps: seq<nat>, qs: seq<nat>)
    requires |ps| == |qs| && InRange(ps) && InRange(qs)
    ensures |Expand(ps)| == |Expand(qs)|
    ensures |ps| <= 6 ==> |Expand(ps)| <= 8
    ensures Expand(ps) == Expand(qs) ==> ps == qs
  {
    if |ps| >= 3 {
      ExpandInjective(ps[3..], qs[3..]);
      if Expand(ps) == Expand(qs) {
        var s, t := Expand(ps), Expand(qs);
        assert s[0] == t[0] && s[1] == t[1] && s[2] == t[2] && s[3] == t[3];
        assert s[4..] == Expand(ps[3..]) && t[4..] == Expand(qs[3..]);
        DigitsApart(ps[0] / 32, ps[1] / 32, ps[2] / 32, qs[0] / 32, qs[1] / 32, qs[2] / 32);
        GroupEqual(ps, qs);
      }
    } else if |ps| == 2 {
      if Expand(ps) == Expand(qs) {
        var s, t := Expand(ps), Expand(qs);
        assert s[0] == t[0] && s[1] == t[1] && s[2] == t[2];
        DigitsApart(0, ps[0] / 32, ps[1] / 32, 0, qs[0] / 32, qs[1] / 32);
        Rebuild(ps[0], qs[0]);
        Rebuild(ps[1], qs[1]);
      }
    } else if |ps| == 1 {
      if Expand(ps) == Expand(qs) {
        var s, t := Expand(ps), Expand(qs);
        assert s[0] == t[0] && s[1] == t[1];
        Rebuild(ps[0], qs[0]);
      }
    }
  }

  lemma GroupEqual(ps: seq<nat>, qs: seq<nat>)
    requires |ps| == |qs| >= 3 && ps[3..] == qs[3..]
    requires forall i :: 0 <= i < 3 ==> ps[i] % 32 == qs[i] % 32 && ps[i] / 32 == qs[i] / 32
    ensures ps == qs
  {
    Rebuild(ps[0], qs[0]);
    Rebuild(ps[1], qs[1]);
    Rebuild(ps[2], qs[2]);
    assert ps == [ps[0], ps[1], ps[2]] + ps[3..];
    assert qs == [qs[0], qs[1], qs[2]] + qs[3..];
  }

  // ------------------------------------------------------------ integers as words

  function Power(k: nat): bv64
    requires k <= 5
  {
    match k
    case 0 => 1
    case 1 => 2
    case 2 => 4
    case 3 => 8
    case 4 => 16
    case 5 => 32
  }

  predicate BitsWithin(a: bv64, k: nat) {
    k <= 5 && a < Power(k)
  }

  const BITS: (bv64, nat) -> bool := BitsWithin

  lemma DoubleWithin(a: bv64, p: bool, k: nat)
    requires k < 5 && a < Power(k)
    ensures Double(a, p) < Power(k + 1) && a < 16
  {}

  lemma DoubleApart(a: bv64, p: bool, b: bv64, q: bool)
    requires a < 16 && b < 16 && Double(a, p) == Double(b, q)
    ensures a == b && p == q
  {}

  lemma ZeroWord(k: nat)
    requires k <= 5
    ensures BITS(0, k) && DOUBLE(0, false) == 0
  {}

  lemma DoubleFits(a: bv64, p: bool, k: nat)
    requires k < 5 && BITS(a, k)
    ensures BITS(DOUBLE(a, p), k + 1) && a < 16
  {
    DoubleWithin(a, p, k);
  }

  lemma DoubleSeparates(a: bv64, p: bool, b: bv64, q: bool)
    requires a < 16 && b < 16 && DOUBLE(a, p) == DOUBLE(b, q)
    ensures a == b && p == q
  {
    DoubleApart(a, p, b, q);
  }

  lemma DoubleFrom<T>(double: (T, bool) -> T, zero: T, fits: (T, nat) -> bool, a: T, p: bool, b: T, q: bool, k: nat)
    requires fits(zero, k) && double(zero, false) == zero
    requires fits(a, k) ==> fits(double(a, p), k + 1)
    requires fits(a, k) && fits(b, k) && double(a, p) == double(b, q) ==> a == b && p == q
    ensures DoubleAt(double, zero, fits, a, p, b, q, k)
  {}

  lemma DoubleWord(a: bv64, p: bool, b: bv64, q: bool, k: nat)
    requires k < 5
    ensures DoubleAt(DOUBLE, 0, BITS, a, p, b, q, k)
  {
    ZeroWord(k);
    if BITS(a, k) {
      DoubleFits(a, p, k);
      if BITS(b, k) && DOUBLE(a, p) == DOUBLE(b, q) {
        DoubleFits(b, q, k);
        DoubleSeparates(a, p, b, q);
      }
    }
    DoubleFrom(DOUBLE, 0, BITS, a, p, b, q, k);
  }

  lemma WordsDouble()
    ensures Doubles(DOUBLE, 0, BITS, 5) && BITS(0, 5) && TwoTo(5) == 32
  {
    assert TwoTo(1) == 2 && TwoTo(2) == 4 && TwoTo(3) == 8;
    forall a, p, b, q, k: nat | k < 5 ensures DoubleAt(DOUBLE, 0, BITS, a, p, b, q, k) { DoubleWord(a, p, b, q, k); }
  }

  ghost predicate Below32(ss: seq<nat>) {
    forall i :: 0 <= i < |ss| ==> ss[i] < 32
  }

  lemma {:induction false} BitsAreSymbols(ss: seq<nat>)
    requires Below32(ss)
    ensures Symbols(Bits(WORD, ss))
  {
    WordsDouble();
    forall i | 0 <= i < |ss| ensures SYM(WORD(ss[i])) {
      WordFits(DOUBLE, 0, BITS, 5, ss[i], 5);
    }
  }

  lemma {:induction false} BitsInjective(ss: seq<nat>, tt: seq<nat>)
    requires Below32(ss) && Below32(tt) && Bits(WORD, ss) == Bits(WORD, tt)
    ensures ss == tt
  {
    assert |ss| == |Bits(WORD, ss)| == |tt|;
    WordsDouble();
    forall i | 0 <= i < |ss| ensures ss[i] == tt[i] {
      assert WORD(ss[i]) == Bits(WORD, ss)[i] == Bits(WORD, tt)[i] == WORD(tt[i]);
      WordInjective(DOUBLE, 0, BITS, 5, ss[i], tt[i], 5);
    }
  }

  lemma BitsAppend<T>(word: nat -> T, ss: seq<nat>, tt: seq<nat>)
    ensures Bits(word, ss + tt) == Bits(word, ss) + Bits(word, tt)
  {}

  // ----------------------------------------------------------------- the theorems

  /** The symbols the register is fed for a descriptor with these character positions. */
  function Fed(ps: seq<nat>): (vs: seq<bv64>) {
    Bits(WORD, Expand(ps))
  }

  /** Steps stay within 40 bits, and are injective there. */
  lemma {:induction false} StepsOnStates()
    ensures XorGroup(XOR, 0) && Linear(XOR, STEP) && Shifts(CODE)
    ensures forall c, v :: StepsInside(STEP, FITS, SYM, c, v)
    ensures forall c, d, v :: StepsApart(STEP, FITS, c, d, v)
  {
    StepIsLinear();
    CodeShifts();
    forall c, v ensures StepsInside(STEP, FITS, SYM, c, v) { StateInside(c, v); }
    forall c, d, v ensures StepsApart(STEP, FITS, c, d, v) { StateApart(c, d, v); }
  }

  lemma FitsIsWithin(x: bv64)
    ensures FITS(x) <==> WITHIN(x, 8)
  {}

  lemma OneFits()
    ensures FITS(1) && SYM(0)
  {}

  /** The state after e and eight zeros, plus one, fits in 40 bits. */
  lemma {:induction false} RemainderFits(e: seq<bv64>)
    requires Symbols(e)
    requires forall c, v :: StepsInside(STEP, FITS, SYM, c, v)
    ensures FITS(XOR(Run(STEP, 1, e + Same(0, 8)), 1))
  {
    OneFits();
    RunInside(STEP, FITS, SYM, 1, e + Same(0, 8));
    XorFits(Run(STEP, 1, e + Same(0, 8)), 1);
  }

  lemma {:induction false} FedSymbols(ps: seq<nat>)
    requires InRange(ps)
    ensures Symbols(Fed(ps))
  {
    ExpandBelow(ps);
    BitsAreSymbols(Expand(ps));
  }

  /** BIP 380: the descriptor's symbols followed by its eight checksum symbols leave the state at
      exactly 1, and no other eight symbols do. */
  lemma {:induction false} ChecksumCompletes(ps: seq<nat>, vs: seq<bv64>)
    requires InRange(ps) && |vs| == 8 && Symbols(vs)
    ensures Run(STEP, 1, Fed(ps) + vs) == 1 <==> vs == CheckSymbols(ps)
  {
    var e := Fed(ps);
    StepsOnStates();
    FedSymbols(ps);
    RemainderFits(e);
    FitsIsWithin(XOR(Run(STEP, 1, e + Same(0, 8)), 1));
    Completes(XOR, CODE, 1, 1, e);
    if vs != CheckSymbols(ps) {
      RunAppend(STEP, 1, e, vs);
      RunAppend(STEP, 1, e, CheckSymbols(ps));
      SymbolsApart(Run(STEP, 1, e), vs, CheckSymbols(ps));
    }
  }

  lemma {:induction false} SymbolsApart(s: bv64, vs: seq<bv64>, ws: seq<bv64>)
    requires XorGroup(XOR, 0) && Linear(XOR, STEP) && Shifts(CODE)
    requires |vs| == |ws| <= 8 && vs != ws && Symbols(vs) && Symbols(ws)
    ensures Run(STEP, s, vs) != Run(STEP, s, ws)
  {
    forall i | 0 <= i < |vs| ensures SYM(XOR(vs[i], ws[i])) { XorSymbol(vs[i], ws[i]); }
    WordsSeparate(XOR, CODE, s, vs, ws);
  }

  /** A change confined to eight neighbouring symbols changes the final state. */
  lemma {:induction false} WindowChanges(a: seq<bv64>, p: seq<bv64>, q: seq<bv64>, b: seq<bv64>)
    requires Symbols(a) && Symbols(p) && Symbols(q) && Symbols(b) && |p| == |q| <= 8 && p != q
    ensures Run(STEP, 1, a + p + b) != Run(STEP, 1, a + q + b)
  {
    StepsOnStates();
    var s := Run(STEP, 1, a);
    OneFits();
    RunInside(STEP, FITS, SYM, 1, a);
    RunInside(STEP, FITS, SYM, s, p);
    RunInside(STEP, FITS, SYM, s, q);
    SymbolsApart(s, p, q);
    RunApart(STEP, FITS, SYM, Run(STEP, s, p), Run(STEP, s, q), b);
    RunAppend(STEP, 1, a, p);
    RunAppend(STEP, 1, a, q);
    RunAppend(STEP, 1, a + p, b);
    RunAppend(STEP, 1, a + q, b);
  }

  lemma XorOneApart(x: bv64, y: bv64)
    requires XOR(x, 1) == XOR(y, 1)
    ensures x == y
  {}

  lemma {:induction false} UnpackInjective(x: bv64, y: bv64)
    requires FITS(x) && FITS(y) && Unpack(x, 8) == Unpack(y, 8) && Shifts(CODE)
    ensures x == y
  {
    FitsIsWithin(x);
    FitsIsWithin(y);
    RunUnpacked(CODE, x, 8);
    RunUnpacked(CODE, y, 8);
  }

  lemma {:induction false} RemaindersApart(e: seq<bv64>, f: seq<bv64>)
    requires Symbols(e) && Symbols(f) && Run(STEP, 1, e + Same(0, 8)) != Run(STEP, 1, f + Same(0, 8))
    ensures Unpack(XOR(Run(STEP, 1, e + Same(0, 8)), 1), 8) != Unpack(XOR(Run(STEP, 1, f + Same(0, 8)), 1), 8)
  {
    StepsOnStates();
    RemainderFits(e);
    RemainderFits(f);
    var x, y := Run(STEP, 1, e + Same(0, 8)), Run(STEP, 1, f + Same(0, 8));
    if Unpack(XOR(x, 1), 8) == Unpack(XOR(y, 1), 8) {
      UnpackInjective(XOR(x, 1), XOR(y, 1));
      XorOneApart(x, y);
    }
  }

  lemma Regroup<T>(a: seq<T>, p: seq<T>, b: seq<T>, z: seq<T>)
    ensures a + p + (b + z) == a + p + b + z
  {}

  lemma SymbolsJoin(a: seq<bv64>, p: seq<bv64>, b: seq<bv64>)
    requires Symbols(a) && Symbols(p) && Symbols(b)
    ensures Symbols(a + p + b)
  {}

  lemma {:induction false} WindowEnds(a: seq<bv64>, p: seq<bv64>, q: seq<bv64>, b: seq<bv64>, z: seq<bv64>)
    requires Symbols(a) && Symbols(p) && Symbols(q) && Symbols(b) && Symbols(z) && |p| == |q| <= 8 && p != q
    ensures Run(STEP, 1, a + p + b + z) != Run(STEP, 1, a + q + b + z)
  {
    Regroup(a, p, b, z);
    Regroup(a, q, b, z);
    WindowChanges(a, p, q, b + z);
  }

  lemma {:induction false} WindowDetected(a: seq<bv64>, p: seq<bv64>, q: seq<bv64>, b: seq<bv64>)
    requires Symbols(a) && Symbols(p) && Symbols(q) && Symbols(b) && |p| == |q| <= 8 && p != q
    ensures Unpack(XOR(Run(STEP, 1, a + p + b + Same(0, 8)), 1), 8) != Unpack(XOR(Run(STEP, 1, a + q + b + Same(0, 8)), 1), 8)
  {
    OneFits();
    WindowEnds(a, p, q, b, Same(0, 8));
    SymbolsJoin(a, p, b);
    SymbolsJoin(a, q, b);
    var e, f := a + p + b, a + q + b;
    RemaindersApart(e, f);
  }

  lemma {:induction false} FedApart(p: seq<nat>, q: seq<nat>)
    requires InRange(p) && InRange(q) && |p| == |q| <= 6 && p != q
    ensures Fed(p) != Fed(q) && |Fed(p)| == |Fed(q)| <= 8
  {
    ExpandInjective(p, q);
    ExpandBelow(p);
    ExpandBelow(q);
    if Fed(p) == Fed(q) { BitsInjective(Expand(p), Expand(q)); }
  }

  lemma {:induction false} PositionsDetected(a: seq<nat>, p: seq<nat>, q: seq<nat>, b: seq<nat>)
    requires InRange(a) && InRange(p) && InRange(q) && InRange(b)
    requires |a| % 3 == 0 && |p| == |q| <= 6 && p != q && (b == [] || |p| % 3 == 0)
    ensures CheckSymbols(a + p + b) != CheckSymbols(a + q + b)
  {
    FedSymbols(a);
    FedSymbols(b);
    FedSymbols(p);
    FedSymbols(q);
    FedApart(p, q);
    WindowDetected(Fed(a), Fed(p), Fed(q), Fed(b));
    FedParts(a, p, b);
    FedParts(a, q, b);
    CheckIs(a + p + b);
    CheckIs(a + q + b);
  }

  lemma CheckIs(ps: seq<nat>)
    ensures CheckSymbols(ps) == Unpack(XOR(Run(STEP, 1, Fed(ps) + Same(0, 8)), 1), 8)
  {}

  lemma {:induction false} FedParts(a: seq<nat>, p: seq<nat>, b: seq<nat>)
    requires |a| % 3 == 0 && (b == [] || |p| % 3 == 0)
    ensures Fed(a + p + b) == Fed(a) + Fed(p) + Fed(b)
  {
    assert a + p + b == a + (p + b);
    ExpandSplit(a, p + b);
    if b == [] {
      assert p + b == p;
    } else {
      ExpandSplit(p, b);
    }
    BitsAppend(WORD, Expand(p), Expand(b));
    BitsAppend(WORD, Expand(a), Expand(p) + Expand(b));
    assert Expand(p + b) == Expand(p) + Expand(b);
    assert Fed(a) + (Fed(p) + Fed(b)) == Fed(a) + Fed(p) + Fed(b);
  }

  lemma SymbolsAsInt(v: bv64, w: bv64)
    requires SYM(v) && SYM(w) && v as int == w as int
    ensures v == w
  {}

  /** Different check symbols are written as different texts. */
  lemma {:induction false} TextsApart(cs: Charsets, vs: seq<bv64>, ws: seq<bv64>)
    requires cs.Valid() && Symbols(vs) && Symbols(ws) && CheckText(cs, vs) == CheckText(cs, ws)
    ensures vs == ws
  {
    assert |vs| == |CheckText(cs, vs)| == |ws|;
    forall i | 0 <= i < |vs| ensures vs[i] == ws[i] {
      SymbolFits(vs[i]);
      SymbolFits(ws[i]);
      assert cs.output[vs[i] as int] == CheckText(cs, vs)[i] == CheckText(cs, ws)[i] == cs.output[ws[i] as int];
      SymbolsAsInt(vs[i], ws[i]);
    }
  }

  /** The same for texts: of all eight-character texts over the checksum alphabet, exactly the descriptor's
      checksum completes it. */
  lemma {:induction false} ChecksumTextCompletes(cs: Charsets, desc: string, vs: seq<bv64>)
    requires cs.Valid() && InAlphabet(cs, desc) && |vs| == 8 && Symbols(vs)
    ensures Run(STEP, 1, Fed(Positions(cs, desc)) + vs) == 1 <==> Checksum(cs, desc) == Some(CheckText(cs, vs))
    ensures forall i :: 0 <= i < 8 ==> vs[i] as int < 32 && CheckText(cs, vs)[i] == cs.output[vs[i] as int]
  {
    var ps := Positions(cs, desc);
    ChecksumCompletes(ps, vs);
    forall i | 0 <= i < 8 ensures vs[i] as int < 32 { SymbolFits(vs[i]); }
    if Checksum(cs, desc) == Some(CheckText(cs, vs)) { TextsApart(cs, vs, CheckSymbols(ps)); }
  }

  lemma {:induction false} PositionsInjective(cs: Charsets, d: string, e: string)
    requires |cs.input| <= 96 && InAlphabet(cs, d) && InAlphabet(cs, e) && Positions(cs, d) == Positions(cs, e)
    ensures d == e
  {
    assert |d| == |Positions(cs, d)| == |e|;
    forall i | 0 <= i < |d| ensures d[i] == e[i] {
      assert cs.input[Positions(cs, d)[i]] == d[i];
      assert cs.input[Positions(cs, e)[i]] == e[i];
    }
  }

  ghost predicate DifferOnlyIn(d: string, e: string, lo: nat, hi: nat) {
    |d| == |e| && forall i :: 0 <= i < |d| && !(lo <= i < hi) ==> d[i] == e[i]
  }

  /** Two different descriptors of one length that differ only within two neighbouring aligned groups
      of three characters never have the same checksum. */
  lemma {:induction false} ChangesDetected(cs: Charsets, d: string, e: string, k: nat)
    requires cs.Valid() && InAlphabet(cs, d) && InAlphabet(cs, e)
    requires d != e && DifferOnlyIn(d, e, 3 * k, 3 * k + 6)
    ensures Checksum(cs, d) != Checksum(cs, e)
  {
    var ps, qs := Positions(cs, d), Positions(cs, e);
    if ps == qs { PositionsInjective(cs, d, e); }
    var lo := 3 * k;
    var hi := if lo + 6 <= |d| then lo + 6 else |d|;
    SameOutside(d, e, lo, lo + 6);
    if lo < |d| {
      forall i | 0 <= i < |d| && !(lo <= i < hi) ensures ps[i] == qs[i] {}
      Window(ps, qs, lo, hi);
      if Checksum(cs, d) == Checksum(cs, e) {
        TextsApart(cs, CheckSymbols(ps), CheckSymbols(qs));
      }
    }
  }

  lemma SameOutside(d: string, e: string, lo: nat, hi: nat)
    requires DifferOnlyIn(d, e, lo, hi)
    ensures |d| <= lo ==> d == e
  {
    assert |d| <= lo ==> forall i :: 0 <= i < |d| ==> d[i] == e[i];
  }

  lemma CutOut(ps: seq<nat>, qs: seq<nat>, lo: nat, hi: nat)
    requires |ps| == |qs| && ps != qs && lo <= hi <= |ps|
    requires forall i :: 0 <= i < |ps| && !(lo <= i < hi) ==> ps[i] == qs[i]
    ensures ps == ps[..lo] + ps[lo..hi] + ps[hi..] && qs == ps[..lo] + qs[lo..hi] + ps[hi..] && ps[lo..hi] != qs[lo..hi]
  {
    assert ps == ps[..lo] + ps[lo..hi] + ps[hi..];
    assert qs == qs[..lo] + qs[lo..hi] + qs[hi..] && qs[..lo] == ps[..lo] && qs[hi..] == ps[hi..];
  }

  lemma {:induction false} Window(ps: seq<nat>, qs: seq<nat>, lo: nat, hi: nat)
    requires InRange(ps) && InRange(qs) && |ps| == |qs| && ps != qs
    requires lo % 3 == 0 && lo <= hi <= |ps| && hi <= lo + 6 && (hi == |ps| || hi == lo + 6)
    requires forall i :: 0 <= i < |ps| && !(lo <= i < hi) ==> ps[i] == qs[i]
    ensures CheckSymbols(ps) != CheckSymbols(qs)
  {
    CutOut(ps, qs, lo, hi);
    PositionsDetected(ps[..lo], ps[lo..hi], qs[lo..hi], ps[hi..]);
  }

  // ------------------------------------------------------------- the real alphabets

  /** The value of a checksum character. */
  function ValueOf(c: char): nat {
    if c == 'q' then 0
    else if c == 'p' then 1
    else if c == 'z' then 2
    else if c == 'r' then 3
    else if c == 'y' then 4
    else if c == '9' then 5
    else if c == 'x' then 6
    else if c == '8' then 7
    else if c == 'g' then 8
    else if c == 'f' then 9
    else if c == '2' then 10
    else if c == 't' then 11
    else if c == 'v' then 12
    else if c == 'd' then 13
    else if c == 'w' then 14
    else if c == '0' then 15
    else if c == 's' then 16
    else if c == '3' then 17
    else if c == 'j' then 18
    else if c == 'n' then 19
    else if c == '5' then 20
    else if c == '4' then 21
    else if c == 'k' then 22
    else if c == 'h' then 23
    else if c == 'c' then 24
    else if c == 'e' then 25
    else if c == '6' then 26
    else if c == 'm' then 27
    else if c == 'u' then 28
    else if c == 'a' then 29
    else if c == '7' then 30
    else if c == 'l' then 31
    else 32
  }

  lemma OutputValues(i: nat)
    requires i < 32
    ensures |BIP380.output| == 32 && |BIP380.input| == 95 && ValueOf(BIP380.output[i]) == i
  {}

  lemma {:induction false} AlphabetsAreValid()
    ensures BIP380.Valid()
  {
    OutputValues(0);
    forall i, j | 0 <= i < j < 32 ensures BIP380.output[i] != BIP380.output[j] {
      OutputValues(i);
      OutputValues(j);
    }
  }
}
