/** The BIP 380 descriptor checksum (internal/btc/descriptor.go): a cyclic code over 5-bit symbols
    with a 40-bit state. */
module Descriptor {
  import opened Results
  import opened Gf2

  /** The input and output alphabets. Only the distinctness of the output characters matters below,
      so they are parameters; BIP380 holds the real ones. */
  datatype Charsets = Charsets(input: string, output: string) {
    ghost predicate Valid() {
      |input| <= 96 && |output| == 32 && forall i, j :: 0 <= i < j < 32 ==> output[i] != output[j]
    }
  }

  const BIP380 := Charsets("0123456789()" + "[],'/*abcdef" + "gh@:$%{}IJKL" + "MNOPQRSTUVWX" + "YZ&+-.;<=>?!" + "^_|~ijklmnop"
                           + "qrstuvwxyzAB" + "CDEFGH`#\"\\ ", "qpzry9x8gf2t" + "vdw0s3jn54kh" + "ce6mua7l")

  /** The first position of c in s, or -1 (strings.IndexByte). */
  function IndexOf(s: string, c: char): (i: int)
    ensures -1 <= i < |s|
    ensures i >= 0 ==> s[i] == c
    ensures i < 0 ==> c !in s
  {
    if s == [] then -1
    else if s[0] == c then 0
    else
      var i := IndexOf(s[1..], c);
      assert i >= 0 ==> s[1..][i] == c;
      if i < 0 then -1 else i + 1
  }

  const GENERATORS: seq<bv64> := [0xf5dee51989, 0xa9fdca3312, 0x1bab10e32d, 0x3706b1677a, 0x644d626ffd]

  function Xor(a: bv64, b: bv64): bv64 {
    a ^ b
  }

  const XOR: (bv64, bv64) -> bv64 := Xor

  const ODD: bv64 -> bool := t => t & 1 != 0
  const HALF: bv64 -> bv64 := t => t >> 1
  const TOP: bv64 -> bv64 := t => t >> 35

  /** The five bits about to leave the 40-bit state, lowest first: the tests of top>>i&1. */
  function TopBits(c: bv64): (bits: seq<bool>)
    ensures |bits| == 5
  {
    LowBits(ODD, HALF, TOP(c), 5)
  }

  /** The part of the state that stays, moved up by one symbol. */
  function Up(c: bv64): bv64 {
    (c & 0x7ffffffff) << 5
  }

  /** descPolymod. */
  function Polymod(c: bv64, v: bv64): bv64 {
    XOR(XOR(Up(c), v), Reduce(XOR, 0, TopBits(c), GENERATORS))
  }

  const STEP: (bv64, bv64) -> bv64 := Polymod

  function Double(a: bv64, odd: bool): bv64 {
    (a << 1) | (if odd then 1 else 0)
  }

  const DOUBLE: (bv64, bool) -> bv64 := Double

  /** uint64(n). */
  function ToBv(n: nat): bv64 {
    Word(DOUBLE, 0, n)
  }

  const WORD: nat -> bv64 := ToBv

  function Bits<T>(word: nat -> T, ss: seq<nat>): (vs: seq<T>)
    ensures |vs| == |ss|
  {
    seq(|ss|, i requires 0 <= i < |ss| => word(ss[i]))
  }

  /** The symbols of a descriptor's character positions: the low five bits of each, and after every
      three (or a shorter last group) one symbol with their high parts in base 3. */
  function Expand(ps: seq<nat>): (ss: seq<nat>) {
    if |ps| >= 3 then
      [ps[0] % 32, ps[1] % 32, ps[2] % 32, (ps[0] / 32) * 9 + (ps[1] / 32) * 3 + ps[2] / 32] + Expand(ps[3..])
    else if |ps| == 2 then [ps[0] % 32, ps[1] % 32, (ps[0] / 32) * 3 + ps[1] / 32]
    else if |ps| == 1 then [ps[0] % 32, ps[0] / 32]
    else []
  }

  function Low(x: bv64): bv64 {
    x & 31
  }

  function Down(x: bv64): bv64 {
    x >> 5
  }

  predicate IsSymbol(v: bv64) {
    v < 32
  }

  const LOW: bv64 -> bv64 := Low
  const DOWN: bv64 -> bv64 := Down
  const SYM: bv64 -> bool := IsSymbol

  predicate Symbols(vs: seq<bv64>) {
    forall i :: 0 <= i < |vs| ==> SYM(vs[i])
  }

  lemma LowIsSymbol(x: bv64)
    ensures SYM(LOW(x))
  {}

  /** The n 5-bit symbols of a 5n-bit value, most significant first: c>>(5*(n-1-i))&31. */
  function Unpack(x: bv64, n: nat): (vs: seq<bv64>)
    ensures |vs| == n && Symbols(vs)
  {
    assert Symbols(Unpacked(DOWN, LOW, x, n)) by {
      forall y ensures SYM(LOW(y)) { LowIsSymbol(y); }
      UnpackedAll(DOWN, LOW, SYM, x, n);
    }
    Unpacked(DOWN, LOW, x, n)
  }

  function CheckSymbols(ps: seq<nat>): (vs: seq<bv64>)
    ensures |vs| == 8 && Symbols(vs)
  {
    Unpack(XOR(Run(STEP, 1, Bits(WORD, Expand(ps)) + Same(0, 8)), 1), 8)
  }

  predicate InAlphabet(cs: Charsets, desc: string) {
    forall i :: 0 <= i < |desc| ==> IndexOf(cs.input, desc[i]) >= 0
  }

  function Positions(cs: Charsets, desc: string): (ps: seq<nat>)
    requires InAlphabet(cs, desc) && |cs.input| <= 96
    ensures |ps| == |desc| && forall i :: 0 <= i < |ps| ==> ps[i] < 96
  {
    seq(|desc|, i requires 0 <= i < |desc| => IndexOf(cs.input, desc[i]))
  }

  lemma SymbolFits(v: bv64)
    requires SYM(v)
    ensures v as int < 32
  {}

  function CheckText(cs: Charsets, vs: seq<bv64>): (s: string)
    requires cs.Valid() && Symbols(vs)
    ensures |s| == |vs|
  {
    seq(|vs|, i requires 0 <= i < |vs| => SymbolFits(vs[i]); cs.output[vs[i] as int])
  }

  function Checksum(cs: Charsets, desc: string): (r: Option<string>)
    requires cs.Valid()
  {
    if InAlphabet(cs, desc) then Some(CheckText(cs, CheckSymbols(Positions(cs, desc)))) else None
  }

  /** Where each part of a character goes: character i's low five bits stand at i + i / 3. */
  lemma {:induction false} ExpandLow(ps: seq<nat>, i: nat)
    requires i < |ps|
    ensures |Expand(ps)| == |ps| + (|ps| + 2) / 3 && i + i / 3 < |Expand(ps)| && Expand(ps)[i + i / 3] == ps[i] % 32
  {
    if |ps| > 3 {
      ExpandLow(ps[3..], if i < 3 then 0 else i - 3);
      if i >= 3 { assert (i - 3) / 3 == i / 3 - 1; }
    }
  }

  /** The symbol after the g-th group of three, two or one characters writes their high parts in base 3. */
  lemma {:induction false} ExpandHigh(ps: seq<nat>, g: nat)
    requires 3 * g < |ps|
    ensures var size := if 3 * g + 3 <= |ps| then 3 else |ps| - 3 * g;
            && 4 * g + size < |Expand(ps)|
            && Expand(ps)[4 * g + size] == if size == 1 then ps[3 * g] / 32
                                           else if size == 2 then ps[3 * g] / 32 * 3 + ps[3 * g + 1] / 32
                                           else ps[3 * g] / 32 * 9 + ps[3 * g + 1] / 32 * 3 + ps[3 * g + 2] / 32
    decreases g
  {
    if g > 0 { ExpandHigh(ps[3..], g - 1); }
  }

  // ------------------------------------------------------------ the source's loop

  /** What the loop has still to feed, with a partial group of count characters and class cls. */
  function Pending(cls: nat, count: nat, ps: seq<nat>): (ss: seq<nat>)
    decreases |ps|
  {
    if ps == [] then (if count > 0 then [cls] else [])
    else
      var cls' := cls * 3 + ps[0] / 32;
      [ps[0] % 32] + (if count + 1 == 3 then [cls'] + Pending(0, 0, ps[1..]) else Pending(cls', count + 1, ps[1..]))
  }

  lemma Unfold(cls: nat, count: nat, ps: seq<nat>)
    requires ps != []
    ensures var cls' := cls * 3 + ps[0] / 32;
            Pending(cls, count, ps)
            == [ps[0] % 32] + (if count + 1 == 3 then [cls'] + Pending(0, 0, ps[1..]) else Pending(cls', count + 1, ps[1..]))
  {}

  lemma {:induction false} PendingIsExpand(ps: seq<nat>)
    ensures Pending(0, 0, ps) == Expand(ps)
  {
    if |ps| >= 3 {
      PendingIsExpand(ps[3..]);
      PendingGroup(ps[0], ps[1], ps[2], ps[3..]);
      assert ps == [ps[0], ps[1], ps[2]] + ps[3..];
    } else if |ps| == 2 {
      assert ps[1..][1..] == [];
      Unfold(0, 0, ps);
      Unfold(ps[0] / 32, 1, ps[1..]);
    }
  }

  lemma InGroup(cls: nat, count: nat, p: nat, rest: seq<nat>)
    requires count < 2
    ensures Pending(cls, count, [p] + rest) == [p % 32] + Pending(cls * 3 + p / 32, count + 1, rest)
  {
    assert ([p] + rest)[1..] == rest;
    Unfold(cls, count, [p] + rest);
  }

  lemma EndsGroup(cls: nat, p: nat, rest: seq<nat>)
    ensures Pending(cls, 2, [p] + rest) == [p % 32] + ([cls * 3 + p / 32] + Pending(0, 0, rest))
  {
    assert ([p] + rest)[1..] == rest;
    Unfold(cls, 2, [p] + rest);
  }

  lemma FourAhead(a: nat, b: nat, c: nat, d: nat, rest: seq<nat>)
    ensures [a] + ([b] + ([c] + ([d] + rest))) == [a, b, c, d] + rest
  {}

  lemma PendingGroup(a: nat, b: nat, c: nat, rest: seq<nat>)
    ensures Pending(0, 0, [a, b, c] + rest)
         == [a % 32, b % 32, c % 32, (a / 32) * 9 + (b / 32) * 3 + c / 32] + Pending(0, 0, rest)
  {
    var x, y, z := a / 32, b / 32, c / 32;
    assert [a, b, c] + rest == [a] + ([b] + ([c] + rest));
    InGroup(0, 0, a, [b] + ([c] + rest));
    InGroup(x, 1, b, [c] + rest);
    EndsGroup(x * 3 + y, c, rest);
    FourAhead(a % 32, b % 32, c % 32, (x * 3 + y) * 3 + z, Pending(0, 0, rest));
  }

  lemma RunStep<T>(step: (T, T) -> T, word: nat -> T, c: T, s: nat, rest: seq<nat>)
    ensures Run(step, c, Bits(word, [s] + rest)) == Run(step, step(c, word(s)), Bits(word, rest))
  {
    assert Bits(word, [s] + rest)[1..] == Bits(word, rest);
  }

  /** One character: its symbol, and the class symbol if it completes a group of three. */
  function FeedOne<T>(step: (T, T) -> T, word: nat -> T, c: T, cls: nat, count: nat, pos: nat): (r: (T, nat, nat)) {
    var c' := step(c, word(pos % 32));
    var cls' := cls * 3 + pos / 32;
    if count + 1 == 3 then (step(c', word(cls')), 0, 0) else (c', cls', count + 1)
  }

  lemma {:induction false} FeedStep<T>(step: (T, T) -> T, word: nat -> T, c: T, cls: nat, count: nat, pos: nat, rest: seq<nat>)
    ensures var (c', cls', count') := FeedOne(step, word, c, cls, count, pos);
            Run(step, c, Bits(word, Pending(cls, count, [pos] + rest)))
            == Run(step, c', Bits(word, Pending(cls', count', rest)))
  {
    var s, k := pos % 32, cls * 3 + pos / 32;
    Unfold(cls, count, [pos] + rest);
    assert ([pos] + rest)[1..] == rest;
    if count + 1 == 3 {
      RunStep(step, word, c, s, [k] + Pending(0, 0, rest));
      RunStep(step, word, step(c, word(s)), k, Pending(0, 0, rest));
    } else {
      RunStep(step, word, c, s, Pending(k, count + 1, rest));
    }
  }

  /** With i characters fed, what is left to feed takes c to goal. */
  ghost predicate OnTrack<T>(step: (T, T) -> T, word: nat -> T, goal: T, ps: seq<nat>, i: nat, c: T, cls: nat, count: nat) {
    i <= |ps| && count < 3 && Run(step, c, Bits(word, Pending(cls, count, ps[i..]))) == goal
  }

  lemma {:induction false} Advance<T>(step: (T, T) -> T, word: nat -> T, goal: T, ps: seq<nat>, i: nat, c: T, cls: nat, count: nat)
    requires i < |ps| && OnTrack(step, word, goal, ps, i, c, cls, count)
    ensures var (c', cls', count') := FeedOne(step, word, c, cls, count, ps[i]);
            OnTrack(step, word, goal, ps, i + 1, c', cls', count')
  {
    assert ps[i..] == [ps[i]] + ps[i + 1..];
    FeedStep(step, word, c, cls, count, ps[i], ps[i + 1..]);
  }

  lemma {:induction false} Starts<T>(step: (T, T) -> T, word: nat -> T, c: T, ps: seq<nat>)
    ensures OnTrack(step, word, Run(step, c, Bits(word, Expand(ps))), ps, 0, c, 0, 0)
  {
    assert ps[0..] == ps;
    PendingIsExpand(ps);
  }

  lemma {:induction false} Finishes<T>(step: (T, T) -> T, word: nat -> T, goal: T, ps: seq<nat>, c: T, cls: nat, count: nat)
    requires OnTrack(step, word, goal, ps, |ps|, c, cls, count)
    ensures goal == if count > 0 then step(c, word(cls)) else c
  {
    assert ps[|ps|..] == [] && Bits(word, []) == [];
    RunStep(step, word, c, cls, []);
    assert [cls] + [] == [cls];
  }

  /** The loop's body for one character in the alphabet. */
  method FeedCharacter<T>(step: (T, T) -> T, word: nat -> T, state: T, partial: nat, seen: nat, pos: nat)
    returns (c: T, cls: nat, count: nat)
    ensures (c, cls, count) == FeedOne(step, word, state, partial, seen, pos)
    ensures forall rest :: Run(step, state, Bits(word, Pending(partial, seen, [pos] + rest))) == Run(step, c, Bits(word, Pending(cls, count, rest)))
  {
    forall rest
      ensures var (c', cls', count') := FeedOne(step, word, state, partial, seen, pos);
              Run(step, state, Bits(word, Pending(partial, seen, [pos] + rest))) == Run(step, c', Bits(word, Pending(cls', count', rest)))
    {
      FeedStep(step, word, state, partial, seen, pos, rest);
    }
    c := step(state, word(pos % 32));
    cls := partial * 3 + pos / 32;
    count := seen + 1;
    if count == 3 {
      c := step(c, word(cls));
      cls, count := 0, 0;
    }
  }

  /** The loop over the characters, with its partial-group accumulator. */
  method FeedCharacters<T>(step: (T, T) -> T, word: nat -> T, start: T, cs: Charsets, desc: string) returns (ok: bool, c: T)
    requires |cs.input| <= 96
    ensures ok == InAlphabet(cs, desc)
    ensures ok ==> c == Run(step, start, Bits(word, Expand(Positions(cs, desc))))
  {
    c := start;
    var cls: nat, count: nat := 0, 0;
    ghost var good := InAlphabet(cs, desc);
    ghost var ps: seq<nat> := if good then Positions(cs, desc) else [];
    ghost var goal: T := Run(step, start, Bits(word, Expand(ps)));
    Starts(step, word, start, ps);
    for i := 0 to |desc|
      invariant count < 3
      invariant forall h :: 0 <= h < i ==> IndexOf(cs.input, desc[h]) >= 0
      invariant good ==> OnTrack(step, word, goal, ps, i, c, cls, count)
    {
      var pos := IndexOf(cs.input, desc[i]);
      if pos < 0 { return false, start; }
      if good {
        assert ps[i] == pos;
        Advance(step, word, goal, ps, i, c, cls, count);
      }
      c, cls, count := FeedCharacter(step, word, c, cls, count, pos);
    }
    Finishes(step, word, goal, ps, c, cls, count);
    if count > 0 {
      c := step(c, word(cls));
    }
    ok := true;
  }

  /** The eight zero symbols that flush the register. */
  method Flush<T>(step: (T, T) -> T, zero: T, start: T) returns (c: T)
    ensures c == Run(step, start, Same(zero, 8))
  {
    c := start;
    for i := 0 to 8
      invariant c == Run(step, start, Same(zero, i))
    {
      RunAppend(step, start, Same(zero, i), [zero]);
      assert Same(zero, i + 1) == Same(zero, i) + [zero];
      assert Run(step, c, [zero]) == step(c, zero);
      c := step(c, zero);
    }
  }

  method DescriptorChecksum(cs: Charsets, desc: string) returns (r: Option<string>)
    requires cs.Valid()
    ensures r == Checksum(cs, desc)
  {
    var ok, c := FeedCharacters(STEP, WORD, 1, cs, desc);
    if !ok { return None; }
    RunAppend(STEP, 1, Bits(WORD, Expand(Positions(cs, desc))), Same(0, 8));
    c := Flush(STEP, 0, c);
    c := XOR(c, 1);
    r := Some(CheckText(cs, Unpack(c, 8)));
  }

  // ----------------------------------------------------------------- linearity

  lemma XorCommutes(a: bv64, b: bv64)
    ensures XOR(a, b) == XOR(b, a)
  {}

  lemma XorAssociates(a: bv64, b: bv64, c: bv64)
    ensures XOR(XOR(a, b), c) == XOR(a, XOR(b, c))
  {
    calc {
      XOR(XOR(a, b), c);
      XOR(a ^ b, c);
      (a ^ b) ^ c;
      a ^ (b ^ c);
      XOR(a, b ^ c);
      XOR(a, XOR(b, c));
    }
  }

  lemma XorCancels(a: bv64)
    ensures XOR(a, 0) == a && XOR(a, a) == 0
  {}

  lemma XorIsGroup()
    ensures XorGroup(XOR, 0)
  {
    forall a, b, c ensures GroupAt(XOR, 0, a, b, c) { XorAt(a, b, c); }
  }

  lemma XorAt(a: bv64, b: bv64, c: bv64)
    ensures GroupAt(XOR, 0, a, b, c)
  {
    XorCommutes(a, b);
    XorAssociates(a, b, c);
    XorCancels(a);
  }

  lemma OddXor(t: bv64, u: bv64)
    ensures ODD(XOR(t, u)) == (ODD(t) != ODD(u))
  {}

  lemma HalfXor(t: bv64, u: bv64)
    ensures HALF(XOR(t, u)) == XOR(HALF(t), HALF(u))
  {}

  lemma TopShift(t: bv64, u: bv64)
    ensures TOP(XOR(t, u)) == XOR(TOP(t), TOP(u))
  {}

  lemma UpXor(c: bv64, d: bv64)
    ensures Up(XOR(c, d)) == XOR(Up(c), Up(d))
  {}

  lemma WordBits(a: bv64, b: bv64)
    ensures BitsAt(XOR, ODD, HALF, a, b)
  {
    OddXor(a, b);
    HalfXor(a, b);
  }

  lemma TopXor(c: bv64, d: bv64)
    ensures TopBits(XOR(c, d)) == Differ(TopBits(c), TopBits(d))
  {
    TopShift(c, d);
    forall a, b ensures BitsAt(XOR, ODD, HALF, a, b) { WordBits(a, b); }
    LowBitsXor(XOR, ODD, HALF, TOP(c), TOP(d), 5);
  }

  /** Every step of the code is linear over GF(2) in the state and the symbol together. */
  lemma {:induction false} StepIsLinear()
    ensures XorGroup(XOR, 0) && Linear(XOR, STEP)
  {
    XorIsGroup();
    forall c, d, v, w ensures LinearAt(XOR, STEP, c, d, v, w) {
      StepAt(c, d, v, w);
    }
  }

  lemma {:induction false} StepAt(c: bv64, d: bv64, v: bv64, w: bv64)
    requires XorGroup(XOR, 0)
    ensures LinearAt(XOR, STEP, c, d, v, w)
  {
    var p, q := TopBits(c), TopBits(d);
    UpXor(c, d);
    TopXor(c, d);
    Interchange(XOR, 0, Up(c), Up(d), v, w);
    ReduceLinear(XOR, 0, p, q, GENERATORS);
    Interchange(XOR, 0, XOR(Up(c), v), XOR(Up(d), w), Reduce(XOR, 0, p, GENERATORS), Reduce(XOR, 0, q, GENERATORS));
  }

  /** The loop over the generators, in any xor group: each selected one is added in turn. */
  method AddGenerators<T(!new)>(x: (T, T) -> T, ghost zero: T, d: T, bits: seq<bool>, gens: seq<T>) returns (r: T)
    requires XorGroup(x, zero) && |bits| == |gens|
    ensures r == x(d, Reduce(x, zero, bits, gens))
  {
    r := d;
    assert bits[0..] == bits && gens[0..] == gens;
    for i := 0 to |bits|
      invariant x(r, Reduce(x, zero, bits[i..], gens[i..])) == x(d, Reduce(x, zero, bits, gens))
    {
      ReduceFrom(x, zero, bits, gens, i);
      assert GroupAt(x, zero, r, gens[i], Reduce(x, zero, bits[i + 1..], gens[i + 1..]));
      assert GroupAt(x, zero, r, zero, Reduce(x, zero, bits[i + 1..], gens[i + 1..]));
      if bits[i] { r := x(r, gens[i]); }
    }
    assert bits[|bits|..] == [] && GroupAt(x, zero, r, zero, r);
  }

  /** descPolymod as it runs. */
  method DescPolymod(c: bv64, v: bv64) returns (r: bv64)
    ensures r == Polymod(c, v)
  {
    XorIsGroup();
    r := AddGenerators(XOR, 0, XOR(Up(c), v), TopBits(c), GENERATORS);
  }

  // ------------------------------------------------ the state as a shift register

  const FULL: bv64 := 0x100_0000_0000

  /** d with the generators of the set bits added. */
  function Chosen(d: bv64, b0: bool, b1: bool, b2: bool, b3: bool, b4: bool): bv64 {
    Sum(d, Select(0, b0, 0xf5dee51989), Select(0, b1, 0xa9fdca3312), Select(0, b2, 0x1bab10e32d),
        Select(0, b3, 0x3706b1677a), Select(0, b4, 0x644d626ffd))
  }

  function Sum(d: bv64, s0: bv64, s1: bv64, s2: bv64, s3: bv64, s4: bv64): bv64 {
    d ^ s0 ^ s1 ^ s2 ^ s3 ^ s4
  }

  /** One step with the five generators written out. */
  function Written(c: bv64, v: bv64): bv64 {
    var t := c >> 35;
    Chosen(Up(c) ^ v, t & 1 != 0, (t >> 1) & 1 != 0, (t >> 2) & 1 != 0, (t >> 3) & 1 != 0, (t >> 4) & 1 != 0)
  }

  lemma WrittenBounded(c: bv64, v: bv64)
    requires c < FULL && v < 32
    ensures Written(c, v) < FULL
  {}

  lemma WrittenKernel(c: bv64)
    requires c < FULL && Written(c, 0) == 0
    ensures c == 0
  {}

  lemma WrittenSmall(c: bv64, v: bv64)
    requires c < 0x8_0000_0000 && v < 32
    ensures Written(c, v) == (c << 5) | v
  {}

  lemma Nest(d: bv64, s0: bv64, s1: bv64, s2: bv64, s3: bv64, s4: bv64)
    ensures XOR(d, XOR(s0, XOR(s1, XOR(s2, XOR(s3, XOR(s4, 0)))))) == Sum(d, s0, s1, s2, s3, s4)
  {
    calc {
      XOR(d, XOR(s0, XOR(s1, XOR(s2, XOR(s3, XOR(s4, 0))))));
      { XorCancels(s4); }
      XOR(d, XOR(s0, XOR(s1, XOR(s2, XOR(s3, s4)))));
      XOR(d, XOR(s0, XOR(s1, XOR(s2, s3 ^ s4))));
      XOR(d, XOR(s0, XOR(s1, s2 ^ (s3 ^ s4))));
      XOR(d, XOR(s0, s1 ^ (s2 ^ (s3 ^ s4))));
      XOR(d, s0 ^ (s1 ^ (s2 ^ (s3 ^ s4))));
      d ^ (s0 ^ (s1 ^ (s2 ^ (s3 ^ s4))));
    }
  }

  lemma HalfTwice(t: bv64)
    ensures (t >> 1) >> 1 == t >> 2 && (t >> 2) >> 1 == t >> 3 && (t >> 3) >> 1 == t >> 4
  {}

  lemma TopBitsAre(c: bv64)
    ensures var t := c >> 35;
            TopBits(c) == [t & 1 != 0, (t >> 1) & 1 != 0, (t >> 2) & 1 != 0, (t >> 3) & 1 != 0, (t >> 4) & 1 != 0]
  {
    FiveBits(ODD, HALF, c >> 35);
    HalfTwice(c >> 35);
  }

  lemma GeneratorsAre()
    ensures |GENERATORS| == 5 && GENERATORS[0] == 0xf5dee51989 && GENERATORS[1] == 0xa9fdca3312 && GENERATORS[2] == 0x1bab10e32d
         && GENERATORS[3] == 0x3706b1677a && GENERATORS[4] == 0x644d626ffd
  {}

  lemma ChosenIs(d: bv64, b: seq<bool>)
    requires |b| == 5
    ensures XOR(d, Reduce(XOR, 0, b, GENERATORS)) == Chosen(d, b[0], b[1], b[2], b[3], b[4])
  {
    var g := GENERATORS;
    FiveSelected(XOR, 0, b, g);
    var s0, s1, s2, s3, s4 := Select(0, b[0], g[0]), Select(0, b[1], g[1]), Select(0, b[2], g[2]), Select(0, b[3], g[3]), Select(0, b[4], g[4]);
    GeneratorsAre();
    Nest(d, s0, s1, s2, s3, s4);
  }

  lemma StepIsChosen(c: bv64, v: bv64, d: bv64, b: seq<bool>)
    requires b == TopBits(c) && d == XOR(Up(c), v)
    ensures STEP(c, v) == Chosen(d, b[0], b[1], b[2], b[3], b[4])
  {
    ChosenIs(d, b);
  }

  lemma {:induction false} PolymodIsWritten(c: bv64, v: bv64)
    ensures STEP(c, v) == Written(c, v)
  {
    var b, d := TopBits(c), XOR(Up(c), v);
    StepIsChosen(c, v, d, b);
    TopBitsAre(c);
  }
}
