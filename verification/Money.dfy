/** Reading and printing amounts (internal/market/app.go: parseAmount, amount). */
module Money {
  import opened Results
  import opened Radix

  const MAX_INT64: nat := 0x7fff_ffff_ffff_ffff

  predicate IsDigit(c: char) {
    '0' <= c <= '9'
  }

  predicate AllDigits(s: string) {
    forall i :: 0 <= i < |s| ==> IsDigit(s[i])
  }

  predicate IsSpace(c: char) {
    c as int in {0x09, 0x0a, 0x0b, 0x0c, 0x0d, 0x20, 0x85, 0xa0}
  }

  /** strings.TrimSpace(s) == s. */
  predicate Trimmed(s: string) {
    s == "" || (!IsSpace(s[0]) && !IsSpace(s[|s| - 1]))
  }

  /** strings.Split on one character. */
  function Split(s: string, sep: char): (parts: seq<string>)
    ensures |parts| >= 1
  {
    if s == "" then [""]
    else
      var rest := Split(s[1..], sep);
      if s[0] == sep then [""] + rest else [[s[0]] + rest[0]] + rest[1..]
  }

  function DigitOf(c: char): nat
    requires IsDigit(c)
  {
    c as int - '0' as int
  }

  function CharOf(d: nat): (c: char)
    requires d < 10
    ensures IsDigit(c) && DigitOf(c) == d
  {
    ('0' as int + d) as char
  }

  /** The number a text of digits writes, in base ten. */
  function Value(s: string): nat
    requires AllDigits(s)
  {
    if s == "" then 0 else Value(s[..|s| - 1]) * 10 + DigitOf(s[|s| - 1])
  }

  function Zeroes(n: nat): (s: string)
    ensures |s| == n && AllDigits(s)
  {
    seq(n, _ => '0')
  }

  datatype AmountError = Invalid | TooManyDecimals | OutOfRange

  function Parsed(s: string, decimals: nat): Result<nat, AmountError> {
    if s == "" || !Trimmed(s) then Err(Invalid)
    else
      var parts := Split(s, '.');
      if |parts| > 2 then Err(Invalid)
      else
        var frac := if |parts| == 2 then parts[1] else "";
        if |frac| > decimals then Err(TooManyDecimals)
        else
          var all := parts[0] + frac + Zeroes(decimals - |frac|);
          if parts[0] == "" || !AllDigits(all) then Err(Invalid)
          else if 1 <= Value(all) <= MAX_INT64 then Ok(Value(all))
          else Err(OutOfRange)
  }

  /** strconv.FormatInt of a number that is not negative. */
  function Decimal(n: nat): (s: string)
    ensures s != "" && AllDigits(s) && Value(s) == n
  {
    if n < 10 then [CharOf(n)]
    else
      var s := Decimal(n / 10) + [CharOf(n % 10)];
      assert s[..|s| - 1] == Decimal(n / 10);
      s
  }

  function TrimRight(s: string, c: char): (t: string)
    ensures |t| <= |s| && t == s[..|t|]
    ensures t != "" ==> t[|t| - 1] != c
    ensures forall i :: |t| <= i < |s| ==> s[i] == c
  {
    if s != "" && s[|s| - 1] == c then TrimRight(s[..|s| - 1], c) else s
  }

  /** s with zeros in front until it has more than d digits. */
  function Padded(s: string, d: nat): (t: string)
    ensures |t| == if |s| > d then |s| else d + 1
  {
    if |s| > d then s else Zeroes(d + 1 - |s|) + s
  }

  /** Digits with the dot put in and trailing zeros, then a trailing dot, taken off. */
  function Pointed(s: string, d: nat): string
    requires |s| > d
  {
    TrimRight(TrimRight(s[..|s| - d] + "." + s[|s| - d..], '0'), '.')
  }

  function Printed(n: nat, d: nat): string {
    Pointed(Padded(Decimal(n), d), d)
  }

  // ------------------------------------------------------------ the source's loops

  lemma PadOne(s: string, k: nat)
    ensures "0" + (Zeroes(k) + s) == Zeroes(k + 1) + s
  {}

  /** The loop that puts zeros in front. */
  method Pad(s: string, d: nat) returns (t: string)
    ensures t == Padded(s, d)
  {
    t := s;
    ghost var k := 0;
    while |t| <= d
      invariant t == Zeroes(k) + s && |t| == k + |s|
      invariant k > 0 ==> |t| <= d + 1
      decreases d + 1 - |t|
    {
      PadOne(s, k);
      t := "0" + t;
      k := k + 1;
    }
    assert Zeroes(0) + s == s;
  }

  method Amount(n: nat, d: nat) returns (text: string)
    ensures text == Printed(n, d)
  {
    var s := Pad(Decimal(n), d);
    text := TrimRight(TrimRight(s[..|s| - d] + "." + s[|s| - d..], '0'), '.');
  }

  method ParseAmount(s: string, decimals: nat) returns (r: Result<nat, AmountError>)
    ensures r == Parsed(s, decimals)
  {
    if s == "" || !Trimmed(s) { return Err(Invalid); }
    var parts := Split(s, '.');
    if |parts| > 2 { return Err(Invalid); }
    var frac := "";
    if |parts| == 2 { frac := parts[1]; }
    if |frac| > decimals { return Err(TooManyDecimals); }
    var all := parts[0] + frac + Zeroes(decimals - |frac|);
    if |parts[0]| == 0 { return Err(Invalid); }
    for i := 0 to |all|
      invariant forall j :: 0 <= j < i ==> IsDigit(all[j])
    {
      if all[i] < '0' || all[i] > '9' { return Err(Invalid); }
    }
    var n := Value(all);
    if n > MAX_INT64 || n <= 0 { return Err(OutOfRange); }
    r := Ok(n);
  }

  // ---------------------------------------------------------------- values of texts

  lemma {:induction false} ValueAppend(a: string, b: string)
    requires AllDigits(a) && AllDigits(b)
    ensures AllDigits(a + b) && Value(a + b) == Value(a) * Pow(10, |b|) + Value(b)
    decreases |b|
  {
    if b == "" {
      assert a + b == a;
    } else {
      var c, x := b[..|b| - 1], b[|b| - 1];
      ValueAppend(a, c);
      assert (a + b)[..|a + b| - 1] == a + c && (a + b)[|a + b| - 1] == x;
      Tens(Value(a), Pow(10, |c|));
    }
  }

  lemma Tens(v: nat, p: nat)
    ensures v * p * 10 == v * (10 * p)
  {}

  lemma {:induction false} ValueZeroes(k: nat)
    ensures Value(Zeroes(k)) == 0
  {
    if k > 0 {
      ValueZeroes(k - 1);
      assert Zeroes(k)[..k - 1] == Zeroes(k - 1);
    }
  }

  lemma PaddedValue(n: nat, d: nat)
    ensures AllDigits(Padded(Decimal(n), d)) && Value(Padded(Decimal(n), d)) == n
  {
    var s := Decimal(n);
    if |s| <= d {
      ValueAppend(Zeroes(d + 1 - |s|), s);
      ValueZeroes(d + 1 - |s|);
    }
  }

  // -------------------------------------------------------------- splitting at the dot

  lemma {:induction false} NoDot(s: string)
    requires AllDigits(s)
    ensures Split(s, '.') == [s]
  {
    if s != "" {
      NoDot(s[1..]);
      assert [s[0]] + s[1..] == s;
    }
  }

  lemma {:induction false} OneDot(a: string, b: string)
    requires AllDigits(a) && AllDigits(b)
    ensures Split(a + "." + b, '.') == [a, b]
  {
    var s := a + "." + b;
    if a == "" {
      assert s[1..] == b;
      NoDot(b);
    } else {
      OneDot(a[1..], b);
      assert s[1..] == a[1..] + "." + b;
      assert [s[0]] + a[1..] == a;
    }
  }

  lemma {:induction false} Joined(s: string)
    ensures |Split(s, '.')| == 1 ==> s == Split(s, '.')[0]
    ensures |Split(s, '.')| == 2 ==> s == Split(s, '.')[0] + "." + Split(s, '.')[1]
  {
    if s != "" {
      var rest := Split(s[1..], '.');
      Joined(s[1..]);
      assert s == [s[0]] + s[1..];
    }
  }

  // ------------------------------------------------------------------ the printed form

  lemma {:induction false} TrimAppend(a: string, b: string, c: char)
    requires a != "" && a[|a| - 1] != c
    ensures TrimRight(a + b, c) == a + TrimRight(b, c)
    decreases |b|
  {
    var s := a + b;
    if b == "" {
      assert s == a;
    } else if b[|b| - 1] == c {
      TrimAppend(a, b[..|b| - 1], c);
      assert s[..|s| - 1] == a + b[..|b| - 1];
    }
  }

  /** A text made of a whole part and, after a dot, a fraction. */
  function Text(whole: string, part: string): string {
    if part == "" then whole else whole + "." + part
  }

  lemma DotGoes(whole: string)
    requires AllDigits(whole) && whole != ""
    ensures TrimRight(whole + ".", '.') == whole
  {
    TrimAppend(whole, ".", '.');
    assert "."[..0] == "" && TrimRight(".", '.') == TrimRight("", '.');
    assert whole + "" == whole;
  }

  lemma DotStays(whole: string, part: string)
    requires AllDigits(part) && part != ""
    ensures TrimRight(whole + "." + part, '.') == whole + "." + part
  {
    var t := whole + "." + part;
    assert t[|t| - 1] == part[|part| - 1];
  }

  lemma {:induction false} Dotted(whole: string, frac: string)
    requires AllDigits(whole) && whole != "" && AllDigits(frac)
    ensures TrimRight(TrimRight(whole + "." + frac, '0'), '.') == Text(whole, TrimRight(frac, '0'))
  {
    var part := TrimRight(frac, '0');
    TrimAppend(whole + ".", frac, '0');
    if part == "" {
      assert whole + "." + part == whole + ".";
      DotGoes(whole);
    } else {
      DotStays(whole, part);
    }
  }

  /** Digits are printed as their integer part and, if there is one, their fraction without trailing
      zeros. */
  lemma {:induction false} PointedForm(s: string, d: nat)
    requires AllDigits(s) && |s| > d
    ensures Pointed(s, d) == Text(s[..|s| - d], TrimRight(s[|s| - d..], '0'))
  {
    Dotted(s[..|s| - d], s[|s| - d..]);
  }

  lemma Refilled(frac: string)
    ensures var part := TrimRight(frac, '0'); part + Zeroes(|frac| - |part|) == frac
  {}

  lemma TextTrimmed(whole: string, part: string)
    requires AllDigits(whole) && whole != "" && AllDigits(part)
    ensures Trimmed(Text(whole, part)) && Text(whole, part) != ""
  {
    var s := Text(whole, part);
    assert s[0] == whole[0];
    assert s[|s| - 1] == if part == "" then whole[|whole| - 1] else part[|part| - 1];
  }

  lemma TextSplit(whole: string, part: string)
    requires AllDigits(whole) && AllDigits(part)
    ensures Split(Text(whole, part), '.') == if part == "" then [whole] else [whole, part]
  {
    if part == "" {
      NoDot(whole);
    } else {
      OneDot(whole, part);
    }
  }

  lemma {:induction false} ParsedText(whole: string, part: string, d: nat, n: nat)
    requires AllDigits(whole) && whole != "" && AllDigits(part) && |part| <= d
    requires AllDigits(whole + part + Zeroes(d - |part|)) && Value(whole + part + Zeroes(d - |part|)) == n && 1 <= n <= MAX_INT64
    ensures Parsed(Text(whole, part), d) == Ok(n)
  {
    TextTrimmed(whole, part);
    TextSplit(whole, part);
  }

  lemma Regrouped(s: string, d: nat)
    requires |s| > d
    ensures var part := TrimRight(s[|s| - d..], '0'); s[..|s| - d] + part + Zeroes(d - |part|) == s
  {
    var whole, frac := s[..|s| - d], s[|s| - d..];
    var part := TrimRight(frac, '0');
    var zeroes := Zeroes(d - |part|);
    Refilled(frac);
    assert whole + part + zeroes == whole + (part + zeroes);
  }

  lemma {:induction false} ParsePointed(s: string, d: nat)
    requires AllDigits(s) && |s| > d && 1 <= Value(s) <= MAX_INT64
    ensures Parsed(Pointed(s, d), d) == Ok(Value(s))
  {
    var whole, part := s[..|s| - d], TrimRight(s[|s| - d..], '0');
    PointedForm(s, d);
    Regrouped(s, d);
    ParsedText(whole, part, d, Value(s));
  }

  /** Reading a printed amount gives it back, for every positive 63-bit amount and every number of
      decimals. */
  lemma {:induction false} ParsePrinted(n: nat, d: nat)
    requires 1 <= n <= MAX_INT64
    ensures Parsed(Printed(n, d), d) == Ok(n)
  {
    PaddedValue(n, d);
    ParsePointed(Padded(Decimal(n), d), d);
  }

  /** An accepted text means exactly the decimal it writes, scaled by ten to the decimals. */
  lemma {:induction false} ParsedValue(s: string, d: nat)
    requires Parsed(s, d).Ok?
    ensures var parts := Split(s, '.');
            var frac := if |parts| == 2 then parts[1] else "";
            && AllDigits(parts[0]) && AllDigits(frac) && |frac| <= d
            && s == (if |parts| == 2 then parts[0] + "." + frac else parts[0])
            && Parsed(s, d).value == Value(parts[0]) * Pow(10, d) + Value(frac) * Pow(10, d - |frac|)
            && 1 <= Parsed(s, d).value <= MAX_INT64
  {
    var parts := Split(s, '.');
    var frac := if |parts| == 2 then parts[1] else "";
    Joined(s);
    DigitParts(parts[0], frac, Zeroes(d - |frac|));
    ScaledValue(parts[0], frac, d);
  }

  lemma {:induction false} ScaledValue(whole: string, frac: string, d: nat)
    requires AllDigits(whole) && AllDigits(frac) && |frac| <= d && AllDigits(whole + frac + Zeroes(d - |frac|))
    ensures Value(whole + frac + Zeroes(d - |frac|)) == Value(whole) * Pow(10, d) + Value(frac) * Pow(10, d - |frac|)
  {
    var rest := frac + Zeroes(d - |frac|);
    assert whole + frac + Zeroes(d - |frac|) == whole + rest;
    ValueAppend(frac, Zeroes(d - |frac|));
    ValueAppend(whole, rest);
    ValueZeroes(d - |frac|);
  }

  lemma DigitParts(a: string, b: string, c: string)
    requires AllDigits(a + b + c)
    ensures AllDigits(a) && AllDigits(b) && AllDigits(c)
  {
    var s := a + b + c;
    forall i | 0 <= i < |a| ensures IsDigit(a[i]) { assert s[i] == a[i]; }
    forall i | 0 <= i < |b| ensures IsDigit(b[i]) { assert s[|a| + i] == b[i]; }
    forall i | 0 <= i < |c| ensures IsDigit(c[i]) { assert s[|a| + |b| + i] == c[i]; }
  }

  // ------------------------------------------------------------- the accepted texts

  /** s writes a decimal: digits, and possibly a dot and more digits. */
  ghost predicate Writes(s: string, whole: string, frac: string) {
    AllDigits(whole) && whole != "" && AllDigits(frac) && (s == whole + "." + frac || (frac == "" && s == whole))
  }

  /** The amount it writes, in units of ten to the minus d. */
  ghost function Amounts(whole: string, frac: string, d: nat): nat
    requires AllDigits(whole) && AllDigits(frac) && |frac| <= d
  {
    Value(whole) * Pow(10, d) + Value(frac) * Pow(10, d - |frac|)
  }

  lemma WrittenTrimmed(s: string, whole: string, frac: string)
    requires Writes(s, whole, frac)
    ensures s != "" && Trimmed(s)
  {
    assert s[0] == whole[0];
    assert s[|s| - 1] == '.' || IsDigit(s[|s| - 1]);
  }

  lemma WrittenParts(s: string, whole: string, frac: string)
    requires Writes(s, whole, frac)
    ensures var parts := Split(s, '.');
            1 <= |parts| <= 2 && parts[0] == whole && frac == if |parts| == 2 then parts[1] else ""
  {
    if s == whole + "." + frac { OneDot(whole, frac); } else { NoDot(whole); }
  }

  lemma {:induction false} WrittenParses(s: string, whole: string, frac: string, d: nat)
    requires Writes(s, whole, frac)
    ensures Parsed(s, d) == if |frac| > d then Err(TooManyDecimals)
                            else if 1 <= Amounts(whole, frac, d) <= MAX_INT64 then Ok(Amounts(whole, frac, d))
                            else Err(OutOfRange)
  {
    WrittenTrimmed(s, whole, frac);
    WrittenParts(s, whole, frac);
    if |frac| <= d {
      ValueAppend(whole, frac);
      ValueAppend(whole + frac, Zeroes(d - |frac|));
      ScaledValue(whole, frac, d);
    }
  }

  /** A text is accepted exactly when it writes a decimal of at most d places that is a positive 63-bit
      amount. */
  lemma {:induction false} AcceptedExactly(s: string, d: nat)
    ensures Parsed(s, d).Ok? <==>
              exists whole, frac :: Writes(s, whole, frac) && |frac| <= d && 1 <= Amounts(whole, frac, d) <= 0x7fff_ffff_ffff_ffff
  {
    if Parsed(s, d).Ok? {
      ParsedValue(s, d);
      var parts := Split(s, '.');
      var frac := if |parts| == 2 then parts[1] else "";
      assert Writes(s, parts[0], frac);
    }
    forall whole, frac | Writes(s, whole, frac) && |frac| <= d && 1 <= Amounts(whole, frac, d) <= MAX_INT64 ensures Parsed(s, d).Ok? {
      WrittenParses(s, whole, frac, d);
    }
  }

  /** Printing what was read is a canonical form: two accepted texts mean the same amount exactly when
      they print the same, and the printed text reads as that amount. */
  lemma {:induction false} PrintIsCanonical(s: string, t: string, d: nat)
    requires Parsed(s, d).Ok? && Parsed(t, d).Ok?
    ensures Parsed(Printed(Parsed(s, d).value, d), d) == Parsed(s, d)
    ensures Parsed(s, d) == Parsed(t, d) <==> Printed(Parsed(s, d).value, d) == Printed(Parsed(t, d).value, d)
  {
    ParsePrinted(Parsed(s, d).value, d);
    ParsePrinted(Parsed(t, d).value, d);
  }

  // ------------------------------------------------------------- the canonical texts

  /** No needless zero in front, and no fraction that is empty or ends in zero. */
  predicate Canonical(s: string) {
    var parts := Split(s, '.');
    (|parts[0]| == 1 || (parts[0] != "" && parts[0][0] != '0'))
    && (|parts| == 2 ==> parts[1] != "" && parts[1][|parts[1]| - 1] != '0')
  }

  lemma {:induction false} NoLeadingZero(n: nat)
    requires n >= 1
    ensures Decimal(n)[0] != '0'
  {
    if n >= 10 { NoLeadingZero(n / 10); }
  }

  lemma {:induction false} PositiveValue(v: string)
    requires AllDigits(v) && v != "" && v[0] != '0'
    ensures Value(v) >= 1
    decreases |v|
  {
    if |v| > 1 { PositiveValue(v[..|v| - 1]); }
  }

  /** A text of digits without a leading zero is the way its value is written. */
  lemma {:induction false} DecimalOfValue(v: string)
    requires AllDigits(v) && v != "" && v[0] != '0'
    ensures v == Decimal(Value(v))
    decreases |v|
  {
    var w, x := v[..|v| - 1], v[|v| - 1];
    assert v == w + [x];
    if |v| > 1 {
      DecimalOfValue(w);
      PositiveValue(w);
      LastDigit(Value(w), DigitOf(x));
    }
  }

  lemma LastDigit(q: nat, r: nat)
    requires r < 10
    ensures (q * 10 + r) / 10 == q && (q * 10 + r) % 10 == r
  {}

  lemma {:induction false} ZerosThenDigits(u: string) returns (k: nat, v: string)
    requires AllDigits(u)
    ensures u == Zeroes(k) + v && AllDigits(v) && Value(v) == Value(u) && (v == "" || v[0] != '0')
    decreases |u|
  {
    if u == "" || u[0] != '0' {
      k, v := 0, u;
      assert Zeroes(0) + u == u;
    } else {
      var k', v' := ZerosThenDigits(u[1..]);
      k, v := k' + 1, v';
      assert u == "0" + u[1..] && u == Zeroes(k) + v by { PadOne(v, k'); }
      ValueAppend("0", u[1..]);
      assert Value("0") == 0;
    }
  }

  /** The digits that print for a value, whatever zeros are needed in front. */
  lemma {:induction false} PaddedOfValue(u: string, d: nat)
    requires AllDigits(u) && |u| > d && (|u| == d + 1 || u[0] != '0') && Value(u) >= 1
    ensures u == Padded(Decimal(Value(u)), d)
  {
    var k, v := ZerosThenDigits(u);
    assert v != "";
    DecimalOfValue(v);
    if k == 0 {
      assert u == v;
    } else {
      assert u[0] == '0';
    }
  }

  lemma {:induction false} TrimOfZeroes(part: string, k: nat)
    requires part == "" || part[|part| - 1] != '0'
    ensures TrimRight(part + Zeroes(k), '0') == part
    decreases k
  {
    var s := part + Zeroes(k);
    if k == 0 {
      assert s == part;
    } else {
      assert s[..|s| - 1] == part + Zeroes(k - 1);
      TrimOfZeroes(part, k - 1);
    }
  }

  /** An accepted text is printed unchanged exactly when it is canonical. */
  lemma {:induction false} CanonicalExactly(s: string, d: nat)
    requires Parsed(s, d).Ok?
    ensures Printed(Parsed(s, d).value, d) == s <==> Canonical(s)
  {
    var n := Parsed(s, d).value;
    PrintedCanonical(n, d);
    if Canonical(s) { CanonicalPrints(s, d); }
  }

  lemma {:induction false} PointedCanonical(s: string, d: nat)
    requires AllDigits(s) && |s| > d && (|s| == d + 1 || s[0] != '0')
    ensures Canonical(Pointed(s, d))
  {
    var whole, part := s[..|s| - d], TrimRight(s[|s| - d..], '0');
    PointedForm(s, d);
    TextSplit(whole, part);
    assert whole[0] == s[0];
  }

  lemma {:induction false} PrintedCanonical(n: nat, d: nat)
    requires n >= 1
    ensures Canonical(Printed(n, d))
  {
    PaddedValue(n, d);
    NoLeadingZero(n);
    PointedCanonical(Padded(Decimal(n), d), d);
  }

  lemma {:induction false} PointedBack(whole: string, part: string, d: nat, u: string)
    requires AllDigits(whole) && AllDigits(part) && whole != "" && |part| <= d && u == whole + part + Zeroes(d - |part|)
    requires part == "" || part[|part| - 1] != '0'
    ensures AllDigits(u) && |u| > d && Pointed(u, d) == Text(whole, part)
  {
    assert u[..|u| - d] == whole && u[|u| - d..] == part + Zeroes(d - |part|);
    TrimOfZeroes(part, d - |part|);
    PointedForm(u, d);
  }

  /** An accepted canonical text is a whole part without needless zeros and a fraction without trailing
      ones, and means their digits. */
  lemma {:induction false} CanonicalParts(s: string, d: nat) returns (whole: string, part: string)
    requires Parsed(s, d).Ok? && Canonical(s)
    ensures AllDigits(whole) && AllDigits(part) && whole != "" && |part| <= d && s == Text(whole, part)
    ensures (|whole| == 1 || whole[0] != '0') && (part == "" || part[|part| - 1] != '0')
    ensures var u := whole + part + Zeroes(d - |part|); AllDigits(u) && Parsed(s, d).value == Value(u) >= 1
  {
    var parts := Split(s, '.');
    whole, part := parts[0], if |parts| == 2 then parts[1] else "";
    Joined(s);
    DigitParts(whole, part, Zeroes(d - |part|));
  }

  lemma {:induction false} PartsPrint(whole: string, part: string, d: nat)
    requires AllDigits(whole) && AllDigits(part) && whole != "" && |part| <= d
    requires (|whole| == 1 || whole[0] != '0') && (part == "" || part[|part| - 1] != '0')
    requires var u := whole + part + Zeroes(d - |part|); AllDigits(u) && Value(u) >= 1
    ensures Printed(Value(whole + part + Zeroes(d - |part|)), d) == Text(whole, part)
  {
    var u := whole + part + Zeroes(d - |part|);
    PointedBack(whole, part, d, u);
    assert u[0] == whole[0];
    PaddedOfValue(u, d);
  }

  lemma {:induction false} CanonicalPrints(s: string, d: nat)
    requires Parsed(s, d).Ok? && Canonical(s)
    ensures Printed(Parsed(s, d).value, d) == s
  {
    var whole, part := CanonicalParts(s, d);
    PartsPrint(whole, part, d);
  }
}
