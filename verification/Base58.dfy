/** Base58Check (internal/btc/base58.go). A Go string is a sequence of chars, one for each byte.
    SHA-256 is a parameter of which only the output length is used. */
module Base58 {
  import opened Radix
  import opened Results

  type Byte = b: nat | b < 256
  type Bytes = seq<Byte>

  const ALPHABET := "123456789" + "ABCDEFGH" + "JKLMN" + "PQRSTUVWXYZ" + "abcdefghijk" + "mnopqrstuvwxyz"
  const MAX_LEN := 128

  datatype Error = BadLength | InvalidCharacter | TooShort | ChecksumMismatch

  /** The i-th symbol, by the six runs of consecutive codes the alphabet is made of. */
  function Symbol(i: nat): (c: char)
    requires i < 58
  {
    if i < 9 then ('1' as int + i) as char
    else if i < 17 then ('A' as int + i - 9) as char
    else if i < 22 then ('J' as int + i - 17) as char
    else if i < 33 then ('P' as int + i - 22) as char
    else if i < 44 then ('a' as int + i - 33) as char
    else ('m' as int + i - 44) as char
  }

  /** The base58Index table: a symbol's digit, or -1. */
  function Index(c: char): (i: int)
    ensures -1 <= i < 58
    ensures i >= 0 ==> Symbol(i) == c
  {
    if '1' <= c <= '9' then c as int - '1' as int
    else if 'A' <= c <= 'H' then c as int - 'A' as int + 9
    else if 'J' <= c <= 'N' then c as int - 'J' as int + 17
    else if 'P' <= c <= 'Z' then c as int - 'P' as int + 22
    else if 'a' <= c <= 'k' then c as int - 'a' as int + 33
    else if 'm' <= c <= 'z' then c as int - 'm' as int + 44
    else -1
  }

  lemma AlphabetRuns(i: nat)
    requires i < 58
    ensures |ALPHABET| == 58 && ALPHABET[i] == Symbol(i)
  {}

  /** The runs are the alphabet, and the table inverts it. */
  lemma TableMatchesAlphabet()
    ensures |ALPHABET| == 58 && forall i :: 0 <= i < 58 ==> ALPHABET[i] == Symbol(i) && Index(ALPHABET[i]) == i
    ensures forall c :: Index(c) >= 0 <==> c in ALPHABET
  {
    AlphabetRuns(0);
    forall i | 0 <= i < 58 ensures ALPHABET[i] == Symbol(i) && Index(ALPHABET[i]) == i {
      AlphabetRuns(i);
    }
    forall c ensures Index(c) >= 0 <==> c in ALPHABET {
      if Index(c) >= 0 { AlphabetRuns(Index(c)); }
    }
  }

  predicate AllBase58(s: string) {
    forall i :: 0 <= i < |s| ==> Index(s[i]) >= 0
  }

  function TextDigits(s: string): (ds: seq<nat>)
    requires AllBase58(s)
    ensures |ds| == |s| && InBase(ds, 58)
  {
    seq(|s|, i requires 0 <= i < |s| => Index(s[i]))
  }

  function DigitText(ds: seq<nat>): (s: string)
    requires InBase(ds, 58)
    ensures |s| == |ds|
  {
    seq(|ds|, i requires 0 <= i < |ds| => Symbol(ds[i]))
  }

  /** How many elements at the start of s equal x. */
  function Leading<T(==)>(s: seq<T>, x: T): (n: nat)
    ensures n <= |s|
    ensures forall i :: 0 <= i < n ==> s[i] == x
    ensures n < |s| ==> s[n] != x
  {
    if s != [] && s[0] == x then 1 + Leading(s[1..], x) else 0
  }

  /** The bytes a Base58 text stands for: a zero byte for each leading '1', then the value's bytes. */
  function DecodeRaw(s: string): (raw: Bytes)
    requires AllBase58(s)
  {
    Zeros(Leading(s, '1')) + Reverse(Digits(BigEndian(TextDigits(s), 58), 256))
  }

  /** The text of a byte string: a '1' for each leading zero byte, then the value's digits. */
  function EncodeRaw(raw: Bytes): (s: string) {
    Repeat('1', Leading(raw, 0)) + DigitText(Reverse(Digits(BigEndian(raw, 256), 58)))
  }

  ghost predicate HashLength(sha: Bytes -> Bytes) {
    forall b: Bytes :: |sha(b)| == 32
  }

  function Checksum(sha: Bytes -> Bytes, payload: Bytes): (sum: Bytes)
    requires HashLength(sha)
    ensures |sum| == 4
  {
    sha(sha(payload))[..4]
  }

  function Decode(sha: Bytes -> Bytes, s: string): (r: Result<Bytes, Error>)
    requires HashLength(sha)
  {
    if |s| == 0 || |s| > MAX_LEN then Err(BadLength)
    else if !AllBase58(s) then Err(InvalidCharacter)
    else Checked(sha, DecodeRaw(s))
  }

  function Checked(sha: Bytes -> Bytes, raw: Bytes): (r: Result<Bytes, Error>)
    requires HashLength(sha)
  {
    if |raw| < 4 then Err(TooShort)
    else if raw[|raw| - 4..] != Checksum(sha, raw[..|raw| - 4]) then Err(ChecksumMismatch)
    else Ok(raw[..|raw| - 4])
  }

  function Encode(sha: Bytes -> Bytes, payload: Bytes): (s: string)
    requires HashLength(sha)
  {
    EncodeRaw(payload + Checksum(sha, payload))
  }

  // -------------------------------------------------------- the loops of base58.go

  /** One byte of the decoder's inner loop, right to left. */
  lemma ByteStep(out: Bytes, j: nat, c: nat)
    requires j < |out|
    ensures var t := c + out[j] as int * 58;
            var out' := out[j := t % 256];
            && t / 256 >= 0
            && Reverse(out[j + 1..]) + MulAdd(Reverse(out[..j + 1]), 58, c, 256)
               == Reverse(out'[j..]) + MulAdd(Reverse(out'[..j]), 58, t / 256, 256)
  {
    var t := c + out[j] as int * 58;
    var out' := out[j := t % 256];
    assert out[..j + 1] == out[..j] + [out[j]];
    ReverseAppend(out[..j], [out[j]]);
    assert out'[..j] == out[..j];
    assert out'[j..] == [t % 256] + out[j + 1..];
    MulAddStep(out[j], Reverse(out[..j]), 58, c, 256);
  }

  /** The inner loops of the decoder: out becomes out * 58 + v, most significant byte first. */
  method ScaleBytes(start: Bytes, v: nat) returns (out: Bytes)
    requires v < 58
    ensures Reverse(out) == MulAdd(Reverse(start), 58, v, 256)
  {
    out := start;
    var carry: int := v;
    var j := |out| - 1;
    ghost var goal := MulAdd(Reverse(start), 58, v, 256);
    assert out[..j + 1] == start && Reverse(out[j + 1..]) == [];
    while j >= 0
      invariant -1 <= j < |out|
      invariant 0 <= carry <= 57
      invariant goal == Reverse(out[j + 1..]) + MulAdd(Reverse(out[..j + 1]), 58, carry, 256)
    {
      ByteStep(out, j, carry);
      carry := carry + out[j] as int * 58;
      out := out[j := carry % 256];
      carry := carry / 256;
      j := j - 1;
    }
    assert Reverse(out[..0]) == [] && out[0..] == out;
    while carry > 0
      invariant carry >= 0
      invariant goal == Reverse(out) + MulAdd([], 58, carry, 256)
    {
      assert Reverse([carry % 256] + out) == Reverse(out) + [carry % 256];
      out := [carry % 256] + out;
      carry := carry / 256;
    }
  }

  lemma DigitStep(ds: seq<nat>, j: nat, m: nat, c: nat, b: nat)
    requires j < |ds| && b >= 2
    ensures var t := c + ds[j] * m;
            t / b >= 0 && MulAdd(ds[j..], m, c, b) == [t % b] + MulAdd(ds[j + 1..], m, t / b, b)
  {
    assert ds[j..] == [ds[j]] + ds[j + 1..];
    MulAddStep(ds[j], ds[j + 1..], m, c, b);
  }

  lemma Overwrite<T>(s: seq<T>, j: nat, x: T)
    requires j < |s|
    ensures s[j := x][..j + 1] == s[..j] + [x]
    ensures s[j := x][j + 1..] == s[j + 1..]
  {}

  /** One turn of the encoder's first inner loop. */
  lemma CarryStep(digits: seq<nat>, j: nat, carry: nat)
    requires j < |digits| && InBase(digits, 58) && carry <= 255
    ensures var c := carry + digits[j] * 256;
            var next := digits[j := c % 58];
            && InBase(next, 58) && c / 58 <= 255
            && digits[..j] + MulAdd(digits[j..], 256, carry, 58) == next[..j + 1] + MulAdd(next[j + 1..], 256, c / 58, 58)
  {
    var c := carry + digits[j] * 256;
    var rest := MulAdd(digits[j + 1..], 256, c / 58, 58);
    DigitStep(digits, j, 256, carry, 58);
    Overwrite(digits, j, c % 58);
    assert digits[..j] + ([c % 58] + rest) == digits[..j] + [c % 58] + rest;
  }

  /** The encoder's first inner loop: the carry runs through the existing digits. */
  method CarryThrough(start: seq<nat>, b: nat) returns (digits: seq<nat>, carry: nat)
    requires b < 256 && InBase(start, 58)
    ensures InBase(digits, 58)
    ensures MulAdd(start, 256, b, 58) == digits + MulAdd([], 256, carry, 58)
  {
    digits, carry := start, b;
    assert digits[0..] == start;
    for j := 0 to |digits|
      invariant |digits| == |start| && InBase(digits, 58)
      invariant carry <= 255
      invariant MulAdd(start, 256, b, 58) == digits[..j] + MulAdd(digits[j..], 256, carry, 58)
    {
      CarryStep(digits, j, carry);
      carry := carry + digits[j] * 256;
      digits := digits[j := carry % 58];
      carry := carry / 58;
    }
    assert digits[|digits|..] == [] && digits[..|digits|] == digits;
  }

  /** Both inner loops of the encoder: digits becomes digits * 256 + b, least significant first. */
  method ScaleDigits(start: seq<nat>, b: nat) returns (digits: seq<nat>)
    requires b < 256 && InBase(start, 58)
    ensures digits == MulAdd(start, 256, b, 58) && InBase(digits, 58)
  {
    var carry: nat;
    digits, carry := CarryThrough(start, b);
    while carry > 0
      invariant InBase(digits, 58)
      invariant MulAdd(start, 256, b, 58) == digits + MulAdd([], 256, carry, 58)
    {
      digits := digits + [carry % 58];
      carry := carry / 58;
    }
  }

  /** The zero-counting loops of both directions. */
  method CountLeading<T(==)>(s: seq<T>, x: T) returns (n: nat)
    ensures n == Leading(s, x)
  {
    n := 0;
    while n < |s| && s[n] == x
      invariant n <= |s|
      invariant forall i :: 0 <= i < n ==> s[i] == x
    {
      n := n + 1;
    }
  }

  lemma TextDigitsGrow(s: string, i: nat)
    requires i < |s| && AllBase58(s[..i]) && Index(s[i]) >= 0
    ensures AllBase58(s[..i + 1]) && TextDigits(s[..i + 1]) == TextDigits(s[..i]) + [Index(s[i])]
  {
    assert s[..i + 1] == s[..i] + [s[i]];
  }

  lemma ReadDigit(s: string, i: nat)
    requires i < |s| && AllBase58(s[..i]) && Index(s[i]) >= 0
    ensures AllBase58(s[..i + 1])
    ensures var n, v := BigEndian(TextDigits(s[..i]), 58), Index(s[i]);
            MulAdd(Digits(n, 256), 58, v, 256) == Digits(BigEndian(TextDigits(s[..i + 1]), 58), 256)
  {
    var ds, v := TextDigits(s[..i]), Index(s[i]);
    TextDigitsGrow(s, i);
    BigEndianAppend(ds, v, 58);
    MulAddIsArithmetic(BigEndian(ds, 58), 58, v, 256);
  }

  /** The decoder's outer loop over the characters. */
  method TextValue(s: string) returns (out: Option<Bytes>)
    ensures out.None? <==> !AllBase58(s)
    ensures out.Some? ==> Reverse(out.value) == Digits(BigEndian(TextDigits(s), 58), 256)
  {
    var acc: Bytes := [];
    for i := 0 to |s|
      invariant AllBase58(s[..i])
      invariant Reverse(acc) == Digits(BigEndian(TextDigits(s[..i]), 58), 256)
    {
      var v := Index(s[i]);
      if v < 0 { return None; }
      ReadDigit(s, i);
      acc := ScaleBytes(acc, v);
    }
    assert s[..|s|] == s;
    out := Some(acc);
  }

  method Base58CheckDecode(sha: Bytes -> Bytes, s: string) returns (r: Result<Bytes, Error>)
    requires HashLength(sha)
    ensures r == Decode(sha, s)
    ensures r == Err(BadLength) <==> |s| == 0 || |s| > 128
    ensures r == Err(InvalidCharacter) <==> 1 <= |s| <= 128 && exists i :: 0 <= i < |s| && Index(s[i]) < 0
    ensures r.Ok? ==> AllBase58(s) && DecodeRaw(s) == r.value + sha(sha(r.value))[..4]
  {
    if |s| == 0 || |s| > MAX_LEN { return Err(BadLength); }
    var zeros := CountLeading(s, '1');
    var out := TextValue(s);
    if out.None? { return Err(InvalidCharacter); }
    var raw: Bytes := Zeros(zeros) + out.value;
    RawIs(s, out.value);
    r := CheckSum(sha, raw);
  }

  lemma RawIs(s: string, out: Bytes)
    requires AllBase58(s) && Reverse(out) == Digits(BigEndian(TextDigits(s), 58), 256)
    ensures Zeros(Leading(s, '1')) + out == DecodeRaw(s)
  {
    ReverseTwice(out);
  }

  /** The checks on the decoded bytes. */
  method CheckSum(sha: Bytes -> Bytes, raw: Bytes) returns (r: Result<Bytes, Error>)
    requires HashLength(sha)
    ensures r == Checked(sha, raw)
    ensures r.Ok? ==> raw == r.value + sha(sha(r.value))[..4]
    ensures r.Err? ==> forall payload: Bytes :: raw != payload + sha(sha(payload))[..4]
  {
    if |raw| < 4 { return Err(TooShort); }
    var payload, sum := raw[..|raw| - 4], raw[|raw| - 4..];
    var want := sha(sha(payload));
    assert want[..4] == Checksum(sha, payload);
    if sum != want[..4] {
      assert forall other: Bytes :: raw == other + Checksum(sha, other) ==> payload == other;
      return Err(ChecksumMismatch);
    }
    r := Ok(payload);
  }

  lemma ReadByte(rest: Bytes, i: nat)
    requires i < |rest|
    ensures MulAdd(Digits(BigEndian(rest[..i], 256), 58), 256, rest[i], 58) == Digits(BigEndian(rest[..i + 1], 256), 58)
  {
    assert rest[..i + 1] == rest[..i] + [rest[i]];
    BigEndianAppend(rest[..i], rest[i], 256);
    MulAddIsArithmetic(BigEndian(rest[..i], 256), 256, rest[i], 58);
  }

  /** The encoder's outer loop over the bytes after the leading zeros. */
  method ByteDigits(rest: Bytes) returns (digits: seq<nat>)
    ensures digits == Digits(BigEndian(rest, 256), 58)
  {
    digits := [];
    for i := 0 to |rest|
      invariant digits == Digits(BigEndian(rest[..i], 256), 58)
    {
      ReadByte(rest, i);
      digits := ScaleDigits(digits, rest[i]);
    }
    assert rest[..|rest|] == rest;
  }

  /** The encoder's last loop: symbols from the most significant digit down. */
  method WriteDigits(prefix: string, digits: seq<nat>) returns (s: string)
    requires InBase(digits, 58)
    ensures s == prefix + DigitText(Reverse(digits))
  {
    s := prefix;
    var i := |digits| - 1;
    while i >= 0
      invariant -1 <= i < |digits|
      invariant s == prefix + DigitText(Reverse(digits)[..|digits| - 1 - i])
    {
      s := s + [Symbol(digits[i])];
      i := i - 1;
    }
    assert Reverse(digits)[..|digits|] == Reverse(digits);
  }

  method Base58CheckEncode(sha: Bytes -> Bytes, payload: Bytes) returns (s: string)
    requires HashLength(sha)
    ensures s == Encode(sha, payload)
  {
    var sum := sha(sha(payload));
    var raw: Bytes := payload + sum[..4];
    assert raw == payload + Checksum(sha, payload);
    var zeros := CountLeading(raw, 0);
    var digits := ByteDigits(raw[zeros..]);
    assert raw == Zeros(zeros) + raw[zeros..];
    LeadingZeros(zeros, raw[zeros..], 256);
    s := WriteDigits(Repeat('1', zeros), digits);
    assert s == EncodeRaw(raw) by {
      assert BigEndian(raw, 256) == BigEndian(raw[zeros..], 256);
    }
  }

  // ------------------------------------------------------------------ theorems

  lemma LeadingOf(n: nat, rest: seq<nat>)
    requires rest != [] ==> rest[0] != 0
    ensures Leading(Zeros(n) + rest, 0) == n
  {
    var s := Zeros(n) + rest;
    assert forall i :: 0 <= i < n ==> s[i] == 0;
    assert n < |s| ==> s[n] != 0;
  }

  lemma TextOfDigits(ds: seq<nat>)
    requires InBase(ds, 58)
    ensures AllBase58(DigitText(ds)) && TextDigits(DigitText(ds)) == ds
  {}

  lemma DigitsOfText(s: string)
    requires AllBase58(s)
    ensures DigitText(TextDigits(s)) == s
  {}

  /** Any digit string in base b with z leading zeros is z zeros and the digits of its value. */
  lemma {:induction false} Canonical(ds: seq<nat>, b: nat)
    requires b >= 2 && InBase(ds, b)
    ensures ds == Zeros(Leading(ds, 0)) + Reverse(Digits(BigEndian(ds, b), b))
  {
    var z := Leading(ds, 0);
    var rest := ds[z..];
    assert ds == Zeros(z) + rest;
    LeadingZeros(z, rest, b);
    DigitsOfBigEndian(rest, b);
  }

  /** Building a digit string from a zero count and a value: both can be read back. */
  lemma {:induction false} Recover(z: nat, n: nat, b: nat)
    requires b >= 2
    ensures var ds := Zeros(z) + Reverse(Digits(n, b));
            Leading(ds, 0) == z && BigEndian(ds, b) == n
  {
    LeadingOf(z, Reverse(Digits(n, b)));
    LeadingZeros(z, Reverse(Digits(n, b)), b);
    BigEndianOfDigits(n, b);
  }

  lemma LeadingText(s: string)
    requires AllBase58(s)
    ensures Leading(s, '1') == Leading(TextDigits(s), 0)
  {
    var ds := TextDigits(s);
    var k := Leading(s, '1');
    assert forall i :: 0 <= i < |s| ==> (ds[i] == 0 <==> s[i] == '1');
    assert ds == Zeros(k) + ds[k..];
    LeadingOf(k, ds[k..]);
  }

  lemma EncodeRawAsDigits(raw: Bytes)
    ensures EncodeRaw(raw) == DigitText(Zeros(Leading(raw, 0)) + Reverse(Digits(BigEndian(raw, 256), 58)))
  {}

  lemma {:induction false} ReadBack(z: nat, n: nat)
    ensures var s := DigitText(Zeros(z) + Reverse(Digits(n, 58)));
            AllBase58(s) && DecodeRaw(s) == Zeros(z) + Reverse(Digits(n, 256))
  {
    var ds := Zeros(z) + Reverse(Digits(n, 58));
    TextOfDigits(ds);
    LeadingText(DigitText(ds));
    Recover(z, n, 58);
  }

  /** The byte and text forms determine each other. */
  lemma {:induction false} RawRoundTrip(raw: Bytes)
    ensures AllBase58(EncodeRaw(raw)) && DecodeRaw(EncodeRaw(raw)) == raw
  {
    EncodeRawAsDigits(raw);
    ReadBack(Leading(raw, 0), BigEndian(raw, 256));
    Canonical(raw, 256);
  }

  lemma {:induction false} TextRoundTrip(s: string)
    requires AllBase58(s)
    ensures EncodeRaw(DecodeRaw(s)) == s
  {
    var ds := TextDigits(s);
    LeadingText(s);
    var z, n := Leading(ds, 0), BigEndian(ds, 58);
    Recover(z, n, 256);
    EncodeRawAsDigits(DecodeRaw(s));
    Canonical(ds, 58);
    DigitsOfText(s);
  }

  /** Every payload whose text is short enough to be read comes back; no other text is read at all. */
  lemma {:induction false} DecodeEncode(sha: Bytes -> Bytes, payload: Bytes)
    requires HashLength(sha)
    ensures |Encode(sha, payload)| <= MAX_LEN ==> Decode(sha, Encode(sha, payload)) == Ok(payload)
    ensures |Encode(sha, payload)| > MAX_LEN ==> Decode(sha, Encode(sha, payload)) == Err(BadLength)
  {
    var raw := payload + Checksum(sha, payload);
    RawRoundTrip(raw);
    assert DecodeRaw([]) == [];
    assert raw[..|raw| - 4] == payload;
  }

  /** An accepted text is the one encoding of its payload. */
  lemma {:induction false} EncodeDecode(sha: Bytes -> Bytes, s: string)
    requires HashLength(sha) && Decode(sha, s).Ok?
    ensures Encode(sha, Decode(sha, s).value) == s
  {
    TextRoundTrip(s);
    var raw := DecodeRaw(s);
    assert raw == raw[..|raw| - 4] + raw[|raw| - 4..];
  }

  /** 256^8 <= 58^11 and 256^5 <= 58^7, so 93 bytes need at most 128 digits. */
  lemma {:induction false} EightBytes(k: nat)
    ensures Pow(256, 8 * k) <= Pow(58, 11 * k)
  {
    if k > 0 {
      EightBytes(k - 1);
      PowAdd(256, 8, 8 * (k - 1));
      PowAdd(58, 11, 11 * (k - 1));
      assert Pow(256, 8) <= Pow(58, 11);
      MulMono(Pow(256, 8), Pow(58, 11), Pow(256, 8 * (k - 1)), Pow(58, 11 * (k - 1)));
    }
  }

  lemma {:induction false} FitsDown(n: nat, d: nat)
    requires n <= 93 && d == n + 35
    ensures Pow(256, n) <= Pow(58, d)
    decreases 93 - n
  {
    if n == 93 {
      EightBytes(11);
      PowAdd(256, 88, 5);
      PowAdd(58, 121, 7);
      assert Pow(256, 5) <= Pow(58, 7);
      MulMono(Pow(256, 88), Pow(58, 121), Pow(256, 5), Pow(58, 7));
    } else {
      FitsDown(n + 1, d + 1);
      assert 256 * Pow(256, n) <= 58 * Pow(58, d);
    }
  }

  /** A payload of at most 89 bytes always fits the 128 characters the decoder reads. */
  lemma {:induction false} PayloadFits(sha: Bytes -> Bytes, payload: Bytes)
    requires HashLength(sha) && |payload| <= 89
    ensures |Encode(sha, payload)| <= MAX_LEN
  {
    var raw := payload + Checksum(sha, payload);
    var z := Leading(raw, 0);
    var rest := raw[z..];
    assert raw == Zeros(z) + rest;
    LeadingZeros(z, rest, 256);
    BigEndianBound(rest, 256);
    FitsDown(|rest|, |rest| + 35);
    DigitsLength(BigEndian(rest, 256), 58, |rest| + 35);
  }
}
