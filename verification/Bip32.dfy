/** BIP32 extended public keys and public derivation (internal/btc/bip32.go). */
module Bip32 {
  import opened Radix
  import opened Results
  import opened Base58
  import opened Secp256k1
  import NonCube

  const HARDENED: nat := 0x8000_0000
  const TWO32: nat := 0x1_0000_0000

  datatype ExtKey = ExtKey(depth: Byte, parentFP: Bytes, child: nat, chainCode: Bytes, pubKey: Bytes)

  predicate Sized(k: ExtKey) {
    |k.parentFP| == 4 && k.child < TWO32 && |k.chainCode| == 32 && |k.pubKey| == 33
  }

  /** The fixed-size arrays and the uint32 of the source's struct. */
  type Key = k: ExtKey | Sized(k) witness ExtKey(0, [0, 0, 0, 0], 0, seq(32, _ => 0), seq(33, _ => 0))

  datatype KeyError = BadEncoding | BadVersion | BadPrefix | BadPoint | BadRoot | IsHardened | NoIndex | TooDeep

  /** The curve constants, the hashes and their output lengths. */
  datatype Context = Context(p: Modulus, n: nat, g: Point, sha: Bytes -> Bytes, hash160: Bytes -> Bytes,
                             mac: (Bytes, Bytes) -> Bytes)
  {
    ghost predicate Valid() {
      && HashLength(sha)
      && (forall b: Bytes :: |hash160(b)| == 20)
      && (forall key: Bytes, data: Bytes :: |mac(key, data)| == 64)
    }
  }

  predicate RootNamesNoParent(k: ExtKey) {
    k.depth == 0 ==> k.parentFP == Zeros(4) && k.child == 0
  }

  function Payload(k: Key, version: nat): (raw: Bytes)
    ensures |raw| == 78
  {
    Fixed(version, 256, 4) + [k.depth] + k.parentFP + Fixed(k.child, 256, 4) + k.chainCode + k.pubKey
  }

  function KeyOf(raw: Bytes): (k: Key)
    requires |raw| == 78
  {
    FourBytes(raw[9..13]);
    ExtKey(raw[4], raw[5..9], BigEndian(raw[9..13], 256), raw[13..45], raw[45..78])
  }

  lemma FourBytes(b: Bytes)
    requires |b| == 4
    ensures BigEndian(b, 256) < TWO32 && Pow(256, 4) == TWO32
  {
    BigEndianBound(b, 256);
  }

  function ParsePayload(cx: Context, raw: Bytes, versions: set<nat>): (r: Result<Key, KeyError>) {
    if |raw| != 78 then Err(BadEncoding)
    else if BigEndian(raw[..4], 256) !in versions then Err(BadVersion)
    else if raw[45] != 2 && raw[45] != 3 then Err(BadPrefix)
    else if !OnCurve(raw[45..78], cx.p) then Err(BadPoint)
    else if !RootNamesNoParent(KeyOf(raw)) then Err(BadRoot)
    else Ok(KeyOf(raw))
  }

  function ParseExtPub(cx: Context, s: string, versions: set<nat>): (r: Result<Key, KeyError>)
    requires cx.Valid()
  {
    match Decode(cx.sha, s)
    case Err(_) => Err(BadEncoding)
    case Ok(raw) => ParsePayload(cx, raw, versions)
  }

  function Serialize(cx: Context, k: Key, version: nat): (s: string)
    requires cx.Valid()
  {
    Encode(cx.sha, Payload(k, version))
  }

  function Rooted(cx: Context, k: Key, version: nat): (s: string)
    requires cx.Valid()
  {
    Serialize(cx, ExtKey(0, Zeros(4), 0, k.chainCode, k.pubKey), version)
  }

  // ------------------------------------------------------------------ round trips

  lemma PayloadParts(k: Key, version: nat)
    requires version < TWO32
    ensures var raw := Payload(k, version);
            KeyOf(raw) == k && BigEndian(raw[..4], 256) == version
  {
    var raw := Payload(k, version);
    FourBytes(raw[..4]);
    assert raw[..4] == Fixed(version, 256, 4);
    assert raw[5..9] == k.parentFP;
    assert raw[9..13] == Fixed(k.child, 256, 4);
    assert raw[13..45] == k.chainCode;
    assert raw[45..78] == k.pubKey;
    BigEndianOfFixed(version, 256, 4);
    BigEndianOfFixed(k.child, 256, 4);
  }

  lemma PayloadOfParts(raw: Bytes)
    requires |raw| == 78
    ensures Payload(KeyOf(raw), BigEndian(raw[..4], 256)) == raw && BigEndian(raw[..4], 256) < TWO32
  {
    FourBytes(raw[..4]);
    FixedOfBigEndian(raw[..4], 256);
    FixedOfBigEndian(raw[9..13], 256);
    assert raw == raw[..4] + [raw[4]] + raw[5..9] + raw[9..13] + raw[13..45] + raw[45..78];
  }

  /** What the strict parser asks of a key besides its version. */
  predicate WellFormed(k: Key, p: Modulus) {
    OnCurve(k.pubKey, p) && RootNamesNoParent(k)
  }

  /** Parsing a serialized key returns that key exactly when it is well formed and its version is
      accepted; nothing else is ever returned for it. */
  lemma {:induction false} ParseSerialize(cx: Context, k: Key, version: nat, versions: set<nat>)
    requires cx.Valid() && version < TWO32
    ensures var r := ParseExtPub(cx, Serialize(cx, k, version), versions);
            && (WellFormed(k, cx.p) && version in versions ==> r == Ok(k))
            && (!WellFormed(k, cx.p) || version !in versions ==>
                  r == Err(if version !in versions then BadVersion
                           else if k.pubKey[0] != 2 && k.pubKey[0] != 3 then BadPrefix
                           else if !OnCurve(k.pubKey, cx.p) then BadPoint
                           else BadRoot))
  {
    var raw := Payload(k, version);
    PayloadFits(cx.sha, raw);
    DecodeEncode(cx.sha, raw);
    PayloadParts(k, version);
    assert raw[45..78] == KeyOf(raw).pubKey;
    assert raw[45] == k.pubKey[0];
  }

  /** An accepted string is the serialization of its key under the version it carries, which was
      accepted, and of a well-formed key. */
  lemma {:induction false} SerializeParse(cx: Context, s: string, versions: set<nat>)
    requires cx.Valid() && ParseExtPub(cx, s, versions).Ok?
    ensures var k := ParseExtPub(cx, s, versions).value;
            && WellFormed(k, cx.p)
            && exists v :: v in versions && v < TWO32 && Serialize(cx, k, v) == s
  {
    var raw := Decode(cx.sha, s).value;
    var v := BigEndian(raw[..4], 256);
    PayloadOfParts(raw);
    EncodeDecode(cx.sha, s);
    assert Serialize(cx, KeyOf(raw), v) == s;
  }

  /** ... and under no other version. */
  lemma {:induction false} OneVersion(cx: Context, k: Key, v: nat, w: nat)
    requires cx.Valid() && v < TWO32 && w < TWO32
    requires Serialize(cx, k, v) == Serialize(cx, k, w)
    ensures v == w
  {
    PayloadFits(cx.sha, Payload(k, v));
    DecodeEncode(cx.sha, Payload(k, v));
    PayloadFits(cx.sha, Payload(k, w));
    DecodeEncode(cx.sha, Payload(k, w));
    PayloadParts(k, v);
    PayloadParts(k, w);
  }

  /** A rooted key keeps only the chain code and the key. */
  lemma {:induction false} RootedParses(cx: Context, k: Key, version: nat, versions: set<nat>)
    requires cx.Valid() && version < TWO32 && version in versions && OnCurve(k.pubKey, cx.p)
    ensures ParseExtPub(cx, Rooted(cx, k, version), versions) == Ok(ExtKey(0, Zeros(4), 0, k.chainCode, k.pubKey))
  {
    ParseSerialize(cx, ExtKey(0, Zeros(4), 0, k.chainCode, k.pubKey), version, versions);
  }

  // ------------------------------------------------------------------- derivation

  /** The child at one index, if BIP32 calls it valid. */
  function ChildAt(cx: Context, k: Key, parent: Point, i: nat): (c: Option<Key>)
    requires cx.Valid() && k.depth < 255 && i < TWO32
  {
    var sum := cx.mac(k.chainCode, k.pubKey + Fixed(i, 256, 4));
    var il := BigEndian(sum[..32], 256);
    if il >= cx.n then None
    else
      var child := Add(DoubleAndAdd(il, cx.g, Infinity, Adder(cx.p)), parent, cx.p);
      if child.Infinity? then None
      else Some(ExtKey(k.depth + 1, cx.hash160(k.pubKey)[..4], i, sum[32..], Compress(child)))
  }

  /** The left half of the HMAC for index i, as a scalar, and its multiple of the generator plus the
      parent. */
  function LeftScalar(cx: Context, k: Key, i: nat): nat
    requires cx.Valid()
  {
    BigEndian(cx.mac(k.chainCode, k.pubKey + Fixed(i, 256, 4))[..32], 256)
  }

  function ChildPoint(cx: Context, k: Key, parent: Point, i: nat): Point
    requires cx.Valid()
  {
    Add(DoubleAndAdd(LeftScalar(cx, k, i), cx.g, Infinity, Adder(cx.p)), parent, cx.p)
  }

  /** BIP 32, "Public parent key -> public child key": one deeper, under the parent's fingerprint and its
      index, with the HMAC's right half as chain code and the point the left half gives. */
  predicate IsChildOf(cx: Context, c: Key, k: Key, parent: Point, i: nat)
    requires cx.Valid()
  {
    && c.depth as int == k.depth as int + 1 && c.parentFP == cx.hash160(k.pubKey)[..4] && c.child == i
    && c.chainCode == cx.mac(k.chainCode, k.pubKey + Fixed(i, 256, 4))[32..]
    && LeftScalar(cx, k, i) < cx.n && ChildPoint(cx, k, parent, i).Affine? && c.pubKey == Compress(ChildPoint(cx, k, parent, i))
  }

  method TryChild(cx: Context, k: Key, parent: Point, i: nat) returns (c: Option<Key>)
    requires cx.Valid() && k.depth < 255 && i < TWO32
    ensures c == ChildAt(cx, k, parent, i)
    ensures c.Some? ==> IsChildOf(cx, c.value, k, parent, i)
    ensures c.None? ==> LeftScalar(cx, k, i) >= cx.n || ChildPoint(cx, k, parent, i).Infinity?
  {
    var sum := cx.mac(k.chainCode, k.pubKey + Fixed(i, 256, 4));
    var il := BigEndian(sum[..32], 256);
    if il >= cx.n { return None; }
    var scaled := Mul(il, cx.g, cx.p);
    var child := Add(scaled, parent, cx.p);
    if child.Infinity? { return None; }
    c := Some(ExtKey(k.depth + 1, cx.hash160(k.pubKey)[..4], i, sum[32..], Compress(child)));
  }

  /** The children of a key by index; indices are 32-bit. */
  function Children(cx: Context, k: Key, parent: Point): nat -> Option<Key>
    requires cx.Valid() && k.depth < 255
  {
    (i: nat) => if i < TWO32 then ChildAt(cx, k, parent, i) else None
  }

  /** The outcome is the least index at or after i, below 2^31, that has a child, or that none has. */
  ghost predicate LeastChild(at: nat -> Option<Key>, i: nat, r: Result<(Key, nat), KeyError>) {
    match r
    case Ok((c, j)) => i <= j < HARDENED && at(j) == Some(c) && forall h :: i <= h < j ==> at(h).None?
    case Err(e) => e == NoIndex && forall h :: i <= h < HARDENED ==> at(h).None?
  }

  /** ckdPubWith: the least valid index at or after i below 2^31, or a report that there is none. */
  method CkdPubWith(cx: Context, k: Key, i: nat) returns (r: Result<(Key, nat), KeyError>)
    requires cx.Valid() && i < TWO32
    ensures i >= HARDENED ==> r == Err(IsHardened)
    ensures i < HARDENED && k.depth == 255 ==> r == Err(TooDeep)
    ensures i < HARDENED && k.depth < 255 && Decompress(k.pubKey, cx.p).None? ==> r == Err(BadPoint)
    ensures i < HARDENED && k.depth < 255 && Decompress(k.pubKey, cx.p).Some? ==>
              LeastChild(Children(cx, k, Decompress(k.pubKey, cx.p).value), i, r)
    ensures r.Ok? ==> Decompress(k.pubKey, cx.p).Some? && IsChildOf(cx, r.value.0, k, Decompress(k.pubKey, cx.p).value, r.value.1)
    ensures r.Ok? ==> forall h :: i <= h < r.value.1 ==>
              LeftScalar(cx, k, h) >= cx.n || ChildPoint(cx, k, Decompress(k.pubKey, cx.p).value, h).Infinity?
  {
    if i >= HARDENED { return Err(IsHardened); }
    if k.depth == 255 { return Err(TooDeep); }
    var decompressed := Decompress(k.pubKey, cx.p);
    if decompressed.None? { return Err(BadPoint); }
    ChildrenAt(cx, k, decompressed.value);
    r := FirstChild(cx, k, decompressed.value, i, Children(cx, k, decompressed.value));
    if r.Ok? { LeastIsChild(cx, k, decompressed.value, i, r.value.0, r.value.1); }
  }

  /** ChildAt is BIP 32's child: it is missing exactly for BIP 32's two reasons. */
  lemma ChildShape(cx: Context, k: Key, parent: Point, i: nat)
    requires cx.Valid() && k.depth < 255 && i < TWO32
    ensures var c := ChildAt(cx, k, parent, i);
            && (c.Some? <==> LeftScalar(cx, k, i) < cx.n && ChildPoint(cx, k, parent, i).Affine?)
            && (c.Some? ==> IsChildOf(cx, c.value, k, parent, i))
  {}

  lemma {:induction false} LeastIsChild(cx: Context, k: Key, parent: Point, i: nat, c: Key, j: nat)
    requires cx.Valid() && k.depth < 255 && LeastChild(Children(cx, k, parent), i, Ok((c, j)))
    ensures IsChildOf(cx, c, k, parent, j)
    ensures forall h :: i <= h < j ==> LeftScalar(cx, k, h) >= cx.n || ChildPoint(cx, k, parent, h).Infinity?
  {
    ChildShape(cx, k, parent, j);
    forall h | i <= h < j ensures LeftScalar(cx, k, h) >= cx.n || ChildPoint(cx, k, parent, h).Infinity? {
      assert Children(cx, k, parent)(h).None?;
      ChildShape(cx, k, parent, h);
    }
  }

  lemma ChildrenAt(cx: Context, k: Key, parent: Point)
    requires cx.Valid() && k.depth < 255
    ensures forall i: nat {:trigger ChildAt(cx, k, parent, i)} :: i < TWO32 ==> Children(cx, k, parent)(i) == ChildAt(cx, k, parent, i)
  {}

  /** The loop over the indices. */
  method FirstChild(cx: Context, k: Key, parent: Point, i: nat, ghost at: nat -> Option<Key>) returns (r: Result<(Key, nat), KeyError>)
    requires cx.Valid() && k.depth < 255 && i < HARDENED
    requires forall h: nat {:trigger ChildAt(cx, k, parent, h)} :: h < TWO32 ==> at(h) == ChildAt(cx, k, parent, h)
    ensures LeastChild(at, i, r)
  {
    var j := i;
    while j < HARDENED
      invariant i <= j <= HARDENED
      invariant forall h :: i <= h < j ==> at(h).None?
    {
      var child := TryChild(cx, k, parent, j);
      if child.Some? { return Ok((child.value, j)); }
      j := j + 1;
    }
    r := Err(NoIndex);
  }

  lemma {:induction false} ChildOnCurve(cx: Context, k: Key, parent: Point, i: nat)
    requires cx.Valid() && k.depth < 255 && i < TWO32
    requires PrimeField(cx.p) && IsPoint(cx.g, cx.p) && cx.p <= Pow(256, 32) && IsPoint(parent, cx.p)
    requires ChildAt(cx, k, parent, i).Some?
    ensures WellFormed(ChildAt(cx, k, parent, i).value, cx.p)
  {
    var il := BigEndian(cx.mac(k.chainCode, k.pubKey + Fixed(i, 256, 4))[..32], 256);
    var scaled := DoubleAndAdd(il, cx.g, Infinity, Adder(cx.p));
    MulClosed(il, cx.g, cx.p);
    AddClosed(scaled, parent, cx.p);
    CompressedOnCurve(Add(scaled, parent, cx.p), cx.p);
  }

  /** Every derived key is one the strict parser accepts: its public key is on the curve, and it
      serializes and parses back. */
  lemma {:induction false} ChildIsWellFormed(cx: Context, k: Key, i: nat, version: nat, versions: set<nat>)
    requires cx.Valid() && k.depth < 255 && i < TWO32 && version < TWO32 && version in versions
    requires PrimeField(cx.p) && IsPoint(cx.g, cx.p) && cx.p <= Pow(256, 32)
    requires Decompress(k.pubKey, cx.p).Some?
    requires ChildAt(cx, k, Decompress(k.pubKey, cx.p).value, i).Some?
    ensures var c := ChildAt(cx, k, Decompress(k.pubKey, cx.p).value, i).value;
            WellFormed(c, cx.p) && ParseExtPub(cx, Serialize(cx, c, version), versions) == Ok(c)
  {
    var parent := Decompress(k.pubKey, cx.p).value;
    DecompressSound(k.pubKey, cx.p);
    ChildOnCurve(cx, k, parent, i);
    ParseSerialize(cx, ChildAt(cx, k, parent, i).value, version, versions);
  }

  // --------------------------------------------------------------- on the real curve

  /** secp256k1's field, order and generator. */
  predicate RealCurve(cx: Context) {
    cx.p == P && cx.n == N && cx.g == G
  }

  /** steps are the indices used one after the other on the way from k to last. */
  ghost predicate Derives(cx: Context, k: Key, steps: seq<nat>, last: Key)
    requires cx.Valid()
    decreases |steps|
  {
    if steps == [] then k == last
    else
      && k.depth < 255 && steps[0] < TWO32 && Decompress(k.pubKey, cx.p).Some?
      && var child := ChildAt(cx, k, Decompress(k.pubKey, cx.p).value, steps[0]);
         child.Some? && Derives(cx, child.value, steps[1..], last)
  }

  lemma {:induction false} RealChild(cx: Context, k: Key, i: nat)
    requires cx.Valid() && RealCurve(cx) && PrimeField(P) && k.depth < 255 && i < TWO32
    requires Decompress(k.pubKey, P).Some? && ChildAt(cx, k, Decompress(k.pubKey, P).value, i).Some?
    ensures WellFormed(ChildAt(cx, k, Decompress(k.pubKey, P).value, i).value, P)
  {
    GeneratorOnCurve();
    FieldFitsBytes();
    DecompressSound(k.pubKey, P);
    ChildOnCurve(cx, k, Decompress(k.pubKey, P).value, i);
  }

  /** On secp256k1, every key reached from a well-formed one by any number of derivations is well formed:
      its point decompresses, so derivation never fails on it, and it serializes and parses back. */
  lemma {:induction false} DerivedKeysParse(cx: Context, k: Key, steps: seq<nat>, last: Key, version: nat, versions: set<nat>)
    requires cx.Valid() && RealCurve(cx) && PrimeField(P) && WellFormed(k, P) && Derives(cx, k, steps, last)
    requires version < TWO32 && version in versions
    ensures WellFormed(last, P) && Decompress(last.pubKey, P).Some? && last.depth as int == k.depth as int + |steps|
    ensures ParseExtPub(cx, Serialize(cx, last, version), versions) == Ok(last)
    decreases |steps|
  {
    if steps == [] {
      NonCube.DecompressesExactlyOnCurve(k.pubKey);
      ParseSerialize(cx, k, version, versions);
    } else {
      RealChild(cx, k, steps[0]);
      DerivedKeysParse(cx, ChildAt(cx, k, Decompress(k.pubKey, P).value, steps[0]).value, steps[1..], last, version, versions);
    }
  }
}
