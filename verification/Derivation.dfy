/** Public derivation follows private derivation: the key that ckdPubWith of internal/btc/bip32.go
    derives is the public key of BIP 32's private child ("Private parent key -> private child key"). */
module Derivation {
  import opened Radix
  import opened Results
  import opened ModArith
  import opened Base58
  import opened Secp256k1
  import opened CurveLaw
  import opened Bip32
  import NonCube

  // ------------------------------------------------------------ the private side

  datatype Private = Private(secret: nat, chainCode: Bytes)

  /** secret * G. */
  function Public(cx: Context, secret: nat): Point {
    Times(secret, cx.g, Infinity, Adder(cx.p))
  }

  /** BIP 32's CKDpriv for an index that is not hardened: HMAC over the parent's public key and the
      index, whose left half is added to the secret and whose right half is the chain code. */
  function PrivateChild(cx: Context, s: Private, i: nat): (r: Option<Private>)
    requires cx.Valid() && cx.n > 0 && Public(cx, s.secret).Affine?
  {
    var hmac := cx.mac(s.chainCode, Compress(Public(cx, s.secret)) + Fixed(i, 256, 4));
    var left := BigEndian(hmac[..32], 256);
    var secret := (left + s.secret) % cx.n;
    if left >= cx.n || secret == 0 then None else Some(Private(secret, hmac[32..]))
  }

  /** k is the public key of s. */
  predicate IsPublicOf(cx: Context, k: Key, s: Private) {
    0 < s.secret < cx.n && Public(cx, s.secret).Affine? && k.chainCode == s.chainCode && k.pubKey == Compress(Public(cx, s.secret))
  }

  // -------------------------------------------------------- what is taken of the curve

  /** The generator has order n, and its multiples add associatively. */
  ghost predicate Generates(cx: Context) {
    && cx.n > 0 && IsPoint(cx.g, cx.p) && MultiplesAssociate(cx.g, Infinity, Adder(cx.p))
    && forall k: nat :: Public(cx, k).Infinity? <==> k % cx.n == 0
  }

  /** No point has y = 0. */
  ghost predicate NoZeroRoot(p: Modulus) {
    forall x: nat :: Rhs(x, p) != 0
  }

  ghost predicate Usable(cx: Context) {
    cx.Valid() && PrimeField(cx.p) && cx.p <= Pow(256, 32) && NoZeroRoot(cx.p) && Generates(cx)
  }

  /** On secp256k1 the field's part of that follows from P being prime. */
  lemma {:induction false} RealIsUsable(cx: Context)
    requires cx.Valid() && RealCurve(cx) && PrimeField(P) && Generates(cx)
    ensures Usable(cx)
  {
    FieldFitsBytes();
    forall x: nat ensures Rhs(x, P) != 0 { NonCube.RhsNeverZero(x); }
  }

  // ------------------------------------------------------------- multiples of G

  lemma {:induction false} PublicIsPoint(cx: Context, k: nat)
    requires Usable(cx)
    ensures IsPoint(Public(cx, k), cx.p) && (Public(cx, k).Affine? ==> Public(cx, k).y != 0)
  {
    MulClosed(k, cx.g, cx.p);
    DoubleAndAddIsTimes(k, cx.g, Infinity, Adder(cx.p));
    var pt := Public(cx, k);
    if pt.Affine? && pt.y == 0 {
      SquareIsRhs(pt.x, 0, cx.p);
      SmallCong(0, Rhs(pt.x, cx.p), cx.p);
    }
  }

  lemma WholeMultiple(n: nat, k: nat)
    requires n > 0
    ensures k % n <= k && (k - k % n) % n == 0
  {
    DivMod(n, k / n, 0);
    assert k - k % n == n * (k / n);
  }

  lemma {:induction false} PublicShifts(cx: Context, m: nat, r: nat)
    requires Usable(cx) && m % cx.n == 0
    ensures Public(cx, m + r) == Public(cx, r)
  {
    assert Public(cx, m).Infinity?;
    TimesAdd(m, r, cx.g, Infinity, Adder(cx.p));
  }

  lemma {:induction false} PublicReduced(cx: Context, k: nat)
    requires Usable(cx)
    ensures Public(cx, k % cx.n) == Public(cx, k)
  {
    WholeMultiple(cx.n, k);
    PublicShifts(cx, k - k % cx.n, k % cx.n);
  }

  lemma {:induction false} InfinityIsZero(cx: Context, secret: nat)
    requires Usable(cx) && secret < cx.n
    ensures Public(cx, secret).Infinity? <==> secret == 0
  {
    DivMod(cx.n, 0, secret);
    assert Public(cx, secret).Infinity? <==> secret % cx.n == 0;
  }

  /** What ckdPubWith adds up is the multiple of the sum. */
  lemma {:induction false} PublicSum(cx: Context, left: nat, secret: nat)
    requires Usable(cx)
    ensures Add(DoubleAndAdd(left, cx.g, Infinity, Adder(cx.p)), Public(cx, secret), cx.p) == Public(cx, (left + secret) % cx.n)
  {
    DoubleAndAddIsTimes(left, cx.g, Infinity, Adder(cx.p));
    TimesAdd(left, secret, cx.g, Infinity, Adder(cx.p));
    PublicReduced(cx, left + secret);
  }

  lemma {:induction false} PublicReads(cx: Context, k: Key, s: Private)
    requires Usable(cx) && IsPublicOf(cx, k, s)
    ensures Decompress(k.pubKey, cx.p) == Some(Public(cx, s.secret))
  {
    PublicIsPoint(cx, s.secret);
    CompressRoundTrip(Public(cx, s.secret), cx.p);
  }

  // ------------------------------------------------------------------ the theorems

  /** At index i the public side has a child exactly when the private side has, and it is the public key of
      that child. */
  ghost predicate Follows(cx: Context, k: Key, s: Private, i: nat)
    requires cx.Valid() && cx.n > 0 && Public(cx, s.secret).Affine? && k.depth < 255 && i < TWO32
  {
    var c, t := ChildAt(cx, k, Public(cx, s.secret), i), PrivateChild(cx, s, i);
    (c.Some? <==> t.Some?) && (c.Some? ==> IsPublicOf(cx, c.value, t.value) && c.value.child == i)
  }

  lemma PrivateShape(cx: Context, k: Key, s: Private, i: nat, right: Bytes)
    requires cx.Valid() && IsPublicOf(cx, k, s) && right == cx.mac(k.chainCode, k.pubKey + Fixed(i, 256, 4))[32..]
    ensures var left := LeftScalar(cx, k, i);
            var secret := (left + s.secret) % cx.n;
            PrivateChild(cx, s, i) == if left >= cx.n || secret == 0 then None else Some(Private(secret, right))
  {}

  lemma {:induction false} FollowsBySum(cx: Context, k: Key, s: Private, i: nat, secret: nat)
    requires cx.Valid() && IsPublicOf(cx, k, s) && k.depth < 255 && i < TWO32
    requires secret == (LeftScalar(cx, k, i) + s.secret) % cx.n && (Public(cx, secret).Infinity? <==> secret == 0)
    requires ChildPoint(cx, k, Public(cx, s.secret), i) == Public(cx, secret)
    ensures Follows(cx, k, s, i)
  {
    var right := cx.mac(k.chainCode, k.pubKey + Fixed(i, 256, 4))[32..];
    ChildShape(cx, k, Public(cx, s.secret), i);
    PrivateShape(cx, k, s, i, right);
    Agree(cx, ChildAt(cx, k, Public(cx, s.secret), i), PrivateChild(cx, s, i), LeftScalar(cx, k, i), secret, right, i);
  }

  lemma Agree(cx: Context, c: Option<Key>, t: Option<Private>, left: nat, secret: nat, right: Bytes, i: nat)
    requires secret < cx.n && (Public(cx, secret).Infinity? <==> secret == 0)
    requires c.Some? <==> left < cx.n && Public(cx, secret).Affine?
    requires c.Some? ==> c.value.child == i && c.value.chainCode == right && c.value.pubKey == Compress(Public(cx, secret))
    requires t == if left >= cx.n || secret == 0 then None else Some(Private(secret, right))
    ensures (c.Some? <==> t.Some?) && (c.Some? ==> IsPublicOf(cx, c.value, t.value) && c.value.child == i)
  {}

  /** One index. */
  lemma {:induction false} ChildFollows(cx: Context, k: Key, s: Private, i: nat)
    requires Usable(cx) && IsPublicOf(cx, k, s) && k.depth < 255 && i < TWO32
    ensures Follows(cx, k, s, i)
  {
    var left := LeftScalar(cx, k, i);
    var secret := (left + s.secret) % cx.n;
    PublicSum(cx, left, s.secret);
    InfinityIsZero(cx, secret);
    FollowsBySum(cx, k, s, i, secret);
  }

  /** What is said of ckdPubWith's outcome r for the private key s. */
  ghost predicate Answers(cx: Context, s: Private, i: nat, r: Result<(Key, nat), KeyError>)
    requires cx.Valid() && cx.n > 0 && Public(cx, s.secret).Affine?
  {
    match r
    case Ok((c, j)) =>
      && i <= j < HARDENED && c.child == j && PrivateChild(cx, s, j).Some? && IsPublicOf(cx, c, PrivateChild(cx, s, j).value)
      && forall h :: i <= h < j ==> PrivateChild(cx, s, h).None?
    case Err(e) => e == NoIndex && forall h :: i <= h < HARDENED ==> PrivateChild(cx, s, h).None?
  }

  lemma AnswersByIndex(cx: Context, k: Key, s: Private, i: nat, r: Result<(Key, nat), KeyError>)
    requires cx.Valid() && IsPublicOf(cx, k, s) && k.depth < 255 && i < HARDENED
    requires LeastChild(Children(cx, k, Public(cx, s.secret)), i, r)
    requires forall h: nat :: h < HARDENED ==> Follows(cx, k, s, h)
    ensures Answers(cx, s, i, r)
  {
    var at := Children(cx, k, Public(cx, s.secret));
    forall h: nat | h < HARDENED
      ensures at(h) == ChildAt(cx, k, Public(cx, s.secret), h) && (at(h).None? <==> PrivateChild(cx, s, h).None?)
    {
      assert Follows(cx, k, s, h);
    }
    if r.Ok? { assert Follows(cx, k, s, r.value.1); }
  }

  /** ckdPubWith on the public key of s answers with the public key of s's private child at the least
      valid index at or after i, and reports that there is none exactly when no index has one. */
  lemma {:induction false} CkdPubFollowsCkdPriv(cx: Context, k: Key, s: Private, i: nat, r: Result<(Key, nat), KeyError>)
    requires Usable(cx) && IsPublicOf(cx, k, s) && k.depth < 255 && i < HARDENED
    requires Decompress(k.pubKey, cx.p).Some? ==> LeastChild(Children(cx, k, Decompress(k.pubKey, cx.p).value), i, r)
    ensures Decompress(k.pubKey, cx.p).Some? && Answers(cx, s, i, r)
  {
    PublicReads(cx, k, s);
    forall h: nat | h < HARDENED ensures Follows(cx, k, s, h) { ChildFollows(cx, k, s, h); }
    AnswersByIndex(cx, k, s, i, r);
  }

  /** t is reached from s by private derivation at these indices. */
  ghost predicate PrivateDerives(cx: Context, s: Private, steps: seq<nat>, t: Private)
    requires cx.Valid() && cx.n > 0
    decreases |steps|
  {
    if steps == [] then s == t
    else
      && Public(cx, s.secret).Affine? && PrivateChild(cx, s, steps[0]).Some?
      && PrivateDerives(cx, PrivateChild(cx, s, steps[0]).value, steps[1..], t)
  }

  /** The same along any chain of derivations. */
  lemma {:induction false} ChainFollows(cx: Context, k: Key, s: Private, steps: seq<nat>, last: Key) returns (t: Private)
    requires Usable(cx) && IsPublicOf(cx, k, s) && Derives(cx, k, steps, last)
    ensures PrivateDerives(cx, s, steps, t) && IsPublicOf(cx, last, t)
    decreases |steps|
  {
    if steps == [] {
      t := s;
    } else {
      PublicReads(cx, k, s);
      ChildFollows(cx, k, s, steps[0]);
      t := ChainFollows(cx, ChildAt(cx, k, Public(cx, s.secret), steps[0]).value, PrivateChild(cx, s, steps[0]).value, steps[1..], last);
    }
  }
}
