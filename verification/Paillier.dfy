/**
 Paillier encryption as the notaries use it: decryption works modulo p*p and q*q separately
 and joins the halves with the Chinese remainder theorem.  Plaintexts and ciphertexts are
 the numbers whose big-endian bytes the source passes around.
 */
module Paillier {
  import opened NumberTheory

  datatype Outcome<T> = Ok(value: T) | TooLong | Panic

  datatype PublicKey = PublicKey(N: int, G: int, NSquared: int)

  /** `pinvq`, `hp` and `hq` hold what ModInverse returned, which may be nil. */
  datatype PrivateKey = PrivateKey(
    pub: PublicKey,
    p: int, pp: int, pminusone: int,
    q: int, qq: int, qminusone: int,
    pinvq: Inverse, dp: int, dq: int,
    hp: Inverse, hq: Inverse, n: int)

  // ---------- the code ----------

  function CrtDecompose(d: int, p: int, q: int): (int, int)
    requires p > 0 && q > 0
  {
    (d % p, d % q)
  }

  function CrtRecombine(x1: int, x2: int, m1: int, m2: int, m1inv: int): int
    requires m2 > 0
  {
    x1 + ((((x2 - x1) % m2) * m1inv) % m2) * m1
  }

  /** Division is Euclidean in math/big as it is here. */
  function L(u: int, n: int): int
    requires n > 0
  {
    (u - 1) / n
  }

  function H(p: int, pp: int, n: int): Inverse
    requires p > 0 && pp > 0
  {
    ModInverse(L((1 - n) % pp, p), p)
  }

  /** Panics when n has no inverse modulo phi: reducing the nil result dereferences it. */
  function NewPrivateKey(p: int, q: int): Outcome<PrivateKey>
    requires p >= 2 && q >= 2
  {
    assert p * q > 0 && p * p > 0 && q * q > 0 && (p - 1) * (q - 1) > 0;
    var n := p * q;
    match ModInverse(n, (p - 1) * (q - 1))
    case Missing => Panic
    case Found(dn) =>
      var (dp, dq) := CrtDecompose(dn, p - 1, q - 1);
      Ok(PrivateKey(
           PublicKey(n, n + 1, n * n),
           p, p * p, p - 1, q, q * q, q - 1,
           ModInverse(p, q), dp, dq, H(p, p * p, n), H(q, q * q, n), n))
  }

  function EncryptWithNonce(pub: PublicKey, r: nat, m: nat): Outcome<int>
    requires pub.N > 0 && pub.NSquared > 0
  {
    if pub.N <= m then TooLong
    else Ok((((1 + m * pub.N) % pub.NSquared) * Exp(r, pub.N, pub.NSquared)) % pub.NSquared)
  }

  function Crt(mp: int, mq: int, pinvq: int, p: int, q: int, n: int): int
    requires q > 0 && n > 0
  {
    var u := ((mq - mp) * pinvq) % q;
    (mp + u * p) % n
  }

  function Decrypt(key: PrivateKey, c: nat): Outcome<int>
    requires key.p > 1 && key.q > 1 && key.pp > 0 && key.qq > 0 && key.n > 0
    requires key.pminusone >= 0 && key.qminusone >= 0
  {
    if key.pub.NSquared <= c then TooLong
    else if key.hp.Missing? || key.hq.Missing? || key.pinvq.Missing? then Panic
    else
      var mp := (L(Exp(c, key.pminusone, key.pp), key.p) * key.hp.x) % key.p;
      var mq := (L(Exp(c, key.qminusone, key.qq), key.q) * key.hq.x) % key.q;
      Ok(Crt(mp, mq, key.pinvq.x, key.p, key.q, key.n))
  }

  function AddCipher(pub: PublicKey, x: int, y: int): int
    requires pub.NSquared > 0
  {
    (x * y) % pub.NSquared
  }

  function Mul(pub: PublicKey, c: int, x: nat): int
    requires pub.NSquared > 0
  {
    Exp(c, x, pub.NSquared)
  }

  function ExtractNroot(key: PrivateKey, z: int): Outcome<int>
    requires key.p > 0 && key.q > 0 && key.dp >= 0 && key.dq >= 0
  {
    if key.pinvq.Missing? then Panic
    else
      var (zp, zq) := CrtDecompose(z, key.p, key.q);
      Ok(CrtRecombine(Exp(zp, key.dp, key.p), Exp(zq, key.dq, key.q), key.p, key.q, key.pinvq.x))
  }

  // ---------- the key ----------

  /** `key` is what NewPrivateKey returned for two distinct primes. */
  ghost predicate ValidKey(key: PrivateKey) {
    && IsPrime(key.p) && IsPrime(key.q) && key.p != key.q
    && NewPrivateKey(key.p, key.q) == Ok(key)
  }

  /** If `a` is invertible modulo each factor it is invertible modulo the product. */
  lemma InvertibleProduct(a: int, x: int, y: int, m: int, k: int)
    requires m > 0 && k > 0 && Cong(a * x, 1, m) && Cong(a * y, 1, k)
    ensures m * k > 0 && Cong(a * (x + y - a * x * y), 1, m * k)
  {
    var s := CongQuotient(a * x, 1, m);
    var t := CongQuotient(a * y, 1, k);
    assert m * k > 0;
    calc {
      a * (x + y - a * x * y);
      a * x + a * y - (a * x) * (a * y);
      1 - (a * x - 1) * (a * y - 1);
      1 - (s * m) * (t * k);
      { assert (s * m) * (t * k) == (s * t) * (m * k); }
      1 + (-(s * t)) * (m * k);
    }
    CongFromMultiple(a * (x + y - a * x * y), 1, -(s * t), m * k);
  }

  /** A prime that does not divide `m` is invertible modulo `m`. */
  lemma PrimeInvertible(p: int, m: int) returns (x: int)
    requires IsPrime(p) && m > 0 && m % p != 0
    ensures Cong(p * x, 1, m)
  {
    var y := InverseOf(m, p);
    var k := CongQuotient(m * y, 1, p);
    x := -k;
    assert p * x == -(k * p);
    CongFromMultiple(p * x, 1, -y, m);
  }

  lemma FactorInvertible(p: int, q: int) returns (x: int)
    requires IsPrime(p) && IsPrime(q) && (q - 1) % p != 0
    ensures (p - 1) * (q - 1) > 0 && Cong(p * x, 1, (p - 1) * (q - 1))
  {
    CongFromMultiple(p * 1, 1, 1, p - 1);
    var y := PrimeInvertible(p, q - 1);
    InvertibleProduct(p, 1, y, p - 1, q - 1);
    x := 1 + y - p * 1 * y;
  }

  lemma {:induction false} ProductPositive(a: int, b: int)
    requires a > 0 && b > 0
    ensures a * b > 0
    decreases b
  {
    if b == 1 {
      assert a * 1 == a;
    } else {
      ProductPositive(a, b - 1);
      assert a * b == a * (b - 1) + a;
    }
  }

  lemma NoMultipleIsOne(m: int, p: int)
    requires p > 1
    ensures m * p != 1
  {
    if m * p == 1 {
      CongFromMultiple(1, 0, m, p);
      CongZero(1, p);
      SmallMod(1, p);
    }
  }

  lemma DividesPhi(p: int, q: int, d: int)
    requires IsPrime(p) && IsPrime(q) && (q - 1) % p == 0
    ensures (p - 1) * (q - 1) > 0 && !Cong((p * q) * d, 1, (p - 1) * (q - 1))
  {
    ProductPositive(p - 1, q - 1);
    var t := ExactQuotient(q - 1, p);
    hide IsPrime;
    if Cong((p * q) * d, 1, (p - 1) * (q - 1)) {
      hide Cong;
      var k := CongQuotient((p * q) * d, 1, (p - 1) * (q - 1));
      CommonFactor(p, q, t, k, d);
      NoMultipleIsOne(q * d - k * (p - 1) * t, p);
    }
  }

  lemma CommonFactor(p: int, q: int, t: int, k: int, d: int)
    requires q - 1 == t * p && (p * q) * d == 1 + k * ((p - 1) * (q - 1))
    ensures 1 == 0 + (q * d - k * (p - 1) * t) * p
  {
    assert k * ((p - 1) * (q - 1)) == (k * (p - 1) * t) * p by {
      assert (p - 1) * (q - 1) == (p - 1) * t * p;
    }
    assert (p * q) * d == (q * d) * p;
  }

  /** A pair of primes makes a key exactly when neither divides the other's predecessor. */
  lemma KeyExists(p: int, q: int)
    requires IsPrime(p) && IsPrime(q)
    ensures NewPrivateKey(p, q).Ok? <==> (q - 1) % p != 0 && (p - 1) % q != 0
  {
    var phi := (p - 1) * (q - 1);
    assert p * q > 0 && phi > 0;
    if (q - 1) % p != 0 && (p - 1) % q != 0 {
      var x := FactorInvertible(p, q);
      var y := FactorInvertible(q, p);
      assert (q - 1) * (p - 1) == phi;
      CongMul(p * x, 1, q * y, 1, phi);
      assert (p * x) * (q * y) == (p * q) * (x * y);
      ModInverseFound(p * q, x * y, phi);
    } else if NewPrivateKey(p, q).Ok? {
      var d := ModInverse(p * q, phi).x;
      if (q - 1) % p == 0 {
        DividesPhi(p, q, d);
      } else {
        assert q * p == p * q && (q - 1) * (p - 1) == phi;
        DividesPhi(q, p, d);
      }
    }
  }

  /** Every valid key has odd primes and all three inverses. */
  lemma ValidKeyParts(key: PrivateKey)
    requires ValidKey(key)
    ensures key.p > 2 && key.q > 2
    ensures key.n == key.p * key.q == key.pub.N && key.pub.NSquared == key.n * key.n
    ensures key.pinvq.Found? && Cong(key.p * key.pinvq.x, 1, key.q)
  {
    KeyExists(key.p, key.q);
    if key.p == 2 { OddPrime(key.q); }
    if key.q == 2 { OddPrime(key.p); }
    DistinctPrimesCoprime(key.p, key.q);
    var x := InverseOf(key.p, key.q);
    ModInverseFound(key.p, x, key.q);
  }

  lemma OddPrime(q: int)
    requires IsPrime(q) && q != 2
    ensures (q - 1) % 2 == 0
  {
    assert q % 2 != 0;
  }

  // ---------- decryption, one prime at a time ----------

  /** `c` encrypts `m` under modulus `n` with some nonce `r`; sums and multiples of plaintexts keep this form. */
  ghost predicate Encrypts(c: int, m: nat, r: int, n: nat) {
    n > 0 && n * n > 0 && 0 <= c < n * n && Cong(c, (1 + m * n) * Pow(r, n), n * n)
  }

  lemma QuotientOfPower(v: int, a: int, p: int)
    requires p > 0 && p * p > 0 && Cong(v, 1 - a * p, p * p)
    ensures Cong(L(v % (p * p), p), -a, p)
  {
    var pp := p * p;
    var u := v % pp;
    CongMod(v, pp);
    var k := CongQuotient(u, 1 - a * p, pp);
    assert u - 1 == (k * p - a) * p by { assert k * pp == k * p * p; }
    RemainderUnique(u - 1, k * p - a, 0, p);
    CongFromMultiple(L(u, p), -a, k, p);
  }

  lemma HInverse(p: int, q: int, n: int)
    requires IsPrime(p) && n == p * q && q % p != 0
    ensures p * p > 0 && H(p, p * p, n).Found?
    ensures Cong(-q * H(p, p * p, n).x, 1, p)
  {
    hide Cong;
    var v := 1 - n;
    assert p * p > 0 && v == 1 - q * p;
    CongRefl(v, p * p);
    var l := L(v % (p * p), p);
    QuotientOfPower(v, q, p);
    var x := InverseOf(q, p);
    CongRefl(-x, p);
    CongMul(l, -q, -x, -x, p);
    assert -q * -x == q * x;
    CongTrans(l * -x, q * x, 1, p);
    ModInverseFound(l, -x, p);
    var h := ModInverse(l, p).x;
    CongRefl(h, p);
    CongMul(l, -q, h, h, p);
    CongTrans(l * h, -q * h, -q * h, p);
    CongTrans(-q * h, l * h, 1, p);
  }

  /** Raising the nonce part to `p-1` gives 1 modulo `p*p`. */
  lemma NoncePart(r: int, p: int, q: nat, n: nat)
    requires IsPrime(p) && n == p * q && r % p != 0
    ensures p * p > 0 && Cong(Pow(Pow(r, n), p - 1), 1, p * p)
  {
    hide Cong;
    FermatSquare(r, p);
    PowMul(r, n, p - 1);
    PowMul(r, (p - 1) * p, q);
    assert n * (p - 1) == ((p - 1) * p) * q;
    CongPow(Pow(r, (p - 1) * p), 1, q, p * p);
    PowOne(q);
  }

  /** Raising the message part to `p-1` turns the message into a multiple of `p` to be divided out. */
  lemma MessagePart(m: nat, p: int, q: int, n: nat)
    requires p > 1 && n == p * q
    ensures p * p > 0 && Cong(Pow(1 + m * n, p - 1), 1 - (m * q) * p, p * p)
  {
    hide Cong;
    var a := m * q;
    MessageShape(m, p, q, n);
    PowOnePlus(a, p, p - 1);
    CongFromMultiple(1 + (p - 1) * a * p, 1 - a * p, a, p * p);
    CongTrans(Pow(1 + a * p, p - 1), 1 + (p - 1) * a * p, 1 - a * p, p * p);
  }

  lemma MessageShape(m: int, p: int, q: int, n: int)
    requires n == p * q
    ensures m * n == (m * q) * p
    ensures 1 + (p - 1) * (m * q) * p == 1 - (m * q) * p + (m * q) * (p * p)
  {
    assert (p - 1) * (m * q) * p == (m * q) * ((p - 1) * p);
  }

  /** Raising a ciphertext to `p-1` modulo `p*p` removes the nonce. */
  lemma NonceCancels(c: int, m: nat, r: int, p: int, q: int, n: nat)
    requires IsPrime(p) && q > 0 && n == p * q && r % p != 0
    requires p * p > 0 && Cong(c, (1 + m * n) * Pow(r, n), p * p)
    ensures Cong(Pow(c, p - 1), 1 - (m * q) * p, p * p)
  {
    hide Cong;
    var x, y := 1 + m * n, Pow(r, n);
    CongPow(c, x * y, p - 1, p * p);
    PowBase(x, y, p - 1);
    NoncePart(r, p, q, n);
    MessagePart(m, p, q, n);
    CongMul(Pow(x, p - 1), 1 - (m * q) * p, Pow(y, p - 1), 1, p * p);
    CongTrans(Pow(c, p - 1), Pow(x, p - 1) * Pow(y, p - 1), 1 - (m * q) * p, p * p);
  }

  /** A nonce divisible by `p` makes the ciphertext 0 modulo `p*p`. */
  lemma NonceVanishes(c: int, m: nat, r: int, p: int, n: nat)
    requires IsPrime(p) && n >= 2 && r % p == 0
    requires p * p > 0 && Cong(c, (1 + m * n) * Pow(r, n), p * p)
    ensures Pow(c, p - 1) % (p * p) == 0
  {
    var pp := p * p;
    var t := r / p;
    assert r == p * t;
    assert Pow(r, n) == r * (r * Pow(r, n - 2));
    var x := (1 + m * n) * (t * t * Pow(r, n - 2));
    assert (1 + m * n) * Pow(r, n) == x * pp;
    CongFromMultiple((1 + m * n) * Pow(r, n), 0, x, pp);
    CongMul(c, 0, Pow(c, p - 2), Pow(c, p - 2), pp);
    CongZero(Pow(c, p - 1), pp);
  }

  function HalfPlain(c: int, p: int, h: int): int
    requires p > 1
  {
    assert p * p > 0;
    (L(Exp(c, p - 1, p * p), p) * h) % p
  }

  /** One half of decryption is right exactly when the nonce is prime to `p` or the plaintext inverts `q`. */
  lemma HalfExact(c: int, m: nat, r: int, p: int, q: int, n: nat)
    requires IsPrime(p) && q > 1 && q % p != 0 && n == p * q
    requires p * p > 0 && Cong(c, (1 + m * n) * Pow(r, n), p * p)
    ensures H(p, p * p, n).Found?
    ensures HalfPlain(c, p, H(p, p * p, n).x) == m % p <==> r % p != 0 || (m * q) % p == 1
  {
    HInverse(p, q, n);
    var h := H(p, p * p, n).x;
    var v := Pow(c, p - 1);
    if r % p != 0 {
      NonceCancels(c, m, r, p, q, n);
      KeptHalf(v, m, q, h, p);
    } else {
      ProductAboveOne(p, q);
      NonceVanishes(c, m, r, p, n);
      LZero(p);
      VanishedHalf(m, q, h, p);
    }
  }

  lemma LZero(p: int)
    requires p > 1
    ensures L(0, p) == -1
  {
    RemainderUnique(-1, -1, p - 1, p);
  }

  lemma ProductAboveOne(p: int, q: int)
    requires p > 1 && q > 1
    ensures p * q >= 4 && p * p > 0 && q * q > 0
    ensures (p * q) * (p * q) == (q * q) * (p * p) == (p * p) * (q * q)
  {
    MulNonnegative(p - 2, q - 2);
    assert p * q == (p - 2) * (q - 2) + 2 * p + 2 * q - 4;
    FourFactors(p, q, p, q);
    assert (p * p) * (q * q) == (q * q) * (p * p);
  }

  lemma KeptHalf(v: int, m: nat, q: int, h: int, p: int)
    requires p > 0 && p * p > 0 && Cong(v, 1 - (m * q) * p, p * p) && Cong(-q * h, 1, p)
    ensures Cong(L(v % (p * p), p) * h, m, p)
  {
    hide Cong, L;
    var l := L(v % (p * p), p);
    QuotientOfPower(v, m * q, p);
    CongRefl(h, p);
    CongRefl(m, p);
    CongMul(l, -(m * q), h, h, p);
    CongMul(m, m, -q * h, 1, p);
    assert -(m * q) * h == m * (-q * h);
    CongTrans(l * h, m * (-q * h), m * 1, p);
  }

  lemma VanishedHalf(m: nat, q: int, h: int, p: int)
    requires IsPrime(p) && q % p != 0 && Cong(-q * h, 1, p)
    ensures Cong(-h, m, p) <==> (m * q) % p == 1
  {
    SmallMod(1, p);
    assert (-h) * q == -q * h;
    if Cong(-h, m, p) {
      CongMul(-h, m, q, q, p);
    }
    if (m * q) % p == 1 {
      assert q * m == m * q && q * (-h) == -q * h;
      CancelMod(q, m, -h, p);
    }
  }

  // ---------- decryption ----------

  /** Garner's formula `x1 + u*p` has the two residues it is built from. */
  lemma Garner(x1: int, x2: int, u: int, p: int, q: int, pinv: int)
    requires p > 0 && q > 0 && Cong(p * pinv, 1, q) && Cong(u, (x2 - x1) * pinv, q)
    ensures Cong(x1 + u * p, x1, p) && Cong(x1 + u * p, x2, q)
  {
    hide Cong;
    CongFromMultiple(x1 + u * p, x1, u, p);
    CongRefl(p, q);
    CongRefl(x1, q);
    CongRefl(x2 - x1, q);
    CongMul(u, (x2 - x1) * pinv, p, p, q);
    CongMul(x2 - x1, x2 - x1, p * pinv, 1, q);
    assert ((x2 - x1) * pinv) * p == (x2 - x1) * (p * pinv);
    CongTrans(u * p, (x2 - x1) * (p * pinv), (x2 - x1) * 1, q);
    CongAdd(x1, x1, u * p, x2 - x1, q);
  }

  lemma CrtExact(mp: int, mq: int, m: int, key: PrivateKey)
    requires ValidKey(key) && key.pinvq.Found?
    requires 0 <= mp < key.p && 0 <= mq < key.q && 0 <= m
    ensures key.n > 0
    ensures Crt(mp, mq, key.pinvq.x, key.p, key.q, key.n) == m % key.n <==> mp == m % key.p && mq == m % key.q
  {
    ValidKeyParts(key);
    var p, q, n := key.p, key.q, key.n;
    assert n == q * p == p * q && n > 0;
    var v := (mq - mp) * key.pinvq.x;
    CongMod(v, q);
    Garner(mp, mq, v % q, p, q, key.pinvq.x);
    ResiduesDecide(mp + (v % q) * p, mp, mq, m, p, q);
  }

  lemma ResiduesDecide(x: int, x1: int, x2: int, m: int, p: int, q: int)
    requires IsPrime(p) && IsPrime(q) && p != q && 0 <= x1 < p && 0 <= x2 < q
    requires Cong(x, x1, p) && Cong(x, x2, q)
    ensures p * q > 0
    ensures Cong(x, m, p * q) <==> x1 == m % p && x2 == m % q
  {
    SmallMod(x1, p);
    SmallMod(x2, q);
    assert p * q == q * p > 0;
    if x1 == m % p && x2 == m % q {
      CongCombine(x, m, p, q);
    }
    if Cong(x, m, p * q) {
      CongDown(x, m, q, p);
      CongDown(x, m, p, q);
    }
  }

  /** When decryption of `c` gives back `m` reduced modulo `n`, for every nonce. */
  ghost predicate Recoverable(m: int, r: int, p: int, q: int)
    requires p > 0 && q > 0
  {
    && (r % p != 0 || (m * q) % p == 1)
    && (r % q != 0 || (m * p) % q == 1)
  }

  lemma {:induction false} DecryptExact(key: PrivateKey, c: int, m: nat, r: int)
    requires ValidKey(key) && Encrypts(c, m, r, key.pub.N)
    ensures Decrypt(key, c).Ok?
    ensures Decrypt(key, c) == Ok(m % key.n) <==> Recoverable(m, r, key.p, key.q)
  {
    ValidKeyParts(key);
    DistinctPrimesCoprime(key.p, key.q);
    var p, q, n := key.p, key.q, key.n;
    HalvesOfCiphertext(c, m, r, p, q, n);
    HalfExact(c, m, r, p, q, n);
    HalfExact(c, m, r, q, p, n);
    CrtExact(HalfPlain(c, p, key.hp.x), HalfPlain(c, q, key.hq.x), m, key);
  }

  lemma HalvesOfCiphertext(c: int, m: nat, r: int, p: int, q: int, n: nat)
    requires p > 1 && q > 1 && n == p * q && Encrypts(c, m, r, n)
    ensures n == q * p && p * p > 0 && q * q > 0
    ensures Cong(c, (1 + m * n) * Pow(r, n), p * p)
    ensures Cong(c, (1 + m * n) * Pow(r, n), q * q)
  {
    hide Cong;
    var e := (1 + m * n) * Pow(r, n);
    ProductAboveOne(p, q);
    CongDown(c, e, q * q, p * p);
    CongDown(c, e, p * p, q * q);
  }

  // ---------- encryption ----------

  lemma EncryptionEncrypts(pub: PublicKey, r: nat, m: nat)
    requires pub.N > 1 && pub.NSquared == pub.N * pub.N
    ensures EncryptWithNonce(pub, r, m).Ok? <==> m < pub.N
    ensures m < pub.N ==> Encrypts(EncryptWithNonce(pub, r, m).value, m, r, pub.N)
  {
    var nn := pub.NSquared;
    var a, b := 1 + m * pub.N, Pow(r, pub.N);
    CongMod(a, nn);
    CongMod(b, nn);
    CongMul(a % nn, a, b % nn, b, nn);
    CongMod((a % nn) * (b % nn), nn);
  }

  /**
   Decrypting what was encrypted gives back the message, for every message the code accepts,
   exactly when each prime either does not divide the nonce or meets one exceptional residue.
   */
  lemma RoundTripExact(key: PrivateKey, r: nat, m: nat)
    requires ValidKey(key)
    ensures key.pub.N > 0 && key.pub.NSquared > 0
    ensures EncryptWithNonce(key.pub, r, m) == TooLong <==> m >= key.pub.N
    ensures m < key.pub.N ==>
              var c := EncryptWithNonce(key.pub, r, m);
              c.Ok? && c.value >= 0 && (Decrypt(key, c.value) == Ok(m) <==> Recoverable(m, r, key.p, key.q))
  {
    ValidKeyParts(key);
    assert key.n > 1;
    EncryptionEncrypts(key.pub, r, m);
    if m < key.pub.N {
      SmallMod(m, key.n);
      DecryptExact(key, EncryptWithNonce(key.pub, r, m).value, m, r);
    }
  }

  /** The usual reading: a nonce prime to the modulus is always undone. */
  lemma RoundTrip(key: PrivateKey, r: nat, m: nat)
    requires ValidKey(key) && m < key.pub.N && r % key.p != 0 && r % key.q != 0
    ensures key.pub.N > 0 && key.pub.NSquared > 0
    ensures var c := EncryptWithNonce(key.pub, r, m); c.Ok? && c.value >= 0 && Decrypt(key, c.value) == Ok(m)
  {
    RoundTripExact(key, r, m);
  }

  // ---------- the homomorphism ----------

  lemma AddEncrypts(pub: PublicKey, c: int, m: nat, r: int, d: int, k: nat, s: int)
    requires pub.NSquared == pub.N * pub.N && pub.N > 0
    requires Encrypts(c, m, r, pub.N) && Encrypts(d, k, s, pub.N)
    ensures Encrypts(AddCipher(pub, c, d), m + k, r * s, pub.N)
  {
    hide Cong;
    var n, nn := pub.N, pub.NSquared;
    var a, b := Pow(r, n), Pow(s, n);
    var x, y := (1 + m * n) * a, (1 + k * n) * b;
    CongMul(c, x, d, y, nn);
    CongMod(c * d, nn);
    PowBase(r, s, n);
    ProductOfCiphertexts(m, k, n, a, b);
    CongFromMultiple(x * y, (1 + (m + k) * n) * (a * b), m * k * (a * b), nn);
    CongTrans((c * d) % nn, c * d, x * y, nn);
    CongTrans((c * d) % nn, x * y, (1 + (m + k) * n) * (a * b), nn);
  }

  lemma ProductOfCiphertexts(m: int, k: int, n: int, a: int, b: int)
    ensures ((1 + m * n) * a) * ((1 + k * n) * b) == (1 + (m + k) * n) * (a * b) + (m * k * (a * b)) * (n * n)
  {
    assert (1 + m * n) * (1 + k * n) == 1 + (m + k) * n + (m * k) * (n * n);
    assert ((1 + m * n) * a) * ((1 + k * n) * b) == ((1 + m * n) * (1 + k * n)) * (a * b);
  }

  lemma MulEncrypts(pub: PublicKey, c: int, m: nat, r: int, x: nat)
    requires pub.NSquared == pub.N * pub.N && pub.N > 0
    requires Encrypts(c, m, r, pub.N)
    ensures x * m >= 0 && Encrypts(Mul(pub, c, x), x * m, Pow(r, x), pub.N)
  {
    var n, nn := pub.N, pub.NSquared;
    assert x * m >= 0;
    CongPow(c, (1 + m * n) * Pow(r, n), x, nn);
    PowBase(1 + m * n, Pow(r, n), x);
    PowOnePlus(m, n, x);
    PowMul(r, n, x);
    PowMul(r, x, n);
    assert n * x == x * n;
    var rr := Pow(Pow(r, x), n);
    CongMul(Pow(1 + m * n, x), 1 + x * m * n, rr, rr, nn);
    CongMod(Pow(c, x), nn);
  }

  // ---------- n-th roots ----------

  lemma CorrectionBound(u: int, p: int, q: int)
    requires p > 0 && 0 <= u < q
    ensures 0 <= u * p <= p * q - p
  {
    MulNonnegative(u, p);
    MulNonnegative(q - 1 - u, p);
    assert (q - 1 - u) * p == p * q - p - u * p;
  }

  lemma Commute(a: int, b: int)
    ensures a * b == b * a
  {
  }

  lemma MulNonnegative(a: int, b: int)
    requires a >= 0 && b >= 0
    ensures a * b >= 0
  {
  }

  lemma RecombineExact(x1: int, x2: int, p: int, q: int, pinv: int)
    requires p > 0 && q > 0 && 0 <= x1 < p && 0 <= x2 < q && Cong(p * pinv, 1, q)
    ensures var x := CrtRecombine(x1, x2, p, q, pinv); 0 <= x < p * q && x % p == x1 && x % q == x2
  {
    var d := (x2 - x1) % q;
    var u := (d * pinv) % q;
    CorrectionBound(u, p, q);
    CongMod(x2 - x1, q);
    CongMul(d, x2 - x1, pinv, pinv, q);
    CongMod(d * pinv, q);
    Garner(x1, x2, u, p, q, pinv);
    SmallMod(x1, p);
    SmallMod(x2, q);
  }

  /** `CrtRecombine` undoes `CrtDecompose` for every number below the modulus. */
  lemma RecombineDecompose(x: int, key: PrivateKey)
    requires ValidKey(key) && 0 <= x < key.n
    ensures key.pinvq.Found?
    ensures CrtRecombine(CrtDecompose(x, key.p, key.q).0, CrtDecompose(x, key.p, key.q).1, key.p, key.q, key.pinvq.x) == x
  {
    ValidKeyParts(key);
    var p, q := key.p, key.q;
    var y := CrtRecombine(x % p, x % q, p, q, key.pinvq.x);
    RecombineExact(x % p, x % q, p, q, key.pinvq.x);
    CongCombine(y, x, p, q);
    SmallMod(x, key.n);
    SmallMod(y, key.n);
  }

  /** The exponent kept for each prime undoes raising to `n` modulo that prime. */
  lemma RootExponent(z: int, d: int, dp: int, n: nat, p: int, w: int)
    requires IsPrime(p) && p > 2 && w > 0 && (p - 1) * w > 0 && dp == d % (p - 1)
    requires Cong(n * d, 1, (p - 1) * w)
    ensures Cong(Pow(Pow(z, dp), n), z, p)
  {
    hide Cong;
    Commute(w, p - 1);
    CongDown(n * d, 1, w, p - 1);
    CongMod(d, p - 1);
    CongRefl(n, p - 1);
    CongMul(n, n, dp, d, p - 1);
    CongTrans(n * dp, n * d, 1, p - 1);
    MulNonnegative(n, dp);
    var k := CongQuotient(n * dp, 1, p - 1);
    NonnegativeQuotient(n * dp, k, p - 1);
    PowMul(z, dp, n);
    Commute(dp, n);
    FermatCycle(z, k, p);
  }

  lemma NonnegativeQuotient(x: int, k: int, m: int)
    requires x >= 0 && m > 1 && x == 1 + k * m
    ensures k >= 0
  {
  }

  lemma RootModulo(z: int, d: int, dp: int, n: nat, p: int, w: int)
    requires IsPrime(p) && p > 2 && w > 0 && (p - 1) * w > 0 && dp == d % (p - 1)
    requires Cong(n * d, 1, (p - 1) * w)
    ensures Cong(Pow(Exp(z % p, dp, p), n), z, p)
  {
    CongMod(z, p);
    CongPow(z % p, z, dp, p);
    CongMod(Pow(z % p, dp), p);
    CongPow(Exp(z % p, dp, p), Pow(z, dp), n, p);
    RootExponent(z, d, dp, n, p, w);
  }

  lemma RootExponents(key: PrivateKey) returns (dn: int)
    requires ValidKey(key)
    ensures (key.p - 1) * (key.q - 1) == (key.q - 1) * (key.p - 1) > 0
    ensures Cong(key.n * dn, 1, (key.p - 1) * (key.q - 1))
    ensures key.dp == dn % (key.p - 1) && key.dq == dn % (key.q - 1)
  {
    dn := ModInverse(key.n, (key.p - 1) * (key.q - 1)).x;
  }

  /** The extracted root, raised to `n`, is the number it was extracted from. */
  lemma NrootCorrect(key: PrivateKey, z: int)
    requires ValidKey(key) && 0 <= z < key.n
    ensures key.dp >= 0 && key.dq >= 0 && ExtractNroot(key, z).Ok?
    ensures 0 <= ExtractNroot(key, z).value < key.n
    ensures Exp(ExtractNroot(key, z).value, key.n, key.n) == z
  {
    ValidKeyParts(key);
    var p, q, n := key.p, key.q, key.n;
    var dn := RootExponents(key);
    RootModulo(z, dn, key.dp, n, p, q - 1);
    RootModulo(z, dn, key.dq, n, q, p - 1);
    RootRecombined(z, Exp(z % p, key.dp, p), Exp(z % q, key.dq, q), key);
  }

  lemma RootRecombined(z: int, rp: int, rq: int, key: PrivateKey)
    requires ValidKey(key) && 0 <= z < key.n && key.pinvq.Found?
    requires 0 <= rp < key.p && 0 <= rq < key.q && key.n >= 0
    requires Cong(Pow(rp, key.n), z, key.p) && Cong(Pow(rq, key.n), z, key.q)
    ensures var r := CrtRecombine(rp, rq, key.p, key.q, key.pinvq.x);
            0 <= r < key.n && Exp(r, key.n, key.n) == z
  {
    ValidKeyParts(key);
    var p, q, n := key.p, key.q, key.n;
    var r := CrtRecombine(rp, rq, p, q, key.pinvq.x);
    RecombineExact(rp, rq, p, q, key.pinvq.x);
    hide CrtRecombine;
    SmallMod(rp, p);
    SmallMod(rq, q);
    CongPow(r, rp, n, p);
    CongPow(r, rq, n, q);
    CongCombine(Pow(r, n), z, p, q);
    SmallMod(z, n);
  }

  /** Modulo one prime, the kept exponent takes an n-th power back. */
  lemma RootHalf(x: int, z: int, d: int, dp: int, n: nat, p: int, w: int)
    requires IsPrime(p) && p > 2 && w > 0 && (p - 1) * w > 0 && dp == d % (p - 1)
    requires Cong(n * d, 1, (p - 1) * w) && Cong(z, Pow(x, n), p)
    ensures Exp(z % p, dp, p) == x % p
  {
    hide Pow;
    RootExponent(x, d, dp, n, p, w);
    PowMul(x, n, dp);
    PowMul(x, dp, n);
    Commute(n, dp);
    CongMod(z, p);
    CongTrans(z % p, z, Pow(x, n), p);
    CongPow(z % p, Pow(x, n), dp, p);
    CongTrans(Pow(z % p, dp), Pow(Pow(x, n), dp), x, p);
  }

  lemma PowerModulo(x: int, n: nat, p: int, q: int)
    requires p > 0 && q > 0 && n == p * q > 0
    ensures Cong(Exp(x, n, n), Pow(x, n), p)
  {
    CongMod(Pow(x, n), n);
    Commute(p, q);
    CongDown(Exp(x, n, n), Pow(x, n), q, p);
  }

  /** And the root extracted from an n-th power is the number that was raised: n-th roots are unique. */
  lemma NrootUnique(key: PrivateKey, x: int)
    requires ValidKey(key) && 0 <= x < key.n
    ensures key.dp >= 0 && key.dq >= 0 && ExtractNroot(key, Exp(x, key.n, key.n)) == Ok(x)
  {
    ValidKeyParts(key);
    var p, q, n := key.p, key.q, key.n;
    var dn := RootExponents(key);
    var z := Exp(x, n, n);
    PowerModulo(x, n, p, q);
    PowerModulo(x, n, q, p);
    RootHalf(x, z, dn, key.dp, n, p, q - 1);
    RootHalf(x, z, dn, key.dq, n, q, p - 1);
    RecombineDecompose(x, key);
  }
}
