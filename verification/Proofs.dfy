/**
 The three proofs of knowledge the notaries exchange.  What is shown here, for every hash function
 and all randomness: the verifier accepts what the prover's steps produce exactly when the
 statement is true, but for a zero challenge.
 */
module Proofs {
  import opened NumberTheory
  import opened Scalars
  import opened Paillier

  // ---------- knowledge of a discrete logarithm ----------

  datatype DLogProof = DLogProof(PK: Point, commitment: Point, response: int)

  function DLogChallenge(commitment: Point, pk: Point, curve: Curve): int
    requires curve.N > 0
  {
    curve.hash([curve.X(commitment), curve.X(G), curve.X(pk)]) % curve.N
  }

  function DLogProofOf(sk: int, rand: int, curve: Curve): DLogProof
    requires curve.N > 0
  {
    var N := curve.N;
    var pk, com := ScalarBaseMult(sk, N), ScalarBaseMult(rand, N);
    DLogProof(pk, com, (rand - (DLogChallenge(com, pk, curve) * sk) % N) % N)
  }

  /** `rand` stands for the freshly drawn scalar, which the source overwrites with the response. */
  method Prove(sk: PrivKey, rand: int, curve: Curve) returns (proof: DLogProof)
    requires curve.N > 0
    ensures proof == DLogProofOf(sk.D, rand, curve)
  {
    var skTRandCommitment := new PrivKey(rand);
    var randCommitment := ScalarBaseMult(skTRandCommitment.D, curve.N);
    var pk := ScalarBaseMult(sk.D, curve.N);
    var challenge := curve.hash([curve.X(randCommitment), curve.X(G), curve.X(pk)]);
    var challengeSK := BigInt2PrivateKey(challenge, curve.N);
    var _ := ModMul(challengeSK, sk, curve.N);
    var challengeResponse := ModSub(skTRandCommitment, challengeSK, curve.N);
    proof := DLogProof(pk, randCommitment, challengeResponse.D);
  }

  predicate Verify(proof: DLogProof, curve: Curve)
    requires curve.N > 0
  {
    var challengeSK := DLogChallenge(proof.commitment, proof.PK, curve);
    var pkChallenge := ScalarMult(proof.PK, challengeSK, curve.N);
    PointAdd(ScalarBaseMult(proof.response, curve.N), pkChallenge, curve.N) == proof.commitment
  }

  /** The prover's steps for the secret `sk`, shown as a proof for the point `pk`. */
  function DLogAnswer(pk: Point, sk: int, rand: int, curve: Curve): DLogProof
    requires curve.N > 0
  {
    var com := ScalarBaseMult(rand, curve.N);
    DLogProof(pk, com, (rand - (DLogChallenge(com, pk, curve) * sk) % curve.N) % curve.N)
  }

  /** Such a proof is accepted for the secret's own point, and for a prime order for no other, but for a zero challenge. */
  lemma DLogExact(pk: Point, sk: int, rand: int, curve: Curve)
    requires curve.N > 0
    ensures Cong(pk, sk, curve.N) ==> Verify(DLogAnswer(pk, sk, rand, curve), curve)
    ensures var proof := DLogAnswer(pk, sk, rand, curve);
            IsPrime(curve.N) ==> (Verify(proof, curve) <==> Cong(pk, sk, curve.N) || DLogChallenge(proof.commitment, pk, curve) == 0)
  {
    var N, proof := curve.N, DLogAnswer(pk, sk, rand, curve);
    var e := DLogChallenge(proof.commitment, pk, curve);
    DLogEquation(proof, curve);
    CongMod(e * sk, N);
    CongAdd(rand, rand, (e * sk) % N, e * sk, N);
    CongMod(rand - (e * sk) % N, N);
    CongTrans(proof.response, rand - (e * sk) % N, rand - e * sk, N);
    CongMod(rand, N);
    hide Cong, DLogChallenge, Verify;
    AnswerMatches(proof.response, rand, proof.commitment, pk, sk, e, N);
    ProductsAgree(pk, sk, e, N);
  }

  lemma DLogComplete(sk: int, rand: int, curve: Curve)
    requires curve.N > 0
    ensures Verify(DLogProofOf(sk, rand, curve), curve)
    ensures DLogProofOf(sk, rand, curve).PK == ScalarBaseMult(sk, curve.N)
  {
    CongMod(sk, curve.N);
    DLogExact(ScalarBaseMult(sk, curve.N), sk, rand, curve);
    assert DLogProofOf(sk, rand, curve) == DLogAnswer(ScalarBaseMult(sk, curve.N), sk, rand, curve);
  }

  /** The test is one equation between exponents. */
  lemma DLogEquation(proof: DLogProof, curve: Curve)
    requires curve.N > 0
    ensures var e := DLogChallenge(proof.commitment, proof.PK, curve);
            Verify(proof, curve) <==> 0 <= proof.commitment < curve.N && Cong(proof.response + proof.PK * e, proof.commitment, curve.N)
  {
    var N, e := curve.N, DLogChallenge(proof.commitment, proof.PK, curve);
    SumOfResidues(proof.response, proof.PK * e, N);
    if 0 <= proof.commitment < N { SmallMod(proof.commitment, N); }
  }

  lemma AnswerMatches(z: int, rand: int, com: int, pk: int, sk: int, e: int, N: int)
    requires N > 0 && Cong(z, rand - e * sk, N) && Cong(rand, com, N)
    ensures Cong(z + pk * e, com, N) <==> Cong(pk * e, sk * e, N)
  {
    CongAdd(z, rand - e * sk, pk * e, pk * e, N);
    assert e * sk == sk * e;
    var d := pk * e - sk * e;
    assert rand - e * sk + pk * e == rand + d;
    if Cong(z + pk * e, com, N) {
      CongAdd(rand + d, com, rand, com, N);
      CongAdd(d, 0, sk * e, sk * e, N);
    }
    if Cong(pk * e, sk * e, N) {
      CongAdd(pk * e, sk * e, sk * e, sk * e, N);
      CongAdd(rand, com, d, 0, N);
    }
  }

  /** Modulo a prime a factor can be cancelled unless it is zero. */
  lemma ProductsAgree(a: int, b: int, e: int, N: int)
    requires 0 <= e < N
    ensures Cong(a, b, N) ==> Cong(a * e, b * e, N)
    ensures IsPrime(N) ==> (Cong(a * e, b * e, N) <==> Cong(a, b, N) || e == 0)
  {
    CongRefl(e, N);
    if Cong(a, b, N) { CongMul(a, b, e, e, N); }
    if Cong(a * e, b * e, N) && e != 0 && IsPrime(N) {
      SmallMod(e, N);
      assert e * a == a * e && e * b == b * e;
      CancelMod(e, a, b, N);
    }
  }

  // ---------- homomorphic ElGamal ----------

  datatype Statement = Statement(G: Point, H: Point, Y: Point, D: Point, E: Point)

  datatype ElGamalProof = ElGamalProof(T: Point, A3: Point, Z1: int, Z2: int)

  /** The relation being proved: D = x*H + r*Y and E = r*G. */
  ghost predicate Relation(st: Statement, r: int, x: int, N: int)
    requires N > 0
  {
    Cong(st.D, x * st.H + r * st.Y, N) && Cong(st.E, r * st.G, N)
  }

  function ElGamalChallenge(t: Point, a3: Point, st: Statement, curve: Curve): int
    requires curve.N > 0
  {
    curve.hash([t, a3, st.G, st.H, st.Y, st.D, st.E]) % curve.N
  }

  /** The proof the prover's steps make from `r` and `x`, whatever the statement says. */
  ghost predicate MadeFrom(proof: ElGamalProof, st: Statement, r: int, x: int, s1: int, s2: int, curve: Curve)
    requires curve.N > 0
  {
    var e := ElGamalChallenge(proof.T, proof.A3, st, curve);
    && proof.T == PointAdd(ScalarMult(st.H, s1, curve.N), ScalarMult(st.Y, s2, curve.N), curve.N)
    && proof.A3 == ScalarMult(st.G, s2, curve.N)
    && Cong(proof.Z1, s1 + e * x, curve.N) && Cong(proof.Z2, s2 + e * r, curve.N)
  }

  /** `s1` and `s2` are the two scalars drawn by the prover; a zero `x` skips the first update. */
  method CreateHomoELGamalProof(r: PrivKey, x: PrivKey, st: Statement, s1: int, s2: int, curve: Curve)
    returns (proof: ElGamalProof)
    requires curve.N > 0
    ensures MadeFrom(proof, st, r.D, x.D, s1, s2, curve)
    ensures Relation(st, r.D, x.D, curve.N) ==> VerifyElGamal(proof, st, curve)
    ensures IsPrime(curve.N) ==>
              (VerifyElGamal(proof, st, curve) <==> Relation(st, r.D, x.D, curve.N) || ElGamalChallenge(proof.T, proof.A3, st, curve) == 0)
  {
    var N := curve.N;
    var A1 := ScalarMult(st.H, s1, N);
    var A2 := ScalarMult(st.Y, s2, N);
    var A3 := ScalarMult(st.G, s2, N);
    var t := PointAdd(A1, A2, N);
    var e := new PrivKey(ElGamalChallenge(t, A3, st, curve));
    var z1 := new PrivKey(s1);
    if x.D != 0 {
      var u := e.Clone();
      u := ModMul(u, x, N);
      z1 := ModAdd(z1, u, N);
    }
    var u := e.Clone();
    u := ModMul(u, r, N);
    var z2 := new PrivKey(s2);
    var _ := ModAdd(z2, u, N);
    proof := ElGamalProof(t, A3, z1.D, z2.D);
    CongMod(e.D * x.D, N);
    CongAdd(s1, s1, (e.D * x.D) % N, e.D * x.D, N);
    CongMod(s1 + (e.D * x.D) % N, N);
    CongMod(e.D * r.D, N);
    CongAdd(s2, s2, (e.D * r.D) % N, e.D * r.D, N);
    CongMod(s2 + (e.D * r.D) % N, N);
    ElGamalExact(proof, st, r.D, x.D, s1, s2, curve);
  }

  predicate VerifyElGamal(proof: ElGamalProof, st: Statement, curve: Curve)
    requires curve.N > 0
  {
    var N := curve.N;
    var e := ElGamalChallenge(proof.T, proof.A3, st, curve);
    var z12 := PointAdd(ScalarMult(st.H, proof.Z1, N), ScalarMult(st.Y, proof.Z2, N), N);
    var teD := PointAdd(ScalarMult(st.D, e, N), proof.T, N);
    var z2g := ScalarMult(st.G, proof.Z2, N);
    var a3eE := PointAdd(ScalarMult(st.E, e, N), proof.A3, N);
    z12 == teD && z2g == a3eE
  }

  /** The two tests are two equations between exponents. */
  lemma ElGamalEquations(proof: ElGamalProof, st: Statement, curve: Curve)
    requires curve.N > 0
    ensures var e := ElGamalChallenge(proof.T, proof.A3, st, curve);
            VerifyElGamal(proof, st, curve) <==>
            Cong(st.H * proof.Z1 + st.Y * proof.Z2, st.D * e + proof.T, curve.N) && Cong(st.G * proof.Z2, st.E * e + proof.A3, curve.N)
  {
    var N, e := curve.N, ElGamalChallenge(proof.T, proof.A3, st, curve);
    SumOfResidues(st.H * proof.Z1, st.Y * proof.Z2, N);
    AddLeft(st.D * e, proof.T, N);
    AddLeft(st.E * e, proof.A3, N);
  }

  /** Accepted when the statement holds of the witness, and for a prime order only then, but for a zero challenge. */
  lemma ElGamalExact(proof: ElGamalProof, st: Statement, r: int, x: int, s1: int, s2: int, curve: Curve)
    requires curve.N > 0 && MadeFrom(proof, st, r, x, s1, s2, curve)
    ensures Relation(st, r, x, curve.N) ==> VerifyElGamal(proof, st, curve)
    ensures IsPrime(curve.N) ==>
              (VerifyElGamal(proof, st, curve) <==> Relation(st, r, x, curve.N) || ElGamalChallenge(proof.T, proof.A3, st, curve) == 0)
  {
    var N, e := curve.N, ElGamalChallenge(proof.T, proof.A3, st, curve);
    ElGamalEquations(proof, st, curve);
    SumOfResidues(st.H * s1, st.Y * s2, N);
    CongMod(st.H * s1 + st.Y * s2, N);
    CongMod(st.G * s2, N);
    hide Cong, VerifyElGamal, ElGamalChallenge;
    FirstMatches(st, proof.Z1, proof.Z2, proof.T, r, x, s1, s2, e, N);
    SecondMatches(st.G, st.E, proof.Z2, proof.A3, r, s2, e, N);
    ProductsAgree(st.D, x * st.H + r * st.Y, e, N);
    ProductsAgree(st.E, r * st.G, e, N);
  }

  lemma Cancelled(l: int, l': int, a: int, b: int, t: int, t': int, N: int)
    requires N > 0 && Cong(l, l', N) && l' == b + t' && Cong(t, t', N)
    ensures Cong(l, a + t, N) <==> Cong(a, b, N)
  {
    if Cong(l, a + t, N) {
      CongAdd(a + t, b + t', t, t', N);
    }
    if Cong(a, b, N) {
      CongAdd(a, b, t, t', N);
    }
  }

  lemma FirstMatches(st: Statement, z1: int, z2: int, t: int, r: int, x: int, s1: int, s2: int, e: int, N: int)
    requires N > 0 && Cong(z1, s1 + e * x, N) && Cong(z2, s2 + e * r, N) && Cong(t, st.H * s1 + st.Y * s2, N)
    ensures Cong(st.H * z1 + st.Y * z2, st.D * e + t, N) <==> Cong(st.D * e, (x * st.H + r * st.Y) * e, N)
  {
    hide Cong;
    CongRefl(st.H, N);
    CongRefl(st.Y, N);
    CongMul(st.H, st.H, z1, s1 + e * x, N);
    CongMul(st.Y, st.Y, z2, s2 + e * r, N);
    CongAdd(st.H * z1, st.H * (s1 + e * x), st.Y * z2, st.Y * (s2 + e * r), N);
    Regroup(st.H, st.Y, s1, s2, e, x, r);
    Cancelled(st.H * z1 + st.Y * z2, st.H * (s1 + e * x) + st.Y * (s2 + e * r), st.D * e, (x * st.H + r * st.Y) * e,
              t, st.H * s1 + st.Y * s2, N);
  }

  lemma SecondMatches(g: int, ee: int, z2: int, a3: int, r: int, s2: int, e: int, N: int)
    requires N > 0 && Cong(z2, s2 + e * r, N) && Cong(a3, g * s2, N)
    ensures Cong(g * z2, ee * e + a3, N) <==> Cong(ee * e, (r * g) * e, N)
  {
    hide Cong;
    CongRefl(g, N);
    CongMul(g, g, z2, s2 + e * r, N);
    assert g * (s2 + e * r) == (r * g) * e + g * s2 by {
      assert g * (e * r) == (r * g) * e;
      assert g * (s2 + e * r) == g * s2 + g * (e * r);
    }
    Cancelled(g * z2, g * (s2 + e * r), ee * e, (r * g) * e, a3, g * s2, N);
  }

  lemma AddLeft(a: int, b: int, N: int)
    requires N > 0
    ensures (a % N + b) % N == (a + b) % N
  {
    CongMod(a, N);
    CongAdd(a % N, a, b, b, N);
  }

  lemma Regroup(h: int, y: int, s1: int, s2: int, e: int, x: int, r: int)
    ensures h * (s1 + e * x) + y * (s2 + e * r) == (x * h + r * y) * e + (h * s1 + y * s2)
  {
    assert h * (e * x) == (x * h) * e && y * (e * r) == (r * y) * e;
    assert h * (s1 + e * x) == h * s1 + h * (e * x);
    assert y * (s2 + e * r) == y * s2 + y * (e * r);
    assert (x * h + r * y) * e == (x * h) * e + (r * y) * e;
  }

  // ---------- a correctly formed Paillier key ----------

  const M2: nat := 11

  /** The i-th challenge for modulus `n`; `mask` is the hash-based mask generation. */
  function Rho(mask: (int, nat) -> int, n: int, i: nat): int
    requires n > 0
  {
    mask(n, i) % n
  }

  method CreateNICorrectKeyProof(key: PrivateKey, mask: (int, nat) -> int) returns (sigmas: seq<int>)
    requires ValidKey(key)
    ensures key.n > 0 && key.dp >= 0 && key.dq >= 0
    ensures |sigmas| == M2
    ensures forall i :: 0 <= i < M2 ==> ExtractNroot(key, Rho(mask, key.n, i)) == Ok(sigmas[i])
  {
    ValidKeyParts(key);
    assert key.n > 0;
    var rhos: seq<int> := [];
    for i := 0 to M2
      invariant |rhos| == i && forall k :: 0 <= k < i ==> rhos[k] == Rho(mask, key.n, k)
    {
      rhos := rhos + [Rho(mask, key.n, i)];
    }
    sigmas := [];
    for i := 0 to |rhos|
      invariant |sigmas| == i
      invariant forall k :: 0 <= k < i ==> ExtractNroot(key, rhos[k]) == Ok(sigmas[k])
    {
      NrootCorrect(key, rhos[i]);
      sigmas := sigmas + [ExtractNroot(key, rhos[i]).value];
    }
  }

  predicate KeyProofAccepted(sigma: seq<int>, n: nat, primorial: nat, mask: (int, nat) -> int)
    requires |sigma| >= M2 && n > 0
  {
    Gcd(primorial, n) == 1 && forall i :: 0 <= i < M2 ==> Rho(mask, n, i) == Exp(sigma[i], n, n)
  }

  /** Requires the M2 entries the source indexes without checking. */
  method VerifyCorrectKey(sigma: seq<int>, pub: PublicKey, primorial: nat, mask: (int, nat) -> int) returns (ok: bool)
    requires |sigma| >= M2 && pub.N > 0
    ensures ok <==> KeyProofAccepted(sigma, pub.N, primorial, mask)
  {
    var rhoVec: seq<int> := [];
    for i := 0 to M2
      invariant |rhoVec| == i && forall k :: 0 <= k < i ==> rhoVec[k] == Rho(mask, pub.N, k)
    {
      rhoVec := rhoVec + [Rho(mask, pub.N, i)];
    }
    var gcdTest := Gcd(primorial, pub.N);
    var derivedRhoVec: seq<int> := [];
    for i := 0 to M2
      invariant |derivedRhoVec| == i && forall k :: 0 <= k < i ==> derivedRhoVec[k] == Exp(sigma[k], pub.N, pub.N)
    {
      derivedRhoVec := derivedRhoVec + [Exp(sigma[i], pub.N, pub.N)];
    }
    ok := rhoVec == derivedRhoVec && gcdTest == 1;
  }

  function Gcd(a: nat, b: nat): nat
    decreases b
  {
    if b == 0 then a else Gcd(b, a % b)
  }

  lemma BackSubstitute(a: nat, b: nat, u: int, v: int, g: int)
    requires b > 0 && b == u * g && a % b == v * g
    ensures a == ((a / b) * u + v) * g
  {
    var q := a / b;
    assert a == q * b + a % b;
    assert q * (u * g) == (q * u) * g;
    assert (q * u + v) * g == (q * u) * g + v * g;
  }

  lemma {:induction false} GcdDivides(a: nat, b: nat) returns (x: int, y: int)
    ensures a == x * Gcd(a, b) && b == y * Gcd(a, b)
    decreases b
  {
    if b == 0 {
      x, y := 1, 0;
    } else {
      var u, v := GcdDivides(b, a % b);
      BackSubstitute(a, b, u, v, Gcd(b, a % b));
      x, y := (a / b) * u + v, u;
    }
  }

  lemma {:induction false} CommonDivisor(a: nat, b: nat, d: nat)
    requires d > 0 && a % d == 0 && b % d == 0
    ensures Gcd(a, b) % d == 0
    decreases b
  {
    if b != 0 {
      var s := ExactQuotient(a, d);
      var t := ExactQuotient(b, d);
      assert a % b == a - (a / b) * b;
      assert (a / b) * (t * d) == ((a / b) * t) * d;
      RemainderUnique(a % b, s - (a / b) * t, 0, d);
      CommonDivisor(b, a % b, d);
    }
  }

  lemma DivisorOfProduct(g: nat, t: int, p: int, q: int)
    requires IsPrime(p) && IsPrime(q) && p * q == t * g && g % p != 0 && g % q != 0
    ensures g == 1
  {
    RemainderUnique(t * g, q, 0, p);
    EuclidLemma(t, g, p);
    var t' := ExactQuotient(t, p);
    assert (t' * p) * g == p * (t' * g);
    CancelFactor(p, q, t' * g);
    RemainderUnique(t' * g, 1, 0, q);
    EuclidLemma(t', g, q);
    var w := ExactQuotient(t', q);
    assert (w * q) * g == q * (w * g);
    CancelFactor(q, 1, w * g);
    UnitFactor(w, g);
  }

  lemma CancelFactor(p: int, a: int, b: int)
    requires p > 0 && p * a == p * b
    ensures a == b
  {
    assert (a - b) * p == 0;
    NoSmallMultiple(a - b, p);
  }

  lemma UnitFactor(w: int, g: nat)
    requires w * g == 1
    ensures g == 1
  {
    if g > 1 {
      RemainderUnique(w * g, w, 0, g);
      SmallMod(1, g);
    }
  }

  /** The small-factor test passes exactly when neither prime divides the primorial. */
  lemma PrimorialTest(primorial: nat, p: int, q: int)
    requires IsPrime(p) && IsPrime(q)
    ensures p * q >= 0
    ensures Gcd(primorial, p * q) == 1 <==> primorial % p != 0 && primorial % q != 0
  {
    assert p * q >= 0;
    var n: nat := p * q;
    var g := Gcd(primorial, n);
    RemainderUnique(n, q, 0, p);
    RemainderUnique(n, p, 0, q);
    SmallMod(1, p);
    SmallMod(1, q);
    if primorial % p == 0 {
      CommonDivisor(primorial, n, p);
    }
    if primorial % q == 0 {
      CommonDivisor(primorial, n, q);
    }
    if primorial % p != 0 && primorial % q != 0 {
      var x, y := GcdDivides(primorial, n);
      DividesThrough(primorial, x, g, p);
      DividesThrough(primorial, x, g, q);
      DivisorOfProduct(g, y, p, q);
    }
  }

  lemma DividesThrough(a: nat, x: int, g: nat, p: int)
    requires p > 0 && a == x * g && a % p != 0
    ensures g % p != 0
  {
    if g % p == 0 {
      var t := ExactQuotient(g, p);
      assert x * (t * p) == (x * t) * p;
      RemainderUnique(a, x * t, 0, p);
    }
  }

  /**
   Completeness of the key proof, for every key and every mask: an honest proof is accepted exactly
   when neither prime divides the primorial.
   */
  lemma KeyProofComplete(key: PrivateKey, sigmas: seq<int>, primorial: nat, mask: (int, nat) -> int)
    requires ValidKey(key) && key.n > 0 && key.dp >= 0 && key.dq >= 0 && |sigmas| == M2
    requires forall i :: 0 <= i < M2 ==> ExtractNroot(key, Rho(mask, key.n, i)) == Ok(sigmas[i])
    ensures KeyProofAccepted(sigmas, key.n, primorial, mask) <==> primorial % key.p != 0 && primorial % key.q != 0
  {
    ValidKeyParts(key);
    forall i | 0 <= i < M2
      ensures Rho(mask, key.n, i) == Exp(sigmas[i], key.n, key.n)
    {
      NrootCorrect(key, Rho(mask, key.n, i));
    }
    PrimorialTest(primorial, key.p, key.q);
  }

  /** Answers count modulo `n`. */
  lemma ReducedAnswer(x: int, n: nat)
    requires n > 0
    ensures Exp(x % n, n, n) == Exp(x, n, n)
  {
    CongMod(x, n);
    CongPow(x % n, x, n, n);
  }

  /**
   For a properly formed key each challenge has one answer that is accepted, the extracted root: any
   proof is accepted exactly when it consists of these, and no prime of the key divides the primorial.
   */
  lemma KeyProofExact(key: PrivateKey, sigmas: seq<int>, primorial: nat, mask: (int, nat) -> int)
    requires ValidKey(key) && key.n > 0 && key.dp >= 0 && key.dq >= 0 && |sigmas| >= M2
    ensures KeyProofAccepted(sigmas, key.n, primorial, mask) <==>
            && primorial % key.p != 0 && primorial % key.q != 0
            && forall i :: 0 <= i < M2 ==> ExtractNroot(key, Rho(mask, key.n, i)) == Ok(sigmas[i] % key.n)
  {
    ValidKeyParts(key);
    PrimorialTest(primorial, key.p, key.q);
    hide ExtractNroot, Exp, Gcd;
    forall i | 0 <= i < M2
      ensures Rho(mask, key.n, i) == Exp(sigmas[i], key.n, key.n) <==> ExtractNroot(key, Rho(mask, key.n, i)) == Ok(sigmas[i] % key.n)
    {
      NrootCorrect(key, Rho(mask, key.n, i));
      NrootUnique(key, sigmas[i] % key.n);
      ReducedAnswer(sigmas[i], key.n);
    }
  }

  /** Whatever modulus comes with an accepted proof, none of its divisors divides the primorial. */
  lemma AcceptedModulus(sigmas: seq<int>, n: nat, primorial: nat, mask: (int, nat) -> int, d: nat)
    requires n > 0 && |sigmas| >= M2 && KeyProofAccepted(sigmas, n, primorial, mask) && d > 1 && n % d == 0
    ensures primorial % d != 0
  {
    if primorial % d == 0 {
      CommonDivisor(primorial, n, d);
      SmallMod(1, d);
    }
  }
}
