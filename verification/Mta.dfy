/**
 The multiplicative-to-additive exchange: Alice holds k and sends its encryption, Bob holds b and
 answers with an encryption of k*b + betaTag; Alice's decryption alpha and Bob's beta = -betaTag
 then add up to k*b.
 */
module Mta {
  import opened NumberTheory
  import opened Scalars
  import opened Paillier
  import opened Proofs

  datatype MessageB = MessageB(C: int, bProof: DLogProof, betaTagProof: DLogProof, beta: int)

  /** What Bob draws while answering. */
  datatype Draws = Draws(betaTag: nat, nonce: nat, proof1: int, proof2: int)

  datatype AlphaResult = Alpha(value: int) | InvalidKey | DecryptFailed

  function MessageBOf(b: nat, pub: PublicKey, ca: int, d: Draws, curve: Curve): Outcome<MessageB>
    requires curve.N > 0 && pub.N > 0 && pub.NSquared > 0
  {
    match EncryptWithNonce(pub, d.nonce, d.betaTag)
    case Ok(cBetaTag) =>
      Ok(MessageB(AddCipher(pub, Mul(pub, ca, b), cBetaTag),
                  DLogProofOf(b, d.proof1, curve), DLogProofOf(d.betaTag, d.proof2, curve),
                  (0 - d.betaTag) % curve.N))
    case TooLong => TooLong
    case Panic => Panic
  }

  method NewMessageB(b: PrivKey, pub: PublicKey, ca: int, d: Draws, curve: Curve) returns (m: Outcome<MessageB>)
    requires curve.N > 0 && pub.N > 0 && pub.NSquared > 0 && b.D >= 0
    ensures m == MessageBOf(b.D, pub, ca, d, curve)
  {
    var betaTagPrivateKey := new PrivKey(d.betaTag);
    match EncryptWithNonce(pub, d.nonce, betaTagPrivateKey.D) {
      case TooLong => m := TooLong;
      case Panic => m := Panic;
      case Ok(cBetaTag) =>
        var bca := Mul(pub, ca, b.D);
        var cb := AddCipher(pub, bca, cBetaTag);
        var zero := new PrivKey(0);
        var beta := ModSub(zero, betaTagPrivateKey, curve.N);
        var bproof := Prove(b, d.proof1, curve);
        var betaTagProof := Prove(betaTagPrivateKey, d.proof2, curve);
        m := Ok(MessageB(cb, bproof, betaTagProof, beta.D));
    }
  }

  function VerifyProofsGetAlpha(m: MessageB, dk: PrivateKey, a: int, curve: Curve): AlphaResult
    requires curve.N > 0 && m.C >= 0
    requires dk.p > 1 && dk.q > 1 && dk.pp > 0 && dk.qq > 0 && dk.n > 0 && dk.pminusone >= 0 && dk.qminusone >= 0
  {
    match Decrypt(dk, m.C)
    case Ok(ashare) =>
      var alpha := ashare % curve.N;
      var gAlpha := ScalarBaseMult(alpha, curve.N);
      var babTag := PointAdd(ScalarMult(m.bProof.PK, a, curve.N), m.betaTagProof.PK, curve.N);
      if Verify(m.bProof, curve) && Verify(m.betaTagProof, curve) && babTag == gAlpha then Alpha(alpha) else InvalidKey
    case _ => DecryptFailed
  }

  /** The alpha is what the answer's two announced points call for: k times the first plus the second. */
  ghost predicate Announced(alpha: int, k: int, m: MessageB, curve: Curve)
    requires curve.N > 0
  {
    && 0 <= alpha < curve.N && Cong(alpha, k * m.bProof.PK + m.betaTagProof.PK, curve.N)
    && Verify(m.bProof, curve) && Verify(m.betaTagProof, curve)
  }

  /** Whatever is sent, honest or not: it is accepted exactly when it decrypts to what it announces. */
  lemma AlphaExact(m: MessageB, dk: PrivateKey, k: int, curve: Curve)
    requires curve.N > 0 && m.C >= 0
    requires dk.p > 1 && dk.q > 1 && dk.pp > 0 && dk.qq > 0 && dk.n > 0 && dk.pminusone >= 0 && dk.qminusone >= 0
    ensures var r := VerifyProofsGetAlpha(m, dk, k, curve);
            && (r.Alpha? ==> Announced(r.value, k, m, curve))
            && (r.Alpha? <==> Decrypt(dk, m.C).Ok? && Announced(Decrypt(dk, m.C).value % curve.N, k, m, curve))
            && (r.Alpha? ==> r.value == Decrypt(dk, m.C).value % curve.N)
  {
    hide Decrypt, Verify;
    var N := curve.N;
    CongMod(k * m.bProof.PK, N);
    CongAdd((m.bProof.PK * k) % N, k * m.bProof.PK, m.betaTagProof.PK, m.betaTagProof.PK, N);
    if Decrypt(dk, m.C).Ok? {
      ModMod(Decrypt(dk, m.C).value, N);
    }
  }

  /** The two parties' shares add up to k times the announced b exactly when the answer's beta matches its second point. */
  lemma SharesMatch(alpha: int, k: int, m: MessageB, curve: Curve)
    requires curve.N > 0 && Announced(alpha, k, m, curve)
    ensures Cong(alpha + m.beta, k * m.bProof.PK, curve.N) <==> Cong(m.beta + m.betaTagProof.PK, 0, curve.N)
  {
    var b, t, N := k * m.bProof.PK, m.betaTagProof.PK, curve.N;
    CongAdd(alpha, b + t, m.beta, m.beta, N);
    if Cong(m.beta + t, 0, N) {
      CongAdd(b, b, m.beta + t, 0, N);
    }
    if Cong(alpha + m.beta, b, N) {
      CongAdd(b + t + m.beta, b, b, b, N);
    }
  }

  /** A nonce the modulus does not share a factor with. */
  ghost predicate GoodNonce(r: int, dk: PrivateKey)
    requires dk.p > 0 && dk.q > 0
  {
    r % dk.p != 0 && r % dk.q != 0
  }

  lemma CombinedNonce(r: int, b: nat, r2: int, p: int)
    requires IsPrime(p) && r % p != 0 && r2 % p != 0
    ensures (Pow(r, b) * r2) % p != 0
  {
    NonzeroPow(r, b, p);
    if (Pow(r, b) * r2) % p == 0 {
      EuclidLemma(Pow(r, b), r2, p);
    }
  }

  /** k*b + betaTag never reaches the square of the group order, so it does not wrap around a larger modulus. */
  lemma NoWrap(k: nat, b: nat, betaTag: nat, N: int, n: int)
    requires k < N && b < N && betaTag < N && N * N <= n
    ensures 0 <= b * k + betaTag < n
  {
    MulNonnegative(N - 1 - k, b);
    MulNonnegative(N - 1, N - 1 - b);
    MulNonnegative(b, k);
    assert (N - 1 - k) * b == (N - 1) * b - k * b;
    assert (N - 1) * (N - 1 - b) == N * N - 2 * N + 1 - (N - 1) * b;
  }

  lemma AnswerEncrypts(k: nat, b: nat, ca: int, r: int, d: Draws, dk: PrivateKey, m: MessageB, curve: Curve)
    requires ValidKey(dk) && curve.N > 0 && dk.pub.N > 0 && dk.pub.NSquared > 0
    requires Encrypts(ca, k, r, dk.pub.N) && d.betaTag < dk.pub.N
    requires MessageBOf(b, dk.pub, ca, d, curve) == Ok(m)
    ensures b * k >= 0 && Encrypts(m.C, b * k + d.betaTag, Pow(r, b) * d.nonce, dk.pub.N)
  {
    ValidKeyParts(dk);
    assert dk.n > 1;
    EncryptionEncrypts(dk.pub, d.nonce, d.betaTag);
    MulEncrypts(dk.pub, ca, k, r, b);
    AddEncrypts(dk.pub, Mul(dk.pub, ca, b), b * k, Pow(r, b),
                EncryptWithNonce(dk.pub, d.nonce, d.betaTag).value, d.betaTag, d.nonce);
  }

  lemma AlphaMatchesProofs(k: int, b: int, t: int, N: int)
    requires N > 0
    ensures ScalarBaseMult((b * k + t) % N, N) == PointAdd(ScalarMult(ScalarBaseMult(b, N), k, N), ScalarBaseMult(t, N), N)
  {
    CongMod(b, N);
    CongMul(b % N, b, k, k, N);
    CongMod(t, N);
    CongMod((b % N) * k, N);
    CongAdd(((b % N) * k) % N, b * k, t % N, t, N);
    ModMod(b * k + t, N);
  }

  lemma AlphaPlusBeta(x: int, t: int, N: int)
    requires N > 0
    ensures Cong((x + t) % N + (0 - t) % N, x, N)
  {
    CongMod(x + t, N);
    CongMod(0 - t, N);
    CongAdd((x + t) % N, x + t, (0 - t) % N, 0 - t, N);
  }

  /**
   The exchange is correct for every k, b and betaTag below the group order and every Paillier key
   at least as large as its square: no wrap-around, the proofs are accepted, and alpha + beta = k*b.
   */
  lemma MtaCorrect(k: nat, b: nat, ca: int, r: int, d: Draws, dk: PrivateKey, curve: Curve)
    requires ValidKey(dk) && curve.N > 0 && dk.pub.N >= curve.N * curve.N
    requires k < curve.N && b < curve.N && d.betaTag < curve.N
    requires Encrypts(ca, k, r, dk.pub.N) && GoodNonce(r, dk) && GoodNonce(d.nonce, dk)
    ensures dk.pub.N > 0 && dk.pub.NSquared > 0
    ensures var res := MessageBOf(b, dk.pub, ca, d, curve);
            && res.Ok? && res.value.C >= 0
            && Decrypt(dk, res.value.C) == Ok(b * k + d.betaTag)
            && VerifyProofsGetAlpha(res.value, dk, k, curve) == Alpha((b * k + d.betaTag) % curve.N)
            && Cong((b * k + d.betaTag) % curve.N + res.value.beta, b * k, curve.N)
  {
    ValidKeyParts(dk);
    NoWrap(k, b, d.betaTag, curve.N, dk.pub.N);
    NoWrap(0, 0, d.betaTag, curve.N, dk.pub.N);
    EncryptionEncrypts(dk.pub, d.nonce, d.betaTag);
    var m := MessageBOf(b, dk.pub, ca, d, curve).value;
    AnswerEncrypts(k, b, ca, r, d, dk, m, curve);
    CombinedNonce(r, b, d.nonce, dk.p);
    CombinedNonce(r, b, d.nonce, dk.q);
    DecryptExact(dk, m.C, b * k + d.betaTag, Pow(r, b) * d.nonce);
    SmallMod(b * k + d.betaTag, dk.n);
    DLogComplete(b, d.proof1, curve);
    DLogComplete(d.betaTag, d.proof2, curve);
    AlphaMatchesProofs(k, b, d.betaTag, curve.N);
    AlphaPlusBeta(b * k, d.betaTag, curve.N);
  }

  /** An answer whose ciphertext hides `x`, with proofs for any two points: accepted exactly when `x` is what they call for. */
  lemma AnyAnswer(k: int, x: nat, r: int, dk: PrivateKey, m: MessageB, curve: Curve)
    requires ValidKey(dk) && curve.N > 0 && dk.pub.N > 0 && Encrypts(m.C, x, r, dk.pub.N) && x < dk.pub.N && GoodNonce(r, dk)
    requires Verify(m.bProof, curve) && Verify(m.betaTagProof, curve)
    ensures VerifyProofsGetAlpha(m, dk, k, curve) ==
            if Cong(x, k * m.bProof.PK + m.betaTagProof.PK, curve.N) then Alpha(x % curve.N) else InvalidKey
  {
    ValidKeyParts(dk);
    DecryptExact(dk, m.C, x, r);
    SmallMod(x, dk.n);
    CongMod(x, curve.N);
    AlphaExact(m, dk, k, curve);
  }
}
