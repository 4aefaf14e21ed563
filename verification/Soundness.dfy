/**
 What two accepted proofs give away: whoever can answer two different challenges for the same first
 message knows a witness, and it can be computed from the two answers.  The two challenges come from
 two hash functions, as when a proof is made twice against a different one.
 */
module Soundness {
  import opened NumberTheory
  import opened Polynomials
  import opened Scalars
  import opened Proofs
  import opened SigningSteps

  /** The witness behind the answers `z` and `z'` to the challenges `e` and `e'`. */
  function Witness(z: int, z': int, e: int, e': int, N: int): int
    requires N >= 2
  {
    (z - z') * Invert(e - e', N)
  }

  /** Two equations `l = d*e + t` with the same `d` and `t` give `d`. */
  lemma TwoAnswers(l: int, l': int, d: int, t: int, e: int, e': int, w: int, N: int)
    requires N > 0 && Cong((e - e') * w, 1, N) && Cong(l, d * e + t, N) && Cong(l', d * e' + t, N)
    ensures Cong((l - l') * w, d, N)
  {
    hide Cong;
    CongAdd(l, d * e + t, l', d * e' + t, N);
    Difference(d, e, e', t, w);
    CongRefl(w, N);
    CongMul(l - l', (d * e + t) - (d * e' + t), w, w, N);
    CongRefl(d, N);
    CongMul(d, d, (e - e') * w, 1, N);
    CongTrans((l - l') * w, d * ((e - e') * w), d, N);
  }

  lemma Difference(d: int, e: int, e': int, t: int, w: int)
    ensures ((d * e + t) - (d * e' + t)) * w == d * ((e - e') * w)
  {
    assert (d * e + t) - (d * e' + t) == d * (e - e');
  }

  // ---------- discrete logarithms ----------

  /** Two accepted proofs with one commitment and different challenges give the logarithm of the point. */
  lemma DLogExtract(p: DLogProof, q: DLogProof, c: Curve, c': Curve)
    requires IsPrime(c.N) && c'.N == c.N && p.PK == q.PK && p.commitment == q.commitment
    requires Verify(p, c) && Verify(q, c')
    requires var e, e' := DLogChallenge(p.commitment, p.PK, c), DLogChallenge(q.commitment, q.PK, c'); (e' - e) % c.N != 0
    ensures var e, e' := DLogChallenge(p.commitment, p.PK, c), DLogChallenge(q.commitment, q.PK, c');
            Cong(Witness(p.response, q.response, e', e, c.N), p.PK, c.N)
  {
    var N, e, e' := c.N, DLogChallenge(p.commitment, p.PK, c), DLogChallenge(q.commitment, q.PK, c');
    DLogEquation(p, c);
    DLogEquation(q, c');
    hide Verify, DLogChallenge, Cong, Invert, Exp;
    Moved(p.response, p.PK, e, p.commitment, N);
    Moved(q.response, p.PK, e', p.commitment, N);
    InvertIsInverse(e' - e, N);
    assert (-e) - (-e') == e' - e;
    TwoAnswers(p.response, q.response, p.PK, p.commitment, -e, -e', Invert(e' - e, N), N);
  }

  lemma Moved(z: int, p: int, e: int, com: int, N: int)
    requires N > 0 && Cong(z + p * e, com, N)
    ensures Cong(z, p * (-e) + com, N)
  {
    CongAdd(z + p * e, com, p * e, p * e, N);
    assert p * (-e) == -(p * e);
  }

  // ---------- homomorphic ElGamal ----------

  /** Two accepted proofs with one first message and different challenges give a witness of the relation. */
  lemma ElGamalExtract(p: ElGamalProof, q: ElGamalProof, st: Statement, c: Curve, c': Curve)
    requires IsPrime(c.N) && c'.N == c.N && p.T == q.T && p.A3 == q.A3
    requires VerifyElGamal(p, st, c) && VerifyElGamal(q, st, c')
    requires (ElGamalChallenge(p.T, p.A3, st, c) - ElGamalChallenge(q.T, q.A3, st, c')) % c.N != 0
    ensures var e, e' := ElGamalChallenge(p.T, p.A3, st, c), ElGamalChallenge(q.T, q.A3, st, c');
            Relation(st, Witness(p.Z2, q.Z2, e, e', c.N), Witness(p.Z1, q.Z1, e, e', c.N), c.N)
  {
    var N, e, e' := c.N, ElGamalChallenge(p.T, p.A3, st, c), ElGamalChallenge(q.T, q.A3, st, c');
    ElGamalEquations(p, st, c);
    ElGamalEquations(q, st, c');
    hide VerifyElGamal, ElGamalChallenge, Cong, Invert;
    var w := Invert(e - e', N);
    InvertIsInverse(e - e', N);
    TwoAnswers(st.H * p.Z1 + st.Y * p.Z2, st.H * q.Z1 + st.Y * q.Z2, st.D, p.T, e, e', w, N);
    TwoAnswers(st.G * p.Z2, st.G * q.Z2, st.E, p.A3, e, e', w, N);
    Scaled(st.H, p.Z1, q.Z1, st.Y, p.Z2, q.Z2, w);
    Scaled(st.G, p.Z2, q.Z2, 0, 0, 0, w);
    var x, r := Witness(p.Z1, q.Z1, e, e', N), Witness(p.Z2, q.Z2, e, e', N);
    CongTrans(x * st.H + r * st.Y, st.D, st.D, N);
    CongTrans(r * st.G, st.E, st.E, N);
  }

  lemma Scaled(h: int, a: int, a': int, y: int, b: int, b': int, w: int)
    ensures (h * a + y * b - (h * a' + y * b')) * w == ((a - a') * w) * h + ((b - b') * w) * y
  {
    assert h * a - h * a' == h * (a - a') && y * b - y * b' == y * (b - b');
    assert (h * (a - a') + y * (b - b')) * w == (h * (a - a')) * w + (y * (b - b')) * w;
    assert (h * (a - a')) * w == ((a - a') * w) * h && (y * (b - b')) * w == ((b - b') * w) * y;
  }

  // ---------- the first decommitment of phase 5 ----------

  /** V is s*R + l*G, and B is l*A. */
  ghost predicate FirstRoundFormed(d: Decom1, R: Point, l: int, s: int, N: int)
    requires N > 0
  {
    Cong(d.Vi, s * R + l * G, N) && Cong(d.Bi, l * d.Ai, N)
  }

  /** A first decommitment proved with the scalars `l` and `s` is accepted exactly when its points are made from them. */
  lemma FirstRoundExact(m: Phase5A, R: Point, l: int, s: int, s1: int, s2: int, st: Setting)
    requires IsPrime(st.curve.N) && MadeFrom(m.proof, FirstStatement(m.decom, R), l, s, s1, s2, st.curve)
    requires ElGamalChallenge(m.proof.T, m.proof.A3, FirstStatement(m.decom, R), st.curve) != 0
    ensures FirstRoundValid(m, R, st) <==>
            && st.commit(HashPoints([m.decom.Vi, m.decom.Ai, m.decom.Bi], st.curve), m.decom.blindFactor) == m.com
            && FirstRoundFormed(m.decom, R, l, s, st.curve.N)
  {
    ElGamalExact(m.proof, FirstStatement(m.decom, R), l, s, s1, s2, st.curve);
    hide VerifyElGamal, ElGamalChallenge;
  }

  /** And whoever gets one accepted against two challenges has made its points from some `l` and `s`. */
  lemma FirstRoundExtract(m: Phase5A, m': Phase5A, R: Point, st: Setting, st': Setting)
    requires IsPrime(st.curve.N) && st'.curve.N == st.curve.N && FirstRoundValid(m, R, st) && FirstRoundValid(m', R, st')
    requires m'.decom == m.decom && m'.proof.T == m.proof.T && m'.proof.A3 == m.proof.A3
    requires var d := FirstStatement(m.decom, R);
             (ElGamalChallenge(m.proof.T, m.proof.A3, d, st.curve) - ElGamalChallenge(m.proof.T, m.proof.A3, d, st'.curve)) % st.curve.N != 0
    ensures exists l, s :: FirstRoundFormed(m.decom, R, l, s, st.curve.N)
  {
    var d, N := FirstStatement(m.decom, R), st.curve.N;
    var e, e' := ElGamalChallenge(m.proof.T, m.proof.A3, d, st.curve), ElGamalChallenge(m.proof.T, m.proof.A3, d, st'.curve);
    hide VerifyElGamal, ElGamalChallenge;
    ElGamalExtract(m.proof, m'.proof, d, st.curve, st'.curve);
    assert FirstRoundFormed(m.decom, R, Witness(m.proof.Z2, m'.proof.Z2, e, e', N), Witness(m.proof.Z1, m'.proof.Z1, e, e', N), N);
  }

  // ---------- commitments ----------

  /** Two different numbers with one commitment. */
  ghost predicate CommitCollision(st: Setting) {
    exists x, b, y, c :: x != y && st.commit(x, b) == st.commit(y, c)
  }

  lemma OneOpening(st: Setting, x: int, b: int, y: int, c: int)
    requires st.commit(x, b) == st.commit(y, c) && !CommitCollision(st)
    ensures x == y
  {
  }

  /**
   Unless commitments collide, two decommitments accepted for one commitment have the same hash of
   points, whatever their blinding: the points cannot be chosen after the others' are known.
   */
  lemma DecommitmentsBind(m: Phase5A, m': Phase5A, k: Phase5C, k': Phase5C, R: Point, st: Setting)
    requires st.curve.N > 0 && !CommitCollision(st)
    ensures FirstRoundValid(m, R, st) && FirstRoundValid(m', R, st) && m.com == m'.com ==>
              HashPoints([m.decom.Vi, m.decom.Ai, m.decom.Bi], st.curve) == HashPoints([m'.decom.Vi, m'.decom.Ai, m'.decom.Bi], st.curve)
    ensures SecondRoundValid(k, st) && SecondRoundValid(k', st) && k.com == k'.com ==>
              HashPoints([k.decom.Ui, k.decom.Ti], st.curve) == HashPoints([k'.decom.Ui, k'.decom.Ti], st.curve)
  {
    var p, q := HashPoints([m.decom.Vi, m.decom.Ai, m.decom.Bi], st.curve), HashPoints([m'.decom.Vi, m'.decom.Ai, m'.decom.Bi], st.curve);
    var u, w := HashPoints([k.decom.Ui, k.decom.Ti], st.curve), HashPoints([k'.decom.Ui, k'.decom.Ti], st.curve);
    hide HashPoints, CommitCollision, VerifyElGamal;
    if FirstRoundValid(m, R, st) && FirstRoundValid(m', R, st) && m.com == m'.com {
      OneOpening(st, p, m.decom.blindFactor, q, m'.decom.blindFactor);
    }
    if SecondRoundValid(k, st) && SecondRoundValid(k', st) && k.com == k'.com {
      OneOpening(st, u, k.decom.blindFactor, w, k'.decom.blindFactor);
    }
  }

  /** And two gamma points accepted for one commitment have the same x-coordinate. */
  lemma GammasBind(i: nat, m: map<nat, MessageBPhase2>, m': map<nat, MessageBPhase2>, first: map<nat, Phase1Message>, first': map<nat, Phase1Message>, st: Setting)
    requires !CommitCollision(st) && i in m && i in m' && i in first && i in first' && first[i].com == first'[i].com
    requires GammaMatches(i, m, first, st) && GammaMatches(i, m', first', st)
    ensures st.curve.X(m[i].gamma.bProof.PK) == st.curve.X(m'[i].gamma.bProof.PK)
  {
    hide CommitCollision;
    OneOpening(st, st.curve.X(m[i].gamma.bProof.PK), first[i].blindFactor, st.curve.X(m'[i].gamma.bProof.PK), first'[i].blindFactor);
  }
}
