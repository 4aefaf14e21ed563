/**
 The numbers a signing session exchanges, as functions of the signers' secrets, and the algebra
 that makes the final signature verify.  Signers are numbered by their position in the signer
 list; `ks`, `gammas` and `ws` hold their nonce shares, masking scalars and key shares.
 */
module SigningAlgebra {
  import opened NumberTheory
  import opened Polynomials
  import opened Scalars

  ghost predicate Nonzero(a: int, N: int)
    requires N > 0
  {
    a % N != 0
  }

  /** The signature's r: the x-coordinate of the nonce point, reduced. */
  function RCoordinate(R: Point, curve: Curve): int
    requires curve.N > 0
  {
    curve.X(R) % curve.N
  }

  // ---------- shared products ----------

  function Times(a: int, b: int): int {
    a * b
  }

  lemma {:induction false} SumTimesCong(ys: seq<int>, k: int, xs: seq<int>, N: int)
    requires N > 0 && |ys| == |xs| && forall i :: 0 <= i < |ys| ==> Cong(ys[i], Times(k, xs[i]), N)
    ensures Cong(Sum(ys), Times(k, Sum(xs)), N)
  {
    hide Cong, Lin, Times;
    forall i | 0 <= i < |ys|
      ensures Cong(ys[i], Lin(k, xs[i], 0, xs[i]), N)
    {
      TimesIsLin(k, xs[i]);
    }
    SumLinCong(ys, k, xs, 0, xs, N);
    TimesIsLin(k, Sum(xs));
  }

  lemma TimesIsLin(k: int, x: int)
    ensures Lin(k, x, 0, x) == Times(k, x)
  {
  }

  /** What signer `i` adds up for the product of its `k` with everybody's `b`: own product, then alpha and beta per peer. */
  ghost predicate PeerTerms(k: int, bs: seq<int>, terms: seq<int>, N: int)
    requires N > 0
  {
    |terms| == |bs| && forall j :: 0 <= j < |bs| ==> Cong(terms[j], Times(k, bs[j]), N)
  }

  lemma PeerTermsSum(k: int, bs: seq<int>, terms: seq<int>, N: int)
    requires N > 0 && PeerTerms(k, bs, terms, N)
    ensures Cong(Sum(terms), Times(k, Sum(bs)), N)
  {
    SumTimesCong(terms, k, bs, N);
  }

  /** `shares[i]` is `ks[i]` times the sum of `bs`, modulo N: a shared product. */
  ghost predicate SharedProduct(ks: seq<int>, bs: seq<int>, shares: seq<int>, N: int)
    requires N > 0
  {
    |shares| == |ks| && forall i :: 0 <= i < |ks| ==> Cong(shares[i], Times(ks[i], Sum(bs)), N)
  }

  lemma SharedProductSum(ks: seq<int>, bs: seq<int>, shares: seq<int>, N: int)
    requires N > 0 && SharedProduct(ks, bs, shares, N)
    ensures Cong(Sum(shares), Times(Sum(ks), Sum(bs)), N)
  {
    hide Times, Cong;
    forall i | 0 <= i < |ks|
      ensures Cong(shares[i], Times(Sum(bs), ks[i]), N)
    {
      TimesCommute(ks[i], Sum(bs));
    }
    SumTimesCong(shares, Sum(bs), ks, N);
    TimesCommute(Sum(ks), Sum(bs));
  }

  lemma TimesCommute(a: int, b: int)
    ensures Times(a, b) == Times(b, a)
  {
  }

  // ---------- the nonce point ----------

  /** R from the revealed gamma points and the inverted sum of deltas. */
  function NoncePoint(gammaSum: Point, deltaSum: int, N: int): Point
    requires N >= 2
  {
    ScalarMult(gammaSum, Invert(deltaSum, N), N)
  }

  /** R, as an exponent, is the inverse of the summed nonce k. */
  ghost predicate Inverts(R: Point, k: int, N: int)
    requires N > 0
  {
    Cong(k * R, 1, N)
  }

  /** R is the inverse of the sum of the nonce shares. */
  lemma NonceInverted(k: int, g: int, deltaSum: int, N: int)
    requires IsPrime(N) && Nonzero(k, N) && Nonzero(g, N) && Cong(deltaSum, Times(k, g), N)
    ensures Inverts(NoncePoint(ScalarBaseMult(g, N), deltaSum, N), k, N)
  {
    if (k * g) % N == 0 { EuclidLemma(k, g, N); }
    assert deltaSum % N != 0;
    InvertIsInverse(deltaSum, N);
    var d := Invert(deltaSum, N);
    hide Cong, Invert;
    CongMod(g, N);
    CongRefl(d, N);
    CongRefl(k, N);
    CongMul(g % N, g, d, d, N);
    CongMod((g % N) * d, N);
    CongTrans(((g % N) * d) % N, (g % N) * d, g * d, N);
    CongMul(k, k, NoncePoint(g % N, deltaSum, N), g * d, N);
    CongMul(deltaSum, k * g, d, d, N);
    MulAssoc(k, g, d);
    CongTrans(deltaSum * d, (k * g) * d, (k * g) * d, N);
    CongTrans((k * g) * d, deltaSum * d, 1, N);
    CongTrans(k * NoncePoint(g % N, deltaSum, N), k * (g * d), 1, N);
  }

  // ---------- the signature ----------

  function SignatureShare(m: int, k: int, r: int, sigma: int, N: int): int
    requires N > 0
  {
    (((m % N) * k) % N + (r * sigma) % N) % N
  }

  lemma SignatureShareCong(m: int, k: int, r: int, sigma: int, N: int)
    requires N > 0
    ensures Cong(SignatureShare(m, k, r, sigma, N), Lin(m, k, r, sigma), N)
  {
    CongMod(m, N);
    CongMul(m % N, m, k, k, N);
    CongMod((m % N) * k, N);
    CongMod(r * sigma, N);
    CongAdd(((m % N) * k) % N, m * k, (r * sigma) % N, r * sigma, N);
    CongMod(((m % N) * k) % N + (r * sigma) % N, N);
  }

  /** Every signature share is `m*k_i + r*sigma_i`. */
  ghost predicate SignedShares(shares: seq<int>, ks: seq<int>, sigmas: seq<int>, m: int, r: int, N: int)
    requires N > 0
  {
    |shares| == |ks| == |sigmas| && forall i :: 0 <= i < |ks| ==> Cong(shares[i], Lin(m, ks[i], r, sigmas[i]), N)
  }

  ghost predicate TotalSignature(s: int, k: int, m: int, r: int, x: int, N: int)
    requires N > 0
  {
    Cong(s, k * (m + r * x), N)
  }

  /** s*R = m*G + r*Y, the relation the phase-5 exchange tests. */
  ghost predicate Balanced(s: int, R: Point, m: int, r: int, y: Point, N: int)
    requires N > 0
  {
    Cong(s * R, m + r * y, N)
  }

  /** Signature shares built from shared products sum to `K * (m + r*x)`. */
  lemma SharesSum(ks: seq<int>, ws: seq<int>, sigmas: seq<int>, shares: seq<int>, m: int, r: int, N: int)
    requires N > 0 && SharedProduct(ks, ws, sigmas, N) && SignedShares(shares, ks, sigmas, m, r, N)
    ensures TotalSignature(Sum(shares), Sum(ks), m, r, Sum(ws), N)
  {
    hide Cong, SharedProduct, TotalSignature, Lin, Times;
    SharedProductSum(ks, ws, sigmas, N);
    SumLinCong(shares, m, ks, r, sigmas, N);
    SpreadAlgebra(Sum(shares), m, Sum(ks), r, Sum(sigmas), Sum(ws), N);
  }

  lemma SpreadAlgebra(s: int, m: int, k: int, r: int, sg: int, x: int, N: int)
    requires N > 0 && Cong(s, Lin(m, k, r, sg), N) && Cong(sg, Times(k, x), N)
    ensures TotalSignature(s, k, m, r, x, N)
  {
    hide Cong;
    CongRefl(r, N);
    CongRefl(m * k, N);
    CongMul(r, r, sg, k * x, N);
    CongAdd(m * k, m * k, r * sg, r * (k * x), N);
    assert m * k + r * (k * x) == k * (m + r * x) by { MulAssoc(r, k, x); }
    CongTrans(s, m * k + r * sg, m * k + r * (k * x), N);
  }

  /** The point whose x-coordinate ECDSA verification compares with r. */
  function VerificationPoint(s: int, r: int, y: Point, m: int, N: int): Point
    requires N >= 2
  {
    var b := Invert(s, N);
    PointAdd(ScalarBaseMult(((m % N) * b) % N, N), ScalarMult(y, (r * b) % N, N), N)
  }

  function Accepts(s: int, R: Point, y: Point, m: int, curve: Curve): bool
    requires curve.N >= 2
  {
    RCoordinate(VerificationPoint(s, RCoordinate(R, curve), y, m, curve.N), curve) == RCoordinate(R, curve)
  }

  lemma VerificationPointCong(s: int, r: int, y: Point, m: int, N: int)
    requires IsPrime(N) && s % N != 0
    ensures Cong(s * VerificationPoint(s, r, y, m, N), m + r * y, N)
  {
    InvertIsInverse(s, N);
    PointCong(Invert(s, N), r, y, m, N);
    hide Cong, Invert;
    var b, p := Invert(s, N), VerificationPoint(s, r, y, m, N);
    var z := m + r * y;
    CongRefl(s, N);
    CongRefl(z, N);
    CongMul(s, s, p, z * b, N);
    assert s * (z * b) == z * (s * b) by { MulAssoc(s, z, b); }
    CongMul(z, z, s * b, 1, N);
    CongTrans(s * p, z * (s * b), z * 1, N);
  }

  lemma PointCong(b: int, r: int, y: Point, m: int, N: int)
    requires N > 0
    ensures Cong(PointAdd(ScalarBaseMult(((m % N) * b) % N, N), ScalarMult(y, (r * b) % N, N), N), (m + r * y) * b, N)
  {
    hide Cong;
    var u1, u2 := ((m % N) * b) % N, (r * b) % N;
    CongRefl(b, N);
    CongRefl(y, N);
    CongMod(m, N);
    CongMul(m % N, m, b, b, N);
    CongMod((m % N) * b, N);
    CongTrans(u1, (m % N) * b, m * b, N);
    CongMod(u1, N);
    CongTrans(u1 % N, u1, m * b, N);
    CongMod(r * b, N);
    CongMul(y, y, u2, r * b, N);
    CongMod(y * u2, N);
    CongTrans((y * u2) % N, y * u2, y * (r * b), N);
    CongAdd(u1 % N, m * b, (y * u2) % N, y * (r * b), N);
    CongMod(u1 % N + (y * u2) % N, N);
    assert m * b + y * (r * b) == (m + r * y) * b by { assert y * (r * b) == (r * y) * b; }
    CongTrans((u1 % N + (y * u2) % N) % N, u1 % N + (y * u2) % N, (m + r * y) * b, N);
  }

  /** A signature `s = K*(m + r*x)` on a nonce point that inverts K leads back to that point. */
  lemma SignatureLeadsBack(s: int, k: int, R: Point, x: int, y: Point, m: int, r: int, N: int)
    requires IsPrime(N) && s % N != 0 && 0 <= R < N && Cong(k * R, 1, N)
    requires Cong(s, k * (m + r * x), N) && Cong(y, x, N)
    ensures VerificationPoint(s, r, y, m, N) == R
  {
    var p := VerificationPoint(s, r, y, m, N);
    assert 0 <= p < N;
    VerificationPointCong(s, r, y, m, N);
    SmallMod(R, N);
    SmallMod(p, N);
    hide VerificationPoint;
    SameFactor(s, k, R, m + r * x, N);
    CongMul(r, r, y, x, N);
    CongAdd(m, m, r * y, r * x, N);
    CancelMod(s, p, R, N);
  }

  lemma SameFactor(s: int, k: int, R: int, z: int, N: int)
    requires N > 0 && Cong(k * R, 1, N) && Cong(s, k * z, N)
    ensures Cong(s * R, z, N)
  {
    hide Cong;
    CongRefl(R, N);
    CongRefl(z, N);
    CongMul(s, k * z, R, R, N);
    CongMul(k * R, 1, z, z, N);
    assert (k * z) * R == (k * R) * z;
    CongTrans(s * R, (k * z) * R, 1 * z, N);
  }

  /**
   Signing is correct: shares built from the two shared products give a signature that
   verifies, provided the nonce sum, the mask sum and the signature itself are nonzero.
   */
  lemma SigningCorrect(ks: seq<int>, gammas: seq<int>, ws: seq<int>, deltas: seq<int>, sigmas: seq<int>,
                       shares: seq<int>, R: Point, s: int, y: Point, m: int, curve: Curve)
    requires IsPrime(curve.N)
    requires SharedProduct(ks, gammas, deltas, curve.N) && SharedProduct(ks, ws, sigmas, curve.N)
    requires Nonzero(Sum(ks), curve.N) && Nonzero(Sum(gammas), curve.N) && Nonzero(s, curve.N)
    requires R == NoncePoint(ScalarBaseMult(Sum(gammas), curve.N), Sum(deltas), curve.N)
    requires SignedShares(shares, ks, sigmas, m, RCoordinate(R, curve), curve.N)
    requires Cong(s, Sum(shares), curve.N) && Cong(y, Sum(ws), curve.N)
    ensures Accepts(s, R, y, m, curve)
    ensures Balanced(s, R, m, RCoordinate(R, curve), y, curve.N)
  {
    hide Cong, Times, SharedProduct, NoncePoint, Accepts, SignedShares, Inverts, TotalSignature, Balanced, Nonzero,
         RCoordinate, ScalarBaseMult, Sum;
    var r := RCoordinate(R, curve);
    SharedProductSum(ks, gammas, deltas, curve.N);
    NonceInverted(Sum(ks), Sum(gammas), Sum(deltas), curve.N);
    SharesSum(ks, ws, sigmas, shares, m, r, curve.N);
    NoncePointRange(ScalarBaseMult(Sum(gammas), curve.N), Sum(deltas), curve.N);
    FinishSigning(s, Sum(shares), Sum(ks), R, Sum(ws), y, m, r, curve);
  }

  lemma NoncePointRange(g: Point, d: int, N: int)
    requires N >= 2
    ensures 0 <= NoncePoint(g, d, N) < N
  {
  }

  lemma FinishSigning(s: int, total: int, k: int, R: Point, x: int, y: Point, m: int, r: int, curve: Curve)
    requires IsPrime(curve.N) && Nonzero(s, curve.N) && 0 <= R < curve.N && Inverts(R, k, curve.N)
    requires r == RCoordinate(R, curve)
    requires Cong(s, total, curve.N) && TotalSignature(total, k, m, r, x, curve.N) && Cong(y, x, curve.N)
    ensures Accepts(s, R, y, m, curve)
    ensures Balanced(s, R, m, r, y, curve.N)
  {
    hide Cong, VerificationPoint;
    var N := curve.N;
    CongTrans(s, total, k * (m + r * x), N);
    SignatureLeadsBack(s, k, R, x, y, m, r, N);
    SameFactor(s, k, R, m + r * x, N);
    CongRefl(r, N);
    CongRefl(m, N);
    CongMul(r, r, y, x, N);
    CongAdd(m, m, r * y, r * x, N);
    CongTrans(m + r * y, m + r * x, m + r * x, N);
    CongTrans(s * R, m + r * x, m + r * y, N);
  }

  // ---------- the phase-5 consistency check ----------

  /** The blinded total V - m*G - r*Y as an exponent, from the sum of the V_i. */
  function Unsigned(v: Point, m: int, r: int, y: Point): int {
    v - m - r * y
  }

  /** A total without one signer's own point. */
  function LessOwn(total: Point, own: Point): int {
    total - own
  }

  /** The first decommitments of honest signers: V_i = l_i*G + s_i*R, A_i = rho_i*G, B_i = l_i*rho_i*G. */
  ghost predicate FirstDecommitments(ls: seq<int>, rhos: seq<int>, ss: seq<int>, R: Point,
                                     vs: seq<Point>, avs: seq<Point>, bvs: seq<Point>, N: int)
    requires N > 0
  {
    && |ls| == |rhos| == |ss| == |vs| == |avs| == |bvs|
    && forall i :: 0 <= i < |ls| ==>
         Cong(vs[i], Lin(1, ls[i], R, ss[i]), N) && Cong(avs[i], rhos[i], N) && Cong(bvs[i], Times(ls[i], rhos[i]), N)
  }

  /** The second ones: U_i = rho_i*(V - m*G - r*Y), and T_i = l_i times the sum of everybody else's A_j. */
  ghost predicate SecondDecommitments(ls: seq<int>, rhos: seq<int>, vs: seq<Point>, avs: seq<Point>,
                                      us: seq<Point>, ts: seq<Point>, m: int, r: int, y: Point, N: int)
    requires N > 0
  {
    && |ls| == |rhos| == |vs| == |avs| == |us| == |ts|
    && forall i :: 0 <= i < |ls| ==>
         Cong(us[i], Times(Unsigned(Sum(vs), m, r, y), rhos[i]), N) && Cong(ts[i], Times(LessOwn(Sum(avs), avs[i]), ls[i]), N)
  }

  ghost predicate TestAccepts(t: Point, b: Point, u: Point, N: int)
    requires N > 0
  {
    Cong(1 + t + b - u, 1, N)
  }

  /** The accumulated test of phase 5d: G plus all T and B minus all U gives back G. */
  ghost predicate Phase5Test(us: seq<Point>, ts: seq<Point>, bvs: seq<Point>, N: int)
    requires N > 0
  {
    TestAccepts(Sum(ts), Sum(bvs), Sum(us), N)
  }

  /** Adding B_i to T_i puts the missing A_i back. */
  lemma MaskedTerm(a: int, rho: int, ai: int, rhoi: int, l: int, b: int, t: int, N: int)
    requires N > 0 && Cong(a, rho, N) && Cong(ai, rhoi, N) && Cong(b, Times(l, rhoi), N) && Cong(t, Times(LessOwn(a, ai), l), N)
    ensures Cong(t, Lin(rho, l, -1, b), N)
  {
    hide Cong;
    CongAdd(a, rho, ai, rhoi, N);
    CongRefl(l, N);
    CongMul(a - ai, rho - rhoi, l, l, N);
    CongTrans(t, Times(LessOwn(a, ai), l), (rho - rhoi) * l, N);
    CongRefl(rho * l, N);
    CongAdd(rho * l, rho * l, b, Times(l, rhoi), N);
    assert (rho - rhoi) * l == rho * l - Times(l, rhoi);
    CongTrans(rho * l - b, rho * l - Times(l, rhoi), rho * l - Times(l, rhoi), N);
    CongSubst(t, (rho - rhoi) * l, rho * l - Times(l, rhoi), N);
    CongTrans(t, rho * l - Times(l, rhoi), rho * l - b, N);
    CongSubst(t, rho * l - b, Lin(rho, l, -1, b), N);
  }

  lemma MaskedSum(ls: seq<int>, rhos: seq<int>, avs: seq<Point>, bvs: seq<Point>, ts: seq<Point>, N: int)
    requires N > 0 && |ls| == |rhos| == |avs| == |bvs| == |ts|
    requires forall i :: 0 <= i < |ls| ==> Cong(avs[i], rhos[i], N) && Cong(bvs[i], Times(ls[i], rhos[i]), N)
    requires forall i :: 0 <= i < |ls| ==> Cong(ts[i], Times(LessOwn(Sum(avs), avs[i]), ls[i]), N)
    ensures Cong(Sum(ts), Lin(Sum(rhos), Sum(ls), -1, Sum(bvs)), N)
  {
    hide Cong, Times, Lin, LessOwn;
    SumCong(avs, rhos, N);
    forall i | 0 <= i < |ls|
      ensures Cong(ts[i], Lin(Sum(rhos), ls[i], -1, bvs[i]), N)
    {
      MaskedTerm(Sum(avs), Sum(rhos), avs[i], rhos[i], ls[i], bvs[i], ts[i], N);
    }
    SumLinCong(ts, Sum(rhos), ls, -1, bvs, N);
  }

  /**
   The phase-5 test is exact: with correctly formed decommitments and a nonzero sum of the rho_i
   it accepts if and only if the signature shares sum to a valid signature.
   */
  lemma Phase5Exact(ls: seq<int>, rhos: seq<int>, ss: seq<int>, R: Point, vs: seq<Point>, avs: seq<Point>,
                    bvs: seq<Point>, us: seq<Point>, ts: seq<Point>, m: int, r: int, y: Point, N: int)
    requires IsPrime(N) && FirstDecommitments(ls, rhos, ss, R, vs, avs, bvs, N)
    requires SecondDecommitments(ls, rhos, vs, avs, us, ts, m, r, y, N) && Nonzero(Sum(rhos), N)
    ensures Phase5Test(us, ts, bvs, N) <==> Balanced(Sum(ss), R, m, r, y, N)
  {
    hide Cong, TestAccepts, Balanced, Nonzero, Lin, Times, Unsigned;
    SumLinCong(vs, 1, ls, R, ss, N);
    MaskedSum(ls, rhos, avs, bvs, ts, N);
    SumTimesCong(us, Unsigned(Sum(vs), m, r, y), rhos, N);
    TestAlgebra(Sum(ts), Sum(bvs), Sum(us), Sum(rhos), Sum(ls), Sum(ss), R, Sum(vs), m, r, y, N);
  }

  lemma TestAlgebra(t: int, b: int, u: int, rho: int, l: int, s: int, R: Point, v: int, m: int, r: int, y: Point, N: int)
    requires IsPrime(N) && Nonzero(rho, N)
    requires Cong(t, Lin(rho, l, -1, b), N) && Cong(u, Times(Unsigned(v, m, r, y), rho), N)
    requires Cong(v, Lin(1, l, R, s), N)
    ensures TestAccepts(t, b, u, N) <==> Balanced(s, R, m, r, y, N)
  {
    TestDifference(t, b, u, rho, l, s, R, v, m, r, y, N);
    var d := m + r * y - s * R;
    if TestAccepts(t, b, u, N) {
      CongAdd(1 + t + b - u, 1, 1, 1, N);
      CongZero(rho * d, N);
      EuclidLemma(rho, d, N);
      CongZero(d, N);
      CongAdd(s * R, s * R, d, 0, N);
    }
    if Balanced(s, R, m, r, y, N) {
      CongAdd(m + r * y, m + r * y, s * R, m + r * y, N);
      CongMul(rho, rho, d, 0, N);
      CongAdd(1, 1, t + b - u, 0, N);
    }
  }

  lemma TestDifference(t: int, b: int, u: int, rho: int, l: int, s: int, R: Point, v: int, m: int, r: int, y: Point, N: int)
    requires N > 0 && Cong(t, Lin(rho, l, -1, b), N) && Cong(u, Times(Unsigned(v, m, r, y), rho), N)
    requires Cong(v, Lin(1, l, R, s), N)
    ensures Cong(t + b - u, rho * (m + r * y - s * R), N)
  {
    hide Cong;
    var k := m + r * y;
    CongRefl(k, N);
    CongRefl(rho, N);
    CongRefl(b, N);
    CongAdd(v, Lin(1, l, R, s), k, k, N);
    CongMul(v - k, Lin(1, l, R, s) - k, rho, rho, N);
    CongSubst(u, Times(Unsigned(v, m, r, y), rho), (v - k) * rho, N);
    CongTrans(u, (v - k) * rho, (Lin(1, l, R, s) - k) * rho, N);
    CongAdd(t, Lin(rho, l, -1, b), b, b, N);
    CongAdd(t + b, Lin(rho, l, -1, b) + b, u, (Lin(1, l, R, s) - k) * rho, N);
    DifferenceAlgebra(rho, l, s, R, k, b);
    CongSubst(t + b - u, Lin(rho, l, -1, b) + b - (Lin(1, l, R, s) - k) * rho, rho * (m + r * y - s * R), N);
  }

  lemma DifferenceAlgebra(rho: int, l: int, s: int, R: int, k: int, b: int)
    ensures Lin(rho, l, -1, b) + b - (Lin(1, l, R, s) - k) * rho == rho * (k - s * R)
  {
    var z := R * s;
    assert (l + z - k) * rho == l * rho + z * rho - k * rho;
    assert rho * (k - z) == rho * k - rho * z;
  }
}
