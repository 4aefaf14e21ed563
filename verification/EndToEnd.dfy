/**
 The whole protocol: key generation by all notaries, then a signature by any large enough set of
 them.  Everything a session computes is written as a function of what its members drew, in the
 form the handlers' contracts give it.
 */
module EndToEnd {
  import opened Collections
  import opened NumberTheory
  import opened Polynomials
  import opened Scalars
  import opened Paillier
  import opened Proofs
  import opened Mta
  import opened Feldman
  import opened Sharing
  import opened SigningAlgebra
  import opened Arrivals
  import opened SigningSteps
  import opened Signing
  import opened KeyGen

  /**
   One session.  `polys` and `vsss` are the dealers' polynomials and commitments; `S` lists the
   signers and `orders[p]` is the order in which signer `p` lists them.  `rands` are the draws of the
   dealers' first proofs, and `arrivals[p]` is the order in which signer `p` received its shares.  The
   other lists go by position in `S`; `gammaDraws[p][j]` is what signer `j` draws when answering signer `p`.
   */
  datatype Session = Session(curve: Curve, polys: seq<seq<int>>, vsss: seq<VerifiableSS>, rands: seq<int>, threshold: nat,
                             arrivals: seq<seq<nat>>, S: seq<nat>, orders: seq<seq<nat>>, ks: seq<nat>, gammas: seq<nat>,
                             keys: seq<PrivateKey>, nonces: seq<nat>,
                             gammaDraws: seq<seq<Draws>>, wiDraws: seq<seq<Draws>>, message: int)

  /** The shares notary `i` is sent, or keeps for itself. */
  ghost function SharesSent(se: Session, i: nat): map<nat, ShareMessage>
    requires se.curve.N > 0 && AllCommit(se.polys, se.vsss, se.curve.N)
  {
    PhaseThreeMessages(se.polys, se.vsss, i, se.curve.N)
  }

  ghost predicate WellFormed(se: Session) {
    && IsPrime(se.curve.N) && |se.polys| < se.curve.N
    && (forall d :: 0 <= d < |se.polys| ==> |se.polys[d]| == se.threshold + 1)
    && AllCommit(se.polys, se.vsss, se.curve.N) && |se.rands| == |se.polys|
    && Distinct(se.S) && (forall i :: 0 <= i < |se.S| ==> se.S[i] < |se.polys|) && |se.S| > se.threshold
    && SameSigners(se.S, se.orders) && |se.arrivals| == |se.S|
    && (forall p :: 0 <= p < |se.S| ==> Walks(se.arrivals[p], SharesSent(se, se.S[p]).Keys))
    && |se.ks| == |se.gammas| == |se.keys| == |se.nonces| == |se.gammaDraws| == |se.wiDraws| == |se.S|
  }

  ghost predicate HonestDraws(ds: seq<Draws>, dk: PrivateKey, n: nat, N: int)
    requires ValidKey(dk)
  {
    |ds| == n && forall j :: 0 <= j < n ==> ds[j].betaTag < N && GoodDraw(ds[j].nonce, dk)
  }

  ghost predicate GoodDraw(r: int, dk: PrivateKey)
    requires ValidKey(dk)
  {
    ValidKeyParts(dk);
    GoodNonce(r, dk)
  }

  /** All members drew what the protocol says, with Paillier keys at least the square of the group order. */
  ghost predicate HonestSession(se: Session) {
    && WellFormed(se)
    && forall p :: 0 <= p < |se.S| ==>
         && ValidKey(se.keys[p]) && se.keys[p].pub.N >= se.curve.N * se.curve.N
         && se.ks[p] < se.curve.N && se.gammas[p] < se.curve.N
         && GoodDraw(se.nonces[p], se.keys[p])
         && HonestDraws(se.gammaDraws[p], se.keys[p], |se.S|, se.curve.N)
         && HonestDraws(se.wiDraws[p], se.keys[p], |se.S|, se.curve.N)
  }

  // ---------- lists by position as maps by signer id ----------

  ghost function Pos(S: seq<nat>, i: nat): (p: nat)
    requires i in S
    ensures p < |S| && S[p] == i
  {
    var p :| 0 <= p < |S| && S[p] == i;
    p
  }

  ghost function Keyed(S: seq<nat>, xs: seq<int>): (r: map<nat, int>)
    requires |xs| == |S|
    ensures forall i :: i in r <==> i in S
  {
    map i | i in S :: xs[Pos(S, i)]
  }

  lemma KeyedSum(S: seq<nat>, xs: seq<int>)
    requires |xs| == |S| && Distinct(S)
    ensures MapSum(Keyed(S, xs)) == Sum(xs)
  {
    var m := Keyed(S, xs);
    MapSumAnyOrder(m, S);
    forall k | 0 <= k < |S|
      ensures Along(m, S)[k] == xs[k]
    {
      assert S[k] in S;
      assert Pos(S, S[k]) == k;
    }
    assert Along(m, S) == xs;
  }

  // ---------- key generation and the additive shares ----------

  /** What key generation leaves with the notary at position `p`: the sum of the shares that passed its checks. */
  ghost function KeyShareOf(se: Session, p: nat): int
    requires WellFormed(se) && p < |se.S|
  {
    var i, sent := se.S[p], SharesSent(se, se.S[p]);
    var judge := ShareVerdict(sent, PhaseOneMessages(ConstantTerms(se.polys), se.rands, i, se.curve), i, se.curve.N);
    MapSum(SecretShares(Delivered(se.arrivals[p], sent, judge))) % se.curve.N
  }

  ghost function KeyShares(se: Session): (r: seq<int>)
    requires WellFormed(se)
    ensures |r| == |se.S| && forall p :: 0 <= p < |r| ==> r[p] == KeyShareOf(se, p)
  {
    seq(|se.S|, p requires 0 <= p < |se.S| => KeyShareOf(se, p))
  }

  /** The additive shares `wi` the signers open their session with. */
  ghost function Ws(se: Session): (r: seq<int>)
    requires WellFormed(se)
    ensures |r| == |se.S| && forall p :: 0 <= p < |r| ==> 0 <= r[p] < se.curve.N
  {
    AdditiveShares(se.S, se.orders, KeyShares(se), se.curve.N)
  }

  ghost function PublicKeyOf(se: Session): Point
    requires WellFormed(se)
  {
    Sum(ConstantTerms(se.polys)) % se.curve.N
  }

  /** A signer's key share is the value of the dealers' summed polynomial at its own point. */
  lemma KeyShareIs(se: Session, p: nat)
    requires WellFormed(se) && p < |se.S|
    ensures Cong(KeyShareOf(se, p), Eval(SumPoly(se.polys), se.S[p] + 1), se.curve.N)
  {
    assert se.curve.N > 0 && se.S[p] < |se.polys|;
    hide Cong, IsPrime, MapSum, Sum, Eval, SecretShares, PhaseThreeMessages, SumPoly, ConstantTerms, Delivered, ShareVerdict, CommitsTo, Reports;
    KeyShareCorrect(se.polys, se.vsss, se.rands, se.S[p], se.curve, se.arrivals[p]);
  }

  lemma KeySharesHonest(se: Session)
    requires WellFormed(se)
    ensures HonestShares(SumPoly(se.polys), se.S, KeyShares(se), se.curve.N)
  {
    assert se.curve.N > 0;
    hide WellFormed, Cong, Eval, KeyShareOf, SumPoly;
    forall p | 0 <= p < |se.S|
      ensures Cong(KeyShares(se)[p], Eval(SumPoly(se.polys), se.S[p] + 1), se.curve.N)
    {
      KeyShareIs(se, p);
    }
  }

  /** The signers' additive shares sum to the secret behind the public key. */
  lemma ShareOut(se: Session)
    requires WellFormed(se)
    ensures Cong(Sum(Ws(se)), Sum(ConstantTerms(se.polys)), se.curve.N)
  {
    var N, c := se.curve.N, SumPoly(se.polys);
    assert N >= 2 && (forall d :: 0 <= d < |se.polys| ==> |se.polys[d]| == se.threshold + 1);
    assert se.polys != [] by { assert se.S[0] < |se.polys|; }
    assert ValidIds(se.S, N) && IsPrime(N) && |se.S| > se.threshold;
    KeySharesHonest(se);
    hide Cong, IsPrime, Sum, KeyShares, HonestShares, Lambda, SumPoly, ConstantTerms, ValidIds, AdditiveShares, WellFormed;
    SumPolyConstant(se.polys);
    SumPolyLength(se.polys, se.threshold + 1);
    AdditiveSharesSum(c, se.S, se.orders, KeyShares(se), N);
  }

  // ---------- the shared products ----------

  /** Signer `p`'s encrypted nonce share. */
  function CipherK(se: Session, p: nat): int
    requires p < |se.keys| && p < |se.ks| && p < |se.nonces| && se.keys[p].pub.N > 0 && se.keys[p].pub.NSquared > 0
  {
    match EncryptWithNonce(se.keys[p].pub, se.nonces[p], se.ks[p])
    case Ok(c) => c
    case _ => 0
  }

  ghost predicate Usable(se: Session, p: nat) {
    && p < |se.keys| && p < |se.ks| && p < |se.nonces| && se.curve.N > 0
    && se.keys[p].pub.N > 0 && se.keys[p].pub.NSquared > 0 && Decryptable(se.keys[p])
  }

  ghost function AnswerTo(se: Session, p: nat, b: nat, d: Draws): Outcome<MessageB>
    requires Usable(se, p)
  {
    MessageBOf(b, se.keys[p].pub, CipherK(se, p), d, se.curve)
  }

  /** The alpha and beta signer `p` ends up with after one exchange, if it succeeds. */
  ghost function AlphaFrom(se: Session, p: nat, b: nat, d: Draws): AlphaResult
    requires Usable(se, p)
  {
    var m := AnswerTo(se, p, b, d);
    if m.Ok? && m.value.C >= 0 then VerifyProofsGetAlpha(m.value, se.keys[p], se.ks[p], se.curve) else DecryptFailed
  }

  ghost function AlphaValue(se: Session, p: nat, b: nat, d: Draws): int
    requires Usable(se, p)
  {
    match AlphaFrom(se, p, b, d)
    case Alpha(v) => v
    case _ => 0
  }

  ghost function BetaValue(se: Session, p: nat, b: nat, d: Draws): int
    requires Usable(se, p)
  {
    match AnswerTo(se, p, b, d)
    case Ok(m) => m.beta
    case _ => 0
  }

  lemma KeysUsable(se: Session, p: nat)
    requires HonestSession(se) && p < |se.S|
    ensures Usable(se, p)
  {
    ValidKeyParts(se.keys[p]);
    MulNonnegative(se.curve.N - 2, se.curve.N - 2);
  }

  /** One honest exchange succeeds and its two results add up to the product. */
  lemma Exchange(se: Session, p: nat, b: nat, d: Draws)
    requires HonestSession(se) && p < |se.S| && b < se.curve.N && d.betaTag < se.curve.N && GoodDraw(d.nonce, se.keys[p])
    ensures Usable(se, p)
    ensures AlphaFrom(se, p, b, d).Alpha?
    ensures Cong(AlphaValue(se, p, b, d) + BetaValue(se, p, b, d), Times(se.ks[p], b), se.curve.N)
  {
    KeysUsable(se, p);
    var dk, N := se.keys[p], se.curve.N;
    ValidKeyParts(dk);
    NoWrap(0, 0, se.ks[p], N, dk.pub.N);
    EncryptionEncrypts(dk.pub, se.nonces[p], se.ks[p]);
    MtaCorrect(se.ks[p], b, CipherK(se, p), se.nonces[p], d, dk, se.curve);
    hide MessageBOf, VerifyProofsGetAlpha, EncryptWithNonce, Cong, Encrypts;
    Commute(b, se.ks[p]);
  }

  /** The values signer `p` collects from the others, by signer id. */
  ghost function AlphaMap(se: Session, p: nat, bs: seq<nat>, ds: seq<Draws>): (r: map<nat, int>)
    requires Usable(se, p) && |bs| == |ds| == |se.S|
    ensures forall i :: i in r <==> i in se.S
  {
    map i | i in se.S :: AlphaValue(se, p, bs[Pos(se.S, i)], ds[Pos(se.S, i)])
  }

  ghost function BetaMap(se: Session, p: nat, bs: seq<nat>, ds: seq<Draws>): (r: map<nat, int>)
    requires Usable(se, p) && |bs| == |ds| == |se.S|
    ensures forall i :: i in r <==> i in se.S
  {
    map i | i in se.S :: BetaValue(se, p, bs[Pos(se.S, i)], ds[Pos(se.S, i)])
  }

  /** Signer `p`'s share of the product of the summed `ks` with the summed `bs`, as its handler adds it up. */
  ghost function ProductShare(se: Session, p: nat, bs: seq<nat>, ds: seq<Draws>): int
    requires Usable(se, p) && |bs| == |ds| == |se.S| && p < |se.S| && p < |se.orders| && se.curve.N > 0
    requires multiset(se.orders[p]) == multiset(se.S)
  {
    SameMembers(se.orders[p], se.S);
    Sum(Contributions(se.orders[p], se.S[p], (se.ks[p] * bs[p]) % se.curve.N,
                      AlphaMap(se, p, bs, ds), BetaMap(se, p, bs, ds))) % se.curve.N
  }

  lemma SameMembers(s: seq<nat>, t: seq<nat>)
    requires multiset(s) == multiset(t)
    ensures forall i :: i in s <==> i in t
  {
    forall i: nat
      ensures i in s <==> i in t
    {
      assert i in s <==> i in multiset(s);
      assert i in t <==> i in multiset(t);
    }
  }

  /** The contributions do not depend on the order in which a signer lists the others. */
  lemma {:induction false} ContributionsAnyOrder(s: seq<nat>, t: seq<nat>, self: nat, own: int, alphas: map<nat, int>, betas: map<nat, int>)
    requires multiset(s) == multiset(t)
    requires (forall i :: i in s && i != self ==> i in alphas && i in betas) && (forall i :: i in t && i != self ==> i in alphas && i in betas)
    ensures Sum(Contributions(s, self, own, alphas, betas)) == Sum(Contributions(t, self, own, alphas, betas))
  {
    SameMembers(s, t);
    var m := map i | i in s :: if i == self then own else alphas[i] + betas[i];
    assert Along(m, s) == Contributions(s, self, own, alphas, betas);
    assert Along(m, t) == Contributions(t, self, own, alphas, betas);
    AlongPermutation(m, s, t);
    SumPermutation(Along(m, s), Along(m, t));
  }

  ghost function TermsOf(se: Session, p: nat, bs: seq<nat>, ds: seq<Draws>): (r: seq<int>)
    requires Usable(se, p) && |bs| == |ds| == |se.S| && p < |se.S|
    ensures |r| == |se.S|
  {
    Contributions(se.S, se.S[p], (se.ks[p] * bs[p]) % se.curve.N, AlphaMap(se, p, bs, ds), BetaMap(se, p, bs, ds))
  }

  ghost function OwnTerm(k: int, b: int, N: int): int
    requires N > 0
  {
    (k * b) % N
  }

  lemma OwnTermCong(k: int, b: int, N: int)
    requires N > 0
    ensures Cong(OwnTerm(k, b, N), Times(k, b), N)
  {
    CongMod(k * b, N);
  }

  lemma TermIs(se: Session, p: nat, bs: seq<nat>, ds: seq<Draws>, j: nat)
    requires Usable(se, p) && |bs| == |ds| == |se.S| && p < |se.S| && j < |se.S| && Distinct(se.S)
    ensures TermsOf(se, p, bs, ds)[j] ==
              if j == p then OwnTerm(se.ks[p], bs[p], se.curve.N) else AlphaValue(se, p, bs[j], ds[j]) + BetaValue(se, p, bs[j], ds[j])
  {
    hide AlphaValue, BetaValue, Usable;
    assert se.S[j] in se.S;
    assert Pos(se.S, se.S[j]) == j;
  }

  lemma OneTerm(se: Session, p: nat, bs: seq<nat>, ds: seq<Draws>, j: nat)
    requires HonestSession(se) && Usable(se, p) && p < |se.S| && j < |se.S| && |bs| == |se.S|
    requires (forall j :: 0 <= j < |bs| ==> bs[j] < se.curve.N) && HonestDraws(ds, se.keys[p], |se.S|, se.curve.N)
    ensures Cong(TermsOf(se, p, bs, ds)[j], Times(se.ks[p], bs[j]), se.curve.N)
  {
    assert se.curve.N > 0 && |ds| == |se.S| == |se.ks| == |se.keys| && Distinct(se.S);
    assert j != p ==> bs[j] < se.curve.N && ds[j].betaTag < se.curve.N && GoodDraw(ds[j].nonce, se.keys[p]);
    hide HonestSession, Usable, HonestDraws, TermsOf, AlphaValue, BetaValue, AlphaFrom, Cong, GoodDraw, ValidKey, OwnTerm, Times;
    TermIs(se, p, bs, ds, j);
    if j == p {
      OwnTermCong(se.ks[p], bs[p], se.curve.N);
    } else {
      Exchange(se, p, bs[j], ds[j]);
    }
  }

  lemma ShareIsSum(se: Session, p: nat, bs: seq<nat>, ds: seq<Draws>)
    requires WellFormed(se) && Usable(se, p) && p < |se.S| && |bs| == |ds| == |se.S|
    ensures ProductShare(se, p, bs, ds) == Sum(TermsOf(se, p, bs, ds)) % se.curve.N
  {
    SameMembers(se.orders[p], se.S);
    ContributionsAnyOrder(se.orders[p], se.S, se.S[p], (se.ks[p] * bs[p]) % se.curve.N,
                          AlphaMap(se, p, bs, ds), BetaMap(se, p, bs, ds));
  }

  /** A signer's share is, modulo N, its own k times the sum of everybody's b. */
  lemma ShareIsProduct(se: Session, p: nat, bs: seq<nat>, ds: seq<Draws>)
    requires HonestSession(se) && Usable(se, p) && p < |se.S| && |bs| == |se.S|
    requires (forall j :: 0 <= j < |bs| ==> bs[j] < se.curve.N) && HonestDraws(ds, se.keys[p], |se.S|, se.curve.N)
    ensures Cong(ProductShare(se, p, bs, ds), Times(se.ks[p], Sum(bs)), se.curve.N)
  {
    hide Times, Cong, TermsOf, ProductShare, Sum;
    var N, terms := se.curve.N, TermsOf(se, p, bs, ds);
    forall j | 0 <= j < |bs|
      ensures Cong(terms[j], Times(se.ks[p], bs[j]), N)
    {
      OneTerm(se, p, bs, ds, j);
    }
    PeerTermsSum(se.ks[p], bs, terms, N);
    ShareIsSum(se, p, bs, ds);
    ResidueTrans(ProductShare(se, p, bs, ds), Sum(terms), Times(se.ks[p], Sum(bs)), N);
  }

  lemma ResidueTrans(a: int, x: int, y: int, N: int)
    requires N > 0 && a == x % N && Cong(x, y, N)
    ensures Cong(a, y, N)
  {
    CongMod(x, N);
  }

  ghost function Deltas(se: Session): (r: seq<int>)
    requires HonestSession(se)
    ensures |r| == |se.S|
  {
    seq(|se.S|, p requires 0 <= p < |se.S| =>
      KeysUsable(se, p);
      ProductShare(se, p, se.gammas, se.gammaDraws[p]))
  }

  ghost function Sigmas(se: Session): (r: seq<int>)
    requires HonestSession(se)
    ensures |r| == |se.S|
  {
    seq(|se.S|, p requires 0 <= p < |se.S| =>
      KeysUsable(se, p);
      ProductShare(se, p, Ws(se), se.wiDraws[p]))
  }

  lemma SharedProducts(se: Session)
    requires HonestSession(se)
    ensures SharedProduct(se.ks, se.gammas, Deltas(se), se.curve.N)
    ensures SharedProduct(se.ks, Ws(se), Sigmas(se), se.curve.N)
  {
    hide ProductShare, Cong, Times, Ws;
    forall p | 0 <= p < |se.S|
      ensures Cong(Deltas(se)[p], Times(se.ks[p], Sum(se.gammas)), se.curve.N)
      ensures Cong(Sigmas(se)[p], Times(se.ks[p], Sum(Ws(se))), se.curve.N)
    {
      KeysUsable(se, p);
      ShareIsProduct(se, p, se.gammas, se.gammaDraws[p]);
      ShareIsProduct(se, p, Ws(se), se.wiDraws[p]);
    }
  }

  // ---------- the signature ----------

  /** The gamma points all signers reveal. */
  ghost function RevealedGammas(se: Session): (r: seq<int>)
    requires WellFormed(se)
    ensures |r| == |se.S| && forall p :: 0 <= p < |r| ==> r[p] == ScalarBaseMult(se.gammas[p], se.curve.N)
  {
    seq(|se.S|, p requires 0 <= p < |se.S| => ScalarBaseMult(se.gammas[p], se.curve.N))
  }

  /** The nonce point every signer derives from its maps of gamma points and deltas. */
  ghost function NonceOf(se: Session): Point
    requires HonestSession(se)
  {
    NoncePoint(ScalarBaseMult(MapSum(Keyed(se.S, RevealedGammas(se))), se.curve.N), MapSum(Keyed(se.S, Deltas(se))), se.curve.N)
  }

  ghost function SharesWith(message: int, ks: seq<int>, r: int, sigmas: seq<int>, N: int): (ss: seq<int>)
    requires N > 0 && |ks| == |sigmas|
    ensures |ss| == |ks| && forall p :: 0 <= p < |ss| ==> ss[p] == SignatureShare(message, ks[p], r, sigmas[p], N)
  {
    seq(|ks|, p requires 0 <= p < |ks| => SignatureShare(message, ks[p], r, sigmas[p], N))
  }

  ghost function SignatureShares(se: Session): (r: seq<int>)
    requires HonestSession(se)
    ensures |r| == |se.S|
  {
    SharesWith(se.message, se.ks, RCoordinate(NonceOf(se), se.curve), Sigmas(se), se.curve.N)
  }

  /** The summed nonces, the summed masks and the resulting s are not zero modulo the group order. */
  ghost predicate NonzeroSums(se: Session)
    requires HonestSession(se)
  {
    Nonzero(Sum(se.ks), se.curve.N) && Nonzero(Sum(se.gammas), se.curve.N) && Nonzero(Sum(SignatureShares(se)), se.curve.N)
  }

  lemma NonceFromMaps(se: Session)
    requires HonestSession(se)
    ensures NonceOf(se) == NoncePoint(ScalarBaseMult(Sum(se.gammas), se.curve.N), Sum(Deltas(se)), se.curve.N)
  {
    var N, gs := se.curve.N, RevealedGammas(se);
    KeyedSum(se.S, gs);
    KeyedSum(se.S, Deltas(se));
    forall p | 0 <= p < |gs|
      ensures Cong(gs[p], se.gammas[p], N)
    {
      CongMod(se.gammas[p], N);
    }
    SumCong(gs, se.gammas, N);
  }

  /** Whatever the sums are, the shares add up to k*(m + r*x), with x the secret behind the public key. */
  lemma ShareTotal(se: Session)
    requires HonestSession(se)
    ensures WellFormed(se)
    ensures TotalSignature(Sum(SignatureShares(se)), Sum(se.ks), se.message, RCoordinate(NonceOf(se), se.curve),
                           Sum(ConstantTerms(se.polys)), se.curve.N)
  {
    hide HonestSession, Ws, Sigmas, SharedProduct, Cong, NonceOf, SignatureShare, RCoordinate, Sum, Lin;
    SessionFormed(se);
    var N, r := se.curve.N, RCoordinate(NonceOf(se), se.curve);
    SharedProducts(se);
    ShareOut(se);
    forall p | 0 <= p < |se.S|
      ensures Cong(SignatureShares(se)[p], Lin(se.message, se.ks[p], r, Sigmas(se)[p]), N)
    {
      SignatureShareCong(se.message, se.ks[p], r, Sigmas(se)[p], N);
    }
    SharesSum(se.ks, Ws(se), Sigmas(se), SignatureShares(se), se.message, r, N);
    SameSecret(Sum(SignatureShares(se)), Sum(se.ks), se.message, r, Sum(Ws(se)), Sum(ConstantTerms(se.polys)), N);
  }

  lemma SameSecret(s: int, k: int, m: int, r: int, w: int, x: int, N: int)
    requires N > 0 && TotalSignature(s, k, m, r, w, N) && Cong(w, x, N)
    ensures TotalSignature(s, k, m, r, x, N)
  {
    hide Cong;
    CongRefl(r, N);
    CongMul(r, r, w, x, N);
    CongRefl(m, N);
    CongAdd(m, m, r * w, r * x, N);
    CongRefl(k, N);
    CongMul(k, k, m + r * w, m + r * x, N);
    CongTrans(s, k * (m + r * w), k * (m + r * x), N);
  }

  /**
   The main theorem: for every number of notaries, threshold, prime group order above the number
   of notaries, choice of honest secrets and set of more than threshold signers, however each of
   them lists the others, the session's shares sum to a signature that verifies under the joint
   public key, and s*R = m*G + r*Y holds for the phase-5 test.
   */
  lemma SignatureVerifies(se: Session)
    requires HonestSession(se) && NonzeroSums(se)
    ensures Accepts(Sum(SignatureShares(se)), NonceOf(se), PublicKeyOf(se), se.message, se.curve)
    ensures Balanced(Sum(SignatureShares(se)), NonceOf(se), se.message, RCoordinate(NonceOf(se), se.curve), PublicKeyOf(se), se.curve.N)
  {
    hide HonestSession, Ws, Deltas, Sigmas, Accepts, Balanced, SharedProduct, Cong, Nonzero, NonceOf, SignatureShare, RCoordinate,
         ScalarBaseMult, NoncePoint, Sum, Lin;
    SessionFormed(se);
    var N, r := se.curve.N, RCoordinate(NonceOf(se), se.curve);
    SharedProducts(se);
    ShareOut(se);
    NonceFromMaps(se);
    forall p | 0 <= p < |se.S|
      ensures Cong(SignatureShares(se)[p], Lin(se.message, se.ks[p], r, Sigmas(se)[p]), N)
    {
      SignatureShareCong(se.message, se.ks[p], r, Sigmas(se)[p], N);
    }
    CongRefl(Sum(SignatureShares(se)), N);
    PublicKeyCong(se);
    SigningCorrect(se.ks, se.gammas, Ws(se), Deltas(se), Sigmas(se), SignatureShares(se), NonceOf(se),
                   Sum(SignatureShares(se)), PublicKeyOf(se), se.message, se.curve);
  }

  lemma SessionFormed(se: Session)
    requires HonestSession(se)
    ensures WellFormed(se)
  {
  }

  lemma PublicKeyCong(se: Session)
    requires WellFormed(se) && Cong(Sum(Ws(se)), Sum(ConstantTerms(se.polys)), se.curve.N)
    ensures Cong(PublicKeyOf(se), Sum(Ws(se)), se.curve.N)
  {
    CongMod(Sum(ConstantTerms(se.polys)), se.curve.N);
  }

  // ---------- the phase-5 exchange ----------

  /** All signers' decommitments, formed as the handlers' contracts say. */
  ghost predicate HonestRounds(ls: seq<LocalSignature>, d1: seq<Decom1>, d2: seq<Decom2>, curve: Curve)
    requires curve.N > 0 && |ls| == |d1| == |d2|
  {
    forall p :: 0 <= p < |ls| ==>
      && FirstRoundHonest(ls[p], d1[p], curve.N)
      && SecondRoundHonest(ls[p], d2[p], Sum(DecomVs(d1)), LessOwn(Sum(DecomAs(d1)), d1[p].Ai), curve)
  }

  ghost function LIs(ls: seq<LocalSignature>): (r: seq<int>)
    ensures |r| == |ls| && forall i :: 0 <= i < |r| ==> r[i] == ls[i].LI
  {
    seq(|ls|, i requires 0 <= i < |ls| => ls[i].LI)
  }

  ghost function RhoIs(ls: seq<LocalSignature>): (r: seq<int>)
    ensures |r| == |ls| && forall i :: 0 <= i < |r| ==> r[i] == ls[i].RhoI
  {
    seq(|ls|, i requires 0 <= i < |ls| => ls[i].RhoI)
  }

  ghost function SIs(ls: seq<LocalSignature>): (r: seq<int>)
    ensures |r| == |ls| && forall i :: 0 <= i < |r| ==> r[i] == ls[i].SI
  {
    seq(|ls|, i requires 0 <= i < |ls| => ls[i].SI)
  }

  /**
   The test every signer makes before giving away its share, with decommitments as the handlers
   form them, accepts exactly when the shares sum to a valid signature.
   */
  lemma PhaseFiveDecides(ls: seq<LocalSignature>, d1: seq<Decom1>, d2: seq<Decom2>, R: Point, m: int, y: Point, curve: Curve)
    requires IsPrime(curve.N) && |ls| == |d1| == |d2| && HonestRounds(ls, d1, d2, curve)
    requires forall p :: 0 <= p < |ls| ==> ls[p].R == R && ls[p].M == m && ls[p].Y == y
    requires Nonzero(Sum(RhoIs(ls)), curve.N)
    ensures TestAccepts(Sum(PointsT(d2)), Sum(PointsB(d1)), Sum(PointsU(d2)), curve.N) <==>
            Balanced(Sum(SIs(ls)), R, m, RCoordinate(R, curve), y, curve.N)
  {
    hide Cong, TestAccepts, Balanced, Lin, Times, Unsigned, Nonzero, RCoordinate, Sum, LessOwn;
    var N, r := curve.N, RCoordinate(R, curve);
    forall p | 0 <= p < |ls|
      ensures Cong(DecomAs(d1)[p], RhoIs(ls)[p], N)
    {
      ResidueCong(d1[p].Ai, ls[p].RhoI, N);
    }
    assert FirstDecommitments(LIs(ls), RhoIs(ls), SIs(ls), R, DecomVs(d1), DecomAs(d1), PointsB(d1), N);
    assert SecondDecommitments(LIs(ls), RhoIs(ls), DecomVs(d1), DecomAs(d1), PointsU(d2), PointsT(d2), m, r, y, N);
    Phase5Exact(LIs(ls), RhoIs(ls), SIs(ls), R, DecomVs(d1), DecomAs(d1), PointsB(d1), PointsU(d2), PointsT(d2), m, r, y, N);
  }

  lemma ResidueCong(a: int, x: int, N: int)
    requires N > 0 && a == x % N
    ensures Cong(a, x, N)
  {
    CongMod(x, N);
  }

  /** An honest session passes its own phase-5 test. */
  lemma HonestSessionPassesPhaseFive(se: Session, ls: seq<LocalSignature>, d1: seq<Decom1>, d2: seq<Decom2>)
    requires HonestSession(se) && NonzeroSums(se) && |ls| == |d1| == |d2| == |se.S|
    requires forall p :: 0 <= p < |ls| ==>
               ls[p].R == NonceOf(se) && ls[p].M == se.message && ls[p].Y == PublicKeyOf(se) && ls[p].SI == SignatureShares(se)[p]
    requires HonestRounds(ls, d1, d2, se.curve) && Nonzero(Sum(RhoIs(ls)), se.curve.N)
    ensures TestAccepts(Sum(PointsT(d2)), Sum(PointsB(d1)), Sum(PointsU(d2)), se.curve.N)
  {
    hide TestAccepts, Balanced, HonestRounds, Nonzero;
    assert SIs(ls) == SignatureShares(se);
    SignatureVerifies(se);
    PhaseFiveDecides(ls, d1, d2, NonceOf(se), se.message, PublicKeyOf(se), se.curve);
  }
}
