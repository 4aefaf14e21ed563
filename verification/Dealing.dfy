/**
 What the checks of key generation give against dealers that do as they like.  Every share that is
 taken lies on the polynomial the receiver was shown for it, whose constant term is the point its
 dealer announced.  Whether receivers were shown the same polynomial, and how long it is, nobody asks.
 */
module Dealing {
  import opened Collections
  import opened NumberTheory
  import opened Polynomials
  import opened Feldman
  import opened Paillier
  import opened Proofs
  import opened Scalars
  import opened Sharing
  import opened Arrivals
  import opened KeyGen

  // ---------- the first two phases ----------

  /** Proved with the secret `sk`, a point is taken exactly if it is that secret's, for a nonzero challenge. */
  lemma PointTaken(pk: Point, sk: int, rand: int, curve: Curve)
    requires IsPrime(curve.N) && DLogChallenge(DLogAnswer(pk, sk, rand, curve).commitment, pk, curve) != 0
    ensures ProofCheck(DLogAnswer(pk, sk, rand, curve), curve) == Pass <==> Cong(pk, sk, curve.N)
  {
    DLogExact(pk, sk, rand, curve);
  }

  /** A properly formed Paillier key is taken exactly with the roots of its challenges, when the primorial spares its primes. */
  lemma PaillierTaken(key: PrivateKey, m: PaillierMessage, st: Settings)
    requires ValidKey(key) && key.n > 0 && key.dp >= 0 && key.dq >= 0 && m.paillierPubkey.N == key.n && |m.correctKeyProof| >= M2
    ensures PaillierCheck(m, st) == Pass <==>
            && st.primorial % key.p != 0 && st.primorial % key.q != 0
            && forall i :: 0 <= i < M2 ==> ExtractNroot(key, Rho(st.mask, key.n, i)) == Ok(m.correctKeyProof[i] % key.n)
  {
    hide KeyProofAccepted;
    KeyProofExact(key, m.correctKeyProof, st.primorial, st.mask);
  }

  // ---------- shares ----------

  /** What one notary holds when phase 3 is over, its own dealing included: the shares, and the announced points. */
  datatype View = View(self: nat, shares: map<nat, ShareMessage>, announced: seq<DLogProof>)

  /** The share passed both checks. */
  ghost predicate Taken(m: ShareMessage, announced: DLogProof, self: nat, N: int)
    requires N > 0
  {
    m.vss.commitments != [] && KeyCheck(m, announced) == Pass && ShareCheck(m, self, N) == Pass
  }

  /** In whatever order and however often messages come in, only such shares are kept. */
  lemma OnlyTaken(a: seq<nat>, msgs: map<nat, ShareMessage>, announced: map<nat, DLogProof>, self: nat, N: int)
    requires N > 0 && forall i :: i in a ==> i in msgs && i in announced && msgs[i].vss.commitments != []
    ensures var kept := Delivered(a, msgs, ShareVerdict(msgs, announced, self, N));
            forall i :: i in a ==> (i in kept <==> Taken(msgs[i], announced[i], self, N)) && (i in kept ==> kept[i] == msgs[i])
  {
    hide KeyCheck, ShareCheck;
    DeliveredSlots(a, msgs, ShareVerdict(msgs, announced, self, N));
  }

  ghost predicate Finished(v: View, n: nat, N: int)
    requires N > 0
  {
    |v.announced| == n && (forall i: nat :: i in v.shares <==> i < n) && forall i :: 0 <= i < n ==> Taken(v.shares[i], v.announced[i], v.self, N)
  }

  /** The polynomials this notary was shown. */
  function Shown(v: View): (r: seq<seq<int>>)
    requires forall i: nat :: i in v.shares <==> i < |v.announced|
    ensures |r| == |v.announced| && forall i :: 0 <= i < |r| ==> r[i] == v.shares[i].vss.commitments
  {
    seq(|v.announced|, i requires 0 <= i < |v.announced| => v.shares[i].vss.commitments)
  }

  function Points(v: View): (r: seq<int>)
    ensures |r| == |v.announced| && forall i :: 0 <= i < |r| ==> r[i] == v.announced[i].PK
  {
    seq(|v.announced|, i requires 0 <= i < |v.announced| => v.announced[i].PK)
  }

  ghost function KeyShareOf(v: View, N: int): int
    requires N > 0
  {
    MapSum(SecretShares(v.shares)) % N
  }

  /**
   Whatever the dealers sent: a notary that has taken a share from each holds the value, at its own
   point, of the sum of the polynomials it was shown, and that sum's constant term is the public key
   made of the points they announced.
   */
  lemma KeyShareOnShown(v: View, n: nat, N: int)
    requires N > 0 && n > 0 && Finished(v, n, N)
    ensures Cong(KeyShareOf(v, N), Eval(SumPoly(Shown(v)), v.self + 1), N)
    ensures SumPoly(Shown(v)) != [] && SumPoly(Shown(v))[0] == Sum(Points(v))
  {
    var ss, all, polys := SecretShares(v.shares), OneToAll(n), Shown(v);
    var values := ValuesAt(polys, v.self + 1);
    AllWalked(v, n, N);
    hide MapSum, Eval, Taken, SumPoly, Cong, Sum, Walks;
    forall i | 0 <= i < n
      ensures Cong(ss[all[i]], values[i], N) && polys[i] != [] && polys[i][0] == Points(v)[i]
    {
      TakenParts(v, i, n, N);
    }
    SumsUp(v, values, n, N);
    SumPolyEval(polys, v.self + 1);
    SumPolyConstant(polys);
    assert ConstantTerms(polys) == Points(v);
  }

  lemma AllWalked(v: View, n: nat, N: int)
    requires N > 0 && Finished(v, n, N)
    ensures Walks(OneToAll(n), SecretShares(v.shares).Keys)
  {
    AllListed(n);
    hide Taken;
  }

  lemma SumsUp(v: View, values: seq<int>, n: nat, N: int)
    requires N > 0 && Walks(OneToAll(n), SecretShares(v.shares).Keys) && |values| == n
    requires forall i: nat :: i < n ==> OneToAll(n)[i] in SecretShares(v.shares) && Cong(SecretShares(v.shares)[OneToAll(n)[i]], values[i], N)
    ensures Cong(KeyShareOf(v, N), Sum(values), N)
  {
    hide MapSum, Sum, Walks;
    var total := MapSum(SecretShares(v.shares));
    MapSumCong(SecretShares(v.shares), OneToAll(n), values, N);
    CongMod(total, N);
    CongTrans(total % N, total, Sum(values), N);
  }

  lemma TakenParts(v: View, i: nat, n: nat, N: int)
    requires N > 0 && Finished(v, n, N) && i < n
    ensures var m := v.shares[i];
            && Cong(m.secretShare, Eval(m.vss.commitments, v.self + 1), N)
            && m.vss.commitments != [] && m.vss.commitments[0] == v.announced[i].PK
  {
    assert Taken(v.shares[i], v.announced[i], v.self, N);
  }

  // ---------- several notaries ----------

  function Holders(vs: seq<View>): (r: seq<nat>)
    ensures |r| == |vs| && forall k :: 0 <= k < |r| ==> r[k] == vs[k].self
  {
    seq(|vs|, k requires 0 <= k < |vs| => vs[k].self)
  }

  ghost function KeySharesOf(vs: seq<View>, N: int): (r: seq<int>)
    requires N > 0
    ensures |r| == |vs| && forall k :: 0 <= k < |r| ==> r[k] == KeyShareOf(vs[k], N)
  {
    seq(|vs|, k requires 0 <= k < |vs| => KeyShareOf(vs[k], N))
  }

  /** All of them have finished and were shown the same: the points, and the polynomials, none with more terms than they are. */
  ghost predicate ShownAlike(vs: seq<View>, n: nat, N: int)
    requires N > 0
  {
    && vs != [] && (forall k :: 0 <= k < |vs| ==> Finished(vs[k], n, N))
    && (forall k :: 0 <= k < |vs| ==> Shown(vs[k]) == Shown(vs[0]) && Points(vs[k]) == Points(vs[0]))
    && forall i :: 0 <= i < n ==> |Shown(vs[0])[i]| <= |vs|
  }

  lemma SharesOnShown(vs: seq<View>, n: nat, N: int)
    requires N > 0 && n > 0 && ShownAlike(vs, n, N)
    ensures var c := SumPoly(Shown(vs[0])); HonestShares(c, Holders(vs), KeySharesOf(vs, N), N) && 0 < |c| <= |vs| && c[0] == Sum(Points(vs[0]))
  {
    hide Taken, SumPoly, Eval, Sum, KeyShareOf, Cong, Shown, Points;
    var c := SumPoly(Shown(vs[0]));
    forall k | 0 <= k < |vs|
      ensures Cong(KeySharesOf(vs, N)[k], Eval(c, Holders(vs)[k] + 1), N)
    {
      KeyShareOnShown(vs[k], n, N);
      assert Shown(vs[k]) == Shown(vs[0]);
    }
    KeyShareOnShown(vs[0], n, N);
    ShownLength(vs, n, N);
    SumPolyLength(Shown(vs[0]), |vs|);
  }

  lemma ShownLength(vs: seq<View>, n: nat, N: int)
    requires N > 0 && ShownAlike(vs, n, N)
    ensures |Shown(vs[0])| == n
  {
    hide Taken;
    assert Finished(vs[0], n, N);
  }

  /**
   Notaries that were shown the same hold shares of the secret behind the joint public key, whatever
   the dealers did: they reconstruct it, and their additive shares for signing sum to it.
   */
  lemma TakenSharesReconstruct(vs: seq<View>, orders: seq<seq<nat>>, n: nat, N: int)
    requires IsPrime(N) && n > 0 && ShownAlike(vs, n, N) && ValidIds(Holders(vs), N) && SameSigners(Holders(vs), orders)
    ensures LagrangeResult(PointsOf(Holders(vs), N), KeySharesOf(vs, N), N) == Sum(Points(vs[0])) % N
    ensures Cong(Sum(AdditiveShares(Holders(vs), orders, KeySharesOf(vs, N), N)), Sum(Points(vs[0])), N)
  {
    SharesOnShown(vs, n, N);
    hide ShownAlike, SumPoly, LagrangeResult;
    ReconstructionCorrect(SumPoly(Shown(vs[0])), Holders(vs), KeySharesOf(vs, N), N);
    AdditiveSharesSum(SumPoly(Shown(vs[0])), Holders(vs), orders, KeySharesOf(vs, N), N);
  }

  // ---------- a dealer that shows two polynomials ----------

  /** What notary `self` holds of the one dealer's polynomial u + a*x. */
  function Dealt(self: nat, u: int, a: int): View {
    View(self, map[0 := ShareMessage(VerifiableSS(1, 2, [u, a]), u + a * (self + 1), self)], [DLogProof(u, 0, 0)])
  }

  lemma DealtTaken(self: nat, u: int, a: int, N: int)
    requires N > 0
    ensures Finished(Dealt(self, u, a), 1, N) && KeyShareOf(Dealt(self, u, a), N) == (u + a * (self + 1)) % N
  {
    var v := Dealt(self, u, a);
    assert Eval([u, a], self + 1) == u + (self + 1) * Eval([a], self + 1) && Eval([a], self + 1) == a + (self + 1) * Eval([], self + 1);
    MapSumAnyOrder(SecretShares(v.shares), [0]);
    assert Along(SecretShares(v.shares), [0]) == [u + a * (self + 1)];
    assert Sum([u + a * (self + 1)]) == u + a * (self + 1);
  }

  /**
   A dealer shows one notary u + a*x and another u + b*x.  Both take their shares, and what they
   reconstruct is the announced secret if and only if it showed them the same.
   */
  lemma SplitDealing(u: int, a: int, b: int, N: int)
    requires IsPrime(N) && N > 2
    ensures var vs := [Dealt(0, u, a), Dealt(1, u, b)];
            && (forall k :: 0 <= k < 2 ==> Finished(vs[k], 1, N) && Points(vs[k]) == [u])
            && (LagrangeResult(PointsOf(Holders(vs), N), KeySharesOf(vs, N), N) == u % N <==> Cong(a, b, N))
  {
    var vs, c := [Dealt(0, u, a), Dealt(1, u, b)], [u + 2 * (a - b), 2 * b - a];
    DealtTaken(0, u, a, N);
    DealtTaken(1, u, b, N);
    Through(u, a, b, N);
    hide Finished, KeyShareOf, LagrangeResult, Eval, Cong;
    assert Holders(vs) == [0, 1];
    ReconstructionCorrect(c, Holders(vs), KeySharesOf(vs, N), N);
    OffBy(u, a, b, N);
  }

  lemma Through(u: int, a: int, b: int, N: int)
    requires N > 0
    ensures var c := [u + 2 * (a - b), 2 * b - a]; Cong((u + a) % N, Eval(c, 1), N) && Cong((u + b * 2) % N, Eval(c, 2), N)
  {
    Line(u + 2 * (a - b), 2 * b - a, 1);
    Line(u + 2 * (a - b), 2 * b - a, 2);
    CongMod(u + a, N);
    CongMod(u + b * 2, N);
    hide Eval, Cong;
    assert u + 2 * (a - b) + 1 * (2 * b - a) == u + a && u + 2 * (a - b) + 2 * (2 * b - a) == u + b * 2;
  }

  lemma Line(c: int, m: int, x: int)
    ensures Eval([c, m], x) == c + x * m
  {
    assert [c, m][1..] == [m] && [m][1..] == [];
    assert Eval([m], x) == m + x * Eval([], x);
  }

  /** Twice the difference is what separates the two. */
  lemma OffBy(u: int, a: int, b: int, N: int)
    requires IsPrime(N) && N > 2
    ensures Cong(u + 2 * (a - b), u, N) <==> Cong(a, b, N)
  {
    hide Cong;
    CongRefl(u - 2 * b, N);
    CongRefl(-u, N);
    CongRefl(2 * b, N);
    CongRefl(2, N);
    if Cong(a, b, N) {
      CongMul(2, 2, a, b, N);
      CongAdd(u - 2 * b, u - 2 * b, 2 * a, 2 * b, N);
      assert u - 2 * b + 2 * a == u + 2 * (a - b) && u - 2 * b + 2 * b == u;
    }
    if Cong(u + 2 * (a - b), u, N) {
      CongAdd(-u, -u, u + 2 * (a - b), u, N);
      assert -u + (u + 2 * (a - b)) == 2 * (a - b) && -u + u == 0;
      CongAdd(2 * b, 2 * b, 2 * (a - b), 0, N);
      assert 2 * b + 2 * (a - b) == 2 * a && 2 * b + 0 == 2 * b;
      SmallMod(2, N);
      CancelMod(2, a, b, N);
    }
  }
}
