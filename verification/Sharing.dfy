/**
 What secret sharing is for: any large enough set of honest shares determines the secret,
 whether it is reconstructed directly or split again into one additive share per signer, and
 whatever order each signer lists the signer set in.
 */
module Sharing {
  import opened Collections
  import opened NumberTheory
  import opened Polynomials
  import opened Feldman

  /** Signer or share-holder ids: no repeats, and their evaluation points stay below the prime. */
  ghost predicate ValidIds(s: seq<nat>, N: int) {
    Distinct(s) && forall i :: 0 <= i < |s| ==> s[i] + 1 < N
  }

  lemma PointsDistinct(s: seq<nat>, N: int)
    requires N > 0 && ValidIds(s, N)
    ensures DistinctMod(PointsOf(s, N), N)
    ensures forall i :: 0 <= i < |s| ==> PointsOf(s, N)[i] == s[i] + 1
  {
    var xs := PointsOf(s, N);
    forall i | 0 <= i < |s|
      ensures xs[i] == s[i] + 1
    {
      SmallMod(s[i] + 1, N);
    }
    forall i, j | 0 <= i < j < |xs|
      ensures !Cong(xs[i], xs[j], N)
    {
      SmallMod(xs[i], N);
      SmallMod(xs[j], N);
    }
  }

  /** `shares[k]` is, modulo N, the value at `s[k] + 1` of the polynomial `c`. */
  ghost predicate HonestShares(c: seq<int>, s: seq<nat>, shares: seq<int>, N: int)
    requires N > 0
  {
    |shares| == |s| && forall k :: 0 <= k < |s| ==> Cong(shares[k], Eval(c, s[k] + 1), N)
  }

  lemma LagrangeSumCong(ys: seq<int>, zs: seq<int>, xs: seq<int>, p: int)
    requires p >= 2 && |ys| == |zs| == |xs|
    requires forall i :: 0 <= i < |xs| ==> Cong(ys[i], zs[i], p)
    ensures Cong(LagrangeSum(ys, xs, p), LagrangeSum(zs, xs, p), p)
  {
    hide Weight;
    var t, u := Terms(ys, xs, p), Terms(zs, xs, p);
    forall i | 0 <= i < |xs|
      ensures Cong(t[i], u[i], p)
    {
      var w := Weight(Others(xs, i), xs[i], p);
      CongMul(ys[i], zs[i], w, w, p);
    }
    SumCong(t, u, p);
  }

  lemma SharesInterpolate(c: seq<int>, s: seq<nat>, shares: seq<int>, N: int)
    requires IsPrime(N) && 0 < |c| <= |s| && ValidIds(s, N) && HonestShares(c, s, shares, N)
    ensures Cong(LagrangeSum(shares, PointsOf(s, N), N), c[0], N)
  {
    var xs := PointsOf(s, N);
    PointsDistinct(s, N);
    LagrangeSumCong(shares, Values(c, xs), xs, N);
    LagrangeAtZero(c, xs, N);
    EvalAtZero(c);
  }

  /**
   Reconstruction: for every polynomial and every set of at least as many distinct indices as it
   has coefficients, reconstructing from the honest shares gives the constant term.
   */
  lemma ReconstructionCorrect(c: seq<int>, indices: seq<nat>, shares: seq<int>, N: int)
    requires IsPrime(N) && 0 < |c| <= |indices| && ValidIds(indices, N) && HonestShares(c, indices, shares, N)
    ensures LagrangeResult(PointsOf(indices, N), shares, N) == c[0] % N
  {
    SharesInterpolate(c, indices, shares, N);
  }

  // ---------- weights do not depend on the order of the signer list ----------

  ghost function FactorProduct(s: seq<nat>, x: int, N: int): int
    requires N > 0
  {
    Product(Minus(PointsOf(s, N), x))
  }

  ghost function FactorOf(y: nat, x: int, N: int): int
    requires N > 0
  {
    (y + 1) % N - x
  }

  lemma {:induction false} FactorsPermutation(s: seq<nat>, t: seq<nat>, x: int, N: int)
    requires N > 0 && multiset(s) == multiset(t)
    ensures FactorProduct(s, x, N) == FactorProduct(t, x, N)
    decreases s
  {
    hide FactorProduct, FactorOf;
    if s == [] {
      assert |t| == |multiset(t)|;
      assert t == s;
    } else {
      var k := MatchHead(s, t);
      assert s[..0] + s[1..] == s[1..];
      FactorsPermutation(s[1..], t[..k] + t[k + 1..], x, N);
      FactorAt(s, 0, x, N);
      FactorAt(t, k, x, N);
    }
  }

  lemma FactorAt(s: seq<nat>, k: nat, x: int, N: int)
    requires N > 0 && k < |s|
    ensures FactorProduct(s, x, N) == FactorOf(s[k], x, N) * FactorProduct(s[..k] + s[k + 1..], x, N)
  {
    var m := Minus(PointsOf(s, N), x);
    assert Minus(PointsOf(s[..k] + s[k + 1..], N), x) == m[..k] + m[k + 1..];
    ProductTakeOut(m, k);
  }

  lemma {:induction false} WithoutMultiset(s: seq<nat>, index: nat)
    ensures multiset(Without(s, index)) == multiset(s)[index := 0]
  {
    if s != [] {
      WithoutMultiset(s[1..], index);
      assert s == [s[0]] + s[1..];
      assert multiset(s) == multiset{s[0]} + multiset(s[1..]);
    }
  }

  lemma DistinctOthers(s: seq<nat>, k: nat)
    requires Distinct(s) && k < |s|
    ensures multiset(Others(s, k)) == multiset(s)[s[k] := 0]
  {
    SplitAt(s, k);
    assert s[k] !in Others(s, k);
    assert multiset(Others(s, k))[s[k]] == 0;
  }

  /** A signer's weight, computed from its own listing of the signers, is the Lagrange weight of its point. */
  lemma LambdaIsWeight(s: seq<nat>, order: seq<nat>, k: nat, N: int)
    requires N >= 2 && ValidIds(s, N) && k < |s| && multiset(order) == multiset(s)
    ensures Lambda(order, s[k], N) == Weight(Others(PointsOf(s, N), k), PointsOf(s, N)[k], N)
  {
    var w, o := Without(order, s[k]), Others(s, k);
    WithoutMultiset(order, s[k]);
    DistinctOthers(s, k);
    assert PointsOf(o, N) == Others(PointsOf(s, N), k);
    var x := PointsOf(s, N)[k];
    FactorsPermutation(w, o, 0, N);
    FactorsPermutation(w, o, x, N);
    MinusZero(PointsOf(w, N));
    MinusZero(PointsOf(o, N));
  }

  /** The additive share each signer derives: its weight times its share. */
  function AdditiveShares(s: seq<nat>, orders: seq<seq<nat>>, shares: seq<int>, N: int): (r: seq<int>)
    requires N >= 2 && |orders| == |shares| == |s|
    ensures |r| == |s|
    ensures forall k :: 0 <= k < |s| ==> r[k] == (Lambda(orders[k], s[k], N) * shares[k]) % N
  {
    seq(|s|, k requires 0 <= k < |s| => (Lambda(orders[k], s[k], N) * shares[k]) % N)
  }

  /** Every signer works from some listing of the same signer set. */
  ghost predicate SameSigners(s: seq<nat>, orders: seq<seq<nat>>) {
    |orders| == |s| && forall k :: 0 <= k < |s| ==> multiset(orders[k]) == multiset(s)
  }

  /** The additive shares of any large enough signer set sum to the secret. */
  lemma AdditiveSharesSum(c: seq<int>, s: seq<nat>, orders: seq<seq<nat>>, shares: seq<int>, N: int)
    requires IsPrime(N) && 0 < |c| <= |s| && ValidIds(s, N) && HonestShares(c, s, shares, N)
    requires SameSigners(s, orders)
    ensures Cong(Sum(AdditiveShares(s, orders, shares, N)), c[0], N)
  {
    hide Weight, Lambda, Cong;
    var xs := PointsOf(s, N);
    var a, t := AdditiveShares(s, orders, shares, N), Terms(shares, xs, N);
    forall k | 0 <= k < |s|
      ensures Cong(a[k], t[k], N)
    {
      LambdaIsWeight(s, orders[k], k, N);
      ReducedProduct(Weight(Others(xs, k), xs[k], N), shares[k], N);
    }
    SumCong(a, t, N);
    SharesInterpolate(c, s, shares, N);
    CongTrans(Sum(a), Sum(t), c[0], N);
  }

  lemma ReducedProduct(w: int, y: int, N: int)
    requires N > 0
    ensures Cong((w * y) % N, y * w, N)
  {
    assert w * y == y * w;
    CongMod(w * y, N);
  }

  // ---------- several dealers ----------

  /** The sum of the dealers' polynomials. */
  function SumPoly(polys: seq<seq<int>>): seq<int> {
    if polys == [] then [] else AddScaled(polys[0], 1, SumPoly(polys[1..]))
  }

  lemma {:induction false} SumPolyLength(polys: seq<seq<int>>, n: nat)
    requires forall d :: 0 <= d < |polys| ==> |polys[d]| <= n
    ensures |SumPoly(polys)| <= n
  {
    if polys != [] {
      SumPolyLength(polys[1..], n);
    }
  }

  function ValuesAt(polys: seq<seq<int>>, x: int): (r: seq<int>)
    ensures |r| == |polys| && forall d :: 0 <= d < |r| ==> r[d] == Eval(polys[d], x)
  {
    seq(|polys|, d requires 0 <= d < |polys| => Eval(polys[d], x))
  }

  lemma {:induction false} SumPolyEval(polys: seq<seq<int>>, x: int)
    ensures Eval(SumPoly(polys), x) == Sum(ValuesAt(polys, x))
  {
    if polys != [] {
      SumPolyEval(polys[1..], x);
      AddScaledEval(polys[0], 1, SumPoly(polys[1..]), x);
      assert ValuesAt(polys, x)[1..] == ValuesAt(polys[1..], x);
    }
  }

  lemma {:induction false} SumPolyConstant(polys: seq<seq<int>>)
    requires polys != [] && forall d :: 0 <= d < |polys| ==> polys[d] != []
    ensures SumPoly(polys) != [] && SumPoly(polys)[0] == Sum(ConstantTerms(polys))
  {
    assert |SumPoly(polys)| >= |polys[0]|;
    SumPolyEval(polys, 0);
    EvalAtZero(SumPoly(polys));
    forall d | 0 <= d < |polys|
      ensures ValuesAt(polys, 0)[d] == ConstantTerms(polys)[d]
    {
      EvalAtZero(polys[d]);
    }
    assert ValuesAt(polys, 0) == ConstantTerms(polys);
  }

  function ConstantTerms(polys: seq<seq<int>>): (r: seq<int>)
    requires forall d :: 0 <= d < |polys| ==> polys[d] != []
    ensures |r| == |polys| && forall d :: 0 <= d < |r| ==> r[d] == polys[d][0]
  {
    seq(|polys|, d requires 0 <= d < |polys| => polys[d][0])
  }
}
