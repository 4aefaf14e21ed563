/**
 Feldman verifiable secret sharing: a dealer shares a secret through a polynomial and commits
 to the coefficients, a receiver checks its share against the commitments, and enough shares
 give the secret back, directly or through per-signer weights.
 */
module Feldman {
  import opened NumberTheory
  import opened Polynomials
  import opened Scalars

  // ---------- specification ----------

  /** The share at `x`: the polynomial's value reduced (a lone coefficient is handed out as it is). */
  function ShareValue(c: seq<int>, x: int, N: int): int
    requires c != [] && N > 0
  {
    if |c| == 1 then c[0] else Eval(c, x) % N
  }

  /** `s` without the entries equal to `index`. */
  function Without(s: seq<nat>, index: nat): (r: seq<nat>)
    ensures forall i :: 0 <= i < |r| ==> r[i] in s && r[i] != index
  {
    if s == [] then []
    else if s[0] == index then Without(s[1..], index)
    else [s[0]] + Without(s[1..], index)
  }

  /** Notary `i` sits at the evaluation point `i + 1`. */
  function PointsOf(s: seq<nat>, N: int): (r: seq<int>)
    requires N > 0
    ensures |r| == |s| && forall i :: 0 <= i < |r| ==> r[i] == (s[i] + 1) % N
  {
    seq(|s|, i requires 0 <= i < |s| => (s[i] + 1) % N)
  }

  /** The weight that turns notary `index`'s share into an additive share among the signers `s`. */
  function Lambda(s: seq<nat>, index: nat, N: int): int
    requires N >= 2
  {
    Weight(PointsOf(Without(s, index), N), (index + 1) % N, N)
  }

  function LagrangeResult(points: seq<int>, values: seq<int>, N: int): int
    requires N >= 2 && |points| == |values|
  {
    LagrangeSum(values, points, N) % N
  }

  // ---------- evaluation and sharing ----------

  lemma HornerStep(c: seq<int>, j: nat, x: int, acc: int, N: int)
    requires N > 0 && j + 1 < |c| && Cong(acc, Eval(c[j + 1..], x), N)
    ensures Cong(((acc * (x % N)) % N + c[j]) % N, Eval(c[j..], x), N)
  {
    hide Cong;
    var e := Eval(c[j + 1..], x);
    assert c[j..][1..] == c[j + 1..];
    CongMod(x, N);
    CongMul(acc, e, x % N, x, N);
    CongMod(acc * (x % N), N);
    CongTrans((acc * (x % N)) % N, acc * (x % N), e * x, N);
    CongRefl(c[j], N);
    CongAdd((acc * (x % N)) % N, e * x, c[j], c[j], N);
    CongMod((acc * (x % N)) % N + c[j], N);
    CongTrans(((acc * (x % N)) % N + c[j]) % N, (acc * (x % N)) % N + c[j], e * x + c[j], N);
  }

  /** One share by Horner's rule, from the highest coefficient down. */
  method EvaluateAt(coefficients: seq<PrivKey>, x: nat, N: int) returns (sum: PrivKey)
    requires coefficients != [] && N > 0
    ensures fresh(sum) && sum.D == ShareValue(Nums(coefficients), x, N)
  {
    ghost var c := Nums(coefficients);
    var point := BigInt2PrivateKey(x, N);
    sum := coefficients[|coefficients| - 1].Clone();
    var j := |coefficients| - 2;
    assert c[|c| - 1..] == [c[|c| - 1]];
    while j >= 0
      invariant -1 <= j <= |c| - 2
      invariant fresh(sum) && fresh(point) && sum != point && point.D == x % N && Nums(coefficients) == c
      invariant Cong(sum.D, Eval(c[j + 1..], x), N)
      invariant j + 1 == |c| - 1 ==> sum.D == c[|c| - 1]
      invariant j + 1 < |c| - 1 ==> 0 <= sum.D < N
    {
      HornerStep(c, j, x, sum.D, N);
      var _ := ModMul(sum, point, N);
      var _ := ModAdd(sum, coefficients[j], N);
      j := j - 1;
    }
  }

  method EvaluatePolynomial(coefficients: seq<PrivKey>, index: seq<nat>, N: int) returns (bs: seq<PrivKey>)
    requires coefficients != [] && N > 0
    ensures |bs| == |index| && fresh(bs)
    ensures forall i :: 0 <= i < |bs| ==> bs[i].D == ShareValue(Nums(coefficients), index[i], N)
  {
    ghost var c := Nums(coefficients);
    bs := [];
    for i := 0 to |index|
      invariant |bs| == i && fresh(bs) && Nums(coefficients) == c
      invariant forall k :: 0 <= k < i ==> bs[k].D == ShareValue(c, index[k], N)
    {
      var sum := EvaluateAt(coefficients, index[i], N);
      bs := bs + [sum];
    }
  }

  datatype VerifiableSS = VerifiableSS(threshold: nat, shareCount: nat, commitments: seq<Point>)

  /** What a dealer with the polynomial `c` publishes. */
  ghost predicate CommitsTo(v: VerifiableSS, c: seq<int>, N: int)
    requires N > 0
  {
    |v.commitments| == |c| && forall i :: 0 <= i < |c| ==> v.commitments[i] == c[i] % N
  }

  /** Shares the secret among `n` receivers; `random` holds the sampled higher coefficients. */
  method Share(t: nat, n: nat, secret: PrivKey, random: seq<PrivKey>, N: int)
    returns (v: VerifiableSS, shares: seq<PrivKey>)
    requires N > 0 && |random| == t
    ensures v.threshold == t && v.shareCount == n && CommitsTo(v, Nums([secret] + random), N)
    ensures |shares| == n && fresh(shares)
    ensures forall i :: 0 <= i < n ==> shares[i].D == ShareValue(Nums([secret] + random), i + 1, N)
  {
    var poly := [secret] + random;
    ghost var c := Nums(poly);
    var index: seq<nat> := [];
    for i := 1 to n + 1
      invariant |index| == i - 1 && forall k :: 0 <= k < i - 1 ==> index[k] == k + 1
    {
      index := index + [i];
    }
    shares := EvaluatePolynomial(poly, index, N);
    var commitments: seq<Point> := [];
    for i := 0 to |poly|
      invariant |commitments| == i && fresh(shares) && Nums(poly) == c
      invariant forall k :: 0 <= k < i ==> commitments[k] == c[k] % N
      invariant forall k :: 0 <= k < n ==> shares[k].D == ShareValue(c, k + 1, N)
    {
      commitments := commitments + [ScalarBaseMult(poly[i].D, N)];
    }
    v := VerifiableSS(t, n, commitments);
  }

  // ---------- checking a share ----------

  lemma GroupHornerStep(v: VerifiableSS, c: seq<int>, j: nat, x: int, head: Point, N: int)
    requires N > 0 && CommitsTo(v, c, N) && j + 1 < |c| && head == Eval(c[j + 1..], x) % N
    ensures PointAdd(ScalarMult(head, x % N, N), v.commitments[j], N) == Eval(c[j..], x) % N
  {
    CongMod(Eval(c[j + 1..], x), N);
    HornerStep(c, j, x, head, N);
    AddReduced((head * (x % N)) % N, c[j], N);
    ResidueOf((head * (x % N) % N + c[j]) % N, Eval(c[j..], x), N);
  }

  lemma AddReduced(y: int, a: int, N: int)
    requires N > 0
    ensures (y + a % N) % N == (y + a) % N
  {
    CongMod(a, N);
    CongAdd(y, y, a % N, a, N);
  }

  lemma ResidueOf(r: int, e: int, N: int)
    requires N > 0 && 0 <= r < N && Cong(r, e, N)
    ensures r == e % N
  {
    SmallMod(r, N);
  }

  /**
   The receiver's check, a Horner loop over the committed points.  Against a dealer's own
   commitments it accepts exactly the value of the dealer's polynomial at the index.
   */
  method ValidateShare(v: VerifiableSS, secretShare: int, index: nat, N: int, ghost c: seq<int>) returns (ok: bool)
    requires N > 0 && |v.commitments| > 0 && CommitsTo(v, c, N)
    ensures ok <==> secretShare % N == Eval(c, index) % N
  {
    var ssPoint := ScalarBaseMult(secretShare, N);
    var indexFe := index % N;
    var l := |v.commitments|;
    var head := v.commitments[l - 1];
    var j := l - 2;
    assert c[l - 1..] == [c[l - 1]];
    while j >= 0
      invariant -1 <= j <= l - 2
      invariant head == Eval(c[j + 1..], index) % N
    {
      GroupHornerStep(v, c, j, index, head, N);
      var p := ScalarMult(head, indexFe, N);
      head := PointAdd(p, v.commitments[j], N);
      j := j - 1;
    }
    ok := ssPoint == head;
  }

  /** The exactness of the check, for every dealer: a share passes at an index only if it is the share of that index. */
  lemma ShareAcceptedOnlyAtItsIndex(c: seq<int>, i: nat, share: int, N: int)
    requires N > 0 && c != []
    ensures share % N == Eval(c, i) % N <==> share % N == ShareValue(c, i, N) % N
  {
    ModMod(Eval(c, i), N);
  }

  // ---------- weights and reconstruction ----------

  lemma ProductStep(s: seq<int>, x: int, acc: int, N: int)
    requires N > 0 && acc == Product(s) % N
    ensures (acc * x) % N == Product(s + [x]) % N
  {
    CongMod(Product(s), N);
    CongRefl(x, N);
    CongMul(acc, Product(s), x, x, N);
    ProductConcat(s, [x]);
    assert Product([x]) == x;
  }

  lemma WithoutSnoc(s: seq<nat>, x: nat, index: nat)
    ensures Without(s + [x], index) == Without(s, index) + if x == index then [] else [x]
  {
    if s == [] {
      assert s + [x] == [x];
      assert Without([], index) == [];
    } else {
      assert (s + [x])[1..] == s[1..] + [x];
      WithoutSnoc(s[1..], x, index);
    }
  }

  lemma WeightFromResidues(others: seq<int>, x: int, num: int, denum: int, N: int)
    requires N >= 2 && num == Product(others) % N && denum == Product(Minus(others, x)) % N
    ensures (num * Invert(denum, N)) % N == Weight(others, x, N)
  {
    CongMod(Product(others), N);
    CongMod(Product(Minus(others, x)), N);
    CongPow(denum, Product(Minus(others, x)), N - 2, N);
    CongMul(num, Product(others), Invert(denum, N), Invert(Product(Minus(others, x)), N), N);
  }

  lemma SubtractReduced(a: int, x: int, acc: int, N: int)
    requires N > 0
    ensures (acc * ((a - x) % N)) % N == (acc * (a - x)) % N
  {
    CongMod(a - x, N);
    CongRefl(acc, N);
    CongMul(acc, acc, (a - x) % N, a - x, N);
  }

  /** The evaluation points 1..n as scalars. */
  method PointTable(n: nat, N: int) returns (points: seq<PrivKey>)
    requires N > 0
    ensures |points| == n && fresh(points)
    ensures forall k :: 0 <= k < n ==> points[k].D == (k + 1) % N
  {
    points := [];
    for i := 1 to n + 1
      invariant |points| == i - 1 && fresh(points)
      invariant forall k :: 0 <= k < i - 1 ==> points[k].D == (k + 1) % N
    {
      var p := BigInt2PrivateKey(i, N);
      points := points + [p];
    }
  }

  lemma NumeratorStep(w: seq<nat>, x: nat, acc: int, N: int)
    requires N > 0 && acc == Product(PointsOf(w, N)) % N
    ensures (acc * ((x + 1) % N)) % N == Product(PointsOf(w + [x], N)) % N
  {
    ProductStep(PointsOf(w, N), (x + 1) % N, acc, N);
    assert PointsOf(w + [x], N) == PointsOf(w, N) + [(x + 1) % N];
  }

  /** The product of the other signers' points, accumulated in place. */
  method Numerator(points: seq<PrivKey>, index: nat, s: seq<nat>, N: int) returns (num: PrivKey)
    requires N > 0
    requires forall k :: 0 <= k < |points| ==> points[k].D == (k + 1) % N
    requires forall i :: 0 <= i < |s| ==> s[i] < |points|
    ensures fresh(num) && num.D == Product(PointsOf(Without(s, index), N)) % N
  {
    num := BigInt2PrivateKey(1, N);
    for i := 0 to |s|
      invariant fresh(num)
      invariant num.D == Product(PointsOf(Without(s[..i], index), N)) % N
    {
      assert s[..i + 1] == s[..i] + [s[i]];
      WithoutSnoc(s[..i], s[i], index);
      if s[i] != index {
        NumeratorStep(Without(s[..i], index), s[i], num.D, N);
        num := ModMul(num, points[s[i]], N);
      } else {
        assert Without(s[..i], index) + [] == Without(s[..i], index);
      }
    }
    assert s[..|s|] == s;
  }

  lemma DenominatorStep(w: seq<nat>, y: nat, x: int, acc: int, N: int)
    requires N > 0 && acc == Product(Minus(PointsOf(w, N), x)) % N
    ensures (acc * (((y + 1) % N - x) % N)) % N == Product(Minus(PointsOf(w + [y], N), x)) % N
  {
    var a := (y + 1) % N;
    SubtractReduced(a, x, acc, N);
    ProductStep(Minus(PointsOf(w, N), x), a - x, acc, N);
    assert Minus(PointsOf(w + [y], N), x) == Minus(PointsOf(w, N), x) + [a - x];
  }

  /** The product of the differences to the other signers' points, accumulated in place. */
  method Denominator(points: seq<PrivKey>, xi: PrivKey, index: nat, s: seq<nat>, N: int) returns (denum: PrivKey)
    requires N > 0
    requires forall k :: 0 <= k < |points| ==> points[k].D == (k + 1) % N
    requires forall i :: 0 <= i < |s| ==> s[i] < |points|
    ensures fresh(denum) && denum.D == Product(Minus(PointsOf(Without(s, index), N), xi.D)) % N
  {
    denum := BigInt2PrivateKey(1, N);
    for i := 0 to |s|
      invariant fresh(denum)
      invariant denum.D == Product(Minus(PointsOf(Without(s[..i], index), N), xi.D)) % N
    {
      assert s[..i + 1] == s[..i] + [s[i]];
      WithoutSnoc(s[..i], s[i], index);
      if s[i] != index {
        var xj := points[s[i]].Clone();
        var _ := ModSub(xj, xi, N);
        DenominatorStep(Without(s[..i], index), s[i], xi.D, denum.D, N);
        var _ := ModMul(denum, xj, N);
      } else {
        assert Without(s[..i], index) + [] == Without(s[..i], index);
      }
    }
    assert s[..|s|] == s;
  }

  /** Requires what the source panics without: enough signers, and indices inside the share table. */
  method MapShareToNewParams(v: VerifiableSS, index: nat, s: seq<nat>, N: int) returns (num: PrivKey)
    requires N >= 2 && |s| >= v.threshold + 1
    requires index < v.shareCount && forall i :: 0 <= i < |s| ==> s[i] < v.shareCount
    ensures fresh(num) && num.D == Lambda(s, index, N)
  {
    var points := PointTable(v.shareCount, N);
    var xi := points[index];
    num := Numerator(points, index, s, N);
    var denum := Denominator(points, xi, index, s, N);
    WeightFromResidues(PointsOf(Without(s, index), N), xi.D, num.D, denum.D, N);
    denum := InvertN(denum, N);
    var _ := ModMul(num, denum, N);
  }

  // ---------- reconstruction ----------

  method ProductOfOthers(points: seq<PrivKey>, i: nat, N: int) returns (num: PrivKey)
    requires N > 0 && i < |points|
    ensures fresh(num) && num.D == Product(Others(Nums(points), i)) % N
  {
    ghost var xs := Nums(points);
    num := BigInt2PrivateKey(1, N);
    for j := 0 to |points|
      invariant fresh(num) && Nums(points) == xs
      invariant num.D == Product(Others(xs, i)[..if j <= i then j else j - 1]) % N
    {
      if i != j {
        ghost var k := if j < i then j else j - 1;
        ghost var o := Others(xs, i);
        assert o[..k + 1] == o[..k] + [xs[j]];
        ProductStep(o[..k], xs[j], num.D, N);
        num := ModMul(num, points[j], N);
      }
    }
    assert Others(xs, i)[..|points| - 1] == Others(xs, i);
  }

  method ProductOfDifferences(points: seq<PrivKey>, i: nat, N: int) returns (denum: PrivKey)
    requires N > 0 && i < |points|
    ensures fresh(denum) && denum.D == Product(Minus(Others(Nums(points), i), points[i].D)) % N
  {
    ghost var xs := Nums(points);
    ghost var d := Minus(Others(xs, i), xs[i]);
    denum := BigInt2PrivateKey(1, N);
    for j := 0 to |points|
      invariant fresh(denum) && Nums(points) == xs
      invariant denum.D == Product(d[..if j <= i then j else j - 1]) % N
    {
      if i != j {
        ghost var k := if j < i then j else j - 1;
        assert d[..k + 1] == d[..k] + [xs[j] - xs[i]];
        var xj := points[j].Clone();
        var _ := ModSub(xj, points[i], N);
        SubtractReduced(xs[j], xs[i], denum.D, N);
        ProductStep(d[..k], xs[j] - xs[i], denum.D, N);
        var _ := ModMul(denum, xj, N);
      }
    }
    assert d[..|points| - 1] == d;
  }

  lemma SumStep(s: seq<int>, x: int, y: int, acc: int, N: int)
    requires N > 0 && acc == Sum(s) % N && Cong(x, y, N)
    ensures (acc + y) % N == Sum(s + [x]) % N
  {
    CongMod(Sum(s), N);
    CongAdd(acc, Sum(s), y, x, N);
    SumSnoc(s, x);
  }

  /** One Lagrange term: numerator times inverted denominator times value, accumulated in place. */
  method LagrangeTerm(points: seq<PrivKey>, values: seq<PrivKey>, i: nat, N: int) returns (num: PrivKey)
    requires N >= 2 && |points| == |values| && i < |points|
    ensures fresh(num) && num.D == Terms(Nums(values), Nums(points), N)[i] % N
  {
    ghost var xs, y := Nums(points), values[i].D;
    num := ProductOfOthers(points, i, N);
    var denum := ProductOfDifferences(points, i, N);
    WeightFromResidues(Others(xs, i), xs[i], num.D, denum.D, N);
    denum := InvertN(denum, N);
    var _ := ModMul(num, denum, N);
    ghost var w := num.D;
    var _ := ModMul(num, values[i], N);
    assert w * y == y * w;
  }

  method SumInPlace(terms: seq<PrivKey>, N: int, ghost whole: seq<int>) returns (result: PrivKey)
    requires N > 0 && |terms| == |whole| > 0
    requires forall k :: 0 <= k < |terms| ==> terms[k].D == whole[k] % N
    ensures fresh(result) && result.D == Sum(whole) % N
  {
    result := terms[0].Clone();
    assert whole[..1] == [whole[0]] && Sum(whole[..1]) == whole[0];
    for i := 1 to |terms|
      invariant fresh(result)
      invariant result.D == Sum(whole[..i]) % N
    {
      assert whole[..i + 1] == whole[..i] + [whole[i]];
      CongMod(whole[i], N);
      SumStep(whole[..i], whole[i], terms[i].D, result.D, N);
      var _ := ModAdd(result, terms[i], N);
    }
    assert whole[..|terms|] == whole;
  }

  /** Interpolation at zero; with no values at all the source reads past the end of an empty list. */
  method LagrangeInterpolationAtZero(points: seq<PrivKey>, values: seq<PrivKey>, N: int) returns (result: PrivKey)
    requires N >= 2 && |points| == |values| > 0
    ensures fresh(result) && result.D == LagrangeResult(Nums(points), Nums(values), N)
  {
    hide Weight, Others, Sum;
    ghost var terms := Terms(Nums(values), Nums(points), N);
    var lagCoef: seq<PrivKey> := [];
    for i := 0 to |values|
      invariant |lagCoef| == i && fresh(lagCoef)
      invariant forall k :: 0 <= k < i ==> lagCoef[k].D == terms[k] % N
    {
      var num := LagrangeTerm(points, values, i, N);
      lagCoef := lagCoef + [num];
    }
    result := SumInPlace(lagCoef, N, terms);
  }

  method Reconstruct(v: VerifiableSS, indices: seq<nat>, shares: seq<PrivKey>, N: int) returns (secret: PrivKey)
    requires N >= 2 && |shares| == |indices| >= v.threshold + 1
    ensures fresh(secret) && secret.D == LagrangeResult(PointsOf(indices, N), Nums(shares), N)
  {
    var points: seq<PrivKey> := [];
    for k := 0 to |indices|
      invariant |points| == k && fresh(points)
      invariant forall i :: 0 <= i < k ==> points[i].D == (indices[i] + 1) % N
    {
      var p := BigInt2PrivateKey(indices[k] + 1, N);
      points := points + [p];
    }
    assert Nums(points) == PointsOf(indices, N);
    secret := LagrangeInterpolationAtZero(points, shares, N);
  }
}
