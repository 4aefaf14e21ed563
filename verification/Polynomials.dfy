/**
 Polynomials with integer coefficients (lowest degree first) read modulo a prime:
 a polynomial with at least as many distinct roots as coefficients vanishes everywhere,
 and therefore Lagrange's formula at zero returns the constant term.
 */
module Polynomials {
  import opened NumberTheory

  function Eval(c: seq<int>, x: int): int {
    if c == [] then 0 else c[0] + x * Eval(c[1..], x)
  }

  lemma EvalAtZero(c: seq<int>)
    requires c != []
    ensures Eval(c, 0) == c[0]
  {
  }

  lemma {:induction false} EvalCong(c: seq<int>, x: int, y: int, m: int)
    requires m > 0 && Cong(x, y, m)
    ensures Cong(Eval(c, x), Eval(c, y), m)
  {
    if c != [] {
      EvalCong(c[1..], x, y, m);
      CongMul(x, y, Eval(c[1..], x), Eval(c[1..], y), m);
      CongRefl(c[0], m);
      CongAdd(c[0], c[0], x * Eval(c[1..], x), y * Eval(c[1..], y), m);
    }
  }

  // ---------- sums ----------

  function Sum(s: seq<int>): int {
    if s == [] then 0 else s[0] + Sum(s[1..])
  }

  lemma {:induction false} SumConcat(s: seq<int>, t: seq<int>)
    ensures Sum(s + t) == Sum(s) + Sum(t)
  {
    if s == [] {
      assert s + t == t;
    } else {
      assert (s + t)[1..] == s[1..] + t;
      SumConcat(s[1..], t);
    }
  }

  lemma SumSnoc(s: seq<int>, x: int)
    ensures Sum(s + [x]) == Sum(s) + x
  {
    SumConcat(s, [x]);
  }

  lemma {:induction false} SumPermutation(s: seq<int>, t: seq<int>)
    requires multiset(s) == multiset(t)
    ensures Sum(s) == Sum(t)
    decreases s
  {
    if s == [] {
      assert |t| == |multiset(t)|;
    } else {
      var k := MatchHead(s, t);
      SplitAt(t, k);
      SumPermutation(s[1..], t[..k] + t[k + 1..]);
      SumConcat(t[..k], [t[k]] + t[k + 1..]);
      SumConcat(t[..k], t[k + 1..]);
      assert ([t[k]] + t[k + 1..])[1..] == t[k + 1..];
    }
  }

  lemma {:induction false} SumScale(s: seq<int>, k: int, t: seq<int>)
    requires |s| == |t| && forall i :: 0 <= i < |s| ==> t[i] == k * s[i]
    ensures Sum(t) == k * Sum(s)
  {
    if s != [] {
      SumScale(s[1..], k, t[1..]);
    }
  }

  lemma {:induction false} SumAdd(s: seq<int>, t: seq<int>, u: seq<int>)
    requires |s| == |t| == |u| && forall i :: 0 <= i < |s| ==> u[i] == s[i] + t[i]
    ensures Sum(u) == Sum(s) + Sum(t)
  {
    if s != [] {
      SumAdd(s[1..], t[1..], u[1..]);
    }
  }

  lemma {:induction false} SumCong(s: seq<int>, t: seq<int>, m: int)
    requires m > 0 && |s| == |t| && forall i :: 0 <= i < |s| ==> Cong(s[i], t[i], m)
    ensures Cong(Sum(s), Sum(t), m)
  {
    if s != [] {
      SumCong(s[1..], t[1..], m);
      CongAdd(s[0], t[0], Sum(s[1..]), Sum(t[1..]), m);
    }
  }

  /** `a*x + b*y` */
  function Lin(a: int, x: int, b: int, y: int): int {
    a * x + b * y
  }

  lemma LinStep(z0: int, z: int, a: int, x0: int, x: int, b: int, y0: int, y: int, m: int)
    requires m > 0 && Cong(z0, Lin(a, x0, b, y0), m) && Cong(z, Lin(a, x, b, y), m)
    ensures Cong(z0 + z, Lin(a, x0 + x, b, y0 + y), m)
  {
    CongAdd(z0, Lin(a, x0, b, y0), z, Lin(a, x, b, y), m);
    assert a * (x0 + x) == a * x0 + a * x && b * (y0 + y) == b * y0 + b * y;
  }

  /** An elementwise linear congruence carries over to the sums. */
  lemma {:induction false} SumLinCong(zs: seq<int>, a: int, xs: seq<int>, b: int, ys: seq<int>, m: int)
    requires m > 0 && |zs| == |xs| == |ys|
    requires forall i :: 0 <= i < |zs| ==> Cong(zs[i], Lin(a, xs[i], b, ys[i]), m)
    ensures Cong(Sum(zs), Lin(a, Sum(xs), b, Sum(ys)), m)
  {
    if zs == [] {
      assert Lin(a, 0, b, 0) == 0;
      CongRefl(0, m);
    } else {
      SumLinCong(zs[1..], a, xs[1..], b, ys[1..], m);
      LinStep(zs[0], Sum(zs[1..]), a, xs[0], Sum(xs[1..]), b, ys[0], Sum(ys[1..]), m);
    }
  }

  // ---------- roots ----------

  /** Synthetic division by `x - a`. */
  function Quotient(c: seq<int>, a: int): (q: seq<int>)
    ensures |q| == if c == [] then 0 else |c| - 1
  {
    if |c| <= 1 then [] else [Eval(c[1..], a)] + Quotient(c[1..], a)
  }

  lemma {:induction false} FactorTheorem(c: seq<int>, a: int, x: int)
    ensures Eval(c, x) == Eval(c, a) + (x - a) * Eval(Quotient(c, a), x)
  {
    if |c| > 1 {
      var r := c[1..];
      FactorTheorem(r, a, x);
      var q := Quotient(c, a);
      assert q[1..] == Quotient(r, a);
      Factored(Eval(r, a), Eval(r, x), Eval(q[1..], x), a, x);
    }
  }

  lemma Factored(ra: int, rx: int, q: int, a: int, x: int)
    requires rx == ra + (x - a) * q
    ensures x * rx == a * ra + (x - a) * (ra + x * q)
  {
    assert x * ((x - a) * q) == (x - a) * (x * q);
  }

  ghost predicate DistinctMod(xs: seq<int>, p: int)
    requires p > 0
  {
    forall i, j :: 0 <= i < j < |xs| ==> !Cong(xs[i], xs[j], p)
  }

  /** A polynomial with at least as many distinct roots as coefficients is zero everywhere. */
  lemma {:induction false} TooManyRoots(c: seq<int>, xs: seq<int>, z: int, p: int)
    requires IsPrime(p) && DistinctMod(xs, p) && |c| <= |xs|
    requires forall i :: 0 <= i < |xs| ==> Cong(Eval(c, xs[i]), 0, p)
    ensures Cong(Eval(c, z), 0, p)
    decreases |c|
  {
    if c != [] {
      var a, q := xs[0], Quotient(c, xs[0]);
      forall i | 0 <= i < |xs[1..]|
        ensures Cong(Eval(q, xs[1..][i]), 0, p)
      {
        assert xs[1..][i] == xs[i + 1];
        QuotientRoot(c, a, xs[i + 1], p);
      }
      TooManyRoots(q, xs[1..], z, p);
      FactorTheorem(c, a, z);
      CongMul(z - a, z - a, Eval(q, z), 0, p);
      CongAdd(Eval(c, a), 0, (z - a) * Eval(q, z), 0, p);
    }
  }

  lemma QuotientRoot(c: seq<int>, a: int, x: int, p: int)
    requires IsPrime(p) && !Cong(a, x, p)
    requires Cong(Eval(c, a), 0, p) && Cong(Eval(c, x), 0, p)
    ensures Cong(Eval(Quotient(c, a), x), 0, p)
  {
    hide Cong, Eval;
    var y := Eval(Quotient(c, a), x);
    FactorTheorem(c, a, x);
    CongAdd(Eval(c, x), 0, Eval(c, a), 0, p);
    CongZero((x - a) * y, p);
    EuclidLemma(x - a, y, p);
    if (x - a) % p == 0 {
      var k := ExactQuotient(x - a, p);
      CongFromMultiple(x, a, k, p);
      CongTrans(x, a, a, p);
    }
    CongZero(y, p);
  }

  // ---------- building polynomials ----------

  function AddConst(c: seq<int>, k: int): seq<int> {
    if c == [] then [k] else [c[0] + k] + c[1..]
  }

  /** Coefficients of `(a - x) * c(x)`. */
  function MulLinear(c: seq<int>, a: int): (r: seq<int>)
    ensures |r| == if c == [] then 0 else |c| + 1
  {
    if c == [] then [] else [a * c[0]] + AddConst(MulLinear(c[1..], a), -c[0])
  }

  lemma AddConstEval(c: seq<int>, k: int, x: int)
    ensures Eval(AddConst(c, k), x) == Eval(c, x) + k
  {
    assert ([k])[1..] == [];
    if c != [] {
      assert AddConst(c, k)[1..] == c[1..];
    }
  }

  lemma {:induction false} MulLinearEval(c: seq<int>, a: int, x: int)
    ensures Eval(MulLinear(c, a), x) == (a - x) * Eval(c, x)
  {
    if c != [] {
      MulLinearEval(c[1..], a, x);
      var t := AddConst(MulLinear(c[1..], a), -c[0]);
      assert MulLinear(c, a)[1..] == t;
      AddConstEval(MulLinear(c[1..], a), -c[0], x);
      LinearStep(a, x, c[0], Eval(c[1..], x));
    }
  }

  lemma LinearStep(a: int, x: int, c0: int, e: int)
    ensures a * c0 + x * ((a - x) * e - c0) == (a - x) * (c0 + x * e)
  {
    assert x * ((a - x) * e) == (a - x) * (x * e);
  }

  /** `ps` with `x` subtracted from every element. */
  function Minus(ps: seq<int>, x: int): (r: seq<int>)
    ensures |r| == |ps| && forall i :: 0 <= i < |r| ==> r[i] == ps[i] - x
  {
    seq(|ps|, i requires 0 <= i < |ps| => ps[i] - x)
  }

  /** The polynomial whose value at `x` is the product of `p - x` over `ps`. */
  function Vanishing(ps: seq<int>): (r: seq<int>)
    ensures |r| == |ps| + 1
  {
    if ps == [] then [1] else MulLinear(Vanishing(ps[1..]), ps[0])
  }

  lemma {:induction false} VanishingEval(ps: seq<int>, x: int)
    ensures Eval(Vanishing(ps), x) == Product(Minus(ps, x))
  {
    if ps == [] {
      assert ([1])[1..] == [];
    } else {
      VanishingEval(ps[1..], x);
      MulLinearEval(Vanishing(ps[1..]), ps[0], x);
      assert Minus(ps, x)[1..] == Minus(ps[1..], x);
    }
  }

  /** `c + k*d` */
  function AddScaled(c: seq<int>, k: int, d: seq<int>): (r: seq<int>)
    ensures |r| == if |c| >= |d| then |c| else |d|
  {
    if d == [] then c
    else if c == [] then [k * d[0]] + AddScaled([], k, d[1..])
    else [c[0] + k * d[0]] + AddScaled(c[1..], k, d[1..])
  }

  lemma {:induction false} AddScaledEval(c: seq<int>, k: int, d: seq<int>, x: int)
    ensures Eval(AddScaled(c, k, d), x) == Eval(c, x) + k * Eval(d, x)
    decreases |d|
  {
    if d != [] {
      var c' := if c == [] then [] else c[1..];
      var c0 := if c == [] then 0 else c[0];
      AddScaledEval(c', k, d[1..], x);
      assert AddScaled(c, k, d)[1..] == AddScaled(c', k, d[1..]);
      ScaledStep(x, k, c0, d[0], Eval(c', x), Eval(d[1..], x));
    }
  }

  lemma ScaledStep(x: int, k: int, c: int, d: int, ec: int, ed: int)
    ensures (c + k * d) + x * (ec + k * ed) == (c + x * ec) + k * (d + x * ed)
  {
    assert x * (k * ed) == k * (x * ed);
  }

  // ---------- Lagrange's formula at zero ----------

  function Others<T>(xs: seq<T>, i: nat): (r: seq<T>)
    requires i < |xs|
    ensures |r| == |xs| - 1
    ensures forall j :: 0 <= j < |r| ==> r[j] == if j < i then xs[j] else xs[j + 1]
  {
    xs[..i] + xs[i + 1..]
  }

  lemma SumTakeOut(s: seq<int>, k: nat)
    requires k < |s|
    ensures Sum(s) == s[k] + Sum(Others(s, k))
  {
    SplitAt(s, k);
    SumConcat(s[..k], [s[k]] + s[k + 1..]);
    SumConcat(s[..k], s[k + 1..]);
    assert ([s[k]] + s[k + 1..])[1..] == s[k + 1..];
  }

  /** The inverse the source computes: `k` raised to `p - 2`. */
  function Invert(k: int, p: int): int
    requires p >= 2
  {
    Exp(k, p - 2, p)
  }

  lemma InvertIsInverse(k: int, p: int)
    requires IsPrime(p) && k % p != 0
    ensures 0 <= Invert(k, p) < p && Cong(k * Invert(k, p), 1, p)
  {
    Fermat(k, p);
    CongMod(Pow(k, p - 2), p);
    CongMul(k, k, Invert(k, p), Pow(k, p - 2), p);
  }

  /** The weight of the point `x` among the points `others`: products of `y` and of `y - x`, the second inverted. */
  function Weight(others: seq<int>, x: int, p: int): int
    requires p >= 2
  {
    (Product(others) * Invert(Product(Minus(others, x)), p)) % p
  }

  lemma {:induction false} ProductNonzero(s: seq<int>, p: int)
    requires IsPrime(p) && forall i :: 0 <= i < |s| ==> s[i] % p != 0
    ensures Product(s) % p != 0
  {
    if s == [] {
      SmallMod(1, p);
    } else {
      ProductNonzero(s[1..], p);
      if Product(s) % p == 0 {
        EuclidLemma(s[0], Product(s[1..]), p);
      }
    }
  }

  lemma DenominatorNonzero(xs: seq<int>, i: nat, p: int)
    requires IsPrime(p) && DistinctMod(xs, p) && i < |xs|
    ensures Product(Minus(Others(xs, i), xs[i])) % p != 0
  {
    var d := Minus(Others(xs, i), xs[i]);
    forall j | 0 <= j < |d|
      ensures d[j] % p != 0
    {
      var k := if j < i then j else j + 1;
      if d[j] % p == 0 {
        var q := ExactQuotient(xs[k] - xs[i], p);
        CongFromMultiple(xs[k], xs[i], q, p);
      }
    }
    ProductNonzero(d, p);
  }

  ghost function Inverted(xs: seq<int>, i: nat, p: int): int
    requires p >= 2 && i < |xs|
  {
    Invert(Product(Minus(Others(xs, i), xs[i])), p)
  }

  /** Subtracting one Lagrange term from `prev`: value times inverse times product. */
  ghost function Drop(prev: int, y: int, e: int, d: int): int {
    prev - y * e * d
  }

  /** What is left at `x` of a value `v` after subtracting the Lagrange terms of the first `m` points. */
  ghost function Rest(v: int, ys: seq<int>, xs: seq<int>, m: nat, x: int, p: int): int
    requires p >= 2 && |ys| == |xs| && m <= |xs|
  {
    if m == 0 then v
    else
      Drop(Rest(v, ys, xs, m - 1, x, p), ys[m - 1], Inverted(xs, m - 1, p), Product(Minus(Others(xs, m - 1), x)))
  }

  /** The same subtraction carried out on the polynomial `c`. */
  ghost function Remainder(c: seq<int>, ys: seq<int>, xs: seq<int>, m: nat, p: int): (r: seq<int>)
    requires p >= 2 && |ys| == |xs| && m <= |xs|
    ensures |c| <= |xs| ==> |r| <= |xs|
  {
    if m == 0 then c
    else
      AddScaled(Remainder(c, ys, xs, m - 1, p), -(ys[m - 1] * Inverted(xs, m - 1, p)), Vanishing(Others(xs, m - 1)))
  }

  lemma {:induction false} RemainderEval(c: seq<int>, ys: seq<int>, xs: seq<int>, m: nat, x: int, p: int)
    requires p >= 2 && |ys| == |xs| && m <= |xs|
    ensures Eval(Remainder(c, ys, xs, m, p), x) == Rest(Eval(c, x), ys, xs, m, x, p)
  {
    hide Minus, Inverted, Invert, Drop, Others, Vanishing, AddScaled;
    if m > 0 {
      RemainderEval(c, ys, xs, m - 1, x, p);
      DropPolynomial(Remainder(c, ys, xs, m - 1, p), ys[m - 1], Inverted(xs, m - 1, p), Others(xs, m - 1), x);
    }
  }

  lemma DropPolynomial(c: seq<int>, y: int, e: int, others: seq<int>, x: int)
    ensures Eval(AddScaled(c, -(y * e), Vanishing(others)), x) == Drop(Eval(c, x), y, e, Product(Minus(others, x)))
  {
    hide Minus, AddScaled, Vanishing;
    var v := Vanishing(others);
    AddScaledEval(c, -(y * e), v, x);
    VanishingEval(others, x);
    NegatedProduct(y * e, Eval(v, x));
  }

  lemma NegatedProduct(a: int, b: int)
    ensures (-a) * b == -(a * b)
  {
  }

  lemma {:induction false} ProductHasZero(s: seq<int>, i: nat)
    requires i < |s| && s[i] == 0
    ensures Product(s) == 0
  {
    if i > 0 {
      ProductHasZero(s[1..], i - 1);
    }
  }

  lemma OtherPointVanishes(xs: seq<int>, i: nat, k: nat, prev: int, y: int, e: int)
    requires i < |xs| && k < |xs| && i != k
    ensures Drop(prev, y, e, Product(Minus(Others(xs, i), xs[k]))) == prev
  {
    ProductHasZero(Minus(Others(xs, i), xs[k]), if k < i then k else k - 1);
  }

  lemma TermCancels(prev: int, y: int, xs: seq<int>, k: nat, p: int)
    requires IsPrime(p) && DistinctMod(xs, p) && k < |xs| && Cong(prev, y, p)
    ensures Cong(Drop(prev, y, Inverted(xs, k, p), Product(Minus(Others(xs, k), xs[k]))), 0, p)
  {
    var d := Product(Minus(Others(xs, k), xs[k]));
    DenominatorNonzero(xs, k, p);
    InvertIsInverse(d, p);
    hide Cong, Invert;
    var e := Invert(d, p);
    CongRefl(y, p);
    CongMul(y, y, d * e, 1, p);
    MulAssoc(y, d, e);
    assert y * e * d == y * (d * e);
    CongAdd(prev, y, y * (d * e), y * 1, p);
  }

  /** At the k-th point the value is untouched up to step `k` and gone afterwards. */
  lemma {:induction false} RestAtPoint(ys: seq<int>, xs: seq<int>, m: nat, k: nat, p: int)
    requires IsPrime(p) && DistinctMod(xs, p) && |ys| == |xs| && m <= |xs| && k < |xs|
    ensures Cong(Rest(ys[k], ys, xs, m, xs[k], p), if m <= k then ys[k] else 0, p)
  {
    assert p >= 2;
    hide IsPrime, Cong, Drop, Minus, DistinctMod, Invert, Inverted, Others;
    if m == 0 {
      CongRefl(ys[k], p);
    } else {
      RestAtPoint(ys, xs, m - 1, k, p);
      var prev := Rest(ys[k], ys, xs, m - 1, xs[k], p);
      if m - 1 == k {
        TermCancels(prev, ys[k], xs, k, p);
      } else {
        OtherPointVanishes(xs, m - 1, k, prev, ys[m - 1], Inverted(xs, m - 1, p));
      }
    }
  }

  /** The terms Lagrange's formula adds up. */
  function Terms(ys: seq<int>, xs: seq<int>, p: int): (r: seq<int>)
    requires p >= 2 && |ys| == |xs|
    ensures |r| == |xs|
    ensures forall i :: 0 <= i < |r| ==> r[i] == ys[i] * Weight(Others(xs, i), xs[i], p)
  {
    seq(|xs|, i requires 0 <= i < |xs| => ys[i] * Weight(Others(xs, i), xs[i], p))
  }

  function Values(c: seq<int>, xs: seq<int>): (r: seq<int>)
    ensures |r| == |xs| && forall i :: 0 <= i < |r| ==> r[i] == Eval(c, xs[i])
  {
    seq(|xs|, i requires 0 <= i < |xs| => Eval(c, xs[i]))
  }

  lemma MinusZero(ps: seq<int>)
    ensures Minus(ps, 0) == ps
  {
  }

  lemma TermAtZero(prev: int, rest: int, y: int, xs: seq<int>, i: nat, p: int)
    requires p >= 2 && i < |xs| && Cong(prev, rest, p)
    ensures Cong(Drop(prev, y, Inverted(xs, i, p), Product(Minus(Others(xs, i), 0))),
                 rest - y * Weight(Others(xs, i), xs[i], p), p)
  {
    var others := Others(xs, i);
    MinusZero(others);
    var n, d := Product(others), Inverted(xs, i, p);
    CongMod(n * d, p);
    CongMul(y, y, n * d, (n * d) % p, p);
    MulAssoc(y, d, n);
    CongAdd(prev, rest, y * (n * d), y * ((n * d) % p), p);
  }

  lemma {:induction false} RestAtZero(v: int, ys: seq<int>, xs: seq<int>, m: nat, p: int)
    requires p >= 2 && |ys| == |xs| && m <= |xs|
    ensures Cong(Rest(v, ys, xs, m, 0, p), v - Sum(Terms(ys, xs, p)[..m]), p)
  {
    hide Cong, Drop, Minus, Weight, Invert, Inverted, Terms, Others;
    var t := Terms(ys, xs, p);
    if m == 0 {
      assert t[..0] == [];
      CongRefl(v, p);
    } else {
      var i := m - 1;
      RestAtZero(v, ys, xs, i, p);
      assert t[..m] == t[..i] + [t[i]];
      SumSnoc(t[..i], t[i]);
      TermAtZero(Rest(v, ys, xs, i, 0, p), v - Sum(t[..i]), ys[i], xs, i, p);
    }
  }

  /** Subtracting all the terms leaves nothing anywhere: the remainder has too many roots. */
  lemma NothingRemains(c: seq<int>, xs: seq<int>, x: int, p: int)
    requires IsPrime(p) && DistinctMod(xs, p) && |c| <= |xs|
    ensures Cong(Rest(Eval(c, x), Values(c, xs), xs, |xs|, x, p), 0, p)
  {
    assert p >= 2;
    hide Cong, IsPrime, DistinctMod, Drop, Minus, Invert, Inverted, Values;
    var n, ys := |xs|, Values(c, xs);
    var r := Remainder(c, ys, xs, n, p);
    forall k | 0 <= k < n
      ensures Cong(Eval(r, xs[k]), 0, p)
    {
      RemainderEval(c, ys, xs, n, xs[k], p);
      RestAtPoint(ys, xs, n, k, p);
    }
    TooManyRoots(r, xs, x, p);
    RemainderEval(c, ys, xs, n, x, p);
  }

  function LagrangeSum(ys: seq<int>, xs: seq<int>, p: int): int
    requires p >= 2 && |ys| == |xs|
  {
    Sum(Terms(ys, xs, p))
  }

  lemma AllTerms(v: int, ys: seq<int>, xs: seq<int>, p: int)
    requires p >= 2 && |ys| == |xs|
    ensures Cong(Rest(v, ys, xs, |xs|, 0, p), v - LagrangeSum(ys, xs, p), p)
  {
    RestAtZero(v, ys, xs, |xs|, p);
    var t := Terms(ys, xs, p);
    assert t[..|xs|] == t;
  }

  /**
   Lagrange's formula at zero: from the values of a polynomial at enough distinct points the
   weighted sum gives its constant term modulo the prime.
   */
  lemma LagrangeAtZero(c: seq<int>, xs: seq<int>, p: int)
    requires IsPrime(p) && DistinctMod(xs, p) && |c| <= |xs|
    ensures Cong(LagrangeSum(Values(c, xs), xs, p), Eval(c, 0), p)
  {
    NothingRemains(c, xs, 0, p);
    SumIsValue(Eval(c, 0), Values(c, xs), xs, p);
  }

  lemma SumIsValue(v: int, ys: seq<int>, xs: seq<int>, p: int)
    requires p >= 2 && |ys| == |xs| && Cong(Rest(v, ys, xs, |xs|, 0, p), 0, p)
    ensures Cong(LagrangeSum(ys, xs, p), v, p)
  {
    AllTerms(v, ys, xs, p);
    DifferenceZero(Rest(v, ys, xs, |xs|, 0, p), v, LagrangeSum(ys, xs, p), p);
  }

  lemma DifferenceZero(z: int, a: int, b: int, p: int)
    requires p > 0 && Cong(z, 0, p) && Cong(z, a - b, p)
    ensures Cong(b, a, p)
  {
    CongAdd(a, a, a - b, 0, p);
  }
}
