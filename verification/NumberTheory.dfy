/**
 Arithmetic modulo an integer, as far as the protocols need it: congruence, inverses modulo a
 prime, Fermat's little theorem, the lift of Fermat to the square of a prime, and combining
 residues of two coprime moduli.  Everything is proved from the definition of `%`.
 */
module NumberTheory {
  import opened Collections

  ghost predicate IsPrime(p: int) {
    2 <= p && forall d :: 2 <= d < p ==> p % d != 0
  }

  /** `b` raised to `e`.  The source's modular exponentiation `Exp(b, e, m)` is `Pow(b, e) % m`. */
  function Pow(b: int, e: nat): int {
    if e == 0 then 1 else b * Pow(b, e - 1)
  }

  function Exp(b: int, e: nat, m: int): int
    requires m > 0
  {
    Pow(b, e) % m
  }

  // ---------- congruence ----------

  ghost predicate Cong(a: int, b: int, m: int)
    requires m > 0
  {
    a % m == b % m
  }

  lemma RemainderUnique(a: int, k: int, r: int, m: int)
    requires m > 0 && 0 <= r < m && a == k * m + r
    ensures a % m == r && a / m == k
  {
    var d := k - a / m;
    assert a == (a / m) * m + a % m;
    assert d * m == k * m - (a / m) * m;
    NoSmallMultiple(d, m);
  }

  lemma NoSmallMultiple(d: int, m: int)
    requires m > 0 && -m < d * m < m
    ensures d == 0
  {
  }

  lemma CongFromMultiple(a: int, b: int, k: int, m: int)
    requires m > 0 && a == b + k * m
    ensures Cong(a, b, m)
  {
    assert a == (k + b / m) * m + b % m;
    RemainderUnique(a, k + b / m, b % m, m);
  }

  lemma CongQuotient(a: int, b: int, m: int) returns (k: int)
    requires m > 0 && Cong(a, b, m)
    ensures a == b + k * m
  {
    k := a / m - b / m;
    assert a == (a / m) * m + a % m;
    assert b == (b / m) * m + b % m;
    assert k * m == (a / m) * m - (b / m) * m;
  }

  lemma CongTrans(a: int, b: int, c: int, m: int)
    requires m > 0 && Cong(a, b, m) && Cong(b, c, m)
    ensures Cong(a, c, m) && Cong(b, a, m)
  {
  }

  /** Rewrites the right-hand side of a congruence by an equality. */
  lemma CongSubst(a: int, b: int, c: int, m: int)
    requires m > 0 && Cong(a, b, m) && b == c
    ensures Cong(a, c, m)
  {
  }

  lemma CongRefl(a: int, m: int)
    requires m > 0
    ensures Cong(a, a, m)
  {
  }

  lemma CongMod(a: int, m: int)
    requires m > 0
    ensures Cong(a % m, a, m) && Cong(a, a % m, m)
  {
    CongFromMultiple(a, a % m, a / m, m);
  }

  lemma CongAdd(a: int, a': int, b: int, b': int, m: int)
    requires m > 0 && Cong(a, a', m) && Cong(b, b', m)
    ensures Cong(a + b, a' + b', m)
    ensures Cong(a - b, a' - b', m)
  {
    var k := CongQuotient(a, a', m);
    var l := CongQuotient(b, b', m);
    assert (k + l) * m == k * m + l * m;
    assert (k - l) * m == k * m - l * m;
    CongFromMultiple(a + b, a' + b', k + l, m);
    CongFromMultiple(a - b, a' - b', k - l, m);
  }

  lemma ExpandProduct(a: int, b: int, k: int, l: int, m: int)
    ensures (a + k * m) * (b + l * m) == a * b + (a * l + k * b + k * m * l) * m
  {
    var x := k * m;
    assert (a + x) * (b + l * m) == a * b + a * (l * m) + x * b + x * (l * m);
    assert x * b == (k * b) * m;
    assert x * (l * m) == (k * m * l) * m;
  }

  lemma FourFactors(a: int, b: int, x: int, y: int)
    ensures (a * b) * (x * y) == (a * x) * (b * y)
  {
    assert (a * b) * (x * y) == a * (b * (x * y));
    assert b * (x * y) == x * (b * y);
  }

  lemma CongMul(a: int, a': int, b: int, b': int, m: int)
    requires m > 0 && Cong(a, a', m) && Cong(b, b', m)
    ensures Cong(a * b, a' * b', m)
  {
    var k := CongQuotient(a, a', m);
    var l := CongQuotient(b, b', m);
    ExpandProduct(a', b', k, l, m);
    CongFromMultiple(a * b, a' * b', a' * l + k * b' + k * m * l, m);
  }

  lemma CongPow(a: int, a': int, e: nat, m: int)
    requires m > 0 && Cong(a, a', m)
    ensures Cong(Pow(a, e), Pow(a', e), m)
  {
    if e > 0 {
      CongPow(a, a', e - 1, m);
      CongMul(a, a', Pow(a, e - 1), Pow(a', e - 1), m);
    }
  }

  /** A congruence modulo a multiple of `m` holds modulo `m`. */
  lemma CongDown(a: int, b: int, k: int, m: int)
    requires m > 0 && k > 0 && k * m > 0 && Cong(a, b, k * m)
    ensures Cong(a, b, m)
  {
    var t := CongQuotient(a, b, k * m);
    assert t * (k * m) == (t * k) * m;
    CongFromMultiple(a, b, t * k, m);
  }

  lemma CongZero(a: int, m: int)
    requires m > 0
    ensures Cong(a, 0, m) <==> a % m == 0
  {
    RemainderUnique(0, 0, 0, m);
  }

  lemma ExactQuotient(a: int, m: int) returns (k: int)
    requires m > 0 && a % m == 0
    ensures a == k * m
  {
    k := a / m;
  }

  lemma SmallMod(a: int, m: int)
    requires 0 <= a < m
    ensures a % m == a
  {
    RemainderUnique(a, 0, a, m);
  }

  // ---------- powers ----------

  lemma {:induction false} PowAdd(b: int, e: nat, f: nat)
    ensures Pow(b, e + f) == Pow(b, e) * Pow(b, f)
  {
    if e > 0 {
      PowAdd(b, e - 1, f);
      MulAssoc(b, Pow(b, e - 1), Pow(b, f));
    }
  }

  lemma {:induction false} PowMul(b: int, e: nat, f: nat)
    ensures e * f >= 0 && Pow(b, e * f) == Pow(Pow(b, e), f)
  {
    if f == 0 {
      assert e * f == 0;
    } else {
      PowMul(b, e, f - 1);
      assert e * f == e + e * (f - 1);
      PowAdd(b, e, e * (f - 1));
    }
  }

  lemma {:induction false} PowBase(a: int, b: int, e: nat)
    ensures Pow(a * b, e) == Pow(a, e) * Pow(b, e)
  {
    if e > 0 {
      PowBase(a, b, e - 1);
      FourFactors(a, b, Pow(a, e - 1), Pow(b, e - 1));
    }
  }

  lemma PowOne(e: nat)
    ensures Pow(1, e) == 1
  {
    if e > 0 { PowOne(e - 1); }
  }

  /** `(1 + k*m)^e` is `1 + e*k*m` modulo the square of `m`. */
  lemma {:induction false} PowOnePlus(k: int, m: int, e: nat)
    requires m > 0
    ensures m * m > 0 && Cong(Pow(1 + k * m, e), 1 + e * k * m, m * m)
  {
    assert m * m > 0;
    if e == 0 {
      assert 0 * k * m == 0;
    } else {
      PowOnePlus(k, m, e - 1);
      var x := 1 + (e - 1) * k * m;
      CongMul(1 + k * m, 1 + k * m, Pow(1 + k * m, e - 1), x, m * m);
      OneMoreFactor(k, m, e);
      CongFromMultiple((1 + k * m) * x, 1 + e * k * m, k * ((e - 1) * k), m * m);
    }
  }

  lemma OneMoreFactor(k: int, m: int, e: int)
    ensures (1 + k * m) * (1 + (e - 1) * k * m) == 1 + e * k * m + (k * ((e - 1) * k)) * (m * m)
  {
    var y := (e - 1) * k;
    assert y + k == e * k;
    assert y * m + k * m == (y + k) * m;
    FourFactors(k, m, y, m);
    assert (1 + k * m) * (1 + y * m) == 1 + y * m + k * m + (k * m) * (y * m);
  }

  // ---------- inverses modulo a prime ----------

  /** Every `a` strictly between 0 and a prime has an inverse: reduce `p` by `a` and recur on the remainder. */
  lemma {:induction false} InverseExists(a: int, p: int) returns (x: int)
    requires IsPrime(p) && 0 < a < p
    ensures Cong(a * x, 1, p)
    decreases a
  {
    if a == 1 {
      x := 1;
    } else {
      var k, r := p / a, p % a;
      assert r != 0;
      var y := InverseExists(r, p);
      x := -k * y;
      calc {
        a * x;
        a * (-k * y);
        -(a * k) * y;
        { assert a * k == p - r; }
        (r - p) * y;
        r * y + (-y) * p;
      }
      CongFromMultiple(a * x, r * y, -y, p);
    }
  }

  lemma InverseOf(a: int, p: int) returns (x: int)
    requires IsPrime(p) && a % p != 0
    ensures Cong(a * x, 1, p)
  {
    x := InverseExists(a % p, p);
    CongMod(a, p);
    CongMul(a % p, a, x, x, p);
  }

  /** Euclid's lemma. */
  lemma EuclidLemma(a: int, b: int, p: int)
    requires IsPrime(p) && (a * b) % p == 0
    ensures a % p == 0 || b % p == 0
  {
    if a % p != 0 {
      var x := InverseOf(a, p);
      CongZero(a * b, p);
      CongMul(a * b, 0, x, x, p);
      CongMul(a * x, 1, b, b, p);
      assert (a * x) * b == (a * b) * x;
      CongZero(b, p);
    }
  }

  lemma CancelMod(a: int, b: int, c: int, p: int)
    requires IsPrime(p) && a % p != 0 && Cong(a * b, a * c, p)
    ensures Cong(b, c, p)
  {
    var x := InverseOf(a, p);
    CongMul(x, x, a * b, a * c, p);
    assert x * (a * b) == (a * x) * b && x * (a * c) == (a * x) * c;
    CongMul(a * x, 1, b, b, p);
    CongMul(a * x, 1, c, c, p);
  }

  lemma NonzeroPow(a: int, e: nat, p: int)
    requires IsPrime(p) && a % p != 0
    ensures Pow(a, e) % p != 0
  {
    if e == 0 {
      SmallMod(1, p);
    } else {
      NonzeroPow(a, e - 1, p);
      if Pow(a, e) % p == 0 {
        EuclidLemma(a, Pow(a, e - 1), p);
      }
    }
  }

  // ---------- products of sequences, and Fermat's little theorem ----------

  function Product(s: seq<int>): int {
    if s == [] then 1 else s[0] * Product(s[1..])
  }

  lemma {:induction false} ProductConcat(s: seq<int>, t: seq<int>)
    ensures Product(s + t) == Product(s) * Product(t)
  {
    if s == [] {
      assert s + t == t;
    } else {
      assert (s + t)[1..] == s[1..] + t;
      ProductConcat(s[1..], t);
      MulAssoc(s[0], Product(s[1..]), Product(t));
    }
  }

  lemma MulAssoc(a: int, b: int, c: int)
    ensures a * (b * c) == (a * b) * c
    ensures a * (b * c) == b * (a * c)
  {
  }

  lemma SplitAt<T>(s: seq<T>, k: nat)
    requires k < |s|
    ensures s == s[..k] + ([s[k]] + s[k + 1..])
    ensures multiset(s) == multiset(s[..k] + s[k + 1..]) + multiset{s[k]}
  {
    assert s == s[..k] + ([s[k]] + s[k + 1..]);
    assert multiset(s) == multiset(s[..k]) + multiset([s[k]] + s[k + 1..]);
  }

  /** The head of `s` occurs in any reordering `t`, and removing both leaves reorderings. */
  lemma MatchHead<T>(s: seq<T>, t: seq<T>) returns (k: nat)
    requires s != [] && multiset(s) == multiset(t)
    ensures k < |t| && t[k] == s[0] && multiset(s[1..]) == multiset(t[..k] + t[k + 1..])
  {
    assert s[0] in multiset(s);
    k :| 0 <= k < |t| && t[k] == s[0];
    SplitAt(s, 0);
    SplitAt(t, k);
    assert s[..0] + s[1..] == s[1..];
    assert multiset(s[1..]) == multiset(s) - multiset{s[0]};
  }

  lemma ProductTakeOut(s: seq<int>, k: nat)
    requires k < |s|
    ensures Product(s) == s[k] * Product(s[..k] + s[k + 1..])
  {
    var a, b, c := s[..k], s[k], s[k + 1..];
    SplitAt(s, k);
    ProductConcat(a, [b] + c);
    ProductConcat(a, c);
    assert ([b] + c)[1..] == c;
    MulAssoc(Product(a), b, Product(c));
  }

  /** A product does not depend on the order of its factors. */
  lemma {:induction false} ProductPermutation(s: seq<int>, t: seq<int>)
    requires multiset(s) == multiset(t)
    ensures Product(s) == Product(t)
  {
    if s == [] {
      assert |t| == |multiset(t)|;
    } else {
      var k := MatchHead(s, t);
      ProductPermutation(s[1..], t[..k] + t[k + 1..]);
      ProductTakeOut(t, k);
    }
  }

  /** `[1, 2, ..., n]` */
  function OneTo(n: nat): (s: seq<int>)
    ensures |s| == n
    ensures forall i :: 0 <= i < n ==> s[i] == i + 1
  {
    seq(n, i => i + 1)
  }

  function Multiples(a: int, n: nat, p: int): (s: seq<int>)
    requires p > 0
    ensures |s| == n
    ensures forall i :: 0 <= i < n ==> s[i] == (a * (i + 1)) % p
  {
    seq(n, i requires 0 <= i < n => (a * (i + 1)) % p)
  }

  /** n distinct values among 1..n are 1..n in some order. */
  lemma {:induction false} DistinctIsPermutation(s: seq<int>, n: nat)
    requires |s| == n && Distinct(s)
    requires forall i :: 0 <= i < n ==> 1 <= s[i] <= n
    ensures multiset(s) == multiset(OneTo(n))
    decreases n
  {
    if n == 0 {
      assert s == [] == OneTo(0);
    } else {
      var t := DropLargest(s, n);
      DistinctIsPermutation(t, n - 1);
      OneToStep(n);
    }
  }

  lemma WithoutOne(s: seq<int>, k: nat)
    requires k < |s| && Distinct(s)
    ensures var t := s[..k] + s[k + 1..]; Distinct(t) && forall i :: 0 <= i < |t| ==> t[i] in s && t[i] != s[k]
  {
    var t := s[..k] + s[k + 1..];
    assert forall i :: 0 <= i < |t| ==> t[i] == if i < k then s[i] else s[i + 1];
  }

  lemma DropLargest(s: seq<int>, n: nat) returns (t: seq<int>)
    requires |s| == n > 0 && Distinct(s)
    requires forall i :: 0 <= i < n ==> 1 <= s[i] <= n
    ensures |t| == n - 1 && Distinct(t)
    ensures forall i :: 0 <= i < n - 1 ==> 1 <= t[i] <= n - 1
    ensures multiset(s) == multiset(t) + multiset{n}
  {
    var k := LargestOccurs(s, n);
    t := s[..k] + s[k + 1..];
    SplitAt(s, k);
    WithoutOne(s, k);
    hide Distinct;
    assert forall x :: x in s ==> 1 <= x <= n;
  }

  lemma OneToStep(n: nat)
    requires n > 0
    ensures OneTo(n) == OneTo(n - 1) + [n]
    ensures multiset(OneTo(n)) == multiset(OneTo(n - 1)) + multiset{n}
  {
    assert OneTo(n) == OneTo(n - 1) + [n];
  }

  /** Pigeonhole: n distinct values among 1..n include n. */
  lemma LargestOccurs(s: seq<int>, n: nat) returns (k: nat)
    requires |s| == n > 0 && Distinct(s)
    requires forall i :: 0 <= i < n ==> 1 <= s[i] <= n
    ensures k < n && s[k] == n
  {
    var elems := set i | 0 <= i < n :: s[i];
    DistinctSize(s);
    if n !in elems {
      assert elems <= UpTo(n - 1);
      SubsetSize(elems, UpTo(n - 1));
    }
    k :| 0 <= k < n && s[k] == n;
  }

  function UpTo(n: nat): (r: set<int>)
    ensures |r| == n
    ensures forall x :: x in r <==> 1 <= x <= n
  {
    if n == 0 then {} else UpTo(n - 1) + {n}
  }

  lemma {:induction false} DistinctSize<T>(s: seq<T>)
    requires Distinct(s)
    ensures |set i | 0 <= i < |s| :: s[i]| == |s|
  {
    var elems := set i | 0 <= i < |s| :: s[i];
    if s == [] {
      assert elems == {};
    } else {
      var t := s[..|s| - 1];
      var rest := set i | 0 <= i < |t| :: t[i];
      assert Distinct(t);
      DistinctSize(t);
      forall x | x in elems
        ensures x in rest + {s[|s| - 1]}
      {
        var i :| 0 <= i < |s| && s[i] == x;
        if i < |t| { assert t[i] == x; }
      }
      assert elems == rest + {s[|s| - 1]};
    }
  }

  lemma ProductOfMultiples(a: int, n: nat, p: int)
    requires p > 0
    ensures Cong(Product(Multiples(a, n, p)), Pow(a, n) * Product(OneTo(n)), p)
  {
    if n == 0 {
    } else {
      ProductOfMultiples(a, n - 1, p);
      var x := (a * n) % p;
      assert Multiples(a, n, p) == Multiples(a, n - 1, p) + [x];
      assert OneTo(n) == OneTo(n - 1) + [n];
      ProductConcat(Multiples(a, n - 1, p), [x]);
      ProductConcat(OneTo(n - 1), [n]);
      CongMod(a * n, p);
      var q, w := Product(OneTo(n - 1)), Pow(a, n - 1);
      CongMul(Product(Multiples(a, n - 1, p)), w * q, x, a * n, p);
      FourFactors(w, q, a, n);
    }
  }

  lemma FactorialNonzero(n: nat, p: int)
    requires IsPrime(p) && n < p
    ensures Product(OneTo(n)) % p != 0
  {
    if n == 0 {
      SmallMod(1, p);
    } else {
      FactorialNonzero(n - 1, p);
      assert OneTo(n) == OneTo(n - 1) + [n];
      ProductConcat(OneTo(n - 1), [n]);
      SmallMod(n, p);
      if Product(OneTo(n)) % p == 0 {
        EuclidLemma(Product(OneTo(n - 1)), n, p);
      }
    }
  }

  lemma MultiplesDistinct(a: int, p: int, s: seq<int>)
    requires IsPrime(p) && a % p != 0 && s == Multiples(a, p - 1, p)
    ensures Distinct(s)
    ensures forall i :: 0 <= i < |s| ==> 1 <= s[i] <= p - 1
  {
    forall i | 0 <= i < p - 1
      ensures 1 <= s[i] <= p - 1
    {
      if s[i] == 0 {
        EuclidLemma(a, i + 1, p);
        SmallMod(i + 1, p);
      }
    }
    forall i, j | 0 <= i < j < p - 1
      ensures s[i] != s[j]
    {
      if s[i] == s[j] {
        CancelMod(a, i + 1, j + 1, p);
        SmallMod(i + 1, p);
        SmallMod(j + 1, p);
      }
    }
  }

  /** Fermat's little theorem. */
  lemma Fermat(a: int, p: int)
    requires IsPrime(p) && a % p != 0
    ensures Cong(Pow(a, p - 1), 1, p)
  {
    var f := Product(OneTo(p - 1));
    MultiplesDistinct(a, p, Multiples(a, p - 1, p));
    DistinctIsPermutation(Multiples(a, p - 1, p), p - 1);
    ProductPermutation(Multiples(a, p - 1, p), OneTo(p - 1));
    ProductOfMultiples(a, p - 1, p);
    FactorialNonzero(p - 1, p);
    assert f * 1 == f && Pow(a, p - 1) * f == f * Pow(a, p - 1);
    CancelMod(f, 1, Pow(a, p - 1), p);
  }

  /** Fermat for exponents `1 + k*(p-1)`, which also covers multiples of `p`. */
  lemma FermatCycle(a: int, k: nat, p: int)
    requires IsPrime(p)
    ensures k * (p - 1) >= 0 && Cong(Pow(a, 1 + k * (p - 1)), a, p)
  {
    assert k * (p - 1) >= 0;
    if a % p == 0 {
      CongZero(a, p);
      CongMul(a, 0, Pow(a, k * (p - 1)), Pow(a, k * (p - 1)), p);
    } else {
      Fermat(a, p);
      assert k * (p - 1) == (p - 1) * k;
      PowMul(a, p - 1, k);
      CongPow(Pow(a, p - 1), 1, k, p);
      PowOne(k);
      CongMul(a, a, Pow(a, k * (p - 1)), 1, p);
    }
  }

  /** The lift of Fermat to the square of a prime: `a^(p*(p-1))` is 1 modulo `p*p`. */
  lemma FermatSquare(a: int, p: int)
    requires IsPrime(p) && a % p != 0
    ensures (p - 1) * p >= 0 && p * p > 0 && Cong(Pow(a, (p - 1) * p), 1, p * p)
  {
    Fermat(a, p);
    var k := CongQuotient(Pow(a, p - 1), 1, p);
    PowMul(a, p - 1, p);
    PowOnePlus(k, p, p);
    assert p * k * p == k * (p * p);
    CongFromMultiple(1 + p * k * p, 1, k, p * p);
  }

  // ---------- two moduli ----------

  lemma DistinctPrimesCoprime(p: int, q: int)
    requires IsPrime(p) && IsPrime(q) && p != q
    ensures p % q != 0 && q % p != 0
  {
    if p > q { SmallMod(q, p); } else { SmallMod(p, q); }
  }

  /** Congruent modulo two distinct primes means congruent modulo their product. */
  lemma CongCombine(a: int, b: int, p: int, q: int)
    requires IsPrime(p) && IsPrime(q) && p != q
    requires Cong(a, b, p) && Cong(a, b, q)
    ensures p * q > 0 && Cong(a, b, p * q)
  {
    assert p * q > 0;
    var k := CongQuotient(a, b, p);
    var l := CongQuotient(a, b, q);
    assert k * p == l * q;
    CongFromMultiple(k * p, 0, l, q);
    CongZero(k * p, q);
    EuclidLemma(k, p, q);
    DistinctPrimesCoprime(p, q);
    var t := ExactQuotient(k, q);
    assert k * p == t * (p * q);
    CongFromMultiple(a, b, t, p * q);
  }

  /**
   The contract of big.Int.ModInverse: the inverse of `a` modulo `m` in `[0, m)`, or nil.
   How big.Int finds it is not modelled; a search stands in for it.
   */
  function ModInverse(a: int, m: int): (r: Inverse)
    requires m > 0
    ensures r.Found? ==> 0 <= r.x < m && Cong(a * r.x, 1, m)
    ensures r.Missing? ==> forall x :: 0 <= x < m ==> !Cong(a * x, 1, m)
  {
    InverseFrom(a, m, 0)
  }

  function InverseFrom(a: int, m: int, from: nat): (r: Inverse)
    requires m > 0 && from <= m
    ensures r.Found? ==> from <= r.x < m && Cong(a * r.x, 1, m)
    ensures r.Missing? ==> forall x :: from <= x < m ==> !Cong(a * x, 1, m)
    decreases m - from
  {
    if from == m then Missing
    else if (a * from) % m == 1 % m then Found(from)
    else InverseFrom(a, m, from + 1)
  }

  datatype Inverse = Found(x: int) | Missing

  lemma ModInverseFound(a: int, x: int, m: int)
    requires m > 0 && Cong(a * x, 1, m)
    ensures ModInverse(a, m).Found?
  {
    CongMod(x, m);
    CongMul(a, a, x % m, x, m);
    assert Cong(a * (x % m), 1, m);
  }
}
