/**
 Scalars modulo the group order, updated in place as the source does, and the group itself.
 The curve group is cyclic of prime order N, so a point is represented by its exponent to the
 base G, in [0, N); the point at infinity is 0 and G is 1.
 */
module Scalars {
  import opened NumberTheory
  import opened Polynomials

  type Point = int

  /**
   The curve: the prime order N of its group, the x-coordinate of each point, and the hash
   function used on lists of numbers.  Nothing is assumed about the last two.
   */
  datatype Curve = Curve(N: int, X: Point -> int, hash: seq<int> -> int)

  const G: Point := 1

  function ScalarBaseMult(k: int, N: int): Point
    requires N > 0
  {
    k % N
  }

  function ScalarMult(p: Point, k: int, N: int): Point
    requires N > 0
  {
    (p * k) % N
  }

  function PointAdd(p: Point, q: Point, N: int): Point
    requires N > 0
  {
    (p + q) % N
  }

  /** Adds the negated second point. */
  function PointSub(p: Point, q: Point, N: int): Point
    requires N > 0
  {
    (p - q) % N
  }

  /** A scalar holds a pointer to a big integer; the arithmetic below overwrites what it points to. */
  class PrivKey {
    var D: int

    constructor (d: int)
      ensures D == d
    {
      D := d;
    }

    method Clone() returns (r: PrivKey)
      ensures fresh(r) && r.D == D
    {
      r := new PrivKey(D);
    }
  }

  method BigInt2PrivateKey(i: int, N: int) returns (r: PrivKey)
    requires N > 0
    ensures fresh(r) && r.D == i % N
  {
    r := new PrivKey(i % N);
  }

  lemma SumOfResidues(a: int, b: int, N: int)
    requires N > 0
    ensures (a % N + b % N) % N == (a + b) % N
    ensures ((a % N) * (b % N)) % N == (a * b) % N
    ensures (a % N - b % N) % N == (a - b) % N
  {
    CongMod(a, N);
    CongMod(b, N);
    CongAdd(a % N, a, b % N, b, N);
    CongMul(a % N, a, b % N, b, N);
  }

  lemma ModMod(a: int, N: int)
    requires N > 0
    ensures (a % N) % N == a % N
  {
    CongMod(a, N);
  }

  /** s1 = s1 + s2 mod N, also when both are the same scalar. */
  method ModAdd(s1: PrivKey, s2: PrivKey, N: int) returns (r: PrivKey)
    requires N > 0
    modifies s1
    ensures r == s1 && s1.D == (old(s1.D) + old(s2.D)) % N
  {
    SumOfResidues(s1.D, s2.D, N);
    ModMod(s2.D, N);
    s1.D := s1.D % N;
    var t := s2.D % N;
    s1.D := s1.D + t;
    s1.D := s1.D % N;
    r := s1;
  }

  /** Adds a scalar that arrived by value. */
  method AddValue(s1: PrivKey, v: int, N: int)
    requires N > 0
    modifies s1
    ensures s1.D == (old(s1.D) + v) % N
  {
    var s2 := new PrivKey(v);
    var _ := ModAdd(s1, s2, N);
  }

  /** s1 = s1 * s2 mod N */
  method ModMul(s1: PrivKey, s2: PrivKey, N: int) returns (r: PrivKey)
    requires N > 0
    modifies s1
    ensures r == s1 && s1.D == (old(s1.D) * old(s2.D)) % N
  {
    SumOfResidues(s1.D, s2.D, N);
    ModMod(s2.D, N);
    s1.D := s1.D % N;
    var t := s2.D % N;
    s1.D := s1.D * t;
    s1.D := s1.D % N;
    r := s1;
  }

  /** s1 = s1 - s2 mod N, by adding N - s2 when s1 is the smaller residue. */
  method ModSub(s1: PrivKey, s2: PrivKey, N: int) returns (r: PrivKey)
    requires N > 0
    modifies s1
    ensures r == s1 && s1.D == (old(s1.D) - old(s2.D)) % N
  {
    SumOfResidues(s1.D, s2.D, N);
    ModMod(s2.D, N);
    s1.D := s1.D % N;
    var t := s2.D % N;
    if s1.D >= t {
      s1.D := s1.D - t;
      s1.D := s1.D % N;
    } else {
      CongFromMultiple(s1.D + (-t + N), s1.D - t, 1, N);
      t := 0 - t;
      t := t + N;
      s1.D := s1.D + t;
      s1.D := s1.D % N;
    }
    r := s1;
  }

  /** The inverse by Fermat's method: a fresh scalar `k^(N-2) mod N`. */
  method InvertN(k: PrivKey, N: int) returns (r: PrivKey)
    requires N >= 2
    ensures fresh(r) && r.D == Invert(k.D, N)
    ensures IsPrime(N) && k.D % N != 0 ==> Cong(k.D * r.D, 1, N)
  {
    r := new PrivKey(Exp(k.D, N - 2, N));
    if IsPrime(N) && k.D % N != 0 {
      InvertIsInverse(k.D, N);
    }
  }

  /** The numbers a list of scalars holds. */
  ghost function Nums(s: seq<PrivKey>): (r: seq<int>)
    reads s
    ensures |r| == |s| && forall i :: 0 <= i < |s| ==> r[i] == s[i].D
  {
    seq(|s|, i requires 0 <= i < |s| reads s => s[i].D)
  }
}
