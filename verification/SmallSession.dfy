/**
 The honest sessions the main theorem speaks of exist: the smallest one, with two notaries, a group
 of order 3 and Paillier primes 3 and 5, meets every hypothesis.
 */
module SmallSession {
  import opened NumberTheory
  import opened Polynomials
  import opened Scalars
  import opened Paillier
  import opened Mta
  import opened Feldman
  import opened Sharing
  import opened KeyGen
  import opened SigningAlgebra
  import opened EndToEnd

  lemma SmallKey() returns (key: PrivateKey)
    ensures ValidKey(key) && key.p == 3 && key.q == 5 && key.pub.N == 15
  {
    assert IsPrime(3) && IsPrime(5);
    KeyExists(3, 5);
    key := NewPrivateKey(3, 5).value;
    hide NewPrivateKey;
    KeyOf(3, 5, key);
  }

  lemma KeyOf(p: int, q: int, key: PrivateKey)
    requires p >= 2 && q >= 2 && NewPrivateKey(p, q) == Ok(key)
    ensures key.p == p && key.q == q && key.pub.N == p * q
  {
    hide ModInverse, H, CrtDecompose;
  }

  function SessionWith(key: PrivateKey): Session {
    var d := Draws(0, 1, 0, 0);
    Session(Curve(3, x => 1, xs => 0), [[1, 0], [0, 0]], [VerifiableSS(1, 2, [1, 0]), VerifiableSS(1, 2, [0, 0])], [0, 0], 1,
            [[0, 1], [1, 0]],
            [0, 1], [[0, 1], [1, 0]], [1, 1], [1, 0], [key, key], [1, 1], [[d, d], [d, d]], [[d, d], [d, d]], 0)
  }

  lemma SmallFormed(key: PrivateKey)
    ensures WellFormed(SessionWith(key))
  {
    var se := SessionWith(key);
    var S, T: seq<nat> := [0, 1], [1, 0];
    assert multiset(S) == multiset(T);
    assert IsPrime(3);
    SmallCommits(se.polys, se.vsss);
    hide IsPrime, AllCommit;
  }

  lemma SmallCommits(polys: seq<seq<int>>, vsss: seq<VerifiableSS>)
    requires polys == [[1, 0], [0, 0]] && vsss == [VerifiableSS(1, 2, [1, 0]), VerifiableSS(1, 2, [0, 0])]
    ensures AllCommit(polys, vsss, 3)
  {
  }

  lemma SmallHonest(key: PrivateKey)
    requires ValidKey(key) && key.p == 3 && key.q == 5 && key.pub.N == 15
    ensures HonestSession(SessionWith(key))
  {
    SmallFormed(key);
    assert GoodDraw(1, key);
    hide ValidKey, WellFormed, GoodDraw;
  }

  lemma SmallSums(key: PrivateKey)
    requires HonestSession(SessionWith(key))
    ensures NonzeroSums(SessionWith(key))
  {
    var se := SessionWith(key);
    hide HonestSession, NonceOf, SignatureShares;
    assert Sum([1, 1]) == 2 && Sum([1, 0]) == 1;
    ShareTotal(se);
    assert ConstantTerms(se.polys) == [1, 0];
    SumCong(se.ks, [1, 1], 3);
    var s := Sum(SignatureShares(se));
    assert RCoordinate(NonceOf(se), se.curve) == 1;
    assert Cong(s, 2, 3);
  }

  /** The hypotheses of the main theorem can be met. */
  lemma SomeSessionSigns()
    ensures exists se :: HonestSession(se) && NonzeroSums(se) && |se.S| == 2
  {
    var key := SmallKey();
    SmallHonest(key);
    SmallSums(key);
    assert |SessionWith(key).S| == 2;
  }
}
