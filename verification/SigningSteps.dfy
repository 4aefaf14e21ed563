/**
 The steps of a signing session that do not touch the handler's own fields: the loops that add up
 shares and points, the commitments, and the two decommitment rounds.
 */
module SigningSteps {
  import opened Collections
  import opened NumberTheory
  import opened Polynomials
  import opened Scalars
  import opened Paillier
  import opened Proofs
  import opened Mta
  import opened SigningAlgebra
  import opened Arrivals

  datatype Phase1Message = Phase1Message(com: int, blindFactor: int)

  /** A notary's answer to itself carries no second part. */
  datatype MessageBPhase2 = MessageBPhase2(gamma: MessageB, wi: Option<MessageB>)

  datatype Decom1 = Decom1(Vi: Point, Ai: Point, Bi: Point, blindFactor: int)

  datatype Phase5A = Phase5A(com: int, decom: Decom1, proof: ElGamalProof)

  datatype Decom2 = Decom2(Ui: Point, Ti: Point, blindFactor: int)

  datatype Phase5C = Phase5C(com: int, decom: Decom2)

  datatype LocalSignature = LocalSignature(LI: int, RhoI: int, R: Point, SI: int, M: int, Y: Point)

  /** The session's curve and its hash of a number with a blinding factor. */
  datatype Setting = Setting(curve: Curve, commit: (int, int) -> int)

  function HashPoints(ps: seq<Point>, curve: Curve): int
    requires curve.N > 0
  {
    curve.hash(ps) % curve.N
  }

  // ---------- projections of the message maps ----------

  function GammaPoints(m: map<nat, MessageBPhase2>): (r: map<nat, int>)
    ensures r.Keys == m.Keys
  {
    map i | i in m :: m[i].gamma.bProof.PK
  }

  function VPoints(m: map<nat, Phase5A>): (r: map<nat, int>)
    ensures r.Keys == m.Keys
  {
    map i | i in m :: m[i].decom.Vi
  }

  function APoints(m: map<nat, Phase5A>): (r: map<nat, int>)
    ensures r.Keys == m.Keys
  {
    map i | i in m :: m[i].decom.Ai
  }

  function BPoints(m: map<nat, Phase5A>): (r: map<nat, int>)
    ensures r.Keys == m.Keys
  {
    map i | i in m :: m[i].decom.Bi
  }

  function UPoints(m: map<nat, Phase5C>): (r: map<nat, int>)
    ensures r.Keys == m.Keys
  {
    map i | i in m :: m[i].decom.Ui
  }

  function TPoints(m: map<nat, Phase5C>): (r: map<nat, int>)
    ensures r.Keys == m.Keys
  {
    map i | i in m :: m[i].decom.Ti
  }

  lemma InvertReduced(x: int, y: int, N: int)
    requires N >= 2 && Cong(x, y, N)
    ensures Invert(x, N) == Invert(y, N)
  {
    CongPow(x, y, N - 2, N);
  }

  // ---------- the two products ----------

  /** What each position of the signer list contributes: the own product, or a peer's alpha and beta. */
  function Contributions(S: seq<nat>, self: nat, own: int, alphas: map<nat, int>, betas: map<nat, int>): (r: seq<int>)
    requires forall i :: i in S && i != self ==> i in alphas && i in betas
    ensures |r| == |S|
    ensures forall j :: 0 <= j < |S| ==> r[j] == if S[j] == self then own else alphas[S[j]] + betas[S[j]]
  {
    seq(|S|, j requires 0 <= j < |S| => assert S[j] in S; if S[j] == self then own else alphas[S[j]] + betas[S[j]])
  }

  /** Skipping the own position and starting from the own product adds up the same. */
  lemma OwnProductFirst(S: seq<nat>, self: nat, own: int, alphas: map<nat, int>, betas: map<nat, int>)
    requires Distinct(S) && self in S && forall i :: i in S && i != self ==> i in alphas && i in betas
    ensures own + Sum(Contributions(S, self, 0, alphas, betas)) == Sum(Contributions(S, self, own, alphas, betas))
  {
    var p :| 0 <= p < |S| && S[p] == self;
    var c, d := Contributions(S, self, 0, alphas, betas), Contributions(S, self, own, alphas, betas);
    SumTakeOut(c, p);
    SumTakeOut(d, p);
    assert Others(c, p) == Others(d, p);
  }

  lemma ContributionSnoc(s: seq<nat>, i: nat, self: nat, alphas: map<nat, int>, betas: map<nat, int>)
    requires forall k :: k in s + [i] && k != self ==> k in alphas && k in betas
    ensures (forall k :: k in s ==> k in s + [i])
    ensures Contributions(s + [i], self, 0, alphas, betas) ==
              Contributions(s, self, 0, alphas, betas) + [if i == self then 0 else alphas[i] + betas[i]]
  {
    assert i in s + [i];
  }

  lemma ContributionStep(s: seq<nat>, i: nat, self: nat, own: int, acc: int, alphas: map<nat, int>, betas: map<nat, int>, N: int)
    requires N > 0 && forall k :: k in s + [i] && k != self ==> k in alphas && k in betas
    requires (forall k :: k in s ==> k in s + [i]) && i in s + [i]
    requires acc == (own + Sum(Contributions(s, self, 0, alphas, betas))) % N
    ensures (if i == self then acc else ((acc + alphas[i]) % N + betas[i]) % N)
              == (own + Sum(Contributions(s + [i], self, 0, alphas, betas))) % N
  {
    hide Contributions, Sum;
    var c, x := Contributions(s, self, 0, alphas, betas), if i == self then 0 else alphas[i] + betas[i];
    var after := Contributions(s + [i], self, 0, alphas, betas);
    ContributionSnoc(s, i, self, alphas, betas);
    SumSnoc(c, x);
    if i == self {
      SameResidue(own + Sum(c), own + Sum(after), N);
    } else {
      AddTwice(own + Sum(c), alphas[i], betas[i], acc, own + Sum(after), N);
    }
  }

  lemma SameResidue(x: int, y: int, N: int)
    requires N > 0 && x == y
    ensures x % N == y % N
  {
  }

  lemma AddTwice(x: int, a: int, b: int, acc: int, total: int, N: int)
    requires N > 0 && total == x + (a + b) && acc == x % N
    ensures ((acc + a) % N + b) % N == total % N
  {
    AddLeft(x, a, N);
    AddLeft(x + a, b, N);
  }

  lemma PrefixMembers(S: seq<nat>, j: nat)
    requires j < |S|
    ensures S[..j + 1] == S[..j] + [S[j]]
    ensures forall i :: i in S[..j] + [S[j]] ==> i in S
    ensures forall i :: i in S[..j] ==> i in S[..j] + [S[j]]
  {
    assert forall i :: i in S[..j + 1] ==> i in S;
  }

  /** `acc` is the own product plus what the first `j` listed signers contribute, modulo N. */
  ghost predicate Added(acc: int, S: seq<nat>, j: nat, self: nat, own: int, alphas: map<nat, int>, betas: map<nat, int>, N: int)
    requires N > 0 && j <= |S| && forall i :: i in S && i != self ==> i in alphas && i in betas
  {
    assert forall i :: i in S[..j] ==> i in S;
    acc == (own + Sum(Contributions(S[..j], self, 0, alphas, betas))) % N
  }

  lemma AddedStep(acc: int, S: seq<nat>, j: nat, self: nat, own: int, alphas: map<nat, int>, betas: map<nat, int>, N: int)
    requires N > 0 && j < |S| && forall i :: i in S && i != self ==> i in alphas && i in betas
    requires Added(acc, S, j, self, own, alphas, betas, N)
    ensures Added(if S[j] == self then acc else ((acc + alphas[S[j]]) % N + betas[S[j]]) % N, S, j + 1, self, own, alphas, betas, N)
  {
    PrefixMembers(S, j);
    ContributionStep(S[..j], S[j], self, own, acc, alphas, betas, N);
  }

  lemma AddedAll(acc: int, S: seq<nat>, self: nat, own: int, alphas: map<nat, int>, betas: map<nat, int>, N: int)
    requires N > 0 && Distinct(S) && self in S && forall i :: i in S && i != self ==> i in alphas && i in betas
    requires Added(acc, S, |S|, self, own, alphas, betas, N)
    ensures acc == Sum(Contributions(S, self, own, alphas, betas)) % N
  {
    assert S[..|S|] == S;
    OwnProductFirst(S, self, own, alphas, betas);
  }

  /** The loop over the signer list, in place on `r`, which starts as the own product. */
  method AddPeers(r: PrivKey, S: seq<nat>, self: nat, alphas: map<nat, int>, betas: map<nat, int>, N: int, ghost own: int)
    requires N > 0 && Distinct(S) && self in S && forall i :: i in S && i != self ==> i in alphas && i in betas
    requires r.D == own % N
    modifies r
    ensures r.D == Sum(Contributions(S, self, own, alphas, betas)) % N
  {
    assert Added(r.D, S, 0, self, own, alphas, betas, N);
    hide Added, Distinct;
    for j := 0 to |S|
      invariant Added(r.D, S, j, self, own, alphas, betas, N)
    {
      AddedStep(r.D, S, j, self, own, alphas, betas, N);
      if S[j] != self {
        AddValue(r, alphas[S[j]], N);
        AddValue(r, betas[S[j]], N);
      }
    }
    AddedAll(r.D, S, self, own, alphas, betas, N);
  }

  // ---------- phases 3 and 4 ----------

  method Phase3ReconstructDelta(delta: map<nat, int>, N: int) returns (r: PrivKey)
    requires N >= 2
    ensures fresh(r) && r.D == Invert(MapSum(delta), N)
  {
    var sum := new PrivKey(0);
    ghost var seen: seq<nat> := [];
    var rem := delta.Keys;
    while rem != {}
      invariant fresh(sum) && Visited(seen, rem, delta.Keys)
      invariant sum.D == (0 + Sum(Along(delta, seen))) % N
      decreases |rem|
    {
      var i :| i in rem;
      VisitAdd(delta, seen, rem, i, 0, sum.D, N);
      AddValue(sum, delta[i], N);
      rem, seen := rem - {i}, seen + [i];
    }
    MapSumAnyOrder(delta, seen);
    CongMod(MapSum(delta), N);
    InvertReduced(sum.D, MapSum(delta), N);
    r := InvertN(sum, N);
  }

  /** The gamma point behind message `i` is the one committed to in phase 1. */
  predicate GammaMatches(i: nat, m: map<nat, MessageBPhase2>, phase1: map<nat, Phase1Message>, st: Setting)
    requires i in m && i in phase1
  {
    st.commit(st.curve.X(m[i].gamma.bProof.PK), phase1[i].blindFactor) == phase1[i].com
  }

  datatype GammaVerdict = AllMatch | Mismatch | NoCommitment

  /** The loop over the answers stops at the first that does not open, or that nothing was committed for, where the source dereferences nil. */
  method CheckGammas(m: map<nat, MessageBPhase2>, phase1: map<nat, Phase1Message>, st: Setting) returns (v: GammaVerdict)
    ensures v == AllMatch <==> m.Keys <= phase1.Keys && forall i :: i in m ==> GammaMatches(i, m, phase1, st)
    ensures v == Mismatch ==> exists i :: i in m && i in phase1 && !GammaMatches(i, m, phase1, st)
    ensures v == NoCommitment ==> !(m.Keys <= phase1.Keys)
  {
    var rem := m.Keys;
    while rem != {}
      invariant rem <= m.Keys
      invariant forall i :: i in m.Keys - rem ==> i in phase1 && GammaMatches(i, m, phase1, st)
      decreases |rem|
    {
      var i :| i in rem;
      if i !in phase1 {
        return NoCommitment;
      }
      if !GammaMatches(i, m, phase1, st) {
        return Mismatch;
      }
      rem := rem - {i};
    }
    return AllMatch;
  }

  /** The running sum starts out as "not a point yet", written (0,0), which is also how the point at infinity reads. */
  method SumGammas(m: map<nat, MessageBPhase2>, N: int) returns (sum: Point)
    requires N > 0 && forall i :: i in m ==> 0 <= m[i].gamma.bProof.PK < N
    ensures sum == MapSum(GammaPoints(m)) % N
  {
    ghost var vs := GammaPoints(m);
    ghost var seen: seq<nat> := [];
    sum := 0;
    var rem := m.Keys;
    while rem != {}
      invariant Visited(seen, rem, vs.Keys)
      invariant sum == (0 + Sum(Along(vs, seen))) % N
      decreases |rem|
    {
      var i :| i in rem;
      VisitAdd(vs, seen, rem, i, 0, sum, N);
      if sum == 0 {
        SmallMod(m[i].gamma.bProof.PK, N);
        sum := m[i].gamma.bProof.PK;
      } else {
        sum := PointAdd(sum, m[i].gamma.bProof.PK, N);
      }
      rem, seen := rem - {i}, seen + [i];
    }
    MapSumAnyOrder(vs, seen);
  }

  datatype Phase4Result = Derived(R: Point) | Refused | Crashed

  /**
   What phase 4 may come to.  With a commitment for every answer it is decided; with as many
   commitments as answers but not the same senders, it depends on which is looked at first.
   */
  ghost predicate Phase4Outcome(r: Phase4Result, delta: int, m: map<nat, MessageBPhase2>, phase1: map<nat, Phase1Message>, st: Setting)
    requires st.curve.N > 0
  {
    if |m| != |phase1| then r == Crashed
    else if m.Keys == phase1.Keys then
      r == if forall i :: i in m ==> GammaMatches(i, m, phase1, st)
           then Derived(ScalarMult(ScalarBaseMult(MapSum(GammaPoints(m)), st.curve.N), delta, st.curve.N)) else Refused
    else
      r == Crashed || (r == Refused && exists i :: i in m && i in phase1 && !GammaMatches(i, m, phase1, st))
  }

  lemma SameKeys(a: set<nat>, b: set<nat>)
    requires a <= b && |a| == |b|
    ensures a == b
  {
    assert b == a + (b - a);
    assert |b - a| == 0;
  }

  method Phase4(delta: PrivKey, m: map<nat, MessageBPhase2>, phase1: map<nat, Phase1Message>, st: Setting)
    returns (r: Phase4Result)
    requires st.curve.N > 0 && forall i :: i in m ==> 0 <= m[i].gamma.bProof.PK < st.curve.N
    ensures Phase4Outcome(r, delta.D, m, phase1, st)
  {
    if |m| != |phase1| {
      return Crashed;
    }
    assert |m.Keys| == |m| && |phase1.Keys| == |phase1|;
    var v := CheckGammas(m, phase1, st);
    match v {
      case NoCommitment => r := Crashed;
      case Mismatch => r := Refused;
      case AllMatch =>
        SameKeys(m.Keys, phase1.Keys);
        var sum := SumGammas(m, st.curve.N);
        r := Derived(ScalarMult(sum, delta.D, st.curve.N));
    }
  }

  // ---------- the local signature ----------

  /** `li` and `rhoi` stand for the two scalars drawn here. */
  method Phase5LocalSignature(ki: PrivKey, message: int, R: Point, sigmaI: PrivKey, pubkey: Point, li: int, rhoi: int, curve: Curve)
    returns (l: LocalSignature)
    requires curve.N > 0
    ensures l == LocalSignature(li, rhoi, R, SignatureShare(message, ki.D, RCoordinate(R, curve), sigmaI.D, curve.N), message, pubkey)
  {
    var m := BigInt2PrivateKey(message, curve.N);
    var r := BigInt2PrivateKey(curve.X(R), curve.N);
    var si := ModMul(m, ki, curve.N);
    var _ := ModMul(r, sigmaI, curve.N);
    var _ := ModAdd(si, r, curve.N);
    l := LocalSignature(li, rhoi, R, si.D, message, pubkey);
  }

  // ---------- the first decommitment round ----------

  function FirstStatement(d: Decom1, R: Point): Statement {
    Statement(d.Ai, R, G, d.Vi, d.Bi)
  }

  /** What a receiver checks of a first decommitment: the opened commitment and the ElGamal proof. */
  predicate FirstRoundValid(m: Phase5A, R: Point, st: Setting)
    requires st.curve.N > 0
  {
    && st.commit(HashPoints([m.decom.Vi, m.decom.Ai, m.decom.Bi], st.curve), m.decom.blindFactor) == m.com
    && VerifyElGamal(m.proof, FirstStatement(m.decom, R), st.curve)
  }

  /** The points of an honest first decommitment. */
  ghost predicate FirstRoundHonest(l: LocalSignature, d: Decom1, N: int)
    requires N > 0
  {
    && Cong(d.Vi, Lin(1, l.LI, l.R, l.SI), N)
    && d.Ai == l.RhoI % N
    && Cong(d.Bi, Times(l.LI, l.RhoI), N)
  }

  /** An honest signer's first round is formed correctly and is accepted by everyone. */
  method Phase5aBroadcast5bZkproof(l: LocalSignature, blindFactor: int, s1: int, s2: int, st: Setting) returns (m: Phase5A)
    requires st.curve.N > 0
    ensures FirstRoundValid(m, l.R, st) && FirstRoundHonest(l, m.decom, st.curve.N)
  {
    var N := st.curve.N;
    var rho := new PrivKey(l.RhoI);
    var li := new PrivKey(l.LI);
    var Ai := ScalarBaseMult(rho.D, N);
    var lIRhoI := li.Clone();
    var _ := ModMul(lIRhoI, rho, N);
    var Bi := ScalarBaseMult(lIRhoI.D, N);
    var t := ScalarMult(l.R, l.SI, N);
    var Vi := PointAdd(ScalarBaseMult(li.D, N), t, N);
    FirstRoundPoints(l, Vi, Ai, Bi, N);
    var com := st.commit(HashPoints([Vi, Ai, Bi], st.curve), blindFactor);
    var d := Decom1(Vi, Ai, Bi, blindFactor);
    var si := new PrivKey(l.SI);
    var proof := CreateHomoELGamalProof(li, si, FirstStatement(d, l.R), s1, s2, st.curve);
    m := Phase5A(com, d, proof);
  }

  lemma FirstRoundPoints(l: LocalSignature, v: Point, a: Point, b: Point, N: int)
    requires N > 0 && v == (l.LI % N + (l.R * l.SI) % N) % N && a == l.RhoI % N && b == ((l.LI * l.RhoI) % N) % N
    ensures Cong(v, Lin(1, l.LI, l.R, l.SI), N) && Cong(b, Times(l.LI, l.RhoI), N)
    ensures Cong(v, l.SI * l.R + l.LI * G, N) && Cong(b, l.LI * a, N)
  {
    SumOfResidues(l.LI, l.R * l.SI, N);
    CongMod(l.LI + l.R * l.SI, N);
    assert l.R * l.SI == l.SI * l.R;
    CongMod(l.LI * l.RhoI, N);
    CongMod((l.LI * l.RhoI) % N, N);
    CongTrans(b, (l.LI * l.RhoI) % N, l.LI * l.RhoI, N);
    CongMod(l.RhoI, N);
    CongRefl(l.LI, N);
    CongMul(l.LI, l.LI, a, l.RhoI, N);
    CongTrans(b, l.LI * l.RhoI, l.LI * a, N);
  }

  // ---------- the second decommitment round ----------

  predicate SecondRoundValid(m: Phase5C, st: Setting)
    requires st.curve.N > 0
  {
    st.commit(HashPoints([m.decom.Ui, m.decom.Ti], st.curve), m.decom.blindFactor) == m.com
  }

  function DecomVs(ds: seq<Decom1>): (r: seq<int>)
    ensures |r| == |ds| && forall i :: 0 <= i < |r| ==> r[i] == ds[i].Vi
  {
    seq(|ds|, i requires 0 <= i < |ds| => ds[i].Vi)
  }

  function DecomAs(ds: seq<Decom1>): (r: seq<int>)
    ensures |r| == |ds| && forall i :: 0 <= i < |r| ==> r[i] == ds[i].Ai
  {
    seq(|ds|, i requires 0 <= i < |ds| => ds[i].Ai)
  }

  /** The points of an honest second decommitment, given the sum of all V and of everybody else's A. */
  ghost predicate SecondRoundHonest(l: LocalSignature, d: Decom2, vs: int, otherAs: int, curve: Curve)
    requires curve.N > 0
  {
    && Cong(d.Ui, Times(Unsigned(vs, l.M, RCoordinate(l.R, curve), l.Y), l.RhoI), curve.N)
    && Cong(d.Ti, Times(otherAs, l.LI), curve.N)
  }

  lemma AddStep(base: int, s: seq<int>, i: nat, acc: int, N: int)
    requires N > 0 && i < |s| && Cong(acc, base + Sum(s[..i]), N)
    ensures Cong((acc + s[i]) % N, base + Sum(s[..i + 1]), N)
  {
    assert s[..i + 1] == s[..i] + [s[i]];
    SumSnoc(s[..i], s[i]);
    CongRefl(s[i], N);
    CongAdd(acc, base + Sum(s[..i]), s[i], s[i], N);
    CongMod(acc + s[i], N);
    CongTrans((acc + s[i]) % N, acc + s[i], base + Sum(s[..i + 1]), N);
  }

  /** The blinded difference between the V total and m*G + r*Y. */
  function Blinded(v: Point, m: int, r: int, y: Point, rho: int, N: int): Point
    requires N > 0
  {
    ScalarMult(PointSub(PointSub(v, ScalarBaseMult(m % N, N), N), ScalarMult(y, r, N), N), rho, N)
  }

  lemma BlindedCong(v: int, vs: int, m: int, r: int, y: Point, rho: int, N: int)
    requires N > 0 && Cong(v, vs, N)
    ensures Cong(Blinded(v, m, r, y, rho, N), Times(Unsigned(vs, m, r, y), rho), N)
  {
    hide Cong;
    var a := (v - (m % N) % N) % N;
    var b := (a - (y * r) % N) % N;
    CongMod(m, N);
    CongMod(m % N, N);
    CongTrans((m % N) % N, m % N, m, N);
    CongAdd(v, vs, (m % N) % N, m, N);
    CongMod(v - (m % N) % N, N);
    CongTrans(a, v - (m % N) % N, vs - m, N);
    CongMod(y * r, N);
    CongAdd(a, vs - m, (y * r) % N, y * r, N);
    CongMod(a - (y * r) % N, N);
    CongTrans(b, a - (y * r) % N, vs - m - y * r, N);
    UnsignedIs(vs, m, r, y);
    CongSubst(b, vs - m - y * r, Unsigned(vs, m, r, y), N);
    CongRefl(rho, N);
    CongMul(b, Unsigned(vs, m, r, y), rho, rho, N);
    CongMod(b * rho, N);
    CongTrans((b * rho) % N, b * rho, Unsigned(vs, m, r, y) * rho, N);
  }

  lemma UnsignedIs(vs: int, m: int, r: int, y: Point)
    ensures vs - m - y * r == Unsigned(vs, m, r, y)
  {
  }

  lemma SecondRoundFormed(l: LocalSignature, d: Decom2, v: int, vs: int, a: int, otherAs: int, curve: Curve)
    requires curve.N > 0 && Cong(v, vs, curve.N) && Cong(a, otherAs, curve.N)
    requires d.Ui == Blinded(v, l.M, RCoordinate(l.R, curve), l.Y, l.RhoI, curve.N)
    requires d.Ti == ScalarMult(a, l.LI, curve.N)
    ensures SecondRoundHonest(l, d, vs, otherAs, curve)
  {
    BlindedCong(v, vs, l.M, RCoordinate(l.R, curve), l.Y, l.RhoI, curve.N);
    CongScale(a, otherAs, l.LI, curve.N);
    hide Cong, Times, Unsigned, Blinded, RCoordinate;
  }

  method TotalV(vi: Point, ds: seq<Decom1>, N: int) returns (v: Point)
    requires N > 0
    ensures Cong(v, vi + Sum(DecomVs(ds)), N)
  {
    ghost var vs := DecomVs(ds);
    v := vi;
    CongRefl(vi + Sum(vs[..0]), N);
    for i := 0 to |ds|
      invariant Cong(v, vi + Sum(vs[..i]), N)
    {
      AddStep(vi, vs, i, v, N);
      v := PointAdd(v, ds[i].Vi, N);
    }
    assert vs[..|ds|] == vs;
  }

  method TotalA(ds: seq<Decom1>, N: int) returns (a: Point)
    requires N > 0 && ds != []
    ensures Cong(a, Sum(DecomAs(ds)), N)
  {
    ghost var avs := DecomAs(ds);
    a := ds[0].Ai;
    SumOfOne(avs);
    CongRefl(a, N);
    for i := 1 to |ds|
      invariant Cong(a, 0 + Sum(avs[..i]), N)
    {
      AddStep(0, avs, i, a, N);
      a := PointAdd(a, ds[i].Ai, N);
    }
    assert avs[..|ds|] == avs;
  }

  /** Requires at least one other signer, whose decommitment the source reads first. */
  method Phase5c(l: LocalSignature, ds: seq<Decom1>, vi: Point, blindFactor: int, st: Setting) returns (m: Phase5C)
    requires st.curve.N > 0 && ds != []
    ensures SecondRoundValid(m, st)
    ensures SecondRoundHonest(l, m.decom, vi + Sum(DecomVs(ds)), Sum(DecomAs(ds)), st.curve)
  {
    var N := st.curve.N;
    hide Cong, SecondRoundHonest, HashPoints, ScalarMult, PointSub, ScalarBaseMult;
    var v := TotalV(vi, ds, N);
    var a := TotalA(ds, N);
    var r := st.curve.X(l.R) % N;
    ghost var total := v;
    var yr := ScalarMult(l.Y, r, N);
    v := PointSub(v, ScalarBaseMult(l.M % N, N), N);
    v := PointSub(v, yr, N);
    var ui := ScalarMult(v, l.RhoI, N);
    var ti := ScalarMult(a, l.LI, N);
    SecondRoundFormed(l, Decom2(ui, ti, blindFactor), total, vi + Sum(DecomVs(ds)), a, Sum(DecomAs(ds)), st.curve);
    m := Phase5C(st.commit(HashPoints([ui, ti], st.curve), blindFactor), Decom2(ui, ti, blindFactor));
  }

  lemma SumOfOne(s: seq<int>)
    requires s != []
    ensures Sum(s[..1]) == s[0]
  {
    assert s[..1] == [s[0]];
  }

  lemma CongScale(a: int, total: int, l: int, N: int)
    requires N > 0 && Cong(a, total, N)
    ensures Cong(ScalarMult(a, l, N), Times(total, l), N)
  {
    CongRefl(l, N);
    CongMul(a, total, l, l, N);
    CongMod(a * l, N);
    CongTrans((a * l) % N, a * l, total * l, N);
  }

  // ---------- the accumulated test ----------

  function PointsU(ds: seq<Decom2>): (r: seq<int>)
    ensures |r| == |ds| && forall i :: 0 <= i < |r| ==> r[i] == ds[i].Ui
  {
    seq(|ds|, i requires 0 <= i < |ds| => ds[i].Ui)
  }

  function PointsT(ds: seq<Decom2>): (r: seq<int>)
    ensures |r| == |ds| && forall i :: 0 <= i < |r| ==> r[i] == ds[i].Ti
  {
    seq(|ds|, i requires 0 <= i < |ds| => ds[i].Ti)
  }

  function PointsB(ds: seq<Decom1>): (r: seq<int>)
    ensures |r| == |ds| && forall i :: 0 <= i < |r| ==> r[i] == ds[i].Bi
  {
    seq(|ds|, i requires 0 <= i < |ds| => ds[i].Bi)
  }

  lemma SubStep(base: int, s: seq<int>, i: nat, acc: int, N: int)
    requires N > 0 && i < |s| && Cong(acc, base - Sum(s[..i]), N)
    ensures Cong((acc - s[i]) % N, base - Sum(s[..i + 1]), N)
  {
    assert s[..i + 1] == s[..i] + [s[i]];
    SumSnoc(s[..i], s[i]);
    CongRefl(s[i], N);
    CongAdd(acc, base - Sum(s[..i]), s[i], s[i], N);
    CongMod(acc - s[i], N);
    CongTrans((acc - s[i]) % N, acc - s[i], base - Sum(s[..i + 1]), N);
  }

  lemma PairStep(t: seq<int>, b: seq<int>, i: nat, acc: int, N: int)
    requires N > 0 && i < |t| == |b| && Cong(acc, 1 + Sum(t[..i]) + Sum(b[..i]), N)
    ensures Cong(((acc + t[i]) % N + b[i]) % N, 1 + Sum(t[..i + 1]) + Sum(b[..i + 1]), N)
  {
    AddStep(1 + Sum(b[..i]), t, i, acc, N);
    AddStep(1 + Sum(t[..i + 1]), b, i, (acc + t[i]) % N, N);
  }

  /** The test before a signer gives away its own share. */
  method Phase5d(ds2: seq<Decom2>, ds1: seq<Decom1>, curve: Curve) returns (ok: bool)
    requires curve.N > 1 && |ds1| == |ds2|
    ensures ok <==> TestAccepts(Sum(PointsT(ds2)), Sum(PointsB(ds1)), Sum(PointsU(ds2)), curve.N)
  {
    hide Cong, TestAccepts;
    var N := curve.N;
    ghost var t, b, u := PointsT(ds2), PointsB(ds1), PointsU(ds2);
    var biased := G;
    CongRefl(G, N);
    for i := 0 to |ds2|
      invariant Cong(biased, 1 + Sum(t[..i]) + Sum(b[..i]), N)
      invariant 0 <= biased < N
    {
      PairStep(t, b, i, biased, N);
      biased := PointAdd(biased, ds2[i].Ti, N);
      biased := PointAdd(biased, ds1[i].Bi, N);
    }
    assert t[..|ds2|] == t && b[..|ds2|] == b;
    ghost var base := 1 + Sum(t) + Sum(b);
    for i := 0 to |ds2|
      invariant Cong(biased, base - Sum(u[..i]), N)
      invariant 0 <= biased < N
    {
      SubStep(base, u, i, biased, N);
      biased := PointSub(biased, ds2[i].Ui, N);
    }
    assert u[..|ds2|] == u;
    ok := G == biased;
    TestDecided(biased, Sum(t), Sum(b), Sum(u), N);
  }

  lemma TestDecided(x: int, t: int, b: int, u: int, N: int)
    requires N > 1 && 0 <= x < N && Cong(x, 1 + t + b - u, N)
    ensures x == 1 <==> TestAccepts(t, b, u, N)
  {
    SmallMod(x, N);
    SmallMod(1, N);
  }

  // ---------- verification ----------

  /** The curve equation of the signature check. */
  method VerifyEquation(s: PrivKey, R: Point, y: Point, message: int, curve: Curve) returns (ok: bool)
    requires curve.N >= 2
    ensures ok <==> Accepts(s.D, R, y, message, curve)
  {
    var N := curve.N;
    var r := BigInt2PrivateKey(curve.X(R), N);
    var b := InvertN(s, N);
    var a := BigInt2PrivateKey(message, N);
    var u1 := a.Clone();
    u1 := ModMul(u1, b, N);
    var u2 := r.Clone();
    u2 := ModMul(u2, b, N);
    var gu1 := ScalarBaseMult(u1.D, N);
    var yu2 := ScalarMult(y, u2.D, N);
    gu1 := PointAdd(gu1, yu2, N);
    var x := BigInt2PrivateKey(curve.X(gu1), N);
    ok := x.D == r.D;
  }

  lemma AddCong(x: int, y: int, a: int, N: int)
    requires N > 0 && Cong(x, y, N)
    ensures Cong((x + a) % N, y + a, N)
  {
    CongAdd(x, y, a, a, N);
    CongMod(x + a, N);
  }

  /** `acc` is, modulo N, `base` plus the entries already visited. */
  ghost predicate Accumulated(m: map<nat, int>, seen: seq<nat>, todo: set<nat>, base: int, acc: int, N: int)
    requires N > 0
  {
    Visited(seen, todo, m.Keys) && Cong(acc, base + Sum(Along(m, seen)), N)
  }

  lemma AccumulateStart(m: map<nat, int>, base: int, N: int)
    requires N > 0
    ensures Accumulated(m, [], m.Keys, base, base, N)
  {
  }

  lemma AccumulateStep(m: map<nat, int>, seen: seq<nat>, todo: set<nat>, i: nat, base: int, acc: int, N: int)
    requires N > 0 && Accumulated(m, seen, todo, base, acc, N) && i in todo
    ensures i in m && Accumulated(m, seen + [i], todo - {i}, base, (acc + m[i]) % N, N)
  {
    VisitStep(m, seen, todo, i);
    AddCong(acc, base + Sum(Along(m, seen)), m[i], N);
  }

  lemma AccumulateEnd(m: map<nat, int>, seen: seq<nat>, base: int, acc: int, N: int)
    requires N > 0 && Accumulated(m, seen, {}, base, acc, N)
    ensures Cong(acc, base + MapSum(m), N)
  {
    MapSumAnyOrder(m, seen);
  }

  /** The own share, then everybody else's in the order the map is walked. */
  method SumOfSI(own: int, m: map<nat, int>, self: nat, N: int) returns (s: PrivKey)
    requires N > 0
    ensures fresh(s) && Cong(s.D, own + MapSum(m - {self}), N)
  {
    hide Cong, MapSum, Accumulated;
    ghost var others, seen: seq<nat> := m - {self}, [];
    s := new PrivKey(own);
    var rem := m.Keys;
    ghost var todo := others.Keys;
    AccumulateStart(others, own, N);
    while rem != {}
      invariant fresh(s) && rem <= m.Keys && todo == rem - {self} && Accumulated(others, seen, todo, own, s.D, N)
      decreases |rem|
    {
      var i :| i in rem;
      if i != self {
        AccumulateStep(others, seen, todo, i, own, s.D, N);
        AddValue(s, m[i], N);
        seen, todo := seen + [i], todo - {i};
      }
      rem := rem - {i};
    }
    assert todo == {};
    AccumulateEnd(others, seen, own, s.D, N);
  }

  // ---------- lists taken out of the message maps ----------

  /** `vs` lists entries of `m`, those of the keys in `order`. */
  ghost predicate Lists(vs: seq<int>, m: map<nat, int>, order: seq<nat>) {
    |vs| == |order| && forall k :: 0 <= k < |order| ==> order[k] in m && vs[k] == m[order[k]]
  }

  /** `ds` are the first decommitments of the senders in `order`, which walks the keys visited so far. */
  ghost predicate FirstListed(ds: seq<Decom1>, m: map<nat, Phase5A>, order: seq<nat>, seen: set<nat>) {
    Walks(order, seen) && Lists(DecomVs(ds), VPoints(m), order) && Lists(DecomAs(ds), APoints(m), order)
  }

  lemma OneMoreListed(ds: seq<Decom1>, m: map<nat, Phase5A>, order: seq<nat>, seen: set<nat>, i: nat)
    requires FirstListed(ds, m, order, seen) && i in m && i !in seen
    ensures FirstListed(ds + [m[i].decom], m, order + [i], seen + {i})
  {
    WalkOn(order, seen, i);
  }

  lemma SeenMore(keys: set<nat>, rem: set<nat>, self: nat, i: nat, seen: set<nat>)
    requires i in rem && rem <= keys && seen == keys - rem - {self}
    ensures (if i == self then seen else seen + {i}) == keys - (rem - {i}) - {self}
    ensures i !in seen && i in keys
  {
  }

  /** Everybody else's first decommitments, in the order the map is walked. */
  method OtherDecommitments(m: map<nat, Phase5A>, self: nat) returns (ds: seq<Decom1>, ghost order: seq<nat>)
    ensures |ds| == |order| && FirstListed(ds, m, order, m.Keys - {self})
  {
    ds, order := [], [];
    ghost var seen: set<nat> := {};
    assert FirstListed(ds, m, order, seen);
    hide FirstListed;
    var rem := m.Keys;
    while rem != {}
      invariant rem <= m.Keys && seen == m.Keys - rem - {self}
      invariant |ds| == |order| && FirstListed(ds, m, order, seen)
      decreases |rem|
    {
      var i :| i in rem;
      SeenMore(m.Keys, rem, self, i, seen);
      rem := rem - {i};
      if i != self {
        OneMoreListed(ds, m, order, seen, i);
        ds := ds + [m[i].decom];
        order, seen := order + [i], seen + {i};
      }
    }
    assert seen == m.Keys - {self};
  }

  ghost predicate BothListed(ds2: seq<Decom2>, ds1: seq<Decom1>, c: map<nat, Phase5C>, a: map<nat, Phase5A>, order: seq<nat>) {
    && Lists(PointsU(ds2), UPoints(c), order) && Lists(PointsT(ds2), TPoints(c), order)
    && Lists(PointsB(ds1), BPoints(a), order)
  }

  lemma OneMoreOfBoth(ds2: seq<Decom2>, ds1: seq<Decom1>, c: map<nat, Phase5C>, a: map<nat, Phase5A>, order: seq<nat>, i: nat)
    requires BothListed(ds2, ds1, c, a, order) && i in c && i in a
    ensures BothListed(ds2 + [c[i].decom], ds1 + [a[i].decom], c, a, order + [i])
  {
  }

  /** The decommitments of both rounds, matched up sender by sender. */
  method BothDecommitments(c: map<nat, Phase5C>, a: map<nat, Phase5A>)
    returns (ds2: seq<Decom2>, ds1: seq<Decom1>, ghost order: seq<nat>)
    requires c.Keys <= a.Keys
    ensures |ds1| == |ds2| == |order| && Walks(order, c.Keys) && BothListed(ds2, ds1, c, a, order)
  {
    ds2, ds1, order := [], [], [];
    assert BothListed(ds2, ds1, c, a, order) && Walks(order, {});
    hide Walks, BothListed;
    ghost var seen: set<nat> := {};
    var rem := c.Keys;
    while rem != {}
      invariant rem <= c.Keys && seen == c.Keys - rem
      invariant Walks(order, seen) && |ds1| == |ds2| == |order| && BothListed(ds2, ds1, c, a, order)
      decreases |rem|
    {
      var i :| i in rem;
      rem := rem - {i};
      WalkOn(order, seen, i);
      OneMoreOfBoth(ds2, ds1, c, a, order, i);
      ds2 := ds2 + [c[i].decom];
      ds1 := ds1 + [a[i].decom];
      order, seen := order + [i], seen + {i};
    }
    assert seen == c.Keys;
  }

  lemma WholeMapSum(vs: seq<int>, m: map<nat, int>, order: seq<nat>)
    requires Lists(vs, m, order) && Walks(order, m.Keys)
    ensures Sum(vs) == MapSum(m)
  {
    MapSumAnyOrder(m, order);
    assert vs == Along(m, order);
  }

  lemma OwnAndOthers(vs: seq<int>, m: map<nat, int>, order: seq<nat>, self: nat)
    requires Lists(vs, m, order) && Walks(order, m.Keys - {self}) && self in m
    ensures MapSum(m) == m[self] + Sum(vs)
  {
    var whole := order + [self];
    MapSumAnyOrder(m, whole);
    assert Along(m, whole) == vs + [m[self]];
    SumSnoc(vs, m[self]);
  }

  lemma SomeOther(order: seq<nat>, keys: set<nat>, self: nat)
    requires Walks(order, keys - {self}) && |keys| > 1
    ensures order != []
  {
    SubsetSize(keys, (keys - {self}) + {self});
    var i :| i in keys - {self};
    assert i in order;
  }
}
