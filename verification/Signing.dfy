/**
 One notary's side of a signing session.  The scalars of the session are shared objects that the
 arithmetic overwrites, so every step works on a clone; the handler's own scalars never change.
 */
module Signing {
  import opened Collections
  import opened NumberTheory
  import opened Polynomials
  import opened Scalars
  import opened Paillier
  import opened Proofs
  import opened Mta
  import opened Feldman
  import opened SigningAlgebra
  import opened Arrivals
  import opened SigningSteps

  // ---------- the answer to message A ----------

  /** The answer to a peer's encrypted nonce share: one exchange for gamma, one for the key share. */
  function AnswerOf(gamma: nat, wi: nat, pub: PublicKey, ca: int, d1: Draws, d2: Draws, curve: Curve): Outcome<MessageBPhase2>
    requires curve.N > 0 && pub.N > 0 && pub.NSquared > 0
  {
    match (MessageBOf(gamma, pub, ca, d1, curve), MessageBOf(wi, pub, ca, d2, curve))
    case (Ok(g), Ok(w)) => Ok(MessageBPhase2(g, Some(w)))
    case _ => Panic
  }

  lemma AnswerPoint(b: nat, pub: PublicKey, ca: int, d: Draws, curve: Curve)
    requires curve.N > 0 && pub.N > 0 && pub.NSquared > 0
    ensures var m := MessageBOf(b, pub, ca, d, curve);
            m.Ok? ==> m.value.bProof.PK == ScalarBaseMult(b, curve.N) && 0 <= m.value.bProof.PK < curve.N
  {
  }

  // ---------- alphas ----------

  ghost predicate Decryptable(dk: PrivateKey) {
    dk.p > 1 && dk.q > 1 && dk.pp > 0 && dk.qq > 0 && dk.n > 0 && dk.pminusone >= 0 && dk.qminusone >= 0
  }

  ghost predicate ReadableAnswer(m: MessageBPhase2) {
    m.gamma.C >= 0 && m.wi.Some? && m.wi.value.C >= 0
  }

  ghost function GammaAlpha(m: MessageBPhase2, dk: PrivateKey, k: int, curve: Curve): AlphaResult
    requires curve.N > 0 && Decryptable(dk) && ReadableAnswer(m)
  {
    VerifyProofsGetAlpha(m.gamma, dk, k, curve)
  }

  ghost function WiAlpha(m: MessageBPhase2, dk: PrivateKey, k: int, curve: Curve): AlphaResult
    requires curve.N > 0 && Decryptable(dk) && ReadableAnswer(m)
  {
    VerifyProofsGetAlpha(m.wi.value, dk, k, curve)
  }

  ghost predicate Convincing(m: MessageBPhase2, dk: PrivateKey, k: int, curve: Curve)
    requires curve.N > 0 && Decryptable(dk) && ReadableAnswer(m)
  {
    GammaAlpha(m, dk, k, curve).Alpha? && WiAlpha(m, dk, k, curve).Alpha?
  }

  /** The entries of `after` are those of `before`, overwritten by the alphas of the answers in `done`. */
  ghost predicate AlphasOf(before: map<nat, int>, after: map<nat, int>, done: set<nat>, alpha: map<nat, AlphaResult>) {
    && after.Keys == before.Keys + done
    && (forall i :: i in done ==> i in alpha && alpha[i] == Alpha(after[i]))
    && (forall i :: i in after && i !in done ==> after[i] == before[i])
  }

  lemma NothingTaken(before: map<nat, int>, alpha: map<nat, AlphaResult>)
    ensures AlphasOf(before, before, {}, alpha)
  {
    assert before.Keys + {} == before.Keys;
  }

  lemma OneMoreTaken(before: map<nat, int>, after: map<nat, int>, done: set<nat>, alpha: map<nat, AlphaResult>, i: nat, v: int)
    requires AlphasOf(before, after, done, alpha) && i in alpha && alpha[i] == Alpha(v)
    ensures AlphasOf(before, after[i := v], done + {i}, alpha)
  {
    assert after[i := v].Keys == after.Keys + {i};
  }

  ghost function GammaAlphas(m: map<nat, MessageBPhase2>, dk: PrivateKey, k: int, curve: Curve): map<nat, AlphaResult>
    requires curve.N > 0 && Decryptable(dk) && forall i :: i in m ==> ReadableAnswer(m[i])
  {
    map i | i in m :: GammaAlpha(m[i], dk, k, curve)
  }

  ghost function WiAlphas(m: map<nat, MessageBPhase2>, dk: PrivateKey, k: int, curve: Curve): map<nat, AlphaResult>
    requires curve.N > 0 && Decryptable(dk) && forall i :: i in m ==> ReadableAnswer(m[i])
  {
    map i | i in m :: WiAlpha(m[i], dk, k, curve)
  }

  function GammaBetas(m: map<nat, MessageBPhase2>): map<nat, int> {
    map i | i in m :: m[i].gamma.beta
  }

  function WiBetas(m: map<nat, MessageBPhase2>): map<nat, int> {
    map i | i in m && m[i].wi.Some? :: m[i].wi.value.beta
  }

  /** Every answer's alphas are stored, and are what its announced points call for. */
  ghost predicate AllAnnounced(m: map<nat, MessageBPhase2>, gammas: map<nat, int>, wis: map<nat, int>, k: int, curve: Curve)
    requires curve.N > 0
  {
    forall i :: i in m ==>
      i in gammas && Announced(gammas[i], k, m[i].gamma, curve) &&
      m[i].wi.Some? && i in wis && Announced(wis[i], k, m[i].wi.value, curve)
  }

  lemma TakenAnnounced(m: map<nat, MessageBPhase2>, g0: map<nat, int>, w0: map<nat, int>, gammas: map<nat, int>, wis: map<nat, int>,
                       dk: PrivateKey, k: int, curve: Curve)
    requires curve.N > 0 && Decryptable(dk) && forall i :: i in m ==> ReadableAnswer(m[i])
    requires AlphasOf(g0, gammas, m.Keys, GammaAlphas(m, dk, k, curve)) && AlphasOf(w0, wis, m.Keys, WiAlphas(m, dk, k, curve))
    ensures AllAnnounced(m, gammas, wis, k, curve)
  {
    hide VerifyProofsGetAlpha, Announced;
    forall i | i in m
      ensures i in gammas && Announced(gammas[i], k, m[i].gamma, curve) && i in wis && Announced(wis[i], k, m[i].wi.value, curve)
    {
      assert ReadableAnswer(m[i]);
      AlphaExact(m[i].gamma, dk, k, curve);
      AlphaExact(m[i].wi.value, dk, k, curve);
    }
  }

  /** The exponents of the points the signers have announced, the own scalar in its place. */
  ghost function AnnouncedPoints(S: seq<nat>, self: nat, own: int, m: map<nat, MessageB>): (r: seq<int>)
    requires forall i :: i in S && i != self ==> i in m
    ensures |r| == |S| && forall j :: 0 <= j < |S| ==> r[j] == if S[j] == self then own else m[S[j]].bProof.PK
  {
    seq(|S|, j requires 0 <= j < |S| => assert S[j] in S; if S[j] == self then own else m[S[j]].bProof.PK)
  }

  /** Accepted answers whose betas match their second points add up to k times the announced exponents, whoever sent them. */
  lemma AcceptedSum(S: seq<nat>, self: nat, k: int, own: int, alphas: map<nat, int>, betas: map<nat, int>, m: map<nat, MessageB>, curve: Curve)
    requires curve.N > 0
    requires forall i :: i in S && i != self ==>
               i in m && i in alphas && Announced(alphas[i], k, m[i], curve) && i in betas && betas[i] == m[i].beta &&
               Cong(m[i].beta + m[i].betaTagProof.PK, 0, curve.N)
    ensures Cong(Sum(Contributions(S, self, (k * own) % curve.N, alphas, betas)), k * Sum(AnnouncedPoints(S, self, own, m)), curve.N)
  {
    var N, c, b := curve.N, Contributions(S, self, (k * own) % curve.N, alphas, betas), AnnouncedPoints(S, self, own, m);
    var kb := seq(|b|, j requires 0 <= j < |b| => k * b[j]);
    hide Announced, Sum;
    CongMod(k * own, N);
    forall j | 0 <= j < |c|
      ensures Cong(c[j], kb[j], N)
    {
      assert S[j] in S;
      if S[j] != self { SharesMatch(alphas[S[j]], k, m[S[j]], curve); }
    }
    SumCong(c, kb, N);
    SumScale(b, k, kb);
  }

  class DSMHandler {
    const st: Setting
    const selfNotaryID: nat
    const S: seq<nat>
    const WI: PrivKey
    const KI: PrivKey
    const GammaI: PrivKey
    const paillierPubKeys: map<nat, PublicKey>
    const paillierPrivateKey: PrivateKey
    const publicKey: Point
    const message: int
    var messageA: int
    var Phase1BroadCast: map<nat, Phase1Message>
    var Phase2MessageB: map<nat, MessageBPhase2>
    var AlphaGamma: map<nat, int>
    var AlphaWI: map<nat, int>
    var Delta: map<nat, int>
    var Sigma: PrivKey
    var R: Option<Point>
    var Local: LocalSignature
    var Phase5AMap: map<nat, Phase5A>
    var Phase5CMap: map<nat, Phase5C>
    var Phase5DMap: map<nat, int>
    var events: seq<Event>

    /**
     Opens a session: the notary's key share is turned into its additive share among the signers.
     `gammaI` and `ki` stand for the two scalars drawn here.
     */
    constructor (st: Setting, self: nat, others: seq<nat>, vss: VerifiableSS, xi: PrivKey, gammaI: PrivKey, ki: PrivKey,
                 pubs: map<nat, PublicKey>, dk: PrivateKey, publicKey: Point, message: int)
      requires st.curve.N >= 2 && |others| >= vss.threshold && self < vss.shareCount
      requires forall i :: i in others ==> i < vss.shareCount
      ensures this.st == st && selfNotaryID == self && S == others + [self]
      ensures fresh(WI) && WI.D == (Lambda(S, self, st.curve.N) * xi.D) % st.curve.N && KI == ki && GammaI == gammaI
      ensures paillierPubKeys == pubs && paillierPrivateKey == dk && this.publicKey == publicKey && this.message == message
      ensures Phase1BroadCast == map[] && Phase2MessageB == map[] && AlphaGamma == AlphaWI == Delta == Phase5DMap == map[]
      ensures Phase5AMap == map[] && Phase5CMap == map[] && R == None && events == []
    {
      var all := others + [self];
      forall k | 0 <= k < |all|
        ensures all[k] < vss.shareCount
      {
        assert k < |others| ==> all[k] in others;
      }
      var lambdaI := MapShareToNewParams(vss, self, all, st.curve.N);
      var wi := ModMul(lambdaI, xi, st.curve.N);
      var none := new PrivKey(0);
      this.st, selfNotaryID, S, WI, KI, GammaI := st, self, all, wi, ki, gammaI;
      paillierPubKeys, paillierPrivateKey, this.publicKey, this.message := pubs, dk, publicKey, message;
      messageA, R, Sigma, Local, events := 0, None, none, LocalSignature(0, 0, 0, 0, 0, 0), [];
      Phase1BroadCast, Phase2MessageB, AlphaGamma, AlphaWI, Delta := map[], map[], map[], map[], map[];
      Phase5AMap, Phase5CMap, Phase5DMap := map[], map[], map[];
    }

    ghost predicate Valid() {
      st.curve.N >= 2 && Distinct(S) && selfNotaryID in S && Decryptable(paillierPrivateKey)
    }

    // ---------- phase 1 ----------

    method GeneratePhase1Broadcast(blindFactor: int) returns (msg: Phase1Message)
      requires Valid()
      modifies this`Phase1BroadCast, this`events
      ensures msg == Phase1Message(st.commit(st.curve.X(ScalarBaseMult(GammaI.D, st.curve.N)), blindFactor), blindFactor)
      ensures Phase1BroadCast == old(Phase1BroadCast)[selfNotaryID := msg]
      ensures events == old(events) + if |Phase1BroadCast| == |S| then [Done] else []
    {
      var gGammaI := ScalarBaseMult(GammaI.D, st.curve.N);
      msg := Phase1Message(st.commit(st.curve.X(gGammaI), blindFactor), blindFactor);
      Phase1BroadCast := Phase1BroadCast[selfNotaryID := msg];
      if |Phase1BroadCast| == |S| {
        events := events + [Done];
      }
    }

    method ReceivePhase1Broadcast(msg: Phase1Message, index: nat)
      modifies this`Phase1BroadCast, this`events
      ensures Phase1BroadCast == Keep(old(Phase1BroadCast), index, msg, Pass, Pass)
      ensures events == old(events) + Report(old(Phase1BroadCast), index, Pass, Pass, |S|)
    {
      if index in Phase1BroadCast {
        events := events + [Failed(Duplicate)];
        return;
      }
      Phase1BroadCast := Phase1BroadCast[index := msg];
      if |Phase1BroadCast| == |S| {
        events := events + [Done];
      }
    }

    // ---------- phase 2 ----------

    /** Requires the peer's Paillier key; the source panics when an encryption fails. */
    method ReceivePhase2MessageA(ca: int, index: nat, d1: Draws, d2: Draws) returns (mb: Outcome<MessageBPhase2>)
      requires Valid() && index in paillierPubKeys && paillierPubKeys[index].N > 0 && paillierPubKeys[index].NSquared > 0
      requires GammaI.D >= 0 && WI.D >= 0
      ensures mb == AnswerOf(GammaI.D, WI.D, paillierPubKeys[index], ca, d1, d2, st.curve)
    {
      var mgGamma := NewMessageB(GammaI, paillierPubKeys[index], ca, d1, st.curve);
      if !mgGamma.Ok? {
        return Panic;
      }
      var mbw := NewMessageB(WI, paillierPubKeys[index], ca, d2, st.curve);
      if !mbw.Ok? {
        return Panic;
      }
      mb := Ok(MessageBPhase2(mgGamma.value, Some(mbw.value)));
    }

    /** An answer overwrites an earlier one of the same peer; the last missing one triggers the checks of all of them. */
    method ReceivePhase2MessageB(msg: MessageBPhase2, index: nat)
      requires Valid() && ReadableAnswer(msg) && forall i :: i in Phase2MessageB ==> ReadableAnswer(Phase2MessageB[i])
      modifies this`Phase2MessageB, this`AlphaGamma, this`AlphaWI, this`events
      ensures Phase2MessageB == old(Phase2MessageB)[index := msg]
      ensures |Phase2MessageB| != |S| - 1 ==>
                events == old(events) && AlphaGamma == old(AlphaGamma) && AlphaWI == old(AlphaWI)
      ensures |Phase2MessageB| == |S| - 1 ==> AlphasTaken(old(AlphaGamma), old(AlphaWI), old(events))
      ensures events == old(events) + [Done] ==> AllAnnounced(Phase2MessageB, AlphaGamma, AlphaWI, KI.D, st.curve)
    {
      Phase2MessageB := Phase2MessageB[index := msg];
      CheckPhase2Done();
    }

    /** Either every answer convinces and all alphas are stored, or the session fails with some of them stored. */
    ghost predicate AlphasTaken(gammas: map<nat, int>, wis: map<nat, int>, before: seq<Event>)
      requires Valid() && forall i :: i in Phase2MessageB ==> ReadableAnswer(Phase2MessageB[i])
      reads this`Phase2MessageB, this`AlphaGamma, this`AlphaWI, this`events, KI
    {
      var m, dk, k := Phase2MessageB, paillierPrivateKey, KI.D;
      var good := forall i :: i in m ==> Convincing(m[i], dk, k, st.curve);
      exists done: set<nat> ::
        && done <= m.Keys && (good <==> done == m.Keys)
        && AlphasOf(gammas, AlphaGamma, done, GammaAlphas(m, dk, k, st.curve))
        && AlphasOf(wis, AlphaWI, done, WiAlphas(m, dk, k, st.curve))
        && events == before + [if good then Done else Failed(ProofInvalid)]
    }

    method CheckPhase2Done()
      requires Valid() && forall i :: i in Phase2MessageB ==> ReadableAnswer(Phase2MessageB[i])
      modifies this`AlphaGamma, this`AlphaWI, this`events
      ensures |Phase2MessageB| != |S| - 1 ==>
                events == old(events) && AlphaGamma == old(AlphaGamma) && AlphaWI == old(AlphaWI)
      ensures |Phase2MessageB| == |S| - 1 ==> AlphasTaken(old(AlphaGamma), old(AlphaWI), old(events))
      ensures events == old(events) + [Done] ==> AllAnnounced(Phase2MessageB, AlphaGamma, AlphaWI, KI.D, st.curve)
    {
      hide AllAnnounced, AlphasOf;
      if |Phase2MessageB| == |S| - 1 {
        var good, done := TakeAlphas();
        if good {
          TakenAnnounced(Phase2MessageB, old(AlphaGamma), old(AlphaWI), AlphaGamma, AlphaWI, paillierPrivateKey, KI.D, st.curve);
        }
        events := events + [if good then Done else Failed(ProofInvalid)];
        assert events[|old(events)|] == if good then Done else Failed(ProofInvalid);
      }
    }

    /** The loop over the answers: stops at the first that does not convince. */
    method TakeAlphas() returns (good: bool, ghost done: set<nat>)
      requires Valid() && forall i :: i in Phase2MessageB ==> ReadableAnswer(Phase2MessageB[i])
      modifies this`AlphaGamma, this`AlphaWI
      ensures done <= Phase2MessageB.Keys && (good <==> done == Phase2MessageB.Keys)
      ensures good <==> forall i :: i in Phase2MessageB ==> Convincing(Phase2MessageB[i], paillierPrivateKey, KI.D, st.curve)
      ensures AlphasOf(old(AlphaGamma), AlphaGamma, done, GammaAlphas(Phase2MessageB, paillierPrivateKey, KI.D, st.curve))
      ensures AlphasOf(old(AlphaWI), AlphaWI, done, WiAlphas(Phase2MessageB, paillierPrivateKey, KI.D, st.curve))
    {
      hide VerifyProofsGetAlpha, AlphasOf;
      var m, dk := Phase2MessageB, paillierPrivateKey;
      ghost var g, w := GammaAlphas(m, dk, KI.D, st.curve), WiAlphas(m, dk, KI.D, st.curve);
      var rem := m.Keys;
      done, good := {}, true;
      NothingTaken(AlphaGamma, g);
      NothingTaken(AlphaWI, w);
      while rem != {}
        invariant rem <= m.Keys && done == m.Keys - rem
        invariant forall i :: i in done ==> Convincing(m[i], dk, KI.D, st.curve)
        invariant AlphasOf(old(AlphaGamma), AlphaGamma, done, g)
        invariant AlphasOf(old(AlphaWI), AlphaWI, done, w)
        decreases |rem|
      {
        var i :| i in rem;
        var alphaGamma := VerifyProofsGetAlpha(m[i].gamma, dk, KI.D, st.curve);
        if !alphaGamma.Alpha? {
          return false, done;
        }
        var alphaWi := VerifyProofsGetAlpha(m[i].wi.value, dk, KI.D, st.curve);
        if !alphaWi.Alpha? {
          return false, done;
        }
        OneMoreTaken(old(AlphaGamma), AlphaGamma, done, g, i, alphaGamma.value);
        OneMoreTaken(old(AlphaWI), AlphaWI, done, w, i, alphaWi.value);
        AlphaGamma := AlphaGamma[i := alphaGamma.value];
        AlphaWI := AlphaWI[i := alphaWi.value];
        rem, done := rem - {i}, done + {i};
      }
    }

    // ---------- phase 3 ----------

    /** Requires what the source panics without: an alpha and an answer of every other signer. */
    method Phase2DeltaI() returns (r: PrivKey)
      requires Valid() && |AlphaGamma| == |S| - 1
      requires forall i :: i in S && i != selfNotaryID ==> i in AlphaGamma && i in Phase2MessageB
      ensures fresh(r) && r.D == Sum(Contributions(S, selfNotaryID, (KI.D * GammaI.D) % st.curve.N, AlphaGamma, GammaBetas(Phase2MessageB))) % st.curve.N
    {
      var N := st.curve.N;
      r := KI.Clone();
      var _ := ModMul(r, GammaI, N);
      ModMod(KI.D * GammaI.D, N);
      AddPeers(r, S, selfNotaryID, AlphaGamma, GammaBetas(Phase2MessageB), N, (KI.D * GammaI.D) % N);
    }

    /** As above for the key shares; the answers must carry their second part. */
    method Phase2SigmaI() returns (r: PrivKey)
      requires Valid() && |AlphaWI| == |S| - 1
      requires forall i :: i in S && i != selfNotaryID ==> i in AlphaWI && i in Phase2MessageB && Phase2MessageB[i].wi.Some?
      ensures fresh(r) && r.D == Sum(Contributions(S, selfNotaryID, (KI.D * WI.D) % st.curve.N, AlphaWI, WiBetas(Phase2MessageB))) % st.curve.N
    {
      var N := st.curve.N;
      r := KI.Clone();
      var _ := ModMul(r, WI, N);
      ModMod(KI.D * WI.D, N);
      AddPeers(r, S, selfNotaryID, AlphaWI, WiBetas(Phase2MessageB), N, (KI.D * WI.D) % N);
    }

    method GeneratePhase3DeltaI() returns (deltaI: int)
      requires Valid() && |AlphaGamma| == |S| - 1 && |AlphaWI| == |S| - 1
      requires forall i :: i in S && i != selfNotaryID ==>
                 i in AlphaGamma && i in AlphaWI && i in Phase2MessageB && Phase2MessageB[i].wi.Some?
      modifies this`Sigma, this`Delta, this`events
      ensures deltaI == Sum(Contributions(S, selfNotaryID, (KI.D * GammaI.D) % st.curve.N, AlphaGamma, GammaBetas(Phase2MessageB))) % st.curve.N
      ensures fresh(Sigma) && Sigma.D == Sum(Contributions(S, selfNotaryID, (KI.D * WI.D) % st.curve.N, AlphaWI, WiBetas(Phase2MessageB))) % st.curve.N
      ensures Delta == old(Delta)[selfNotaryID := deltaI]
      ensures events == old(events) + if |Delta| == |S| then [Done] else []
    {
      var d := Phase2DeltaI();
      var s := Phase2SigmaI();
      Sigma, deltaI := s, d.D;
      Delta := Delta[selfNotaryID := deltaI];
      if |Delta| == |S| {
        events := events + [Done];
      }
    }

    method ReceivePhase3DeltaI(delta: int, index: nat)
      modifies this`Delta, this`events
      ensures Delta == Keep(old(Delta), index, delta, Pass, Pass)
      ensures events == old(events) + Report(old(Delta), index, Pass, Pass, |S|)
    {
      if index in Delta {
        events := events + [Failed(Duplicate)];
        return;
      }
      Delta := Delta[index := delta];
      if |Delta| == |S| {
        events := events + [Done];
      }
    }

    // ---------- phase 4 ----------

    /**
     Adds the notary's own answer, which the exchange never produced, and derives the nonce point.
     A failed encryption is reported; a commitment that does not open is not, and leaves no point.
     A missing answer or commitment makes the program panic.
     */
    method GeneratePhase4R(d: Draws) returns (r: Phase4Result)
      requires Valid() && paillierPrivateKey.pub.N > 0 && paillierPrivateKey.pub.NSquared > 0 && GammaI.D >= 0
      requires forall i :: i in Phase2MessageB ==> 0 <= Phase2MessageB[i].gamma.bProof.PK < st.curve.N
      modifies this`Phase2MessageB, this`R, this`events
      ensures var own := MessageBOf(GammaI.D, paillierPrivateKey.pub, messageA, d, st.curve);
              if !own.Ok? then
                r == Refused && events == old(events) + [Failed(ProofInvalid)] && R == old(R) && Phase2MessageB == old(Phase2MessageB)
              else
                && Phase2MessageB == old(Phase2MessageB)[selfNotaryID := MessageBPhase2(own.value, None)]
                && events == old(events)
                && Phase4Outcome(r, Invert(MapSum(Delta), st.curve.N), Phase2MessageB, Phase1BroadCast, st)
                && R == if r.Derived? then Some(r.R) else old(R)
    {
      hide MessageBOf, MapSum, Invert, Phase4Outcome;
      var delta := Phase3ReconstructDelta(Delta, st.curve.N);
      var mgGamma := NewMessageB(GammaI, paillierPrivateKey.pub, messageA, d, st.curve);
      if !mgGamma.Ok? {
        events := events + [Failed(ProofInvalid)];
        return Refused;
      }
      AnswerPoint(GammaI.D, paillierPrivateKey.pub, messageA, d, st.curve);
      Phase2MessageB := Phase2MessageB[selfNotaryID := MessageBPhase2(mgGamma.value, None)];
      r := Phase4(delta, Phase2MessageB, Phase1BroadCast, st);
      if r.Derived? {
        R := Some(r.R);
      }
    }

    // ---------- phases 5a and 5b ----------

    /** `li`, `rhoi`, `s1`, `s2` and `blind` stand for what is drawn here. */
    method GeneratePhase5a5bZkProof(li: int, rhoi: int, s1: int, s2: int, blind: int) returns (msg: Phase5A)
      requires Valid() && R.Some?
      modifies this`Phase5AMap, this`Local, this`events
      ensures Local == LocalSignature(li, rhoi, R.value,
                SignatureShare(message, KI.D, RCoordinate(R.value, st.curve), Sigma.D, st.curve.N), message, publicKey)
      ensures FirstRoundValid(msg, R.value, st) && FirstRoundHonest(Local, msg.decom, st.curve.N)
      ensures Phase5AMap == old(Phase5AMap)[selfNotaryID := msg]
      ensures events == old(events) + FirstRoundReport()
    {
      var l := Phase5LocalSignature(KI, message, R.value, Sigma, publicKey, li, rhoi, st.curve);
      msg := Phase5aBroadcast5bZkproof(l, blind, s1, s2, st);
      Phase5AMap := Phase5AMap[selfNotaryID := msg];
      Local := l;
      CheckPhase5A5BDone();
    }

    /** What the barrier reports: nothing until all are in, then whether every first round is valid. */
    ghost function FirstRoundReport(): seq<Event>
      requires Valid() && R.Some?
      reads this`Phase5AMap, this`R
    {
      if |Phase5AMap| != |S| then []
      else if forall i :: i in Phase5AMap ==> FirstRoundValid(Phase5AMap[i], R.value, st) then [Done]
      else [Failed(CommitmentInvalid)]
    }

    method ReceivePhase5A5BProof(msg: Phase5A, index: nat)
      requires Valid() && R.Some?
      modifies this`Phase5AMap, this`events
      ensures Phase5AMap == Keep(old(Phase5AMap), index, msg, Pass, Pass)
      ensures events == old(events) + if index in old(Phase5AMap) then [Failed(Duplicate)] else FirstRoundReport()
    {
      if index in Phase5AMap {
        events := events + [Failed(Duplicate)];
        return;
      }
      Phase5AMap := Phase5AMap[index := msg];
      CheckPhase5A5BDone();
    }

    method CheckPhase5A5BDone()
      requires Valid() && R.Some?
      modifies this`events
      ensures events == old(events) + FirstRoundReport()
    {
      if |Phase5AMap| == |S| {
        var m := Phase5AMap;
        var rem := m.Keys;
        while rem != {}
          invariant rem <= m.Keys && events == old(events)
          invariant forall i :: i in m.Keys - rem ==> FirstRoundValid(m[i], R.value, st)
          decreases |rem|
        {
          var i :| i in rem;
          var e := st.commit(HashPoints([m[i].decom.Vi, m[i].decom.Ai, m[i].decom.Bi], st.curve), m[i].decom.blindFactor);
          if !(e == m[i].com && VerifyElGamal(m[i].proof, FirstStatement(m[i].decom, R.value), st.curve)) {
            assert !FirstRoundValid(m[i], R.value, st);
            events := events + [Failed(CommitmentInvalid)];
            return;
          }
          rem := rem - {i};
        }
        events := events + [Done];
      }
    }

    // ---------- phase 5c ----------

    /** The second decommitment: all V, the own one included, and the A of all others. */
    method GeneratePhase5CProof(blind: int) returns (msg: Phase5C)
      requires Valid() && |Phase5AMap| == |S| > 1 && selfNotaryID in Phase5AMap
      modifies this`Phase5CMap, this`events
      ensures SecondRoundValid(msg, st)
      ensures SecondRoundHonest(Local, msg.decom, MapSum(VPoints(Phase5AMap)),
                                LessOwn(MapSum(APoints(Phase5AMap)), Phase5AMap[selfNotaryID].decom.Ai), st.curve)
      ensures Phase5CMap == old(Phase5CMap)[selfNotaryID := msg]
      ensures events == old(events) + if |Phase5CMap| == |S| then [Done] else []
    {
      hide Cong, SecondRoundHonest, SecondRoundValid, MapSum, Walks, Lists;
      var decomVec, order := OtherDecommitments(Phase5AMap, selfNotaryID);
      ghost var vi := Phase5AMap[selfNotaryID].decom.Vi;
      OwnAndOthers(DecomVs(decomVec), VPoints(Phase5AMap), order, selfNotaryID);
      OwnAndOthers(DecomAs(decomVec), APoints(Phase5AMap), order, selfNotaryID);
      SomeOther(order, Phase5AMap.Keys, selfNotaryID);
      msg := Phase5c(Local, decomVec, Phase5AMap[selfNotaryID].decom.Vi, blind, st);
      Phase5CMap := Phase5CMap[selfNotaryID := msg];
      if |Phase5CMap| == |S| {
        events := events + [Done];
      }
    }

    method ReceivePhase5cProof(msg: Phase5C, index: nat)
      requires Valid()
      modifies this`Phase5CMap, this`events
      ensures var check := if SecondRoundValid(msg, st) then Pass else Reject(CommitmentInvalid);
              && Phase5CMap == Keep(old(Phase5CMap), index, msg, check, Pass)
              && events == old(events) + Report(old(Phase5CMap), index, check, Pass, |S|)
    {
      var hash := st.commit(HashPoints([msg.decom.Ui, msg.decom.Ti], st.curve), msg.decom.blindFactor);
      if hash != msg.com {
        events := events + [Failed(CommitmentInvalid)];
        return;
      }
      if index in Phase5CMap {
        events := events + [Failed(Duplicate)];
        return;
      }
      Phase5CMap := Phase5CMap[index := msg];
      if |Phase5CMap| == |S| {
        events := events + [Done];
      }
    }

    // ---------- phases 5d and 6 ----------

    /** Gives away the own share only if the accumulated test passes. */
    method Generate5dProof()
      requires Valid() && Phase5CMap.Keys == Phase5AMap.Keys && selfNotaryID in S && R.Some?
      modifies this`Phase5DMap, this`events
      ensures var accepted := TestAccepts(MapSum(TPoints(Phase5CMap)), MapSum(BPoints(Phase5AMap)), MapSum(UPoints(Phase5CMap)), st.curve.N);
              && Phase5DMap == (if accepted then old(Phase5DMap)[selfNotaryID := Local.SI] else old(Phase5DMap))
              && events == old(events) + if accepted then FinalReport() else [Failed(SignatureInvalid)]
    {
      hide MapSum, TestAccepts, Walks, Lists;
      var ds2, ds1, order := BothDecommitments(Phase5CMap, Phase5AMap);
      WholeMapSum(PointsT(ds2), TPoints(Phase5CMap), order);
      WholeMapSum(PointsU(ds2), UPoints(Phase5CMap), order);
      WholeMapSum(PointsB(ds1), BPoints(Phase5AMap), order);
      var ok := Phase5d(ds2, ds1, st.curve);
      if !ok {
        events := events + [Failed(SignatureInvalid)];
        return;
      }
      Phase5DMap := Phase5DMap[selfNotaryID := Local.SI];
      CheckPhase6Done();
    }

    method ReceiveSI(si: int, index: nat)
      requires Valid()
      modifies this`Phase5DMap, this`events
      ensures Phase5DMap == Keep(old(Phase5DMap), index, si, Pass, Pass)
      ensures events == old(events) + if index in old(Phase5DMap) then [Failed(Duplicate)] else FinalReport()
    {
      if index in Phase5DMap {
        events := events + [Failed(Duplicate)];
        return;
      }
      Phase5DMap := Phase5DMap[index := si];
      CheckPhase6Done();
    }

    /** The own share plus everybody else's: what is verified and handed out as the signature's s. */
    ghost function TotalShare(): int
      reads this`Phase5DMap, this`Local
    {
      Local.SI + MapSum(Phase5DMap - {selfNotaryID})
    }

    ghost function FinalReport(): seq<Event>
      requires Valid()
      reads this`Phase5DMap, this`Local
    {
      if |Phase5DMap| != |S| then []
      else if Accepts(TotalShare(), Local.R, Local.Y, Local.M, st.curve) then [Done]
      else [Failed(SignatureInvalid)]
    }

    method CheckPhase6Done()
      requires Valid()
      modifies this`events
      ensures events == old(events) + FinalReport()
    {
      if |Phase5DMap| == |S| {
        var s := SumOfSI(Local.SI, Phase5DMap, selfNotaryID, st.curve.N);
        AcceptsCong(s.D, TotalShare(), Local.R, Local.Y, Local.M, st.curve);
        var ok := VerifyEquation(s, Local.R, Local.Y, Local.M, st.curve);
        events := events + [if ok then Done else Failed(SignatureInvalid)];
      }
    }
  }

  /** Verification looks only at the residue of s. */
  lemma AcceptsCong(s: int, t: int, R: Point, y: Point, m: int, curve: Curve)
    requires curve.N >= 2 && Cong(s, t, curve.N)
    ensures Accepts(s, R, y, m, curve) == Accepts(t, R, y, m, curve)
  {
    InvertReduced(s, t, curve.N);
  }
}
