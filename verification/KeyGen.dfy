/**
 Distributed key generation, one handler per notary.  Every notary deals shares of its own secret,
 checks the shares it is sent against their commitments, and sums them into its key share; the
 public key is the sum of everybody's first point.
 */
module KeyGen {
  import opened Collections
  import opened NumberTheory
  import opened Polynomials
  import opened Scalars
  import opened Paillier
  import opened Proofs
  import opened Feldman
  import opened Sharing
  import opened Arrivals

  datatype PaillierMessage = PaillierMessage(com: int, blindFactor: int, paillierPubkey: PublicKey, correctKeyProof: seq<int>)

  datatype ShareMessage = ShareMessage(vss: VerifiableSS, secretShare: int, index: nat)

  /** `commit` is the hash of a number with its blinding factor, `mask` the key proof's mask generation. */
  datatype Settings = Settings(curve: Curve, shareCount: nat, thresholdCount: nat, primorial: nat,
                               commit: (int, int) -> int, mask: (int, nat) -> int)

  function PublicShares(m: map<nat, DLogProof>): map<nat, int> {
    map i | i in m :: m[i].PK
  }

  function SecretShares(m: map<nat, ShareMessage>): map<nat, int> {
    map i | i in m :: m[i].secretShare
  }

  // ---------- what each receiver checks ----------

  function ProofCheck(m: DLogProof, curve: Curve): Check
    requires curve.N > 0
  {
    if Verify(m, curve) then Pass else Reject(ProofInvalid)
  }

  ghost function PaillierCheck(m: PaillierMessage, st: Settings): Check
    requires |m.correctKeyProof| >= M2 && m.paillierPubkey.N > 0
  {
    if KeyProofAccepted(m.correctKeyProof, m.paillierPubkey.N, st.primorial, st.mask) then Pass else Reject(ProofInvalid)
  }

  /** The dealer's first commitment must be the public share it announced before. */
  function KeyCheck(m: ShareMessage, announced: DLogProof): Check
    requires m.vss.commitments != []
  {
    if announced.PK == m.vss.commitments[0] then Pass else Reject(KeyMismatch)
  }

  /** The share must be the value, at the receiver's point, of the polynomial the commitments stand for. */
  function ShareCheck(m: ShareMessage, self: nat, N: int): Check
    requires N > 0
  {
    if m.secretShare % N == Eval(m.vss.commitments, self + 1) % N then Pass else Reject(ShareInvalid)
  }

  ghost predicate ValidPoints(ps: seq<Point>, N: int) {
    forall i :: 0 <= i < |ps| ==> 0 <= ps[i] < N
  }

  lemma PointsCommit(v: VerifiableSS, N: int)
    requires N > 0 && ValidPoints(v.commitments, N)
    ensures CommitsTo(v, v.commitments, N)
  {
    forall i | 0 <= i < |v.commitments|
      ensures v.commitments[i] == v.commitments[i] % N
    {
      SmallMod(v.commitments[i], N);
    }
  }

  /** The share of the polynomial `c` that notary `i` gets. */
  function MessageFor(vss: VerifiableSS, c: seq<int>, i: nat, N: int): ShareMessage
    requires c != [] && N > 0
  {
    ShareMessage(vss, ShareValue(c, i + 1, N), i)
  }

  function Outgoing(vss: VerifiableSS, c: seq<int>, self: nat, n: nat, N: int): map<nat, ShareMessage>
    requires c != [] && N > 0
  {
    map i: nat | 0 <= i < n && i != self :: MessageFor(vss, c, i, N)
  }

  /** The loop over the announced points, walking the map in any order; `start` is the exponent `x` stands for. */
  method SumOfPoints(start: Point, msgs: map<nat, DLogProof>, N: int, ghost base: int) returns (x: Point)
    requires N > 0 && start == base % N
    ensures x == (base + MapSum(PublicShares(msgs))) % N
  {
    ghost var vs := PublicShares(msgs);
    ghost var seen: seq<nat> := [];
    x := start;
    var rem := msgs.Keys;
    while rem != {}
      invariant Visited(seen, rem, vs.Keys)
      invariant x == (base + Sum(Along(vs, seen))) % N
      decreases |rem|
    {
      var i :| i in rem;
      VisitAdd(vs, seen, rem, i, base, x, N);
      x := PointAdd(x, msgs[i].PK, N);
      rem, seen := rem - {i}, seen + [i];
    }
    MapSumAnyOrder(vs, seen);
  }

  /** The loop over the received shares, added in place in whatever order the map is walked. */
  method SumOfShares(msgs: map<nat, ShareMessage>, N: int) returns (xi: PrivKey)
    requires N > 0
    ensures fresh(xi) && xi.D == MapSum(SecretShares(msgs)) % N
  {
    ghost var vs := SecretShares(msgs);
    ghost var seen: seq<nat> := [];
    xi := new PrivKey(0);
    var rem := msgs.Keys;
    while rem != {}
      invariant fresh(xi) && Visited(seen, rem, vs.Keys)
      invariant xi.D == (0 + Sum(Along(vs, seen))) % N
      decreases |rem|
    {
      var i :| i in rem;
      VisitAdd(vs, seen, rem, i, 0, xi.D, N);
      AddValue(xi, msgs[i].secretShare, N);
      rem, seen := rem - {i}, seen + [i];
    }
    MapSumAnyOrder(vs, seen);
  }

  class PKNHandler {
    const st: Settings
    const selfNotaryID: nat
    const UI: PrivKey
    var pubKeysProof1: map<nat, DLogProof>
    var paillierKeysProof2: map<nat, PaillierMessage>
    var secretShareMessage3: map<nat, ShareMessage>
    var publicKey: Point
    var XI: int
    var events: seq<Event>

    constructor (st: Settings, self: nat, ui: PrivKey)
      ensures this.st == st && selfNotaryID == self && UI == ui
      ensures pubKeysProof1 == map[] && paillierKeysProof2 == map[] && secretShareMessage3 == map[] && events == []
    {
      this.st, selfNotaryID, UI := st, self, ui;
      pubKeysProof1, paillierKeysProof2, secretShareMessage3, events := map[], map[], map[], [];
      publicKey, XI := 0, 0;
    }

    ghost predicate Valid() {
      st.curve.N > 1 && selfNotaryID < st.shareCount
    }

    // ---------- phase 1 ----------

    method ReceivePhase1PubKeyProof(m: DLogProof, index: nat)
      requires Valid()
      modifies this`pubKeysProof1, this`publicKey, this`events
      ensures pubKeysProof1 == Keep(old(pubKeysProof1), index, m, ProofCheck(m, st.curve), Pass)
      ensures events == old(events) + Report(old(pubKeysProof1), index, ProofCheck(m, st.curve), Pass, st.shareCount - 1)
      ensures publicKey == if Report(old(pubKeysProof1), index, ProofCheck(m, st.curve), Pass, st.shareCount - 1) == [Done]
                           then (UI.D + MapSum(PublicShares(pubKeysProof1))) % st.curve.N else old(publicKey)
    {
      if !Verify(m, st.curve) {
        events := events + [Failed(ProofInvalid)];
        return;
      }
      if index in pubKeysProof1 {
        events := events + [Failed(Duplicate)];
        return;
      }
      pubKeysProof1 := pubKeysProof1[index := m];
      CheckPhase1Done();
    }

    method CheckPhase1Done()
      requires Valid()
      modifies this`publicKey, this`events
      ensures events == old(events) + if |pubKeysProof1| == st.shareCount - 1 then [Done] else []
      ensures publicKey == if |pubKeysProof1| == st.shareCount - 1
                           then (UI.D + MapSum(PublicShares(pubKeysProof1))) % st.curve.N else old(publicKey)
    {
      if |pubKeysProof1| == st.shareCount - 1 {
        var x := SumOfPoints(ScalarBaseMult(UI.D, st.curve.N), pubKeysProof1, st.curve.N, UI.D);
        publicKey := x;
        events := events + [Done];
      }
    }

    // ---------- phase 2 ----------

    /** Requires a proof and a modulus the verification can index and divide by. */
    method ReceivePhase2PaillierPubKeyProof(m: PaillierMessage, index: nat)
      requires |m.correctKeyProof| >= M2 && m.paillierPubkey.N > 0
      modifies this`paillierKeysProof2, this`events
      ensures paillierKeysProof2 == Keep(old(paillierKeysProof2), index, m, PaillierCheck(m, st), Pass)
      ensures events == old(events) + Report(old(paillierKeysProof2), index, PaillierCheck(m, st), Pass, st.shareCount)
    {
      var ok := VerifyCorrectKey(m.correctKeyProof, m.paillierPubkey, st.primorial, st.mask);
      if !ok {
        events := events + [Failed(ProofInvalid)];
        return;
      }
      if index in paillierKeysProof2 {
        events := events + [Failed(Duplicate)];
        return;
      }
      paillierKeysProof2 := paillierKeysProof2[index := m];
      if |paillierKeysProof2| == st.shareCount {
        events := events + [Done];
      }
    }

    // ---------- phase 3 ----------

    /** Notary `i`'s opened commitment does not match the point it announced. */
    predicate Mismatched(i: nat)
      requires i in pubKeysProof1 && i in paillierKeysProof2
      reads this`pubKeysProof1, this`paillierKeysProof2
    {
      st.commit(st.curve.X(pubKeysProof1[i].PK), paillierKeysProof2[i].blindFactor) != paillierKeysProof2[i].com
    }

    /**
     Deals the shares.  The opened commitments are checked for the ids below the number of other
     notaries, so the last notary's is never looked at.
     */
    method GeneratePhase3SecretShare(random: seq<PrivKey>) returns (msgs: map<nat, ShareMessage>, ghost vss: VerifiableSS)
      requires Valid() && |random| == st.thresholdCount
      requires forall i :: 0 <= i < |pubKeysProof1| && i != selfNotaryID ==> i in pubKeysProof1 && i in paillierKeysProof2
      modifies this`secretShareMessage3, this`XI, this`events
      ensures (exists i :: 0 <= i < |pubKeysProof1| && i != selfNotaryID && Mismatched(i)) ==>
                msgs == map[] && events == old(events) + [Failed(CommitmentInvalid)] &&
                secretShareMessage3 == old(secretShareMessage3) && XI == old(XI)
      ensures !(exists i :: 0 <= i < |pubKeysProof1| && i != selfNotaryID && Mismatched(i)) ==>
                var c := Nums([UI] + random);
                && CommitsTo(vss, c, st.curve.N)
                && msgs == Outgoing(vss, c, selfNotaryID, st.shareCount, st.curve.N)
                && secretShareMessage3 == old(secretShareMessage3)[selfNotaryID := MessageFor(vss, c, selfNotaryID, st.curve.N)]
                && (var done := |secretShareMessage3| == st.shareCount;
                    && events == old(events) + (if done then [Done] else [])
                    && XI == if done then MapSum(SecretShares(secretShareMessage3)) % st.curve.N else old(XI))
    {
      msgs, vss := map[], VerifiableSS(0, 0, []);
      for i := 0 to |pubKeysProof1|
        invariant forall k :: 0 <= k < i && k != selfNotaryID ==> !Mismatched(k)
        invariant events == old(events) && secretShareMessage3 == old(secretShareMessage3) && XI == old(XI) && msgs == map[]
      {
        if i != selfNotaryID {
          var m := paillierKeysProof2[i];
          if st.commit(st.curve.X(pubKeysProof1[i].PK), m.blindFactor) != m.com {
            events := events + [Failed(CommitmentInvalid)];
            assert Mismatched(i);
            return;
          }
        }
      }
      var v, secretShares := Share(st.thresholdCount, st.shareCount, UI, random, st.curve.N);
      ghost var c := Nums([UI] + random);
      vss := v;
      secretShareMessage3 := secretShareMessage3[selfNotaryID := ShareMessage(v, secretShares[selfNotaryID].D, selfNotaryID)];
      for i := 0 to st.shareCount
        invariant msgs == Outgoing(v, c, selfNotaryID, i, st.curve.N)
      {
        if i != selfNotaryID {
          msgs := msgs[i := ShareMessage(v, secretShares[i].D, i)];
        }
      }
      CheckPhase3Done();
    }

    /** Requires the sender's phase-1 message and a nonempty list of commitment points, which the source reads first. */
    method ReceivePhase3SecretShare(msg: ShareMessage, index: nat)
      requires Valid() && index in pubKeysProof1
      requires msg.vss.commitments != [] && ValidPoints(msg.vss.commitments, st.curve.N)
      modifies this`secretShareMessage3, this`XI, this`events
      ensures var before, after := KeyCheck(msg, pubKeysProof1[index]), ShareCheck(msg, selfNotaryID, st.curve.N);
              && secretShareMessage3 == Keep(old(secretShareMessage3), index, msg, before, after)
              && events == old(events) + Report(old(secretShareMessage3), index, before, after, st.shareCount)
              && XI == if Report(old(secretShareMessage3), index, before, after, st.shareCount) == [Done]
                       then MapSum(SecretShares(secretShareMessage3)) % st.curve.N else old(XI)
    {
      hide Eval, MapSum, CommitsTo, ValidPoints;
      PointsCommit(msg.vss, st.curve.N);
      if pubKeysProof1[index].PK != msg.vss.commitments[0] {
        events := events + [Failed(KeyMismatch)];
        return;
      }
      if index in secretShareMessage3 {
        events := events + [Failed(Duplicate)];
        return;
      }
      var ok := ValidateShare(msg.vss, msg.secretShare, selfNotaryID + 1, st.curve.N, msg.vss.commitments);
      if !ok {
        events := events + [Failed(ShareInvalid)];
        return;
      }
      secretShareMessage3 := secretShareMessage3[index := msg];
      CheckPhase3Done();
    }

    method CheckPhase3Done()
      requires Valid()
      modifies this`XI, this`events
      ensures events == old(events) + if |secretShareMessage3| == st.shareCount then [Done] else []
      ensures XI == if |secretShareMessage3| == st.shareCount
                    then MapSum(SecretShares(secretShareMessage3)) % st.curve.N else old(XI)
    {
      if |secretShareMessage3| == st.shareCount {
        var xi := SumOfShares(secretShareMessage3, st.curve.N);
        XI := xi.D;
        events := events + [Done];
      }
    }
  }

  // ---------- an honest run ----------

  function OneToAll(n: nat): (r: seq<nat>)
    ensures |r| == n && forall i :: 0 <= i < n ==> r[i] == i
  {
    seq(n, i => i)
  }

  /** What notary `self` is sent in phase 1. */
  function PhaseOneMessages(us: seq<int>, rands: seq<int>, self: nat, curve: Curve): (r: map<nat, DLogProof>)
    requires curve.N > 0 && |rands| == |us|
    ensures forall i: nat :: i in r <==> i < |us| && i != self
    ensures forall i :: i in r ==> r[i] == DLogProofOf(us[i], rands[i], curve)
  {
    map i | 0 <= i < |us| && i != self :: DLogProofOf(us[i], rands[i], curve)
  }

  /** What notary `self` is sent, or keeps for itself, in phase 3. */
  function PhaseThreeMessages(polys: seq<seq<int>>, vsss: seq<VerifiableSS>, self: nat, N: int): map<nat, ShareMessage>
    requires N > 0 && |vsss| == |polys| && forall d :: 0 <= d < |polys| ==> polys[d] != []
  {
    map i | 0 <= i < |polys| :: ShareMessage(vsss[i], ShareValue(polys[i], self + 1, N), self)
  }

  lemma AnnouncedPoint(us: seq<int>, rands: seq<int>, self: nat, curve: Curve, i: nat)
    requires curve.N > 0 && |rands| == |us| && i < |us| && i != self
    ensures var ps := PublicShares(PhaseOneMessages(us, rands, self, curve)); i in ps && Cong(ps[i], us[i], curve.N)
  {
    CongMod(us[i], curve.N);
  }

  lemma OtherPoint(us: seq<int>, rands: seq<int>, self: nat, curve: Curve, k: nat)
    requires curve.N > 0 && |rands| == |us| && self < |us| && k < |us| - 1
    ensures var i, ps := Others(OneToAll(|us|), self)[k], PublicShares(PhaseOneMessages(us, rands, self, curve));
            i in ps && Cong(ps[i], Others(us, self)[k], curve.N)
  {
    AnnouncedPoint(us, rands, self, curve, if k < self then k else k + 1);
  }

  lemma OthersWalk(us: seq<int>, rands: seq<int>, self: nat, curve: Curve)
    requires curve.N > 0 && |rands| == |us| && self < |us|
    ensures Walks(Others(OneToAll(|us|), self), PublicShares(PhaseOneMessages(us, rands, self, curve)).Keys)
  {
    OthersListed(|us|, self);
  }

  lemma OthersSum(us: seq<int>, rands: seq<int>, self: nat, curve: Curve)
    requires curve.N > 0 && |rands| == |us| && self < |us|
    ensures Cong(MapSum(PublicShares(PhaseOneMessages(us, rands, self, curve))), Sum(Others(us, self)), curve.N)
  {
    var N, ps := curve.N, PublicShares(PhaseOneMessages(us, rands, self, curve));
    hide *;
    var others, ys := Others(OneToAll(|us|), self), Others(us, self);
    OthersWalk(us, rands, self, curve);
    forall k | 0 <= k < |others|
      ensures Cong(ps[others[k]], ys[k], N)
    {
      OtherPoint(us, rands, self, curve, k);
    }
    MapSumCong(ps, others, ys, N);
  }

  lemma PublicSharesSum(us: seq<int>, rands: seq<int>, self: nat, curve: Curve)
    requires curve.N > 0 && |rands| == |us| && self < |us|
    ensures var msgs := PhaseOneMessages(us, rands, self, curve);
            (us[self] + MapSum(PublicShares(msgs))) % curve.N == Sum(us) % curve.N
  {
    hide *;
    var total := MapSum(PublicShares(PhaseOneMessages(us, rands, self, curve)));
    OthersSum(us, rands, self, curve);
    SumTakeOut(us, self);
    AddEqualResidues(us[self], total, Sum(Others(us, self)), Sum(us), curve.N);
  }

  lemma HonestProofPasses(u: int, rand: int, curve: Curve)
    requires curve.N > 0
    ensures ProofCheck(DLogProofOf(u, rand, curve), curve) == Pass
  {
    DLogComplete(u, rand, curve);
  }

  lemma AddEqualResidues(a: int, x: int, y: int, total: int, N: int)
    requires N > 0 && Cong(x, y, N) && total == a + y
    ensures (a + x) % N == total % N
  {
    CongAdd(a, a, x, y, N);
  }

  lemma OthersListed(n: nat, self: nat)
    requires self < n
    ensures var o := Others(OneToAll(n), self); Distinct(o) && |o| == n - 1 && forall i: nat :: i in o <==> i < n && i != self
  {
    var o := Others(OneToAll(n), self);
    forall i: nat
      ensures i in o <==> i < n && i != self
    {
      if i < n && i != self { assert o[if i < self then i else i - 1] == i; }
    }
  }

  lemma SameLength(a: seq<nat>, b: seq<nat>, keys: set<nat>)
    requires Walks(a, keys) && Walks(b, keys)
    ensures |a| == |b|
  {
    WalksAgree(a, b, keys);
    assert |a| == |multiset(a)| && |b| == |multiset(b)|;
  }

  function ProofVerdict(msgs: map<nat, DLogProof>, curve: Curve): nat -> Verdict
    requires curve.N > 0
  {
    i => Verdict(if i in msgs then ProofCheck(msgs[i], curve) else Pass, Pass)
  }

  lemma ProofsPass(us: seq<int>, rands: seq<int>, self: nat, curve: Curve)
    requires curve.N > 0 && |rands| == |us| && self < |us|
    ensures var msgs := PhaseOneMessages(us, rands, self, curve);
            forall i :: i in msgs ==> ProofVerdict(msgs, curve)(i) == VALID
  {
    hide ProofCheck, DLogProofOf, PhaseOneMessages;
    var msgs := PhaseOneMessages(us, rands, self, curve);
    forall i | i in msgs
      ensures ProofVerdict(msgs, curve)(i) == VALID
    {
      HonestProofPasses(us[i], rands[i], curve);
    }
  }

  lemma PhaseOneEnds(us: seq<int>, rands: seq<int>, self: nat, curve: Curve, a: seq<nat>)
    requires curve.N > 0 && |rands| == |us| && self < |us|
    requires Walks(a, PhaseOneMessages(us, rands, self, curve).Keys) && |us| > 1
    ensures var msgs := PhaseOneMessages(us, rands, self, curve);
            && Delivered(a, msgs, ProofVerdict(msgs, curve)) == msgs
            && Reports(a, msgs, ProofVerdict(msgs, curve), |us| - 1) == [Done]
  {
    hide *;
    var msgs := PhaseOneMessages(us, rands, self, curve);
    var judge := ProofVerdict(msgs, curve);
    ProofsPass(us, rands, self, curve);
    OthersLength(a, us, rands, self, curve);
    ArrivalOrder(a, msgs, judge, |us| - 1);
    AllDelivered(a, msgs, judge);
  }

  /** Every notary ends phase 1, in whatever order it hears the others, with the sum of all secrets as public key. */
  lemma PublicKeyAgreed(us: seq<int>, rands: seq<int>, self: nat, curve: Curve, a: seq<nat>)
    requires curve.N > 0 && |rands| == |us| && self < |us|
    requires Walks(a, PhaseOneMessages(us, rands, self, curve).Keys) && |us| > 1
    ensures var msgs := PhaseOneMessages(us, rands, self, curve);
            && Delivered(a, msgs, ProofVerdict(msgs, curve)) == msgs
            && Reports(a, msgs, ProofVerdict(msgs, curve), |us| - 1) == [Done]
            && (us[self] + MapSum(PublicShares(msgs))) % curve.N == Sum(us) % curve.N
  {
    hide *;
    PhaseOneEnds(us, rands, self, curve, a);
    PublicSharesSum(us, rands, self, curve);
  }

  lemma OthersLength(a: seq<nat>, us: seq<int>, rands: seq<int>, self: nat, curve: Curve)
    requires curve.N > 0 && |rands| == |us| && self < |us|
    requires Walks(a, PhaseOneMessages(us, rands, self, curve).Keys)
    ensures |a| == |us| - 1 && Distinct(a)
    ensures forall i :: i in a <==> i in PhaseOneMessages(us, rands, self, curve)
  {
    OthersListed(|us|, self);
    SameLength(a, Others(OneToAll(|us|), self), PhaseOneMessages(us, rands, self, curve).Keys);
  }

  /** An honest dealer's share passes both checks of its receiver. */
  lemma HonestShareAccepted(c: seq<int>, vss: VerifiableSS, rand: int, self: nat, curve: Curve)
    requires c != [] && curve.N > 0 && CommitsTo(vss, c, curve.N)
    ensures var m := ShareMessage(vss, ShareValue(c, self + 1, curve.N), self);
            && KeyCheck(m, DLogProofOf(c[0], rand, curve)) == Pass
            && ShareCheck(m, self, curve.N) == Pass
  {
    var N := curve.N;
    ShareAcceptedOnlyAtItsIndex(c, self + 1, ShareValue(c, self + 1, N), N);
    ReducedEval(vss.commitments, c, self + 1, N);
  }

  lemma {:induction false} ReducedEval(d: seq<int>, c: seq<int>, x: int, N: int)
    requires N > 0 && |d| == |c| && forall i :: 0 <= i < |c| ==> d[i] == c[i] % N
    ensures Cong(Eval(d, x), Eval(c, x), N)
  {
    if c != [] {
      ReducedEval(d[1..], c[1..], x, N);
      CongMod(c[0], N);
      CongRefl(x, N);
      CongMul(Eval(d[1..], x), Eval(c[1..], x), x, x, N);
      CongAdd(d[0], c[0], x * Eval(d[1..], x), x * Eval(c[1..], x), N);
    }
  }

  lemma KeyShareSum(polys: seq<seq<int>>, vsss: seq<VerifiableSS>, self: nat, N: int)
    requires N > 0 && |vsss| == |polys| && forall d :: 0 <= d < |polys| ==> polys[d] != []
    ensures Cong(MapSum(SecretShares(PhaseThreeMessages(polys, vsss, self, N))) % N, Eval(SumPoly(polys), self + 1), N)
  {
    var ss, all := SecretShares(PhaseThreeMessages(polys, vsss, self, N)), OneToAll(|polys|);
    AllListed(|polys|);
    MapSumAnyOrder(ss, all);
    var along, values := Along(ss, all), ValuesAt(polys, self + 1);
    forall d | 0 <= d < |polys|
      ensures Cong(along[d], values[d], N)
    {
      ShareAcceptedOnlyAtItsIndex(polys[d], self + 1, ShareValue(polys[d], self + 1, N), N);
    }
    hide Along, Eval, ShareValue;
    SumCong(along, values, N);
    SumPolyEval(polys, self + 1);
    CongMod(Sum(along), N);
  }

  lemma AllListed(n: nat)
    ensures var o := OneToAll(n); Distinct(o) && forall i: nat :: i in o <==> i < n
  {
    forall i: nat
      ensures i in OneToAll(n) <==> i < n
    {
      if i < n { assert OneToAll(n)[i] == i; }
    }
  }

  /**
   What a notary finds about the shares it is sent, given the points announced in phase 1; its own
   share it keeps unchecked.
   */
  function ShareVerdict(msgs: map<nat, ShareMessage>, announced: map<nat, DLogProof>, self: nat, N: int): nat -> Verdict
    requires N > 0
  {
    i => if i in msgs && i in announced && msgs[i].vss.commitments != []
         then Verdict(KeyCheck(msgs[i], announced[i]), ShareCheck(msgs[i], self, N)) else VALID
  }

  /** The dealers' commitments are those of their polynomials. */
  ghost predicate AllCommit(polys: seq<seq<int>>, vsss: seq<VerifiableSS>, N: int)
    requires N > 0
  {
    |vsss| == |polys| && forall d :: 0 <= d < |polys| ==> polys[d] != [] && CommitsTo(vsss[d], polys[d], N)
  }

  lemma SharesPass(polys: seq<seq<int>>, vsss: seq<VerifiableSS>, rands: seq<int>, self: nat, curve: Curve)
    requires curve.N > 0 && AllCommit(polys, vsss, curve.N) && |rands| == |polys|
    ensures var msgs := PhaseThreeMessages(polys, vsss, self, curve.N);
            var announced := PhaseOneMessages(ConstantTerms(polys), rands, self, curve);
            forall i :: i in msgs ==> ShareVerdict(msgs, announced, self, curve.N)(i) == VALID
  {
    var msgs := PhaseThreeMessages(polys, vsss, self, curve.N);
    var announced := PhaseOneMessages(ConstantTerms(polys), rands, self, curve);
    hide KeyCheck, ShareCheck, ShareValue, DLogProofOf;
    forall i | i in msgs && i in announced
      ensures ShareVerdict(msgs, announced, self, curve.N)(i) == VALID
    {
      HonestShareAccepted(polys[i], vsss[i], rands[i], self, curve);
    }
  }

  /**
   Every notary ends phase 3, in whatever order the shares arrive and with both checks made on each,
   holding the value at its own point of the sum of all the dealers' polynomials.
   */
  lemma KeyShareCorrect(polys: seq<seq<int>>, vsss: seq<VerifiableSS>, rands: seq<int>, self: nat, curve: Curve, a: seq<nat>)
    requires curve.N > 0 && AllCommit(polys, vsss, curve.N) && |rands| == |polys| > 0
    requires Walks(a, PhaseThreeMessages(polys, vsss, self, curve.N).Keys)
    ensures var msgs := PhaseThreeMessages(polys, vsss, self, curve.N);
            var judge := ShareVerdict(msgs, PhaseOneMessages(ConstantTerms(polys), rands, self, curve), self, curve.N);
            && Delivered(a, msgs, judge) == msgs && Reports(a, msgs, judge, |polys|) == [Done]
            && Cong(MapSum(SecretShares(msgs)) % curve.N, Eval(SumPoly(polys), self + 1), curve.N)
  {
    hide MapSum, ShareValue, Delivered, Reports, ShareVerdict, ConstantTerms, CommitsTo;
    var msgs := PhaseThreeMessages(polys, vsss, self, curve.N);
    var judge := ShareVerdict(msgs, PhaseOneMessages(ConstantTerms(polys), rands, self, curve), self, curve.N);
    SharesPass(polys, vsss, rands, self, curve);
    AllListed(|polys|);
    SameLength(a, OneToAll(|polys|), msgs.Keys);
    ArrivalOrder(a, msgs, judge, |polys|);
    AllDelivered(a, msgs, judge);
    KeyShareSum(polys, vsss, self, curve.N);
  }
}
