/**
 What stands behind a stable checkpoint.  More than 2f recorded announcements carry its digest, and
 more than 2f the view that is adopted with it; but they are announcements, not announcers, so one
 faulty replica is enough to make the others skip what they have not executed.
 */
module Checkpoints {
  import opened Collections
  import opened Replica
  import opened ReplicaOrder
  import opened ReplicaVotes
  import opened Agreement
  import opened Progress
  import opened Runs

  // ---------- counting announcements ----------

  /** The places of the announcements with this digest, and of those with this view. */
  ghost function WithDigest(proof: seq<CheckPointArgs>, d: string): set<int> {
    set k | 0 <= k < |proof| && proof[k].Digest == d
  }

  ghost function WithView(proof: seq<CheckPointArgs>, v: int): set<int> {
    set k | 0 <= k < |proof| && proof[k].View == v
  }

  /** With the i-th announcement more than 2f carry its digest, and more than 2f its view. */
  ghost predicate Agreed(proof: seq<CheckPointArgs>, i: int, f: nat) {
    0 <= i < |proof| && |WithDigest(proof[..i + 1], proof[i].Digest)| > 2 * f && |WithView(proof[..i + 1], proof[i].View)| > 2 * f
  }

  ghost predicate FirstAt(proof: seq<CheckPointArgs>, i: int, f: nat) {
    Agreed(proof, i, f) && forall j :: 0 <= j < i ==> !Agreed(proof, j, f)
  }

  lemma {:induction false} DigestsCounted(proof: seq<CheckPointArgs>, d: string)
    ensures CountDigest(proof, d) == |WithDigest(proof, d)|
  {
    if proof != [] {
      var m := |proof| - 1;
      DigestsCounted(proof[..m], d);
      assert WithDigest(proof, d) == WithDigest(proof[..m], d) + if proof[m].Digest == d then {m} else {};
    }
  }

  lemma {:induction false} ViewsCounted(proof: seq<CheckPointArgs>, v: int)
    ensures CountView(proof, v) == |WithView(proof, v)|
  {
    if proof != [] {
      var m := |proof| - 1;
      ViewsCounted(proof[..m], v);
      assert WithView(proof, v) == WithView(proof[..m], v) + if proof[m].View == v then {m} else {};
    }
  }

  /** The loop stops at the first announcement that enough others agree with. */
  lemma {:induction false} FirstAgreedExact(proof: seq<CheckPointArgs>, f: nat, i: nat)
    requires i <= |proof| && forall j :: 0 <= j < i ==> !Agreed(proof, j, f)
    ensures FirstAgreed(proof, f, i).Some? <==> exists k :: FirstAt(proof, k, f)
    ensures forall k :: FirstAt(proof, k, f) ==> FirstAgreed(proof, f, i) == Some(proof[k])
    decreases |proof| - i
  {
    if i < |proof| {
      DigestsCounted(proof[..i + 1], proof[i].Digest);
      ViewsCounted(proof[..i + 1], proof[i].View);
      if Agreed(proof, i, f) {
        assert FirstAt(proof, i, f);
      } else {
        FirstAgreedExact(proof, f, i + 1);
      }
    }
  }

  lemma {:induction false} SomeFirst(proof: seq<CheckPointArgs>, i: int, f: nat) returns (k: int)
    requires Agreed(proof, i, f)
    ensures FirstAt(proof, k, f)
  {
    k := 0;
    while !Agreed(proof, k, f)
      invariant 0 <= k <= i && forall j :: 0 <= j < k ==> !Agreed(proof, j, f)
      decreases i - k
    {
      k := k + 1;
    }
  }

  /** Fewer announcements than a quorum never agree. */
  lemma AgreementIsLarge(proof: seq<CheckPointArgs>, i: int, f: nat)
    requires Agreed(proof, i, f)
    ensures |proof| > 2 * f
  {
    SubsetSize(WithDigest(proof[..i + 1], proof[i].Digest), Ids(|proof|));
  }

  // ---------- one announcement ----------

  /** The announcement is recorded: its number is a checkpoint's, not behind the stable one and not stable itself. */
  ghost predicate Recorded(s: State, a: CheckPointArgs) {
    a.Seq % CHECKPOINT_DIV == 0 && !Superseded(s.cps, a.Seq) && !(a.Seq in s.cps && s.cps[a.Seq].Stable)
  }

  /** Everything announced for the number, this announcement last. */
  ghost function Announced(s: State, a: CheckPointArgs): seq<CheckPointArgs> {
    (if a.Seq in s.cps then s.cps[a.Seq].Proof else []) + [a]
  }

  ghost predicate AgreedNow(s: State, a: CheckPointArgs, f: nat) {
    Recorded(s, a) && exists k :: FirstAt(Announced(s, a), k, f)
  }

  /** The record a stable checkpoint is made from stays, with the agreed digest. */
  lemma StableRecord(s: State, n: int, proof: CheckPointArgs)
    requires AboutToStabilize(s, n) && proof.Seq == n
    ensures var r := Stabilize(s, n, proof);
            && n in r.cps && r.cps[n] == s.cps[n].(Stable := true, Digest := proof.Digest)
            && r.view == (if proof.View > s.view then proof.View else s.view)
            && r.apply == (if s.apply < n then n else s.apply)
  {
    DrainLeaves(Staged(s, n, proof), n, |s.queue|);
    hide Drain;
  }

  lemma {:induction false} DrainLeaves(s: State, limit: int, fuel: nat)
    ensures var r := Drain(s, limit, fuel); r.cps == s.cps && r.view == s.view && r.apply == s.apply && r.executed == s.executed && r.state == s.state
    decreases fuel
  {
    if fuel != 0 && s.queue != [] && s.queue[0].Seq <= limit {
      DrainLeaves(ReplyTask(s.(queue := s.queue[1..]), s.queue[0]), limit, fuel - 1);
    }
  }

  lemma SettleExact(s: State, n: int, cfg: Config)
    requires Ordered(s) && AboutToStabilize(s, n) && ProofOf(s.cps[n], n)
    ensures !(exists k :: FirstAt(s.cps[n].Proof, k, cfg.f)) ==> Settle(s, n, cfg) == s
    ensures forall k :: FirstAt(s.cps[n].Proof, k, cfg.f) ==>
              var proof := s.cps[n].Proof[k]; proof.Seq == n && Settle(s, n, cfg) == Stabilize(s, n, proof)
  {
    hide Stabilize;
    var proof := s.cps[n].Proof;
    FirstAgreedExact(proof, cfg.f, 0);
    if k :| FirstAt(proof, k, cfg.f) {
      AgreementIsLarge(proof, k, cfg.f);
    }
  }

  /**
   An announcement makes its number stable exactly when it is recorded and some announcement of the
   number, counted with those before it, has its digest and its view in common with more than 2f.
   The first such announcement's digest and view are taken over.  Otherwise nothing but the record
   changes.
   */
  lemma AnnouncementExact(s: State, a: CheckPointArgs, cfg: Config)
    requires Ordered(s)
    ensures var r := OnCheckPoint(s, a, cfg);
            && (r.lastcp > s.lastcp <==> AgreedNow(s, a, cfg.f))
            && (!AgreedNow(s, a, cfg.f) ==> r == s.(cps := r.cps) && (Recorded(s, a) ==> a.Seq in r.cps && r.cps[a.Seq].Proof == Announced(s, a)))
    ensures forall k :: AgreedNow(s, a, cfg.f) && FirstAt(Announced(s, a), k, cfg.f) ==>
              var r, who := OnCheckPoint(s, a, cfg), Announced(s, a)[k];
              && r.lastcp == a.Seq && a.Seq in r.cps && r.cps[a.Seq].Stable && r.cps[a.Seq].Digest == who.Digest
              && r.cps[a.Seq].Proof == Announced(s, a)
              && r.view == (if who.View > s.view then who.View else s.view)
              && r.apply == (if s.apply < a.Seq then a.Seq else s.apply)
  {
    hide Settle, QueueOrdered, ExecutedInOrder, Superseded, WithDigest, WithView, Stabilize, AboutToStabilize;
    if a.Seq % CHECKPOINT_DIV == 0 && !Superseded(s.cps, a.Seq) {
      OpenCheckPoint(s, a.Seq, cfg);
      var s1 := WithCheckPoint(s, a.Seq, cfg);
      CpsIrrelevant(s, s1.cps);
      if !s1.cps[a.Seq].Stable {
        AnnounceKeeps(s1, a);
        var s2 := Announce(s1, a);
        CpsIrrelevant(s, s2.cps);
        assert s2.cps[a.Seq].Proof == Announced(s, a);
        SettleExact(s2, a.Seq, cfg);
        forall k | FirstAt(Announced(s, a), k, cfg.f)
          ensures var r, who := OnCheckPoint(s, a, cfg), Announced(s, a)[k];
                  && r.lastcp == a.Seq > s.lastcp && a.Seq in r.cps && r.cps[a.Seq].Stable && r.cps[a.Seq].Digest == who.Digest
                  && r.cps[a.Seq].Proof == Announced(s, a)
                  && r.view == (if who.View > s.view then who.View else s.view)
                  && r.apply == (if s.apply < a.Seq then a.Seq else s.apply)
        {
          StableRecord(s2, a.Seq, Announced(s, a)[k]);
          StabilizeKeeps(s2, a.Seq, Announced(s, a)[k]);
        }
      }
    }
  }

  // ---------- one faulty replica ----------

  ghost function Copies(a: CheckPointArgs, m: nat): (r: seq<CheckPointArgs>)
    ensures |r| == m && forall k :: 0 <= k < m ==> r[k] == a
  {
    seq(m, k => a)
  }

  ghost function Repeated(a: CheckPointArgs, m: nat): (r: seq<Input>)
    ensures |r| == m && forall k :: 0 <= k < m ==> r[k] == Deliver(CheckPointMessage(a), ACCEPT)
  {
    seq(m, k => Deliver(CheckPointMessage(a), ACCEPT))
  }

  /** One announcement agrees with its own copies. */
  lemma CopiesAgree(a: CheckPointArgs, m: nat, i: int, f: nat)
    requires 0 <= i < m
    ensures Agreed(Copies(a, m), i, f) <==> i >= 2 * f
  {
    var part := Copies(a, m)[..i + 1];
    assert WithDigest(part, a.Digest) == Ids(i + 1) && WithView(part, a.View) == Ids(i + 1);
  }

  lemma CopiesNow(s: State, a: CheckPointArgs, m: nat, f: nat)
    requires Recorded(s, a) && Announced(s, a) == Copies(a, m + 1)
    ensures AgreedNow(s, a, f) <==> m >= 2 * f
  {
    var all := Copies(a, m + 1);
    forall i | 0 <= i <= m
      ensures Agreed(all, i, f) <==> i >= 2 * f
    {
      CopiesAgree(a, m + 1, i, f);
    }
    hide Agreed;
    if m >= 2 * f {
      assert FirstAt(Announced(s, a), 2 * f, f);
    }
  }

  /** The replica has recorded this announcement so many times, and done nothing else. */
  ghost predicate Piled(s: State, r: State, a: CheckPointArgs, m: nat) {
    r == s.(cps := r.cps) && Recorded(r, a) && Announced(r, a) == Copies(a, m + 1)
  }

  lemma {:induction false} CopiesPile(s: State, a: CheckPointArgs, m: nat, cfg: Config)
    requires cfg.n > 0 && Invariant(s, cfg.f) && !s.panic && Recorded(s, a) && a.Seq !in s.cps && m <= 2 * cfg.f
    ensures Piled(s, Run(s, Repeated(a, m), cfg), a, m) && Invariant(Run(s, Repeated(a, m), cfg), cfg.f)
  {
    hide Invariant, Recorded, OnCheckPoint, AgreedNow;
    if m == 0 {
      assert Announced(s, a) == Copies(a, 1);
    } else {
      CopiesPile(s, a, m - 1, cfg);
      assert Repeated(a, m)[..m - 1] == Repeated(a, m - 1);
      var t := Run(s, Repeated(a, m - 1), cfg);
      CopiesNow(t, a, m - 1, cfg.f);
      PiledOnce(t, a, m - 1, cfg);
      StepKeeps(t, Deliver(CheckPointMessage(a), ACCEPT), cfg);
    }
  }

  lemma PiledOnce(t: State, a: CheckPointArgs, m: nat, cfg: Config)
    requires Invariant(t, cfg.f) && !t.panic && Recorded(t, a) && Announced(t, a) == Copies(a, m + 1) && !AgreedNow(t, a, cfg.f)
    ensures Piled(t, OnCheckPoint(t, a, cfg), a, m + 1)
  {
    var r := OnCheckPoint(t, a, cfg);
    AnnouncementExact(t, a, cfg);
    CheckPointKeeps(t, a, cfg);
    StableElsewhere(t, a);
    hide OnCheckPoint, Votes, AgreedNow;
    assert a.Seq in r.cps && r.cps[a.Seq].Proof == Announced(t, a);
    assert Copies(a, m + 1) + [a] == Copies(a, m + 2);
  }

  lemma StableElsewhere(t: State, a: CheckPointArgs)
    requires CheckPointsOrdered(t) && Recorded(t, a)
    ensures a.Seq > t.lastcp
  {
  }

  /** A replica that hears one announcement 2f+1 times takes its number for applied. */
  lemma RepeatedAnnouncement(s: State, a: CheckPointArgs, cfg: Config)
    requires cfg.n > 0 && Invariant(s, cfg.f) && !s.panic && Recorded(s, a) && a.Seq !in s.cps && a.Seq > s.apply
    ensures var r := Run(s, Repeated(a, 2 * cfg.f + 1), cfg);
            r.lastcp == r.apply == a.Seq && a.Seq in r.cps && r.cps[a.Seq].Stable && r.cps[a.Seq].Digest == a.Digest
  {
    hide OnCheckPoint, WithDigest, WithView, Recorded, Votes, Announced, QueueOrdered, ExecutedInOrder, CheckPointsOrdered;
    var f := cfg.f;
    CopiesPile(s, a, 2 * f, cfg);
    assert Repeated(a, 2 * f + 1)[..2 * f] == Repeated(a, 2 * f);
    var t := Run(s, Repeated(a, 2 * f), cfg);
    assert Run(s, Repeated(a, 2 * f + 1), cfg) == OnCheckPoint(t, a, cfg);
    hide Run;
    CopiesNow(t, a, 2 * f, f);
    AnnouncementExact(t, a, cfg);
    CheckPointKeeps(t, a, cfg);
    var k :| FirstAt(Announced(t, a), k, f);
    assert Announced(t, a)[k] == a;
  }

  /**
   One faulty replica makes an honest one skip: for every f and n >= 2 there is a run of authentic
   messages after which the replica takes a checkpoint's number for applied, with the digest the
   faulty one made up, and has executed nothing.
   */
  lemma OneFaultySkips(n: int, d: string, x: int, r: int, initSeq: nat, opOf: string -> string, cfg: Config)
    requires 0 <= x < cfg.n && 0 <= r < cfg.n && x != r && n % CHECKPOINT_DIV == 0 && n >= initSeq && opOf("") == ""
    ensures exists sys: System :: ReachableBy(sys, initSeq, opOf) && sys.cfg == cfg && sys.byz == {x} && r < |sys.replicas| &&
              Skipped(sys.replicas[r], n, d)
  {
    var sys := System(cfg, {x}, seq(cfg.n, i => Initial(i, initSeq)));
    var a := CheckPointArgs(n, d, x, 0);
    var inputs := Repeated(a, 2 * cfg.f + 1);
    var s := sys.replicas[r];
    StartReachable(sys, initSeq, opOf);
    assert forall k :: 0 <= k < |inputs| ==> Proper(sys, inputs[k], opOf);
    FreshRecords(r, initSeq, a, cfg);
    hide ReachableBy, Run, Invariant, Repeated, Proper, Recorded;
    DeliverAll(sys, r, inputs, initSeq, opOf);
    RepeatedAnnouncement(s, a, cfg);
    NothingExecuted(s, a, 2 * cfg.f + 1, cfg);
    var t := Stepped(sys, r, Run(s, inputs, cfg));
    assert t.replicas[r] == Run(s, inputs, cfg);
  }

  ghost predicate Skipped(s: State, n: int, d: string) {
    s.lastcp == n && s.apply == n && s.executed == [] && n in s.cps && s.cps[n].Digest == d
  }

  lemma FreshRecords(r: int, initSeq: nat, a: CheckPointArgs, cfg: Config)
    requires a.Seq % CHECKPOINT_DIV == 0 && a.Seq >= initSeq
    ensures var s := Initial(r, initSeq); Invariant(s, cfg.f) && !s.panic && Recorded(s, a) && a.Seq !in s.cps && a.Seq > s.apply && s.executed == []
  {
    InitialInvariant(r, initSeq, cfg.f);
  }

  /** Announcements execute nothing. */
  lemma {:induction false} NothingExecuted(s: State, a: CheckPointArgs, m: nat, cfg: Config)
    requires cfg.n > 0
    ensures Run(s, Repeated(a, m), cfg).executed == s.executed
  {
    if m > 0 {
      assert Repeated(a, m)[..m - 1] == Repeated(a, m - 1);
      NothingExecuted(s, a, m - 1, cfg);
      var t := Run(s, Repeated(a, m - 1), cfg);
      hide Run;
      ExecutesNothing(t, a, cfg);
    }
  }

  lemma ExecutesNothing(s: State, a: CheckPointArgs, cfg: Config)
    ensures OnCheckPoint(s, a, cfg).executed == s.executed
  {
    hide FirstAgreed, Superseded, Stabilize;
    if a.Seq % CHECKPOINT_DIV == 0 && !Superseded(s.cps, a.Seq) {
      var s2 := Announce(WithCheckPoint(s, a.Seq, cfg), a);
      var agreed := FirstAgreed(s2.cps[a.Seq].Proof, cfg.f, 0);
      if agreed.Some? { StableExecutesNothing(s2, a.Seq, agreed.value); }
    }
  }

  lemma StableExecutesNothing(s: State, n: int, proof: CheckPointArgs)
    requires n in s.cps
    ensures Stabilize(s, n, proof).executed == s.executed
  {
    DrainLeaves(Staged(s, n, proof), s.cps[n].Seq, |s.queue|);
    hide Drain;
  }
}
