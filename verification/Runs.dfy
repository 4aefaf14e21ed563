/**
 Runs in which every message really comes from the replica it names, and how to build them; and the
 run that shows agreement within a view to fail as soon as there is one replica more than 3f+1.
 */
module Runs {
  import opened Collections
  import opened Replica
  import opened ReplicaOrder
  import opened ReplicaVotes
  import opened ReplicaGrowth
  import opened ReplicaReplies
  import opened Agreement
  import opened Progress

  // ---------- authentic runs ----------

  ghost predicate SentBy(sys: System, x: int, m: Message) {
    0 <= x < |sys.replicas| && (x in sys.byz || m in sys.replicas[x].sent)
  }

  /** The sender a message names has sent it, or is faulty; pre-prepares and new views name their leader by the view. */
  ghost predicate Genuine(sys: System, i: Input) {
    i.Deliver? ==>
      match i.msg
      case PrePrepareMessage(pp) => SentBy(sys, pp.View, i.msg)
      case PrepareMessage(a) => SentBy(sys, a.Rid, i.msg)
      case CommitMessage(a) => SentBy(sys, a.Rid, i.msg)
      case CheckPointMessage(cp) => SentBy(sys, cp.Rid, i.msg)
      case ViewChangeMessage(vc) => SentBy(sys, vc.Rid, i.msg)
      case NewViewMessage(nv) => SentBy(sys, nv.View, i.msg)
      case _ => true
  }

  ghost predicate GenuineRun(systems: seq<System>, events: seq<Event>, initSeq: nat) {
    IsRun(systems, events, initSeq) && forall k :: 0 <= k < |events| ==> Genuine(systems[k], events[k].i)
  }

  ghost predicate Reachable(sys: System, initSeq: nat) {
    exists systems, events :: GenuineRun(systems, events, initSeq) && systems[|events|] == sys
  }

  /** An authentic message whose digests stand for their operations. */
  ghost predicate Proper(sys: System, i: Input, opOf: string -> string) {
    Genuine(sys, i) && Meaningful(i, opOf)
  }

  /** Reached by authentic messages in which digests determine operations. */
  ghost predicate ReachableBy(sys: System, initSeq: nat, opOf: string -> string) {
    exists systems, events :: GenuineRun(systems, events, initSeq) && AllMeaningful(events, opOf) && systems[|events|] == sys
  }

  lemma MeaningfulRun(sys: System, initSeq: nat, opOf: string -> string) returns (systems: seq<System>, events: seq<Event>)
    requires ReachableBy(sys, initSeq, opOf)
    ensures GenuineRun(systems, events, initSeq) && AllMeaningful(events, opOf) && |systems| == |events| + 1 && systems[|events|] == sys
    ensures Reachable(sys, initSeq)
  {
    systems, events :| GenuineRun(systems, events, initSeq) && AllMeaningful(events, opOf) && systems[|events|] == sys;
  }

  lemma StartReachable(sys: System, initSeq: nat, opOf: string -> string)
    requires Start(sys, initSeq) && opOf("") == ""
    ensures ReachableBy(sys, initSeq, opOf)
  {
    assert GenuineRun([sys], [], initSeq) && AllMeaningful([], opOf);
  }

  /** The system after one replica's step. */
  ghost function Stepped(sys: System, r: int, s: State): System
    requires 0 <= r < |sys.replicas|
  {
    sys.(replicas := sys.replicas[r := s])
  }

  lemma StepReachable(sys: System, r: int, i: Input, initSeq: nat, opOf: string -> string)
    requires ReachableBy(sys, initSeq, opOf) && sys.cfg.n > 0 && Honest(sys, r) && Proper(sys, i, opOf)
    ensures ReachableBy(Stepped(sys, r, Handle(sys.replicas[r], i, sys.cfg)), initSeq, opOf)
  {
    hide Handle, Start, Meaningful;
    var systems, events := MeaningfulRun(sys, initSeq, opOf);
    var next := Stepped(sys, r, Handle(sys.replicas[r], i, sys.cfg));
    var all, more := systems + [next], events + [Event(r, i)];
    assert Next(sys, next, r, i);
    forall k | 0 <= k < |more|
      ensures all[k].cfg.n > 0 && Next(all[k], all[k + 1], more[k].r, more[k].i) && Genuine(all[k], more[k].i)
    {
      if k < |events| { assert Next(systems[k], systems[k + 1], events[k].r, events[k].i); }
    }
    assert GenuineRun(all, more, initSeq) && AllMeaningful(more, opOf);
  }

  lemma ReachableSound(sys: System, initSeq: nat, opOf: string -> string)
    requires ReachableBy(sys, initSeq, opOf)
    ensures Sound(sys) && OpsSound(sys, opOf)
  {
    var systems, events := MeaningfulRun(sys, initSeq, opOf);
    hide Sound, OpsSound, AllMeaningful;
    RunSound(systems, events, initSeq);
    RunOps(systems, events, initSeq, opOf);
  }

  lemma ProperStays(sys: System, r: int, s: State, i: Input, opOf: string -> string)
    requires 0 <= r < |sys.replicas| && sys.replicas[r].sent <= s.sent && Proper(sys, i, opOf)
    ensures Proper(Stepped(sys, r, s), i, opOf)
  {
    hide Meaningful;
    if i.Deliver? {
      SentStays(sys.replicas[r].sent, s.sent, i.msg);
    }
  }

  /** An honest replica can be handed any messages that are genuine now, one after the other. */
  lemma {:induction false} DeliverAll(sys: System, r: int, inputs: seq<Input>, initSeq: nat, opOf: string -> string)
    requires ReachableBy(sys, initSeq, opOf) && sys.cfg.n > 0 && Honest(sys, r)
    requires forall k :: 0 <= k < |inputs| ==> Proper(sys, inputs[k], opOf)
    ensures var s := Run(sys.replicas[r], inputs, sys.cfg);
            ReachableBy(Stepped(sys, r, s), initSeq, opOf) && Invariant(s, sys.cfg.f) && sys.replicas[r].sent <= s.sent
  {
    hide ReachableBy, Handle, Invariant, Proper, OpsSound;
    if inputs == [] {
      ReachableSound(sys, initSeq, opOf);
      assert ReplicaSound(sys, r);
      assert Stepped(sys, r, sys.replicas[r]) == sys;
    } else {
      var m := |inputs| - 1;
      DeliverAll(sys, r, inputs[..m], initSeq, opOf);
      var s := Run(sys.replicas[r], inputs[..m], sys.cfg);
      ProperStays(sys, r, s, inputs[m], opOf);
      StepReachable(Stepped(sys, r, s), r, inputs[m], initSeq, opOf);
      StepKeeps(s, inputs[m], sys.cfg);
      StepGrows(s, inputs[m], sys.cfg);
      assert Stepped(Stepped(sys, r, s), r, Handle(s, inputs[m], sys.cfg)) == Stepped(sys, r, Handle(s, inputs[m], sys.cfg));
    }
  }

  /** Every replica `r` takes the inputs `inp[r]`. */
  ghost function AdvancedTo(sys: System, inp: seq<seq<Input>>, m: nat): (t: System)
    requires sys.cfg.n > 0 && |inp| == |sys.replicas| && m <= |inp|
    ensures t.cfg == sys.cfg && t.byz == sys.byz && |t.replicas| == |sys.replicas|
    ensures forall r :: 0 <= r < |t.replicas| ==>
              t.replicas[r] == if r < m then Run(sys.replicas[r], inp[r], sys.cfg) else sys.replicas[r]
  {
    sys.(replicas := seq(|sys.replicas|, r requires 0 <= r < |sys.replicas| =>
                           if r < m then Run(sys.replicas[r], inp[r], sys.cfg) else sys.replicas[r]))
  }

  ghost function Advanced(sys: System, inp: seq<seq<Input>>): System
    requires sys.cfg.n > 0 && |inp| == |sys.replicas|
  {
    AdvancedTo(sys, inp, |inp|)
  }

  lemma ProperGrows(sys: System, t: System, i: Input, opOf: string -> string)
    requires t.byz == sys.byz && |t.replicas| == |sys.replicas| && Proper(sys, i, opOf)
    requires forall r :: 0 <= r < |sys.replicas| ==> sys.replicas[r].sent <= t.replicas[r].sent
    ensures Proper(t, i, opOf)
  {
    hide Meaningful;
    if i.Deliver? {
      forall x | SentBy(sys, x, i.msg)
        ensures SentBy(t, x, i.msg)
      {
        SentStays(sys.replicas[x].sent, t.replicas[x].sent, i.msg);
      }
    }
  }

  lemma {:induction false} RunSends(s: State, inputs: seq<Input>, cfg: Config)
    requires cfg.n > 0 && Invariant(s, cfg.f)
    ensures s.sent <= Run(s, inputs, cfg).sent && Invariant(Run(s, inputs, cfg), cfg.f)
  {
    hide Handle, Invariant;
    if inputs != [] {
      var m := |inputs| - 1;
      RunSends(s, inputs[..m], cfg);
      StepGrows(Run(s, inputs[..m], cfg), inputs[m], cfg);
      StepKeeps(Run(s, inputs[..m], cfg), inputs[m], cfg);
    }
  }

  lemma AdvancedSends(sys: System, inp: seq<seq<Input>>, m: nat)
    requires Sound(sys) && |inp| == |sys.replicas| && m <= |inp| && forall r :: 0 <= r < |inp| && r in sys.byz ==> inp[r] == []
    ensures forall x :: 0 <= x < |sys.replicas| ==> sys.replicas[x].sent <= AdvancedTo(sys, inp, m).replicas[x].sent
  {
    hide Run, Invariant;
    forall x | 0 <= x < |sys.replicas|
      ensures sys.replicas[x].sent <= AdvancedTo(sys, inp, m).replicas[x].sent
    {
      if x in sys.byz {
        RunNone(sys.replicas[x], sys.cfg);
      } else {
        assert ReplicaSound(sys, x);
        RunSends(sys.replicas[x], inp[x], sys.cfg);
      }
    }
  }

  /** All honest replicas can move on together on messages that are genuine now. */
  lemma {:induction false} AdvanceTo(sys: System, inp: seq<seq<Input>>, m: nat, initSeq: nat, opOf: string -> string)
    requires ReachableBy(sys, initSeq, opOf) && sys.cfg.n > 0 && |inp| == |sys.replicas| && m <= |inp|
    requires forall r :: 0 <= r < |inp| && r in sys.byz ==> inp[r] == []
    requires forall r, k :: 0 <= r < |inp| && 0 <= k < |inp[r]| ==> Proper(sys, inp[r][k], opOf)
    ensures ReachableBy(AdvancedTo(sys, inp, m), initSeq, opOf)
    decreases m
  {
    hide ReachableBy, Run, Invariant, Proper, OpsSound;
    if m == 0 {
      assert AdvancedTo(sys, inp, 0).replicas == sys.replicas;
    } else {
      var r := m - 1;
      var t := AdvancedTo(sys, inp, r);
      AdvanceTo(sys, inp, r, initSeq, opOf);
      if r in sys.byz {
        RunNone(sys.replicas[r], sys.cfg);
        assert t.replicas == AdvancedTo(sys, inp, m).replicas;
      } else {
        ReachableSound(sys, initSeq, opOf);
        AdvancedSends(sys, inp, r);
        forall k | 0 <= k < |inp[r]|
          ensures Proper(t, inp[r][k], opOf)
        {
          ProperGrows(sys, t, inp[r][k], opOf);
        }
        DeliverAll(t, r, inp[r], initSeq, opOf);
        assert Stepped(t, r, Run(t.replicas[r], inp[r], sys.cfg)).replicas == AdvancedTo(sys, inp, m).replicas;
      }
    }
  }

  lemma Advance(sys: System, inp: seq<seq<Input>>, initSeq: nat, opOf: string -> string)
    requires ReachableBy(sys, initSeq, opOf) && sys.cfg.n > 0 && |inp| == |sys.replicas|
    requires forall r :: 0 <= r < |inp| && r in sys.byz ==> inp[r] == []
    requires forall r, k :: 0 <= r < |inp| && 0 <= k < |inp[r]| ==> Proper(sys, inp[r][k], opOf)
    ensures ReachableBy(Advanced(sys, inp), initSeq, opOf)
  {
    hide ReachableBy, Run, Proper;
    AdvanceTo(sys, inp, |inp|, initSeq, opOf);
  }

  // ---------- a faulty leader and one replica too many ----------

  const SLOT := EntryId(0, 0)

  /** All digests stand for the empty operation the two requests carry. */
  ghost function NoOp(d: string): string {
    ""
  }

  /** What the faulty leader tells replica `r`: one digest to the first half of the honest ones, another to the rest. */
  ghost function Told(r: int, f: nat, d: string, e: string): PrePrepareArgs {
    PrePrepareArgs(0, 0, if r <= 2 * f then d else e, RequestArgs("", 0))
  }

  ghost function AfterTold(r: int, d: string, e: string, cfg: Config): State
    requires cfg.n > 0
  {
    Run(Initial(r, 0), [Deliver(PrePrepareMessage(Told(r, cfg.f, d, e)), ACCEPT)], cfg)
  }

  lemma ToldCollects(r: int, d: string, e: string, cfg: Config)
    requires cfg.n > 0
    ensures var s, pp := AfterTold(r, d, e, cfg), Told(r, cfg.f, d, e);
            Invariant(s, cfg.f) && Collecting(s, SLOT, pp.Digest, {}) && PrepareMessage(Vote(0, 0, pp.Digest, r)) in s.sent && s.id == r
  {
    var s, pp := Initial(r, 0), Told(r, cfg.f, d, e);
    InitialInvariant(r, 0, cfg.f);
    RunOne(s, Deliver(PrePrepareMessage(pp), ACCEPT), cfg);
    StepKeeps(s, Deliver(PrePrepareMessage(pp), ACCEPT), cfg);
    AcceptCollects(s, pp, cfg);
    assert Handle(s, Deliver(PrePrepareMessage(pp), ACCEPT), cfg) == OnPrePrepare(s, pp, ACCEPT, cfg);
    hide Handle, OnPrePrepare, Invariant;
  }

  /** Replicas f to m-1 have been told. */
  ghost function Scene(m: nat, d: string, e: string, cfg: Config): (sys: System)
    requires cfg.n > 0
    ensures sys.cfg == cfg && |sys.replicas| == cfg.n && sys.byz == Ids(cfg.f)
    ensures forall r :: 0 <= r < cfg.n ==> sys.replicas[r] == if cfg.f <= r < m then AfterTold(r, d, e, cfg) else Initial(r, 0)
  {
    System(cfg, Ids(cfg.f), seq(cfg.n, r => if cfg.f <= r < m then AfterTold(r, d, e, cfg) else Initial(r, 0)))
  }

  lemma {:induction false} SceneReachable(m: nat, d: string, e: string, cfg: Config)
    requires cfg.n > 0 && 1 <= cfg.f <= m <= cfg.n
    ensures ReachableBy(Scene(m, d, e, cfg), 0, NoOp)
  {
    hide Run, Initial, Invariant;
    if m == cfg.f {
      StartReachable(Scene(m, d, e, cfg), 0, NoOp);
    } else {
      var r := m - 1;
      var before := Scene(r, d, e, cfg);
      SceneReachable(r, d, e, cfg);
      var i := Deliver(PrePrepareMessage(Told(r, cfg.f, d, e)), ACCEPT);
      assert Proper(before, i, NoOp);
      DeliverAll(before, r, [i], 0, NoOp);
      assert Stepped(before, r, AfterTold(r, d, e, cfg)) == Scene(m, d, e, cfg);
    }
  }

  /** The faulty replicas and one half of the honest ones: replicas 0 to f-1 and `from` to `from + f`. */
  ghost function Half(f: nat, from: nat): (xs: seq<int>)
    ensures |xs| == 2 * f + 1 && forall k :: 0 <= k < |xs| ==> xs[k] == if k < f then k else from + k - f
  {
    seq(2 * f + 1, k => if k < f then k else from + k - f)
  }

  /** Hearing its half's prepares, a replica commits to what the leader told that half. */
  lemma HalfCommits(sys: System, from: nat, d: string, e: string)
    requires var cfg := sys.cfg;
             && 1 <= cfg.f && cfg.n >= 3 * cfg.f + 2 && (from == cfg.f || from == 2 * cfg.f + 1)
             && sys.byz == Ids(cfg.f) && ReachableBy(sys, 0, NoOp) && |sys.replicas| == cfg.n
             && (forall r :: from <= r <= from + cfg.f ==> sys.replicas[r] == AfterTold(r, d, e, cfg))
    ensures var cfg, xs, told := sys.cfg, Half(sys.cfg.f, from), Told(from, sys.cfg.f, d, e).Digest;
            var s := Run(sys.replicas[from], Prepares(SLOT, told, xs), cfg);
            && ReachableBy(Stepped(sys, from, s), 0, NoOp)
            && CommitMessage(Vote(0, 0, told, from)) in s.sent
  {
    var cfg, xs, told := sys.cfg, Half(sys.cfg.f, from), Told(from, sys.cfg.f, d, e).Digest;
    var inputs := Prepares(SLOT, told, xs);
    hide Run, Invariant, ReachableBy, AfterTold, Collecting, Senders;
    forall k | 0 <= k < |inputs|
      ensures Proper(sys, inputs[k], NoOp)
    {
      if k >= cfg.f { ToldCollects(xs[k], d, e, cfg); }
    }
    DeliverAll(sys, from, inputs, 0, NoOp);
    ToldCollects(from, d, e, cfg);
    DistinctSenders(xs);
    assert {} + Senders(xs) == Senders(xs);
    PreparesCollected(sys.replicas[from], SLOT, told, xs, {}, cfg);
    CommittedSent(Run(sys.replicas[from], inputs, cfg), told, Senders(xs), cfg);
  }

  lemma CommittedSent(s: State, d: string, got: set<int>, cfg: Config)
    requires Invariant(s, cfg.f) && Collecting(s, SLOT, d, got) && s.log[SLOT].sendCommit
    ensures CommitMessage(Vote(0, 0, d, s.id)) in s.sent
  {
    assert EntryRecorded(s, SLOT, s.log[SLOT]);
  }

  /** Two honest replicas have sent commits with different digests for one view and number. */
  ghost predicate Split(sys: System, a: Vote, b: Vote) {
    && Honest(sys, a.Rid) && CommitMessage(a) in sys.replicas[a.Rid].sent
    && Honest(sys, b.Rid) && CommitMessage(b) in sys.replicas[b.Rid].sent
    && a.View == b.View && a.Seq == b.Seq && a.Digest != b.Digest
  }

  /**
   The bound is needed: from 3f+2 replicas on, with f of them faulty, among them the first leader,
   there is a run of authentic messages in which two honest replicas commit to different digests.
   */
  lemma BoundNeeded(d: string, e: string, cfg: Config)
    requires cfg.f >= 1 && cfg.n >= 3 * cfg.f + 2 && d != e
    ensures exists sys: System, a, b :: Reachable(sys, 0) && sys.cfg == cfg && sys.byz == Ids(cfg.f) && Split(sys, a, b)
  {
    var f := cfg.f;
    var s0 := Scene(3 * f + 2, d, e, cfg);
    SceneReachable(3 * f + 2, d, e, cfg);
    assert Told(f, f, d, e).Digest == d && Told(2 * f + 1, f, d, e).Digest == e;
    hide Run, Reachable, ReachableBy, AfterTold, Initial, Told, Scene, Prepares, Half;
    HalfCommits(s0, f, d, e);
    var x := Run(s0.replicas[f], Prepares(SLOT, d, Half(f, f)), cfg);
    var s1 := Stepped(s0, f, x);
    HalfCommits(s1, 2 * f + 1, d, e);
    var y := Run(s1.replicas[2 * f + 1], Prepares(SLOT, e, Half(f, 2 * f + 1)), cfg);
    SplitUp(s0, f, 2 * f + 1, x, y, Vote(0, 0, d, f), Vote(0, 0, e, 2 * f + 1));
    var _, _ := MeaningfulRun(Stepped(s1, 2 * f + 1, y), 0, NoOp);
  }

  lemma SplitUp(sys: System, i: nat, j: nat, x: State, y: State, a: Vote, b: Vote)
    requires i < |sys.replicas| && j < |sys.replicas| && i != j && i !in sys.byz && j !in sys.byz
    requires a.Rid == i && CommitMessage(a) in x.sent && b.Rid == j && CommitMessage(b) in y.sent
    requires a.View == b.View && a.Seq == b.Seq && a.Digest != b.Digest
    ensures Split(Stepped(Stepped(sys, i, x), j, y), a, b)
  {
  }

  /** In no run with at most f faulty replicas do two honest commits for one slot differ. */
  ghost predicate InViewAgreement(cfg: Config) {
    forall sys: System, initSeq, a, b ::
      Reachable(sys, initSeq) && sys.cfg == cfg && |sys.byz| <= cfg.f ==> !Split(sys, a, b)
  }

  lemma RunTo(sys: System, initSeq: nat) returns (systems: seq<System>, events: seq<Event>)
    requires Reachable(sys, initSeq)
    ensures IsRun(systems, events, initSeq) && |systems| == |events| + 1 && systems[|events|] == sys
  {
    systems, events :| GenuineRun(systems, events, initSeq) && systems[|events|] == sys;
  }

  /** Agreement within a view holds over all runs exactly up to 3f+1 replicas. */
  lemma AgreementExactly(cfg: Config)
    requires cfg.f >= 1
    ensures InViewAgreement(cfg) <==> cfg.n <= 3 * cfg.f + 1
  {
    hide IsRun, Genuine, Sound;
    if cfg.n <= 3 * cfg.f + 1 {
      forall sys: System, initSeq, a, b | Reachable(sys, initSeq) && sys.cfg == cfg && |sys.byz| <= cfg.f
        ensures !Split(sys, a, b)
      {
        var systems, events := RunTo(sys, initSeq);
        if Split(sys, a, b) {
          CommitsAgree(systems, events, initSeq, a, b);
        }
      }
    } else {
      BoundNeeded("0", "1", cfg);
    }
  }
}
