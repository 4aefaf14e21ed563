/**
 What one replica executes and answers: only requests whose commit it has sent, with the digest it
 committed to.  If digests determine operations, an answer carries the operation of its digest.
 */
module ReplicaReplies {
  import opened Collections
  import opened Replica
  import opened ReplicaOrder
  import opened ReplicaVotes
  import opened ReplicaGrowth

  ghost predicate CommitOut(s: State, v: int, n: int, d: string) {
    CommitMessage(Vote(v, n, d, s.id)) in s.sent
  }

  ghost predicate AnswerBacked(s: State, r: ResponseArgs) {
    r.Rid == s.id && CommitOut(s, r.View, r.Seq, r.Auxiliary)
  }

  /** Whatever is queued, executed or answered was committed to. */
  ghost predicate Told(s: State, f: nat) {
    && (forall k :: 0 <= k < |s.queue| ==> CommitOut(s, s.queue[k].View, s.queue[k].Seq, s.queue[k].Digest))
    && (forall k :: 0 <= k < |s.executed| ==> CommitOut(s, s.executed[k].View, s.executed[k].Seq, s.executed[k].Digest))
    && (forall k :: 0 <= k < |s.queue| ==> Backed(s.confirmed, s.queue[k].View, s.queue[k].Seq, s.queue[k].Digest, f))
    && (forall k :: 0 <= k < |s.executed| ==> Backed(s.confirmed, s.executed[k].View, s.executed[k].Seq, s.executed[k].Digest, f))
    && (forall r :: ResponseMessage(r) in s.sent ==> AnswerBacked(s, r))
    && (forall id :: id in s.log && s.log[id].r.Some? ==> ResponseMessage(s.log[id].r.value) in s.sent)
  }

  ghost predicate ReportKnown(P: seq<Pm>, opOf: string -> string) {
    forall k :: 0 <= k < |P| ==> P[k].PP.Message.Op == opOf(P[k].PP.Digest)
  }

  ghost predicate ReportsKnown(V: seq<ViewChangeArgs>, opOf: string -> string) {
    forall k :: 0 <= k < |V| ==> ReportKnown(V[k].P, opOf)
  }

  /** Every stored pre-prepare, reported or not, and every answer carries the operation its digest stands for. */
  ghost predicate OpsKnown(s: State, opOf: string -> string) {
    && (forall id :: id in s.log && s.log[id].pp.Some? ==> s.log[id].pp.value.Message.Op == opOf(s.log[id].pp.value.Digest))
    && (forall r :: ResponseMessage(r) in s.sent ==> r.Res == opOf(r.Auxiliary))
    && (forall v :: v in s.vcs ==> ReportsKnown(s.vcs[v], opOf))
  }

  // ---------- replying and draining ----------

  lemma ReplyTold(s: State, t: Vote, opOf: string -> string, f: nat)
    requires Told(s, f) && TaskReady(s.log, t) && CommitOut(s, t.View, t.Seq, t.Digest)
    ensures Told(ReplyTask(s, t), f) && (OpsKnown(s, opOf) ==> OpsKnown(ReplyTask(s, t), opOf))
  {
    var r := ReplyTask(s, t);
    assert forall m :: m in r.sent <==> m in s.sent || m == r.sent[|s.sent|];
    assert r.sent[|s.sent|].ResponseMessage?;
  }

  lemma {:induction false} DrainTold(s: State, q: seq<Vote>, limit: int, opOf: string -> string, f: nat)
    requires s.queue == q && Told(s, f) && Sorted(q) && forall k :: 0 <= k < |q| ==> TaskReady(s.log, q[k])
    ensures Told(Drain(s, limit, |q|), f) && (OpsKnown(s, opOf) ==> OpsKnown(Drain(s, limit, |q|), opOf))
    decreases |q|
  {
    if q != [] && q[0].Seq <= limit {
      DrainOne(s);
      var s1 := s.(queue := q[1..]);
      assert Told(s1, f) && (OpsKnown(s, opOf) ==> OpsKnown(s1, opOf));
      hide Told, OpsKnown, ReplyTask, Sorted;
      ToldCommit(s, f);
      ReplyTold(s1, q[0], opOf, f);
      DrainTold(ReplyTask(s1, q[0]), q[1..], limit, opOf, f);
    }
  }

  lemma ToldCommit(s: State, f: nat)
    requires Told(s, f) && s.queue != []
    ensures CommitOut(s, s.queue[0].View, s.queue[0].Seq, s.queue[0].Digest)
  {
  }

  // ---------- steps that only cut, or touch other fields ----------

  /** The log may lose entries and gain empty ones; what was sent grows by messages that are not answers. */
  ghost predicate SameAnswers(s: State, r: State) {
    && r.id == s.id && r.queue == s.queue && r.executed == s.executed && s.sent <= r.sent && s.confirmed <= r.confirmed
    && (forall k :: |s.sent| <= k < |r.sent| ==> !r.sent[k].ResponseMessage?)
    && (forall id :: id in r.log && r.log[id].r.Some? ==> id in s.log && r.log[id].r == s.log[id].r)
  }

  ghost predicate SamePrePrepares(s: State, r: State) {
    && (forall id :: id in r.log && r.log[id].pp.Some? ==> id in s.log && r.log[id].pp == s.log[id].pp)
    && (forall v :: v in r.vcs ==> v in s.vcs && r.vcs[v] == s.vcs[v])
  }

  lemma SameAnswersTold(s: State, r: State, opOf: string -> string, f: nat)
    requires Told(s, f) && SameAnswers(s, r)
    ensures Told(r, f) && (OpsKnown(s, opOf) && SamePrePrepares(s, r) ==> OpsKnown(r, opOf))
  {
    forall m | m in s.sent
      ensures m in r.sent
    {
      SentStays(s.sent, r.sent, m);
    }
    forall v, n, d | Backed(s.confirmed, v, n, d, f)
      ensures Backed(r.confirmed, v, n, d, f)
    {
      SubsetSize(Supporters(s.confirmed, v, n, d), Supporters(r.confirmed, v, n, d));
    }
    forall x | ResponseMessage(x) in r.sent
      ensures ResponseMessage(x) in s.sent
    {
      var k :| 0 <= k < |r.sent| && r.sent[k] == ResponseMessage(x);
      assert s.sent[k] == r.sent[k];
    }
  }

  lemma StabilizeTold(s: State, key: int, proof: CheckPointArgs, opOf: string -> string, f: nat)
    requires AboutToStabilize(s, key) && QueueOrdered(s) && Told(s, f)
    ensures Told(Stabilize(s, key, proof), f) && (OpsKnown(s, opOf) ==> OpsKnown(Stabilize(s, key, proof), opOf))
  {
    StagedTold(s, key, proof, opOf, f);
    var t := Staged(s, key, proof);
    var d := Drain(t, key, |s.queue|);
    StabilizedShape(s, key, proof);
    hide Drain, Told, OpsKnown, Staged, Stabilize;
    DrainTold(t, s.queue, key, opOf, f);
    CutTold(d, Stabilize(s, key, proof), key, opOf, f);
  }

  lemma StagedTold(s: State, key: int, proof: CheckPointArgs, opOf: string -> string, f: nat)
    requires key in s.cps && QueueOrdered(s) && Told(s, f)
    ensures var t := Staged(s, key, proof);
            && Told(t, f) && (OpsKnown(s, opOf) ==> OpsKnown(t, opOf))
            && t.queue == s.queue && Sorted(t.queue) && forall k :: 0 <= k < |t.queue| ==> TaskReady(t.log, t.queue[k])
  {
    hide Told, OpsKnown;
    SameAnswersTold(s, Staged(s, key, proof), opOf, f);
  }

  lemma CutTold(d: State, r: State, key: int, opOf: string -> string, f: nat)
    requires Told(d, f)
    requires r == d.(log := LogFrom(d.log, key), cps := r.cps, seqmap := r.seqmap, state := r.state, h := r.h, H := r.H, lastcp := key)
    ensures Told(r, f) && (OpsKnown(d, opOf) ==> OpsKnown(r, opOf))
  {
    hide Told, OpsKnown;
    SameAnswersTold(d, r, opOf, f);
  }

  lemma SettleTold(s: State, n: int, cfg: Config, opOf: string -> string, f: nat)
    requires AboutToStabilize(s, n) && QueueOrdered(s) && Told(s, f)
    ensures Told(Settle(s, n, cfg), f) && (OpsKnown(s, opOf) ==> OpsKnown(Settle(s, n, cfg), opOf))
  {
    hide Stabilize, Told, OpsKnown;
    var agreed := FirstAgreed(s.cps[n].Proof, cfg.f, 0);
    if agreed.Some? {
      StabilizeTold(s, n, agreed.value, opOf, f);
    }
  }

  lemma CheckPointTold(s: State, a: CheckPointArgs, cfg: Config, opOf: string -> string, f: nat)
    requires Ordered(s) && Told(s, f)
    ensures Told(OnCheckPoint(s, a, cfg), f) && (OpsKnown(s, opOf) ==> OpsKnown(OnCheckPoint(s, a, cfg), opOf))
  {
    hide Told, OpsKnown, Settle;
    if a.Seq % CHECKPOINT_DIV == 0 && !Superseded(s.cps, a.Seq) {
      OpenCheckPoint(s, a.Seq, cfg);
      var s1 := WithCheckPoint(s, a.Seq, cfg);
      SameAnswersTold(s, s1, opOf, f);
      if !s1.cps[a.Seq].Stable {
        AnnounceKeeps(s1, a);
        SameAnswersTold(s1, Announce(s1, a), opOf, f);
        SettleTold(Announce(s1, a), a.Seq, cfg, opOf, f);
      }
    }
  }

  lemma StartTold(s: State, n: int, cfg: Config, opOf: string -> string, f: nat)
    requires Ordered(s) && Told(s, f) && n > s.lastcp
    ensures Told(StartCheckPoint(s, n, cfg), f) && (OpsKnown(s, opOf) ==> OpsKnown(StartCheckPoint(s, n, cfg), opOf))
  {
    if !Superseded(s.cps, n) {
      OpenOwnKeeps(s, n, cfg);
      var s1 := OpenOwn(s, n, cfg);
      var a := CheckPointArgs(n, s1.cps[n].Digest, s1.id, s1.view);
      var s2 := Send(s1, CheckPointMessage(a));
      AnnouncementQuiet(s, s2, CheckPointMessage(a));
      SendKeepsCheckPoints(s1, CheckPointMessage(a));
      SameAnswersTold(s, s2, opOf, f);
      hide Told, OpsKnown, OnCheckPoint, Ordered;
      CheckPointTold(s2, a, cfg, opOf, f);
    }
  }

  lemma ApplyTold(s: State, opOf: string -> string, f: nat)
    requires Ordered(s) && Told(s, f) && s.queue != []
    ensures Told(ApplyNext(s), f) && (OpsKnown(s, opOf) ==> OpsKnown(ApplyNext(s), opOf))
  {
    TakeShape(s);
    var s1, m := TakeNext(s), s.queue[0];
    ToldCommit(s, f);
    assert Told(s1, f) && (OpsKnown(s, opOf) ==> OpsKnown(s1, opOf));
    assert TaskReady(s.log, m);
    hide Told, OpsKnown, ReplyTask, TakeNext;
    ReplyTold(s1, m, opOf, f);
  }

  lemma {:induction false} RunQueueTold(s: State, fuel: nat, cfg: Config, opOf: string -> string, f: nat)
    requires Ordered(s) && Told(s, f) && !s.panic
    ensures Told(RunQueue(s, fuel, cfg), f) && (OpsKnown(s, opOf) ==> OpsKnown(RunQueue(s, fuel, cfg), opOf))
    decreases fuel
  {
    hide Told, OpsKnown, CheckPointsOrdered, ExecutedInOrder, StartCheckPoint, ApplyNext;
    if fuel != 0 && s.queue != [] && s.apply + 1 == s.queue[0].Seq {
      ApplyKeeps(s);
      ApplyTold(s, opOf, f);
      NextAboveStable(s);
      var s1 := ApplyNext(s);
      var s2 := s1;
      if s1.apply % CHECKPOINT_DIV == 0 {
        StartKeeps(s1, s1.apply, cfg);
        StartTold(s1, s1.apply, cfg, opOf, f);
        s2 := StartCheckPoint(s1, s1.apply, cfg);
      }
      RunQueueTold(s2, fuel - 1, cfg, opOf, f);
    } else {
      assert QueueOrdered(s);
    }
  }

  /** Any change of one entry that leaves its pre-prepare and answer alone. */
  lemma TouchTold(s: State, id: EntryId, e: Entry, opOf: string -> string, f: nat)
    requires Told(s, f) && e.pp == At(s, id).pp && e.r == At(s, id).r
    ensures Told(Put(s, id, e), f) && (OpsKnown(s, opOf) ==> OpsKnown(Put(s, id, e), opOf))
  {
    SameAnswersTold(s, Put(s, id, e), opOf, f);
  }

  lemma InsertTold(s: State, a: Vote, opOf: string -> string, f: nat)
    requires Sorted(s.queue) && Told(s, f) && CommitOut(s, a.View, a.Seq, a.Digest) && !Queued(s.queue, a.Seq)
    requires Backed(s.confirmed, a.View, a.Seq, a.Digest, f)
    ensures var r := s.(queue := InsertTask(s.queue, a)); Told(r, f) && (OpsKnown(s, opOf) ==> OpsKnown(r, opOf))
  {
    InsertSorted(s.queue, a);
    hide Backed;
    var r := s.(queue := InsertTask(s.queue, a));
    forall k | 0 <= k < |r.queue|
      ensures CommitOut(r, r.queue[k].View, r.queue[k].Seq, r.queue[k].Digest)
      ensures Backed(r.confirmed, r.queue[k].View, r.queue[k].Seq, r.queue[k].Digest, f)
    {
      assert r.queue[k] in r.queue;
      if r.queue[k] in s.queue {
        var i :| 0 <= i < |s.queue| && s.queue[i] == r.queue[k];
      }
    }
  }

  lemma QueueGrowsTold(s: State, a: Vote, opOf: string -> string, f: nat)
    requires Ordered(s) && Told(s, f) && Executable(s, a) && LogRecorded(s) && a.Seq > s.apply && !Queued(s.queue, a.Seq)
    requires Backed(s.confirmed, a.View, a.Seq, a.Digest, f)
    ensures var id := EntryId(a.View, a.Seq);
            var r := Put(s.(queue := InsertTask(s.queue, a)), id, At(s, id).(sendReply := true));
            Told(r, f) && (OpsKnown(s, opOf) ==> OpsKnown(r, opOf))
  {
    var id := EntryId(a.View, a.Seq);
    assert EntryRecorded(s, id, s.log[id]);
    hide Told, OpsKnown, InsertTask, Sorted, Backed;
    InsertTold(s, a, opOf, f);
    TouchTold(s.(queue := InsertTask(s.queue, a)), id, At(s, id).(sendReply := true), opOf, f);
  }

  lemma ExecuteTold(s: State, a: Vote, cfg: Config, opOf: string -> string, f: nat)
    requires Ordered(s) && Told(s, f) && Executable(s, a) && LogRecorded(s) && !s.panic
    requires Backed(s.confirmed, a.View, a.Seq, a.Digest, f)
    ensures Told(Execute(s, a, cfg), f) && (OpsKnown(s, opOf) ==> OpsKnown(Execute(s, a, cfg), opOf))
  {
    SameAnswersTold(s, s.(panic := true), opOf, f);
    if a.Seq > s.apply && !Queued(s.queue, a.Seq) {
      QueueGrows(s, a);
      QueueGrowsTold(s, a, opOf, f);
      hide Told, OpsKnown, Ordered, InsertTask, RunQueue, Queued;
      var id := EntryId(a.View, a.Seq);
      var s1 := Put(s.(queue := InsertTask(s.queue, a)), id, At(s, id).(sendReply := true));
      RunQueueTold(s1, |s1.queue|, cfg, opOf, f);
    }
  }

  // ---------- the handlers ----------

  lemma StopTold(s: State, opOf: string -> string, f: nat)
    requires Told(s, f)
    ensures Told(StopTimer(s), f) && (OpsKnown(s, opOf) ==> OpsKnown(StopTimer(s), opOf))
  {
    SameAnswersTold(s, StopTimer(s), opOf, f);
  }

  /** A commit quorum on an entry is a quorum of commits heard. */
  lemma EnoughCommitters(s: State, id: EntryId, f: nat)
    requires LogRecorded(s) && id in s.log && s.log[id].pp.Some? && Committed(s.log[id], f)
    ensures Backed(s.confirmed, id.v, id.n, s.log[id].pp.value.Digest, f)
  {
    var e := s.log[id];
    assert EntryRecorded(s, id, e);
    EnoughVoters(e.(p := e.c), s.confirmed, f);
  }

  lemma CommitTold(s: State, a: Vote, cfg: Config, opOf: string -> string, f: nat)
    requires Invariant(s, cfg.f) && Told(s, f) && !s.panic && f == cfg.f
    ensures Told(OnCommit(s, a, cfg), f) && (OpsKnown(s, opOf) ==> OpsKnown(OnCommit(s, a, cfg), opOf))
  {
    hide Execute, Committed, Told, OpsKnown, Invariant;
    var s1, id := StopTimer(s), EntryId(a.View, a.Seq);
    var e := At(s1, id);
    StopKeeps(s, cfg.f);
    StopTold(s, opOf, f);
    ConfirmedKeeps(s1, a, cfg.f);
    var s0 := s1.(confirmed := s1.confirmed + {a});
    TouchKeeps(s0, id, e.(c := e.c + [a]), cfg.f);
    var s2 := Put(s0, id, e.(c := e.c + [a]));
    SameAnswersTold(s1, s0, opOf, f);
    TouchTold(s1, id, e, opOf, f);
    TouchTold(s0, id, e.(c := e.c + [a]), opOf, f);
    if Executable(s2, a) && Committed(s2.log[id], cfg.f) {
      RecordedPart(s2, cfg.f);
      EnoughCommitters(s2, id, cfg.f);
      ExecutionTold(s2, a, cfg, opOf, f);
    }
  }

  lemma ExecutionTold(s: State, a: Vote, cfg: Config, opOf: string -> string, f: nat)
    requires Invariant(s, cfg.f) && Told(s, f) && Executable(s, a) && !s.panic
    requires Backed(s.confirmed, a.View, a.Seq, a.Digest, f)
    ensures Told(Execute(s, a, cfg), f) && (OpsKnown(s, opOf) ==> OpsKnown(Execute(s, a, cfg), opOf))
  {
    RecordedPart(s, cfg.f);
    hide Execute, Told, OpsKnown, Ordered, Votes;
    ExecuteTold(s, a, cfg, opOf, f);
  }

  lemma SendCommitTold(s: State, id: EntryId, cfg: Config, opOf: string -> string, f: nat)
    requires LogRecorded(s) && Told(s, f) && id in s.log && s.log[id].pp.Some? && !s.log[id].sendCommit
    requires !s.changing && InWindow(s, id.v, id.n)
    ensures Told(SendCommit(s, id, cfg), f) && (OpsKnown(s, opOf) ==> OpsKnown(SendCommit(s, id, cfg), opOf))
  {
    hide SendCommit, Told, OpsKnown;
    assert EntryRecorded(s, id, s.log[id]);
    OwnCommitOnlyRecorded(s, id, cfg);
    var r := SendCommit(s, id, cfg);
    SameAnswersTold(s, r, opOf, f);
  }

  lemma PrepareTold(s: State, a: Vote, aux: Aux, cfg: Config, opOf: string -> string, f: nat)
    requires Invariant(s, cfg.f) && Told(s, f)
    ensures Told(OnPrepare(s, a, aux, cfg), f) && (OpsKnown(s, opOf) ==> OpsKnown(OnPrepare(s, a, aux, cfg), opOf))
  {
    hide SendCommit, Prepared, Invariant, Told, OpsKnown;
    var s1, id := StopTimer(s), EntryId(a.View, a.Seq);
    var e := At(s1, id);
    StopKeeps(s, cfg.f);
    StopTold(s, opOf, f);
    TouchTold(s1, id, e, opOf, f);
    HeardKeeps(s1, a, cfg.f);
    HeardTold(s1, a, opOf, f);
    RecordPrepare(s1.(heard := s1.heard + {a}), a, cfg.f);
    TouchTold(s1.(heard := s1.heard + {a}), id, e.(p := e.p + [a]), opOf, f);
    var s2 := Put(s1.(heard := s1.heard + {a}), id, e.(p := e.p + [a]));
    if e.pp.Some? && !e.sendCommit && !s2.changing && InWindow(s2, id.v, id.n) {
      RecordedPart(s2, cfg.f);
      SendCommitTold(s2, id, cfg, opOf, f);
    }
  }

  lemma HeardTold(s: State, a: Vote, opOf: string -> string, f: nat)
    requires Told(s, f)
    ensures Told(s.(heard := s.heard + {a}), f) && (OpsKnown(s, opOf) ==> OpsKnown(s.(heard := s.heard + {a}), opOf))
  {
    SameAnswersTold(s, s.(heard := s.heard + {a}), opOf, f);
  }

  lemma AcceptTold(s: State, a: PrePrepareArgs, opOf: string -> string, f: nat)
    requires Told(s, f)
    ensures Told(Accepted(s, a), f) && (OpsKnown(s, opOf) && a.Message.Op == opOf(a.Digest) ==> OpsKnown(Accepted(s, a), opOf))
  {
    var r := Accepted(s, a);
    SameAnswersTold(s, r, opOf, f);
    forall x | ResponseMessage(x) in r.sent
      ensures ResponseMessage(x) in s.sent
    {
    }
  }

  lemma PrePrepareTold(s: State, a: PrePrepareArgs, aux: Aux, cfg: Config, opOf: string -> string, f: nat)
    requires Invariant(s, cfg.f) && Told(s, f)
    ensures var r := OnPrePrepare(s, a, aux, cfg);
            Told(r, f) && (OpsKnown(s, opOf) && a.Message.Op == opOf(a.Digest) ==> OpsKnown(r, opOf))
  {
    hide Invariant, OnPrepare, Told, OpsKnown;
    StopKeeps(s, cfg.f);
    var s1, id := StopTimer(s), EntryId(a.View, a.Seq);
    StopTold(s, opOf, f);
    TouchTold(s1, id, At(s1, id), opOf, f);
    if InWindow(s1, a.View, a.Seq) && Acceptable(s1, a) {
      AcceptKeeps(s1, a, cfg.f);
      AcceptTold(s1, a, opOf, f);
      PrepareTold(Accepted(s1, a), Vote(a.View, a.Seq, a.Digest, s.id), aux, cfg, opOf, f);
    }
  }

  lemma AcceptKeeps(s: State, a: PrePrepareArgs, f: nat)
    requires Invariant(s, f) && Acceptable(s, a) && InWindow(s, a.View, a.Seq)
    ensures Invariant(Accepted(s, a), f)
  {
    AcceptOrder(s, a);
    AcceptVotes(s, a, f);
  }

  lemma RequestTold(s: State, args: RequestArgs, aux: Aux, cfg: Config, opOf: string -> string, f: nat)
    requires Invariant(s, cfg.f) && Told(s, f) && cfg.n > 0
    ensures var r := OnRequest(s, args, aux, cfg);
            Told(r, f) && (OpsKnown(s, opOf) && (aux.auxiliary.Some? ==> args.Op == opOf(aux.auxiliary.value)) ==> OpsKnown(r, opOf))
  {
    hide Invariant, OnPrePrepare, Told, OpsKnown;
    if s.changing {
    } else if s.view % cfg.n == s.id {
      if args.Op !in s.seqmap {
        if s.tSeq < s.H && aux.auxiliary.Some? {
          var pp := PrePrepareArgs(s.view, s.tSeq, aux.auxiliary.value, args);
          var s1 := Send(s.(seqmap := s.seqmap[args.Op := s.tSeq], tSeq := s.tSeq + 1), PrePrepareMessage(pp));
          OtherSent(s, s1, PrePrepareMessage(pp), cfg.f);
          SameAnswersTold(s, s1, opOf, f);
          PrePrepareTold(s1, pp, aux, cfg, opOf, f);
        }
      } else {
        RepeatTold(s, args, aux, cfg, opOf, f);
      }
    } else if !s.monitor {
      SameAnswersTold(s, OnRequest(s, args, aux, cfg), opOf, f);
    }
  }

  lemma RepeatTold(s: State, args: RequestArgs, aux: Aux, cfg: Config, opOf: string -> string, f: nat)
    requires Invariant(s, cfg.f) && Told(s, f) && args.Op in s.seqmap
    ensures var r := OnRequestLeader(s, args, aux, cfg); Told(r, f) && (OpsKnown(s, opOf) ==> OpsKnown(r, opOf))
  {
    var id := EntryId(s.view, s.seqmap[args.Op]);
    StoredParts(s, id, opOf, f);
    hide Invariant, OnPrePrepare, Told, OpsKnown;
    var e := At(s, id);
    var s1 := Put(s, id, e);
    TouchTold(s, id, e, opOf, f);
    TouchKeeps(s, id, e, cfg.f);
    if e.pp.Some? {
      RestartTold(s1, e.pp.value, aux, cfg, opOf, f);
    }
    if e.r.Some? {
      ResendTold(s1, e.r.value, opOf, f);
    }
  }

  lemma StoredParts(s: State, id: EntryId, opOf: string -> string, f: nat)
    requires Told(s, f)
    ensures At(s, id).r.Some? ==> ResponseMessage(At(s, id).r.value) in s.sent
    ensures OpsKnown(s, opOf) && At(s, id).pp.Some? ==> At(s, id).pp.value.Message.Op == opOf(At(s, id).pp.value.Digest)
  {
  }

  lemma RestartTold(s: State, pp: PrePrepareArgs, aux: Aux, cfg: Config, opOf: string -> string, f: nat)
    requires Invariant(s, cfg.f) && Told(s, f)
    ensures var r := OnPrePrepare(Send(s, PrePrepareMessage(pp)), pp, aux, cfg);
            Told(r, f) && (OpsKnown(s, opOf) && pp.Message.Op == opOf(pp.Digest) ==> OpsKnown(r, opOf))
  {
    hide Invariant, OnPrePrepare, Told, OpsKnown;
    var s1 := Send(s, PrePrepareMessage(pp));
    OtherSent(s, s1, PrePrepareMessage(pp), cfg.f);
    SameAnswersTold(s, s1, opOf, f);
    PrePrepareTold(s1, pp, aux, cfg, opOf, f);
  }

  lemma ResendTold(s: State, r: ResponseArgs, opOf: string -> string, f: nat)
    requires Told(s, f) && ResponseMessage(r) in s.sent
    ensures Told(Send(s, ResponseMessage(r)), f) && (OpsKnown(s, opOf) ==> OpsKnown(Send(s, ResponseMessage(r)), opOf))
  {
    var t := Send(s, ResponseMessage(r));
    assert forall m :: m in t.sent <==> m in s.sent;
  }

  // ---------- entering a view ----------

  lemma {:induction false} CollectKnown(P: seq<Pm>, m: map<int, PrePrepareArgs>, opOf: string -> string)
    requires ReportKnown(P, opOf) && forall n :: n in m ==> m[n].Message.Op == opOf(m[n].Digest)
    ensures forall n :: n in CollectReport(P, m) ==> CollectReport(P, m)[n].Message.Op == opOf(CollectReport(P, m)[n].Digest)
  {
    if P != [] {
      CollectKnown(P[..|P| - 1], m, opOf);
    }
  }

  lemma {:induction false} PPreparedKnown(V: seq<ViewChangeArgs>, opOf: string -> string)
    requires ReportsKnown(V, opOf)
    ensures forall n :: n in PPrepared(V) ==> PPrepared(V)[n].Message.Op == opOf(PPrepared(V)[n].Digest)
  {
    if V != [] {
      PPreparedKnown(V[..|V| - 1], opOf);
      CollectKnown(V[|V| - 1].P, PPrepared(V[..|V| - 1]), opOf);
    }
  }

  lemma {:induction false} SlotKnown(pps: seq<PrePrepareArgs>, n: int, opOf: string -> string)
    requires forall k :: 0 <= k < |pps| ==> pps[k].Message.Op == opOf(pps[k].Digest)
    ensures SlotAt(pps, n).Some? ==> SlotAt(pps, n).value.Message.Op == opOf(SlotAt(pps, n).value.Digest)
  {
    if pps != [] {
      SlotKnown(pps[..|pps| - 1], n, opOf);
    }
  }

  /** The slots of a new view carry their digests' operations if the reports do and the empty digest stands for no operation. */
  lemma SlotsKnown(view: int, V: seq<ViewChangeArgs>, n: int, opOf: string -> string)
    requires ReportsKnown(V, opOf) && opOf("") == ""
    ensures var pps := NewViewSlots(view, V);
            SlotAt(pps, n).Some? ==> SlotAt(pps, n).value.Message.Op == opOf(SlotAt(pps, n).value.Digest)
  {
    PPreparedKnown(V, opOf);
    SlotKnown(NewViewSlots(view, V), n, opOf);
  }

  lemma TakeOverTold(s: State, view: int, V: seq<ViewChangeArgs>, opOf: string -> string, f: nat)
    requires Told(s, f)
    ensures var r := TakeOver(s, view, V);
            Told(r, f) && (OpsKnown(s, opOf) && ReportsKnown(V, opOf) && opOf("") == "" ==> OpsKnown(r, opOf))
  {
    var r, pps := TakeOver(s, view, V), NewViewSlots(view, V);
    InstallKeeps(s.(tSeq := MaxS(V) + 1), view, pps);
    hide NewViewSlots, InstallSlots, Told, SlotAt, ReportsKnown;
    SameAnswersTold(s, r, opOf, f);
    if OpsKnown(s, opOf) && ReportsKnown(V, opOf) && opOf("") == "" {
      forall id | id in r.log && r.log[id].pp.Some?
        ensures r.log[id].pp.value.Message.Op == opOf(r.log[id].pp.value.Digest)
      {
        SlotsKnown(view, V, id.n, opOf);
      }
    }
  }

  lemma EnterTold(s: State, nv: NewViewArgs, opOf: string -> string, f: nat)
    requires Ordered(s) && Told(s, f) && HasStable(s.cps)
    ensures var r := EnterNewView(s, nv);
            Told(r, f) && (OpsKnown(s, opOf) && ReportsKnown(nv.V, opOf) && opOf("") == "" ==> OpsKnown(r, opOf))
  {
    hide CatchUp, TakeOver, Told, Ordered, OpsKnown, ReportsKnown;
    CatchUpTold(s, nv.V, opOf, f);
    TakeOverTold(CatchUp(s, nv.V, MinS(nv.V)), nv.View, nv.V, opOf, f);
  }

  lemma CatchUpTold(s: State, V: seq<ViewChangeArgs>, opOf: string -> string, f: nat)
    requires Ordered(s) && Told(s, f) && HasStable(s.cps)
    ensures var r := CatchUp(s, V, MinS(V)); Told(r, f) && (OpsKnown(s, opOf) ==> OpsKnown(r, opOf))
  {
    StableIsLast(s);
    MinFound(V);
    var mins := MinS(V);
    hide OpsKnown;
    if mins > s.lastcp {
      FirstFound(V, mins);
      var c := FirstWith(V, mins).value;
      var s1 := s.(cps := s.cps[mins := CheckPoint(c.Seq, true, c.Digest, c.View, [])]);
      assert AboutToStabilize(s1, mins);
      CpsIrrelevant(s, s1.cps);
      SameAnswersTold(s, s1, opOf, f);
      hide Stabilize, Told;
      StabilizeTold(s1, mins, CheckPointArgs(c.Seq, c.Digest, s.id, s.view), opOf, f);
    }
  }

  lemma LeadTold(s: State, view: int, got: seq<ViewChangeArgs>, opOf: string -> string, f: nat)
    requires Ordered(s) && Told(s, f)
    ensures var r := LeadNewView(s, view, got);
            Told(r, f) && (OpsKnown(s, opOf) && ReportsKnown(got, opOf) && opOf("") == "" ==> OpsKnown(r, opOf))
  {
    StableIsLast(s);
    hide EnterNewView, NewViewSlots, Told, HasStable, OpsKnown, ReportsKnown;
    var nv := NewViewArgs(view, got, NewViewSlots(view, got));
    var s1 := Send(s, NewViewMessage(nv));
    SameAnswersTold(s, s1, opOf, f);
    EnterTold(s1, nv, opOf, f);
  }

  lemma StoreTold(s: State, a: ViewChangeArgs, opOf: string -> string, f: nat)
    requires Told(s, f)
    ensures var s1 := StoreViewChange(s, a);
            Told(s1, f) && (OpsKnown(s, opOf) && ReportKnown(a.P, opOf) ==> OpsKnown(s1, opOf) && ReportsKnown(s1.vcs[a.View], opOf))
  {
    hide Told;
    SameAnswersTold(s, StoreViewChange(s, a), opOf, f);
  }

  lemma ViewChangeTold(s: State, a: ViewChangeArgs, cfg: Config, opOf: string -> string, f: nat)
    requires Ordered(s) && Told(s, f) && cfg.n > 0
    ensures var r := OnViewChange(s, a, cfg);
            Told(r, f) && (OpsKnown(s, opOf) && ReportKnown(a.P, opOf) && opOf("") == "" ==> OpsKnown(r, opOf))
  {
    StoreTold(s, a, opOf, f);
    hide LeadNewView, Told, OpsKnown, ReportKnown, ReportsKnown;
    if a.View > s.view {
      var s1 := StoreViewChange(s, a);
      LeadTold(s1, a.View, s1.vcs[a.View], opOf, f);
    }
  }

  lemma NewViewTold(s: State, a: NewViewArgs, cfg: Config, opOf: string -> string, f: nat)
    requires Ordered(s) && Told(s, f)
    ensures var r := OnNewView(s, a, cfg);
            Told(r, f) && (OpsKnown(s, opOf) && ReportsKnown(a.V, opOf) && opOf("") == "" ==> OpsKnown(r, opOf))
  {
    StableIsLast(s);
    hide EnterNewView, NewViewSlots, Told, OpsKnown, ReportsKnown, HasStable, SlotsMatch, SlotsTooShort;
    SameAnswersTold(s, s.(panic := true), opOf, f);
    if a.View > s.view {
      EnterTold(s, a, opOf, f);
    }
  }

  lemma OwnReportKnown(s: State, order: seq<EntryId>, opOf: string -> string)
    requires HasStable(s.cps) && (forall id :: id in order ==> id in s.log && s.log[id].pp.Some?) && OpsKnown(s, opOf)
    ensures ReportKnown(GeneratedViewChange(s, order).P, opOf)
  {
    forall k | 0 <= k < |order|
      ensures var pp := ReportOf(s.log, order)[k].PP; pp.Message.Op == opOf(pp.Digest)
    {
      assert order[k] in order;
    }
  }

  lemma AskTold(s: State, order: seq<EntryId>, opOf: string -> string, f: nat)
    requires Told(s, f) && HasStable(s.cps) && forall id :: id in order ==> id in s.log && s.log[id].pp.Some?
    ensures var s1 := AskForView(s, order);
            Told(s1, f) && (OpsKnown(s, opOf) ==> OpsKnown(s1, opOf) && ReportKnown(GeneratedViewChange(s, order).P, opOf))
  {
    if OpsKnown(s, opOf) { OwnReportKnown(s, order, opOf); }
    hide OpsKnown, ReportKnown, Told;
    SameAnswersTold(s, AskForView(s, order), opOf, f);
  }

  lemma TimerTold(s: State, order: seq<EntryId>, cfg: Config, opOf: string -> string, f: nat)
    requires Invariant(s, cfg.f) && Told(s, f) && cfg.n > 0
    ensures var r := OnTimer(s, order, cfg); Told(r, f) && (OpsKnown(s, opOf) && opOf("") == "" ==> OpsKnown(r, opOf))
  {
    StableIsLast(s);
    if ReportOrder(s.log, order, s.cps[StableKey(s.cps)].Seq, cfg.f) {
      AskKeeps(s, order, cfg.f);
      AskTold(s, order, opOf, f);
      var s1, vc := AskForView(s, order), GeneratedViewChange(s, order);
      hide OpsKnown, ReportKnown, Told, Votes, OnViewChange, AskForView, GeneratedViewChange;
      ViewChangeTold(s1, vc, cfg, opOf, f);
      var r := OnViewChange(s1, vc, cfg);
      SameAnswersTold(r, r.(monitor := true), opOf, f);
    }
  }

  lemma PostponedTold(s: State, k: nat, aux: Aux, cfg: Config, opOf: string -> string, f: nat)
    requires Invariant(s, cfg.f) && Told(s, f) && k < |s.pending|
    ensures var r := SendPostponed(s, k, aux, cfg); Told(r, f) && (OpsKnown(s, opOf) ==> OpsKnown(r, opOf))
  {
    var s1 := Send(s.(pending := s.pending[..k] + s.pending[k + 1..]), PrepareMessage(s.pending[k]));
    PostponedReady(s, s1, k, cfg.f);
    SameAnswersTold(s, s1, opOf, f);
    hide OnPrepare, Told, OpsKnown, Invariant;
    PrepareTold(s1, s.pending[k], aux, cfg, opOf, f);
  }

  /** The pre-prepares, reported or not, and auxiliary strings given in this step carry the operation of their digest. */
  ghost predicate Meaningful(i: Input, opOf: string -> string) {
    i.Deliver? ==>
      && (i.msg.PrePrepareMessage? ==> i.msg.pp.Message.Op == opOf(i.msg.pp.Digest))
      && (i.msg.RequestMessage? && i.aux.auxiliary.Some? ==> i.msg.req.Op == opOf(i.aux.auxiliary.value))
      && (i.msg.ViewChangeMessage? ==> ReportKnown(i.msg.vc.P, opOf))
      && (i.msg.NewViewMessage? ==> ReportsKnown(i.msg.nv.V, opOf))
  }

  lemma StepTold(s: State, i: Input, cfg: Config, opOf: string -> string, f: nat)
    requires Invariant(s, cfg.f) && Told(s, f) && cfg.n > 0 && f == cfg.f
    ensures var r := Handle(s, i, cfg);
            Told(r, f) && (OpsKnown(s, opOf) && Meaningful(i, opOf) && opOf("") == "" ==> OpsKnown(r, opOf))
  {
    hide Votes, Told, OpsKnown, ReportKnown, ReportsKnown, OnRequest, OnPrePrepare, OnPrepare, OnCommit, OnCheckPoint, OnViewChange, OnNewView, OnTimer, SendPostponed;
    if !s.panic {
      match i
      case Timer(order) => TimerTold(s, order, cfg, opOf, f);
      case Postponed(k, aux) => if k < |s.pending| { PostponedTold(s, k, aux, cfg, opOf, f); }
      case Deliver(msg, aux) =>
        match msg
        case RequestMessage(req) => RequestTold(s, req, aux, cfg, opOf, f);
        case PrePrepareMessage(pp) => PrePrepareTold(s, pp, aux, cfg, opOf, f);
        case PrepareMessage(p) => PrepareTold(s, p, aux, cfg, opOf, f);
        case CommitMessage(c) => CommitTold(s, c, cfg, opOf, f);
        case CheckPointMessage(cp) => CheckPointTold(s, cp, cfg, opOf, f);
        case ViewChangeMessage(vc) => ViewChangeTold(s, vc, cfg, opOf, f);
        case NewViewMessage(nv) => NewViewTold(s, nv, cfg, opOf, f);
        case ResponseMessage(_) =>
    }
  }
}
