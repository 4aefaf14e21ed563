/**
 The checkpoints a replica announces itself: exactly the executed numbers that end an interval, each
 with its own number and view, and with the digest of the history as it was when that number had
 just been executed.
 */
module Announcing {
  import opened Collections
  import opened Replica
  import opened ReplicaOrder
  import opened ReplicaVotes
  import opened ReplicaGrowth
  import opened Checkpoints
  import opened Effects
  import opened StepLimits
  import opened Execution

  /** The digest is that of a history which tells what had been executed up to the k-th task, and no more. */
  ghost predicate OverHistory(r: State, t: State, a: CheckPointArgs, k: int, cfg: Config) {
    && 0 <= k < |r.executed| && t.id == r.id && t.sent <= r.sent && t.executed == r.executed[..k + 1] && t.lastcp < a.Seq && HistoryTells(t)
    && a.Digest == cfg.cpDigest(t.state, a.Seq) && a.View == t.view <= r.view
  }

  /** The announcement the replica owes for its k-th execution. */
  ghost predicate OwnAt(r: State, a: CheckPointArgs, k: int, cfg: Config) {
    && 0 <= k < |r.executed| && a.Seq == r.executed[k].Seq && a.Seq % CHECKPOINT_DIV == 0 && a.Rid == r.id
    && exists t :: OverHistory(r, t, a, k, cfg)
  }

  ghost predicate Owed(r: State, k: int, cfg: Config) {
    exists a :: CheckPointMessage(a) in r.sent && OwnAt(r, a, k, cfg)
  }

  /** What was announced on the way from `s` to `r` is what was executed on that way. */
  ghost predicate Announces(s: State, r: State, cfg: Config) {
    && r.id == s.id && s.sent <= r.sent && s.executed <= r.executed && s.view <= r.view
    && (forall a :: CheckPointMessage(a) in r.sent ==>
          CheckPointMessage(a) in s.sent || exists k :: |s.executed| <= k < |r.executed| && OwnAt(r, a, k, cfg))
    && (forall k :: |s.executed| <= k < |r.executed| && r.executed[k].Seq % CHECKPOINT_DIV == 0 ==> Owed(r, k, cfg))
  }

  lemma OwnStays(s: State, r: State, a: CheckPointArgs, k: int, cfg: Config)
    requires OwnAt(s, a, k, cfg) && r.id == s.id && s.sent <= r.sent && s.executed <= r.executed && s.view <= r.view
    ensures OwnAt(r, a, k, cfg)
  {
    hide HistoryTells;
    var t :| OverHistory(s, t, a, k, cfg);
    assert r.executed[..k + 1] == s.executed[..k + 1];
    assert OverHistory(r, t, a, k, cfg);
  }

  lemma OwedStays(s: State, r: State, k: int, cfg: Config)
    requires Owed(s, k, cfg) && r.id == s.id && s.sent <= r.sent && s.executed <= r.executed && s.view <= r.view
    ensures Owed(r, k, cfg)
  {
    var a :| CheckPointMessage(a) in s.sent && OwnAt(s, a, k, cfg);
    OwnStays(s, r, a, k, cfg);
    SentStays(s.sent, r.sent, CheckPointMessage(a));
  }

  lemma AnnouncesTrans(s: State, t: State, r: State, cfg: Config)
    requires Announces(s, t, cfg) && Announces(t, r, cfg)
    ensures Announces(s, r, cfg)
  {
    hide OwnAt, Owed;
    forall a | CheckPointMessage(a) in r.sent && CheckPointMessage(a) !in s.sent
      ensures exists k :: |s.executed| <= k < |r.executed| && OwnAt(r, a, k, cfg)
    {
      if CheckPointMessage(a) in t.sent {
        var k :| |s.executed| <= k < |t.executed| && OwnAt(t, a, k, cfg);
        OwnStays(t, r, a, k, cfg);
      }
    }
    forall k | |s.executed| <= k < |r.executed| && r.executed[k].Seq % CHECKPOINT_DIV == 0
      ensures Owed(r, k, cfg)
    {
      if k < |t.executed| { OwedStays(t, r, k, cfg); }
    }
  }

  /** Nothing executed, no checkpoint announced. */
  lemma NoneAnnounced(s: State, r: State, cfg: Config)
    requires r.id == s.id && s.sent <= r.sent && r.executed == s.executed && s.view <= r.view
    requires forall a :: CheckPointMessage(a) in r.sent ==> CheckPointMessage(a) in s.sent
    ensures Announces(s, r, cfg)
  {
  }

  // ---------- one execution ----------

  lemma SettledSends(s: State, a: CheckPointArgs, cfg: Config)
    ensures OnlyAnswers(s.sent, OnCheckPoint(s, a, cfg).sent)
  {
    hide FirstAgreed, Superseded, Stabilize;
    if a.Seq % CHECKPOINT_DIV == 0 && !Superseded(s.cps, a.Seq) {
      var s2 := Announce(WithCheckPoint(s, a.Seq, cfg), a);
      var agreed := FirstAgreed(s2.cps[a.Seq].Proof, cfg.f, 0);
      if agreed.Some? { StabilizeAnswersOnly(s2, a.Seq, agreed.value); }
    }
  }

  ghost function Own(t: State, n: int, cfg: Config): CheckPointArgs {
    CheckPointArgs(n, cfg.cpDigest(t.state, n), t.id, t.view)
  }

  /** Opening the own checkpoint sends one announcement, with the digest of the history at that moment. */
  lemma StartAnnounces(t: State, n: int, cfg: Config)
    requires Ordered(t) && t.apply == n > t.lastcp
    ensures var r := StartCheckPoint(t, n, cfg);
            && r.id == t.id && t.sent <= r.sent && r.executed == t.executed && t.view <= r.view
            && CheckPointMessage(Own(t, n, cfg)) in r.sent
            && forall a :: CheckPointMessage(a) in r.sent ==> CheckPointMessage(a) in t.sent || a == Own(t, n, cfg)
  {
    StartLeaves(t, n, cfg);
    NotSuperseded(t, n);
    OpenOwnKeeps(t, n, cfg);
    hide OnCheckPoint, Superseded, Quiet, QueueOrdered, ExecutedInOrder, CheckPointsOrdered;
    var s1, a := OpenOwn(t, n, cfg), Own(t, n, cfg);
    assert a == CheckPointArgs(n, s1.cps[n].Digest, s1.id, s1.view);
    var s2 := Send(s1, CheckPointMessage(a));
    AnnouncementQuiet(t, s2, CheckPointMessage(a));
    SendKeepsCheckPoints(s1, CheckPointMessage(a));
    SettledSends(s2, a, cfg);
    OnlyAnswersIn(s2.sent, OnCheckPoint(s2, a, cfg).sent);
    AnnouncedGrows(s2, a, cfg);
    SentStays(s2.sent, OnCheckPoint(s2, a, cfg).sent, CheckPointMessage(a));
  }

  lemma NotSuperseded(t: State, n: int)
    requires CheckPointsOrdered(t) && n > t.lastcp
    ensures !Superseded(t.cps, n) && n >= 0
  {
  }

  lemma AnnouncedGrows(s: State, a: CheckPointArgs, cfg: Config)
    requires Ordered(s)
    ensures var r := OnCheckPoint(s, a, cfg); r.id == s.id && s.sent <= r.sent && s.view <= r.view
  {
    CheckPointKeeps(s, a, cfg);
    hide OnCheckPoint;
  }

  /** What one round of the loop leaves: the next task executed, and its checkpoint opened if it ends an interval. */
  ghost function Round(s: State, cfg: Config): State
    requires s.queue != []
  {
    var t := ApplyNext(s);
    if t.apply % CHECKPOINT_DIV == 0 then StartCheckPoint(t, t.apply, cfg) else t
  }

  lemma AppliedNext(s: State)
    requires Ordered(s) && !s.panic && Accounted(s) && s.queue != [] && s.queue[0].Seq == s.apply + 1
    ensures var t := ApplyNext(s);
            && Ordered(t) && !t.panic && Accounted(t) && HistoryTells(t) && t.apply == s.apply + 1 > t.lastcp
            && t.id == s.id && s.sent <= t.sent && t.executed == s.executed + [s.queue[0]] && t.view == s.view
            && forall m :: m in t.sent ==> m in s.sent || m.ResponseMessage?
  {
    ApplyKeeps(s);
    ApplyShape(s);
    ApplyAnswersOnly(s);
    OnlyAnswersIn(s.sent, ApplyNext(s).sent);
    ApplyParts(s);
    AppliesKeeps(s, ApplyNext(s));
    hide ApplyNext, HistoryTells, AnswersRight, ExecutedAnswered, QueueViews, QueueOrdered, ExecutedInOrder;
  }

  /** Opening a checkpoint is made of pieces, so the account is kept. */
  lemma StartAccounts(t: State, n: int, cfg: Config)
    requires Ordered(t) && n > t.lastcp && Accounted(t)
    ensures Accounted(StartCheckPoint(t, n, cfg))
  {
    var may := May(false, false, false, true, false);
    hide Ordered, Accounted, StartCheckPoint, Piece, Leads;
    StartLeads(t, n, cfg, may);
    LeadsAccounts(t, StartCheckPoint(t, n, cfg), cfg.f, may);
  }

  lemma LeadsAccounts(s: State, r: State, f: nat, may: May)
    requires Accounted(s) && Leads(s, r, f, may)
    ensures Accounted(r)
  {
    hide Accounted, Piece, Serves;
    var tr :| Pieces(tr, f, may) && tr[0] == s && tr[|tr| - 1] == r;
    PiecesKeep(tr, f, may);
  }

  /** The announcement made right after an execution is the one owed for it. */
  lemma OwnMade(s: State, t: State, r: State, m: Vote, cfg: Config)
    requires t.id == s.id && s.sent <= t.sent && t.executed == s.executed + [m] && t.view == s.view && HistoryTells(t)
    requires forall x :: x in t.sent ==> x in s.sent || x.ResponseMessage?
    requires m.Seq % CHECKPOINT_DIV == 0 && m.Seq > t.lastcp
    requires r.id == t.id && t.sent <= r.sent && r.executed == t.executed && t.view <= r.view && CheckPointMessage(Own(t, m.Seq, cfg)) in r.sent
    requires forall a :: CheckPointMessage(a) in r.sent ==> CheckPointMessage(a) in t.sent || a == Own(t, m.Seq, cfg)
    ensures Announces(s, r, cfg)
  {
    hide HistoryTells;
    var k, a := |s.executed|, Own(t, m.Seq, cfg);
    assert r.executed[..k + 1] == t.executed;
    assert OverHistory(r, t, a, k, cfg);
    assert OwnAt(r, a, k, cfg);
  }

  lemma NoneOwed(s: State, t: State, m: Vote, cfg: Config)
    requires t.id == s.id && s.sent <= t.sent && t.executed == s.executed + [m] && t.view == s.view && m.Seq % CHECKPOINT_DIV != 0
    requires forall x :: x in t.sent ==> x in s.sent || x.ResponseMessage?
    ensures Announces(s, t, cfg)
  {
    hide OwnAt, Owed;
  }

  lemma RoundAnnounces(s: State, cfg: Config)
    requires Ordered(s) && !s.panic && Accounted(s) && s.queue != [] && s.queue[0].Seq == s.apply + 1
    ensures var r := Round(s, cfg); Announces(s, r, cfg) && Ordered(r) && !r.panic && Accounted(r)
  {
    hide ApplyNext, Accounted, HistoryTells, Ordered, StartCheckPoint, Quiet, OwnAt, Owed, Announces;
    AppliedNext(s);
    var t, n := ApplyNext(s), s.apply + 1;
    if n % CHECKPOINT_DIV == 0 {
      StartKeeps(t, n, cfg);
      StartAccounts(t, n, cfg);
      StartAnnounces(t, n, cfg);
      OwnMade(s, t, StartCheckPoint(t, n, cfg), s.queue[0], cfg);
    } else {
      NoneOwed(s, t, s.queue[0], cfg);
    }
  }

  lemma RunsRound(s: State, fuel: nat, cfg: Config)
    requires !s.panic && fuel > 0 && s.queue != [] && s.apply + 1 == s.queue[0].Seq
    ensures RunQueue(s, fuel, cfg) == RunQueue(Round(s, cfg), fuel - 1, cfg)
  {
    hide ApplyNext, StartCheckPoint;
  }

  lemma {:induction false} RunQueueAnnounces(s: State, fuel: nat, cfg: Config)
    requires Ordered(s) && !s.panic && Accounted(s)
    ensures Announces(s, RunQueue(s, fuel, cfg), cfg)
    decreases fuel
  {
    hide Accounted, Ordered, Announces, Round, ApplyNext, StartCheckPoint;
    if fuel != 0 && s.queue != [] && s.apply + 1 == s.queue[0].Seq {
      RunsRound(s, fuel, cfg);
      hide RunQueue;
      RoundAnnounces(s, cfg);
      RunQueueAnnounces(Round(s, cfg), fuel - 1, cfg);
      AnnouncesTrans(s, Round(s, cfg), RunQueue(s, fuel, cfg), cfg);
    } else {
      NoneAnnounced(s, s, cfg);
      NoneAnnounced(s, s.(panic := true), cfg);
    }
  }

  // ---------- every step, every run ----------

  lemma ExecuteAnnounces(s: State, a: Vote, cfg: Config)
    requires Ordered(s) && Executable(s, a) && a.View <= s.view && !s.panic && Accounted(s)
    ensures Announces(s, Execute(s, a, cfg), cfg)
  {
    NoneAnnounced(s, s, cfg);
    NoneAnnounced(s, s.(panic := true), cfg);
    hide Announces, Accounted, Ordered, Executable, InsertTask, Queued, RunQueue;
    if a.Seq > s.apply && !Queued(s.queue, a.Seq) {
      QueueGrows(s, a);
      var id := EntryId(a.View, a.Seq);
      var s1 := Put(s.(queue := InsertTask(s.queue, a)), id, At(s, id).(sendReply := true));
      QueuesKeeps(s, s1, a);
      NoneAnnounced(s, s1, cfg);
      RunQueueAnnounces(s1, |s1.queue|, cfg);
      AnnouncesTrans(s, s1, RunQueue(s1, |s1.queue|, cfg), cfg);
    }
  }

  lemma TouchAccounts(s: State, s2: State, id: EntryId, e: Entry)
    requires Accounted(s) && s2 == Put(s.(monitor := s2.monitor, vcCount := s2.vcCount, confirmed := s2.confirmed), id, e)
    requires e.r == At(s, id).r && e.pp == At(s, id).pp
    ensures Accounted(s2)
  {
    hide Recounted, ForTask;
    forall x | x in s2.log
      ensures AnswerKept(s2, x, s2.apply)
    {
      assert x in s.log ==> AnswerKept(s, x, s.apply);
    }
    ExecutedStays(s, s2);
    HistoryStays(s, s2);
  }

  lemma CommitAnnounces(s: State, a: Vote, cfg: Config)
    requires Invariant(s, cfg.f) && !s.panic && Accounted(s)
    ensures Announces(s, OnCommit(s, a, cfg), cfg)
  {
    hide Execute, Committed, Invariant, Accounted, OwnAt, Owed;
    var s1, id := StopTimer(s), EntryId(a.View, a.Seq);
    var e := At(s1, id);
    StopKeeps(s, cfg.f);
    ConfirmedKeeps(s1, a, cfg.f);
    TouchKeeps(s1.(confirmed := s1.confirmed + {a}), id, e.(c := e.c + [a]), cfg.f);
    var s2 := Put(s1.(confirmed := s1.confirmed + {a}), id, e.(c := e.c + [a]));
    TouchAccounts(s, s2, id, e.(c := e.c + [a]));
    if InWindow(s1, a.View, a.Seq) && Executable(s2, a) && Committed(s2.log[id], cfg.f) {
      InvariantOrdered(s2, cfg.f);
      ExecuteAnnounces(s2, a, cfg);
    }
  }

  lemma NoneNew(s: State, r: State, may: May)
    requires OnlyAllowed(s, r, may) && !may.execute
    ensures forall a :: CheckPointMessage(a) in r.sent ==> CheckPointMessage(a) in s.sent
  {
  }

  lemma StepAnnounces(s: State, i: Input, cfg: Config)
    requires Invariant(s, cfg.f) && cfg.n > 0 && Accounted(s)
    ensures Announces(s, Handle(s, i, cfg), cfg)
  {
    StepGrows(s, i, cfg);
    if i.Deliver? && i.msg.CommitMessage? && !s.panic {
      CommitAnnounces(s, i.msg.commit, cfg);
      hide OnCommit, Announces;
    } else if i.Deliver? && i.msg.CommitMessage? {
      NoneAnnounced(s, s, cfg);
    } else {
      OthersExecuteNothing(s, i, cfg);
      StepSends(s, i, cfg);
      hide Handle, Invariant;
      NoneNew(s, Handle(s, i, cfg), MayOf(i));
      NoneAnnounced(s, Handle(s, i, cfg), cfg);
    }
  }

  /** Each announced checkpoint is one owed, and each one owed has been announced. */
  ghost predicate AnnouncedExact(s: State, cfg: Config) {
    && (forall a :: CheckPointMessage(a) in s.sent ==> exists k :: OwnAt(s, a, k, cfg))
    && (forall k :: 0 <= k < |s.executed| && s.executed[k].Seq % CHECKPOINT_DIV == 0 ==> Owed(s, k, cfg))
  }

  lemma AnnouncedStays(s: State, r: State, cfg: Config)
    requires AnnouncedExact(s, cfg) && Announces(s, r, cfg)
    ensures AnnouncedExact(r, cfg)
  {
    hide OwnAt, Owed;
    forall a | CheckPointMessage(a) in r.sent
      ensures exists k :: OwnAt(r, a, k, cfg)
    {
      if CheckPointMessage(a) in s.sent {
        var k :| OwnAt(s, a, k, cfg);
        OwnStays(s, r, a, k, cfg);
      }
    }
    forall k | 0 <= k < |r.executed| && r.executed[k].Seq % CHECKPOINT_DIV == 0
      ensures Owed(r, k, cfg)
    {
      if k < |s.executed| { OwedStays(s, r, k, cfg); }
    }
  }

  /**
   In every run a replica has announced checkpoints for exactly those of its executions that end an
   interval, each with its own number, and with the digest of a history that tells what had been
   executed up to then and nothing more.
   */
  lemma {:induction false} RunAnnounces(id: int, initSeq: nat, inputs: seq<Input>, cfg: Config)
    requires cfg.n > 0
    ensures AnnouncedExact(Run(Initial(id, initSeq), inputs, cfg), cfg)
  {
    hide Invariant, Handle, Accounted, OwnAt, Owed;
    if inputs != [] {
      var m := |inputs| - 1;
      RunAnnounces(id, initSeq, inputs[..m], cfg);
      RunKeeps(id, initSeq, inputs[..m], cfg);
      RunAccounted(id, initSeq, inputs[..m], cfg);
      StepAnnounces(Run(Initial(id, initSeq), inputs[..m], cfg), inputs[m], cfg);
      AnnouncedStays(Run(Initial(id, initSeq), inputs[..m], cfg), Run(Initial(id, initSeq), inputs, cfg), cfg);
    }
  }
}
