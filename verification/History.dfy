/**
 The replicated history: what the replicas' histories say of the requests they have executed.
 */
module History {
  import opened Collections
  import opened Replica
  import opened ReplicaOrder
  import opened ReplicaVotes
  import opened ReplicaReplies
  import opened Agreement
  import opened Effects
  import opened StepLimits
  import opened Execution

  ghost predicate AllAccounted(sys: System) {
    forall r :: Honest(sys, r) ==> Accounted(sys.replicas[r])
  }

  lemma NextAccounted(before: System, after: System, r: int, i: Input)
    requires Sound(before) && AllAccounted(before) && Next(before, after, r, i)
    ensures AllAccounted(after)
  {
    SoundAt(before, r);
    hide Sound, Accounted, Handle, Invariant;
    StepAccounted(before.replicas[r], i, before.cfg);
    forall x | Honest(after, x)
      ensures Accounted(after.replicas[x])
    {
      assert Honest(before, x);
    }
  }

  /** Every honest replica's executions are accounted for in every run of the system. */
  lemma {:induction false} SystemAccounted(systems: seq<System>, events: seq<Event>, initSeq: nat)
    requires IsRun(systems, events, initSeq)
    ensures AllAccounted(systems[|events|])
  {
    if events == [] {
      var sys := systems[0];
      hide Accounted;
      forall r | Honest(sys, r)
        ensures Accounted(sys.replicas[r])
      {
        StartAccounted(r, initSeq);
      }
    } else {
      hide Sound, AllAccounted, Next;
      var n := |events| - 1;
      RunSound(systems[..n + 1], events[..n], initSeq);
      SystemAccounted(systems[..n + 1], events[..n], initSeq);
      NextAccounted(systems[n], systems[n + 1], events[n].r, events[n].i);
    }
  }

  lemma SoundAt(sys: System, r: int)
    requires Sound(sys) && Honest(sys, r)
    ensures Invariant(sys.replicas[r], sys.cfg.f) && sys.replicas[r].id == r
  {
    assert ReplicaSound(sys, r);
  }

  /** The records of these tasks, when digests stand for operations. */
  function RecordsOf(L: seq<Vote>, opOf: string -> string): (r: seq<Record>)
    ensures |r| == |L| && forall k :: 0 <= k < |L| ==> r[k] == OpState(L[k].Seq, opOf(L[k].Digest))
  {
    seq(|L|, k requires 0 <= k < |L| => OpState(L[k].Seq, opOf(L[k].Digest)))
  }

  /** What the replica has executed above its stable checkpoint, null requests left out. */
  function Recent(s: State): seq<Vote> {
    Later(s.executed, s.lastcp)
  }

  /**
   In every run in which digests determine operations, an honest replica's history ends with exactly
   the operations of the requests it has executed above its stable checkpoint, in order, each under
   its number.
   */
  lemma HistoryIsExecution(systems: seq<System>, events: seq<Event>, initSeq: nat, opOf: string -> string, r: int)
    requires IsRun(systems, events, initSeq) && AllMeaningful(events, opOf) && Honest(systems[|events|], r)
    ensures var s := systems[|events|].replicas[r];
            |Recent(s)| <= |s.state| && s.state[|s.state| - |Recent(s)|..] == RecordsOf(Recent(s), opOf)
  {
    var sys := systems[|events|];
    SystemAccounted(systems, events, initSeq);
    RunOps(systems, events, initSeq, opOf);
    hide IsRun, AllMeaningful, OpsKnown, Accounted;
    assert OpsKnown(sys.replicas[r], opOf) && Accounted(sys.replicas[r]);
    RecordsKnown(sys.replicas[r], opOf);
  }

  lemma RecordsKnown(s: State, opOf: string -> string)
    requires HistoryTells(s) && OpsKnown(s, opOf)
    ensures |Recent(s)| <= |s.state| && s.state[|s.state| - |Recent(s)|..] == RecordsOf(Recent(s), opOf)
  {
    var L, base := Recent(s), |s.state| - |Recent(s)|;
    hide Later;
    forall k | 0 <= k < |L|
      ensures s.state[base + k] == OpState(L[k].Seq, opOf(L[k].Digest))
    {
      assert Recounts(s, s.state[base + k], L[k]);
    }
  }

  /**
   Two honest replicas never record different operations for one number that both have executed in
   the same view.
   */
  lemma HistoriesAgree(systems: seq<System>, events: seq<Event>, initSeq: nat, opOf: string -> string, r1: int, r2: int, i: nat, j: nat)
    requires IsRun(systems, events, initSeq) && AllMeaningful(events, opOf)
    requires var sys := systems[|events|];
             && sys.cfg.n <= 3 * sys.cfg.f + 1 && |sys.byz| <= sys.cfg.f && Honest(sys, r1) && Honest(sys, r2)
             && i < |Recent(sys.replicas[r1])| && j < |Recent(sys.replicas[r2])|
             && Recent(sys.replicas[r1])[i].View == Recent(sys.replicas[r2])[j].View
             && Recent(sys.replicas[r1])[i].Seq == Recent(sys.replicas[r2])[j].Seq
    ensures var s1, s2 := systems[|events|].replicas[r1], systems[|events|].replicas[r2];
            && |Recent(s1)| <= |s1.state| && |Recent(s2)| <= |s2.state|
            && s1.state[|s1.state| - |Recent(s1)| + i] == s2.state[|s2.state| - |Recent(s2)| + j]
  {
    var s1, s2 := systems[|events|].replicas[r1], systems[|events|].replicas[r2];
    HistoryIsExecution(systems, events, initSeq, opOf, r1);
    HistoryIsExecution(systems, events, initSeq, opOf, r2);
    LaterTasks(s1.executed, s1.lastcp);
    LaterTasks(s2.executed, s2.lastcp);
    assert Recent(s1)[i] in s1.executed && Recent(s2)[j] in s2.executed;
    ExecutionsAgree(systems, events, initSeq, r1, r2, Recent(s1)[i], Recent(s2)[j]);
    hide IsRun, AllMeaningful, Later;
    assert s1.state[|s1.state| - |Recent(s1)| + i] == s1.state[|s1.state| - |Recent(s1)|..][i];
    assert s2.state[|s2.state| - |Recent(s2)| + j] == s2.state[|s2.state| - |Recent(s2)|..][j];
  }

  // ---------- a request for a numbered operation ----------

  /**
   The leader is asked again for an operation that has a number.  It never gets a second one: nothing
   happens below the stable checkpoint or without an entry; an entry not executed yet has its own
   pre-prepare sent once more; an executed one has the answer sent once more that was sent before,
   which is the entry's own.
   */
  lemma RepeatExact(s: State, args: RequestArgs, aux: Aux, cfg: Config)
    requires Invariant(s, cfg.f) && Accounted(s) && cfg.n > 0 && !s.changing && s.view % cfg.n == s.id && args.Op in s.seqmap
    ensures var r, n := OnRequest(s, args, aux, cfg), s.seqmap[args.Op];
            var id := EntryId(s.view, n); var e := At(s, id);
            && r.tSeq == s.tSeq
            && (n <= s.lastcp ==> r == s)
            && (n > s.lastcp && (e.pp.None? || e.pp.value.Digest == "") ==> r == Put(s, id, e))
            && (n > s.lastcp && e.pp.Some? && e.pp.value.Digest != "" && !e.sendReply ==>
                  |r.sent| > |s.sent| && r.sent[|s.sent|] == PrePrepareMessage(e.pp.value) && e.pp.value.View == s.view && e.pp.value.Seq == n)
            && (n > s.lastcp && e.pp.Some? && e.pp.value.Digest != "" && e.sendReply ==>
                  r.sent == (if e.r.Some? then s.sent + [ResponseMessage(e.r.value)] else s.sent)
                  && (e.r.Some? ==> ResponseMessage(e.r.value) in s.sent && ForTask(e.r.value, Vote(s.view, n, e.pp.value.Digest, 0), s.id)))
  {
    hide OnPrePrepare, Invariant, Accounted, ForTask;
    var id := EntryId(s.view, s.seqmap[args.Op]);
    var e := At(s, id);
    RepeatParts(s, id, cfg.f);
    if s.seqmap[args.Op] > s.lastcp && e.pp.Some? && e.pp.value.Digest != "" && !e.sendReply {
      var s1 := Send(Put(s, id, e), PrePrepareMessage(e.pp.value));
      TouchKeeps(s, id, e, cfg.f);
      OtherSent(Put(s, id, e), s1, PrePrepareMessage(e.pp.value), cfg.f);
      PrePrepareNumbersNothing(s1, e.pp.value, aux, cfg);
    }
  }

  /** Asked for a new operation, the leader gives it the next number and sends that out, or does nothing. */
  lemma NumberExact(s: State, args: RequestArgs, aux: Aux, cfg: Config)
    requires Invariant(s, cfg.f) && cfg.n > 0 && !s.changing && s.view % cfg.n == s.id && args.Op !in s.seqmap
    ensures var r := OnRequest(s, args, aux, cfg);
            if s.tSeq < s.H && aux.auxiliary.Some? then
              && r.tSeq == s.tSeq + 1 && |r.sent| > |s.sent| && s.sent <= r.sent
              && r.sent[|s.sent|] == PrePrepareMessage(PrePrepareArgs(s.view, s.tSeq, aux.auxiliary.value, args))
            else r == s
  {
    hide OnPrePrepare, Invariant;
    if s.tSeq < s.H && aux.auxiliary.Some? {
      var pp := PrePrepareArgs(s.view, s.tSeq, aux.auxiliary.value, args);
      var s1 := Send(s.(seqmap := s.seqmap[args.Op := s.tSeq], tSeq := s.tSeq + 1), PrePrepareMessage(pp));
      OtherSent(s, s1, PrePrepareMessage(pp), cfg.f);
      PrePrepareNumbersNothing(s1, pp, aux, cfg);
    }
  }

  lemma RepeatParts(s: State, id: EntryId, f: nat)
    requires Invariant(s, f) && Accounted(s)
    ensures At(s, id).pp.Some? ==> At(s, id).pp.value.View == id.v && At(s, id).pp.value.Seq == id.n
    ensures At(s, id).r.Some? && At(s, id).pp.Some? ==>
              ResponseMessage(At(s, id).r.value) in s.sent && ForTask(At(s, id).r.value, Vote(id.v, id.n, At(s, id).pp.value.Digest, 0), s.id)
  {
    if id in s.log {
      assert EntryRecorded(s, id, s.log[id]);
      assert AnswerKept(s, id, s.apply);
    }
  }

  lemma PrepareNumbersNothing(s: State, a: Vote, aux: Aux, cfg: Config)
    requires LogRecorded(s)
    ensures OnPrepare(s, a, aux, cfg).tSeq == s.tSeq
  {
    hide SendCommit, Prepared;
    var s1, id := StopTimer(s), EntryId(a.View, a.Seq);
    var e := At(s1, id);
    var s2 := Put(s1, id, e.(p := e.p + [a])).(heard := s1.heard + {a});
    if e.pp.Some? && !e.sendCommit && !s2.changing && InWindow(s2, id.v, id.n) {
      assert EntryRecorded(s, id, s.log[id]);
      OwnCommitOnlyRecorded(s2, id, cfg);
    }
  }

  lemma PrePrepareNumbersNothing(s: State, a: PrePrepareArgs, aux: Aux, cfg: Config)
    requires Invariant(s, cfg.f)
    ensures var r := OnPrePrepare(s, a, aux, cfg); r.tSeq == s.tSeq && s.sent <= r.sent
  {
    hide OnPrepare, Invariant, Leads;
    var may := May(true, true, true, true, true);
    PrePrepareLeads(s, a, aux, cfg, may);
    LeadsSends(s, OnPrePrepare(s, a, aux, cfg), cfg.f, may);
    StopKeeps(s, cfg.f);
    var s1 := StopTimer(s);
    if InWindow(s1, a.View, a.Seq) && Acceptable(s1, a) {
      AcceptInvariant(s1, a, cfg.f);
      InvariantOrdered(Accepted(s1, a), cfg.f);
      PrepareNumbersNothing(Accepted(s1, a), Vote(a.View, a.Seq, a.Digest, s.id), aux, cfg);
    }
  }
}
