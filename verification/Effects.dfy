/**
 Every step of a replica, taken apart: changes that leave the execution side alone, tasks queued,
 tasks executed, and checkpoints stabilised.  What a step may do besides is fixed by its input:
 which messages can make a replica send prepares or commits, execute, or catch up with others.
 */
module Effects {
  import opened Collections
  import opened Replica
  import opened ReplicaOrder
  import opened ReplicaVotes
  import opened ReplicaGrowth
  import opened Checkpoints

  /** What an input may lead to. */
  datatype May = May(serve: bool, prepare: bool, commit: bool, execute: bool, catchUp: bool)

  /** Only the service's consent to the number makes a replica prepare, and only its consent to the request makes it commit. */
  function MayOf(i: Input): May {
    match i
    case Timer(_) => May(false, false, false, false, true)
    case Postponed(_, aux) => May(false, true, aux.commitOk, false, false)
    case Deliver(msg, aux) =>
      match msg
      case RequestMessage(_) => May(true, aux.prepareOk, aux.prepareOk && aux.commitOk, false, false)
      case PrePrepareMessage(_) => May(false, aux.prepareOk, aux.prepareOk && aux.commitOk, false, false)
      case PrepareMessage(_) => May(false, false, aux.commitOk, false, false)
      case CommitMessage(_) => May(false, false, false, true, false)
      case CheckPointMessage(_) => May(false, false, false, false, false)
      case ViewChangeMessage(_) => May(false, false, false, false, true)
      case NewViewMessage(_) => May(false, false, false, false, true)
      case ResponseMessage(_) => May(false, false, false, false, false)
  }

  /** Which messages that leaves a replica to send: answers always, its own checkpoint only when it executes. */
  predicate Allowed(m: Message, may: May) {
    match m
    case RequestMessage(_) => may.serve
    case PrePrepareMessage(_) => may.serve
    case PrepareMessage(_) => may.prepare
    case CommitMessage(_) => may.commit
    case CheckPointMessage(_) => may.execute
    case ViewChangeMessage(_) => may.catchUp
    case NewViewMessage(_) => may.catchUp
    case ResponseMessage(_) => true
  }

  ghost predicate OnlyAllowed(s: State, r: State, may: May) {
    s.sent <= r.sent && forall k :: |s.sent| <= k < |r.sent| ==> Allowed(r.sent[k], may)
  }

  // ---------- the pieces ----------

  ghost predicate NoCommitNoted(s: State, r: State) {
    forall id :: id in r.log && r.log[id].sendCommit ==> id in s.log && s.log[id].sendCommit
  }

  /** No answer is prepared or replaced, and an answered entry keeps its digest, unless it is of a later view. */
  ghost predicate AnswersStay(s: State, r: State) {
    forall id :: id in r.log && r.log[id].r.Some? ==>
      && id in s.log && r.log[id].r == s.log[id].r
      && (id.v > s.view || (s.log[id].pp.Some? ==> r.log[id].pp.Some? && r.log[id].pp.value.Digest == s.log[id].pp.value.Digest))
  }

  ghost predicate ProofsGrow(s: State, r: State) {
    forall k :: k in s.cps ==> k in r.cps && s.cps[k].Proof <= r.cps[k].Proof
  }

  /** The execution side is left alone. */
  ghost predicate Aside(s: State, r: State, may: May) {
    && r.id == s.id && r.queue == s.queue && r.apply == s.apply && r.executed == s.executed && r.state == s.state && r.lastcp == s.lastcp
    && s.view <= r.view && s.sent <= r.sent && AnswersStay(s, r)
    && OnlyAllowed(s, r, may) && (may.commit || NoCommitNoted(s, r)) && (may.catchUp || ProofsGrow(s, r))
  }

  ghost predicate Queues(s: State, r: State, a: Vote) {
    && Ordered(s) && Executable(s, a) && a.View <= s.view && a.Seq > s.apply && !Queued(s.queue, a.Seq)
    && r == Put(s.(queue := InsertTask(s.queue, a)), EntryId(a.View, a.Seq), At(s, EntryId(a.View, a.Seq)).(sendReply := true))
  }

  ghost predicate Applies(s: State, r: State) {
    Ordered(s) && s.queue != [] && s.queue[0].Seq == s.apply + 1 && r == ApplyNext(s)
  }

  /** A checkpoint becomes stable: on enough announcements, or when catching up. */
  ghost predicate Stabilizes(s: State, r: State, key: int, proof: CheckPointArgs, f: nat, may: May) {
    && AboutToStabilize(s, key) && proof.Seq == key && QueueOrdered(s) && ExecutedInOrder(s) && r == Stabilize(s, key, proof)
    && (may.catchUp || exists k :: FirstAt(s.cps[key].Proof, k, f) && proof == s.cps[key].Proof[k])
  }

  ghost predicate Piece(s: State, r: State, f: nat, may: May) {
    || Aside(s, r, may)
    || (may.execute && (Applies(s, r) || exists a :: Queues(s, r, a)))
    || (exists key, proof :: Stabilizes(s, r, key, proof, f, may))
  }

  ghost predicate Pieces(tr: seq<State>, f: nat, may: May) {
    tr != [] && forall k :: 0 <= k < |tr| - 1 ==> Piece(tr[k], tr[k + 1], f, may)
  }

  /** `r` comes from `s` piece by piece. */
  ghost predicate Leads(s: State, r: State, f: nat, may: May) {
    exists tr :: Pieces(tr, f, may) && tr[0] == s && tr[|tr| - 1] == r
  }

  lemma OnePiece(s: State, r: State, f: nat, may: May)
    requires Piece(s, r, f, may)
    ensures Leads(s, r, f, may)
  {
    hide Piece;
    assert Pieces([s, r], f, may);
  }

  lemma NoPiece(s: State, f: nat, may: May)
    ensures Leads(s, s, f, may)
  {
    assert Pieces([s], f, may);
  }

  lemma Then(a: State, b: State, c: State, f: nat, may: May)
    requires Leads(a, b, f, may) && Leads(b, c, f, may)
    ensures Leads(a, c, f, may)
  {
    hide Piece;
    var t1 :| Pieces(t1, f, may) && t1[0] == a && t1[|t1| - 1] == b;
    var t2 :| Pieces(t2, f, may) && t2[0] == b && t2[|t2| - 1] == c;
    var t := t1 + t2[1..];
    forall k | 0 <= k < |t| - 1
      ensures Piece(t[k], t[k + 1], f, may)
    {
      if k < |t1| - 1 {
        assert Piece(t1[k], t1[k + 1], f, may);
      } else {
        assert t[k] == t2[k - |t1| + 1] && t[k + 1] == t2[k - |t1| + 2];
        assert Piece(t2[k - |t1| + 1], t2[k - |t1| + 2], f, may);
      }
    }
    assert Pieces(t, f, may);
  }

  lemma Beside(s: State, r: State, f: nat, may: May)
    requires Aside(s, r, may)
    ensures Leads(s, r, f, may)
  {
    OnePiece(s, r, f, may);
  }

  /** Changes to other fields than those of the execution side, the log, the checkpoints and the messages. */
  lemma Elsewhere(s: State, r: State, f: nat, may: May)
    requires r.id == s.id && r.queue == s.queue && r.apply == s.apply && r.executed == s.executed && r.state == s.state && r.lastcp == s.lastcp
    requires s.view <= r.view && r.sent == s.sent && r.log == s.log && r.cps == s.cps
    ensures Leads(s, r, f, may)
  {
    Beside(s, r, f, may);
  }

  lemma Says(s: State, r: State, m: Message, f: nat, may: May)
    requires Allowed(m, may)
    requires r.id == s.id && r.queue == s.queue && r.apply == s.apply && r.executed == s.executed && r.state == s.state && r.lastcp == s.lastcp
    requires s.view <= r.view && r.sent == s.sent + [m] && r.log == s.log && r.cps == s.cps
    ensures Leads(s, r, f, may)
  {
    Beside(s, r, f, may);
  }

  /** Replacing an entry by one with the same answer and commit, and the same digest if it had one. */
  lemma Touches(s: State, id: EntryId, e: Entry, f: nat, may: May)
    requires e.r == At(s, id).r && e.sendCommit == At(s, id).sendCommit
    requires At(s, id).pp.Some? ==> e.pp.Some? && e.pp.value.Digest == At(s, id).pp.value.Digest
    ensures Leads(s, Put(s, id, e), f, may)
  {
    Beside(s, Put(s, id, e), f, may);
  }

  // ---------- checkpoints ----------

  /** A change of the checkpoint records alone, announcements only added. */
  lemma Notes(s: State, r: State, f: nat, may: May)
    requires r == s.(cps := r.cps) && ProofsGrow(s, r)
    ensures Leads(s, r, f, may)
  {
    hide ProofsGrow;
    Beside(s, r, f, may);
  }

  lemma NoteGrows(s: State, a: CheckPointArgs, cfg: Config)
    ensures var s1 := WithCheckPoint(s, a.Seq, cfg); s1 == s.(cps := s1.cps) && a.Seq in s1.cps && ProofsGrow(s, s1) && ProofsGrow(s, Announce(s1, a))
  {
  }

  lemma CheckPointLeads(s: State, a: CheckPointArgs, cfg: Config, may: May)
    requires Ordered(s)
    ensures Leads(s, OnCheckPoint(s, a, cfg), cfg.f, may)
  {
    hide Leads, Settle, QueueOrdered, ExecutedInOrder, CheckPointsOrdered, AboutToStabilize, Superseded, WithCheckPoint, ProofsGrow;
    NoPiece(s, cfg.f, may);
    if a.Seq % CHECKPOINT_DIV == 0 && !Superseded(s.cps, a.Seq) {
      OpenCheckPoint(s, a.Seq, cfg);
      NoteGrows(s, a, cfg);
      var s1 := WithCheckPoint(s, a.Seq, cfg);
      Notes(s, s1, cfg.f, may);
      CpsIrrelevant(s, s1.cps);
      if !s1.cps[a.Seq].Stable {
        AnnounceKeeps(s1, a);
        var s2 := Announce(s1, a);
        Notes(s, s2, cfg.f, may);
        CpsIrrelevant(s, s2.cps);
        SettleLeads(s2, a.Seq, cfg, may);
        Then(s, s2, Settle(s2, a.Seq, cfg), cfg.f, may);
      }
    }
  }

  lemma SettleLeads(s: State, n: int, cfg: Config, may: May)
    requires Ordered(s) && AboutToStabilize(s, n) && ProofOf(s.cps[n], n)
    ensures Leads(s, Settle(s, n, cfg), cfg.f, may)
  {
    hide Leads, Stabilize, Settle, Ordered, WithDigest, WithView;
    SettleExact(s, n, cfg);
    if k :| FirstAt(s.cps[n].Proof, k, cfg.f) {
      StableLeads(s, n, k, cfg.f, may);
    } else {
      NoPiece(s, cfg.f, may);
    }
  }

  lemma StableLeads(s: State, n: int, k: int, f: nat, may: May)
    requires Ordered(s) && AboutToStabilize(s, n) && FirstAt(s.cps[n].Proof, k, f) && s.cps[n].Proof[k].Seq == n
    ensures Leads(s, Stabilize(s, n, s.cps[n].Proof[k]), f, may)
  {
    hide QueueOrdered, ExecutedInOrder, Stabilize, Leads, WithDigest, WithView, Aside;
    var r, proof := Stabilize(s, n, s.cps[n].Proof[k]), s.cps[n].Proof[k];
    assert Stabilizes(s, r, n, proof, f, may);
    OnePiece(s, r, f, may);
  }

  lemma StartLeads(s: State, n: int, cfg: Config, may: May)
    requires Ordered(s) && n > s.lastcp && may.execute
    ensures Leads(s, StartCheckPoint(s, n, cfg), cfg.f, may)
  {
    hide Leads, CheckPointsOrdered, QueueOrdered, ExecutedInOrder, Superseded, OnCheckPoint, Quiet;
    NoPiece(s, cfg.f, may);
    if !Superseded(s.cps, n) {
      OpenOwnKeeps(s, n, cfg);
      var s1 := OpenOwn(s, n, cfg);
      Notes(s, s1, cfg.f, may);
      var a := CheckPointArgs(n, s1.cps[n].Digest, s1.id, s1.view);
      var s2 := Send(s1, CheckPointMessage(a));
      Says(s1, s2, CheckPointMessage(a), cfg.f, may);
      AnnouncementQuiet(s, s2, CheckPointMessage(a));
      SendKeepsCheckPoints(s1, CheckPointMessage(a));
      CheckPointLeads(s2, a, cfg, may);
      Then(s, s1, s2, cfg.f, may);
      Then(s, s2, OnCheckPoint(s2, a, cfg), cfg.f, may);
    }
  }

  // ---------- executing ----------

  lemma ApplyLeads(s: State, f: nat, may: May)
    requires Ordered(s) && s.queue != [] && s.queue[0].Seq == s.apply + 1 && may.execute
    ensures Leads(s, ApplyNext(s), f, may)
  {
    hide Leads, ApplyNext, Ordered, Aside;
    OnePiece(s, ApplyNext(s), f, may);
  }

  lemma {:induction false} RunQueueLeads(s: State, fuel: nat, cfg: Config, may: May)
    requires Ordered(s) && !s.panic && may.execute
    ensures Leads(s, RunQueue(s, fuel, cfg), cfg.f, may)
    decreases fuel
  {
    hide Leads, Quiet, CheckPointsOrdered, ExecutedInOrder, StartCheckPoint, ApplyNext;
    NoPiece(s, cfg.f, may);
    if fuel != 0 && s.queue != [] && s.apply + 1 == s.queue[0].Seq {
      ApplyKeeps(s);
      ApplyLeads(s, cfg.f, may);
      NextAboveStable(s);
      var s1 := ApplyNext(s);
      var s2 := s1;
      if s1.apply % CHECKPOINT_DIV == 0 {
        StartKeeps(s1, s1.apply, cfg);
        StartLeads(s1, s1.apply, cfg, may);
        s2 := StartCheckPoint(s1, s1.apply, cfg);
        Then(s, s1, s2, cfg.f, may);
      }
      RunQueueLeads(s2, fuel - 1, cfg, may);
      Then(s, s2, RunQueue(s2, fuel - 1, cfg), cfg.f, may);
    }
  }

  lemma ExecuteLeads(s: State, a: Vote, cfg: Config, may: May)
    requires Ordered(s) && Executable(s, a) && a.View <= s.view && !s.panic && may.execute
    ensures Leads(s, Execute(s, a, cfg), cfg.f, may)
  {
    hide Leads, Ordered, InsertTask, RunQueue, Queued, Executable;
    NoPiece(s, cfg.f, may);
    Elsewhere(s, s.(panic := true), cfg.f, may);
    if a.Seq > s.apply && !Queued(s.queue, a.Seq) {
      QueueGrows(s, a);
      var id := EntryId(a.View, a.Seq);
      var s1 := Put(s.(queue := InsertTask(s.queue, a)), id, At(s, id).(sendReply := true));
      assert Queues(s, s1, a);
      OnePiece(s, s1, cfg.f, may);
      RunQueueLeads(s1, |s1.queue|, cfg, may);
      Then(s, s1, RunQueue(s1, |s1.queue|, cfg), cfg.f, may);
    }
  }

  // ---------- the three phases ----------

  lemma CommitLeads(s: State, a: Vote, cfg: Config, may: May)
    requires Invariant(s, cfg.f) && !s.panic && may.execute
    ensures Leads(s, OnCommit(s, a, cfg), cfg.f, may)
  {
    hide Leads, Execute, Committed, Invariant;
    NoPiece(s, cfg.f, may);
    var s1, id := StopTimer(s), EntryId(a.View, a.Seq);
    Elsewhere(s, s1, cfg.f, may);
    StopKeeps(s, cfg.f);
    var e := At(s1, id);
    Touches(s1, id, e, cfg.f, may);
    Then(s, s1, Put(s1, id, e), cfg.f, may);
    ConfirmedKeeps(s1, a, cfg.f);
    var s0 := s1.(confirmed := s1.confirmed + {a});
    Elsewhere(s1, s0, cfg.f, may);
    TouchKeeps(s0, id, e.(c := e.c + [a]), cfg.f);
    var s2 := Put(s0, id, e.(c := e.c + [a]));
    Touches(s0, id, e.(c := e.c + [a]), cfg.f, may);
    Then(s, s1, s0, cfg.f, may);
    Then(s, s0, s2, cfg.f, may);
    if InWindow(s1, a.View, a.Seq) && Executable(s2, a) && Committed(s2.log[id], cfg.f) {
      InvariantOrdered(s2, cfg.f);
      ExecuteLeads(s2, a, cfg, may);
      Then(s, s2, Execute(s2, a, cfg), cfg.f, may);
    }
  }

  lemma InvariantOrdered(s: State, f: nat)
    requires Invariant(s, f)
    ensures Ordered(s) && LogRecorded(s)
  {
  }

  lemma SendCommitLeads(s: State, id: EntryId, cfg: Config, may: May)
    requires LogRecorded(s) && id in s.log && s.log[id].pp.Some? && !s.log[id].sendCommit && !s.changing && InWindow(s, id.v, id.n) && may.commit
    ensures Leads(s, SendCommit(s, id, cfg), cfg.f, may)
  {
    hide Leads, SendCommit;
    assert EntryRecorded(s, id, s.log[id]);
    OwnCommitOnlyRecorded(s, id, cfg);
    var c := Vote(id.v, id.n, s.log[id].pp.value.Digest, s.id);
    var r := SendCommit(s, id, cfg);
    assert r.sent == s.sent + [CommitMessage(c)];
    Beside(s, r, cfg.f, may);
  }

  /** Hearing a prepare and recording it on its entry. */
  lemma HearLeads(s: State, a: Vote, f: nat, may: May)
    ensures var s1, id := StopTimer(s), EntryId(a.View, a.Seq);
            Leads(s, Put(s1.(heard := s1.heard + {a}), id, At(s1, id).(p := At(s1, id).p + [a])), f, may)
  {
    hide Leads;
    var s1, id := StopTimer(s), EntryId(a.View, a.Seq);
    var s0 := s1.(heard := s1.heard + {a});
    Elsewhere(s, s0, f, may);
    Touches(s0, id, At(s1, id).(p := At(s1, id).p + [a]), f, may);
    Then(s, s0, Put(s0, id, At(s1, id).(p := At(s1, id).p + [a])), f, may);
  }

  lemma PrepareLeads(s: State, a: Vote, aux: Aux, cfg: Config, may: May)
    requires Invariant(s, cfg.f) && (aux.commitOk ==> may.commit)
    ensures Leads(s, OnPrepare(s, a, aux, cfg), cfg.f, may)
  {
    hide Leads, SendCommit, Prepared, Invariant;
    NoPiece(s, cfg.f, may);
    var s1, id := StopTimer(s), EntryId(a.View, a.Seq);
    var e := At(s1, id);
    Elsewhere(s, s1, cfg.f, may);
    Touches(s1, id, e, cfg.f, may);
    Then(s, s1, Put(s1, id, e), cfg.f, may);
    HearLeads(s, a, cfg.f, may);
    var s0 := s1.(heard := s1.heard + {a});
    var s2 := Put(s0, id, e.(p := e.p + [a]));
    if e.pp.Some? && !e.sendCommit && !s2.changing && InWindow(s2, id.v, id.n) && aux.commitOk {
      StopKeeps(s, cfg.f);
      HeardKeeps(s1, a, cfg.f);
      RecordPrepare(s0, a, cfg.f);
      InvariantOrdered(s2, cfg.f);
      SendCommitLeads(s2, id, cfg, may);
      Then(s, s2, SendCommit(s2, id, cfg), cfg.f, may);
    }
  }

  lemma AcceptLeads(s: State, a: PrePrepareArgs, f: nat, may: May)
    requires Acceptable(s, a) && may.prepare
    ensures Leads(s, Accepted(s, a), f, may)
  {
    var r := Accepted(s, a);
    assert r.sent == s.sent + [PrepareMessage(Vote(a.View, a.Seq, a.Digest, s.id))];
    Beside(s, r, f, may);
  }

  predicate Consents(aux: Aux, may: May) {
    (aux.prepareOk ==> may.prepare) && (aux.prepareOk && aux.commitOk ==> may.commit)
  }

  lemma PrePrepareLeads(s: State, a: PrePrepareArgs, aux: Aux, cfg: Config, may: May)
    requires Invariant(s, cfg.f) && Consents(aux, may)
    ensures Leads(s, OnPrePrepare(s, a, aux, cfg), cfg.f, may)
  {
    hide Leads, Invariant, OnPrepare;
    NoPiece(s, cfg.f, may);
    var s1, id := StopTimer(s), EntryId(a.View, a.Seq);
    Elsewhere(s, s1, cfg.f, may);
    StopKeeps(s, cfg.f);
    Touches(s1, id, At(s1, id), cfg.f, may);
    Then(s, s1, Put(s1, id, At(s1, id)), cfg.f, may);
    if aux.prepareOk && InWindow(s1, a.View, a.Seq) && Acceptable(s1, a) {
      var s2, p := Accepted(s1, a), Vote(a.View, a.Seq, a.Digest, s.id);
      AcceptLeads(s1, a, cfg.f, may);
      InvariantOrdered(s1, cfg.f);
      AcceptInvariant(s1, a, cfg.f);
      PrepareLeads(s2, p, aux, cfg, may);
      Then(s, s1, s2, cfg.f, may);
      Then(s, s2, OnPrepare(s2, p, aux, cfg), cfg.f, may);
    }
  }

  lemma AcceptInvariant(s: State, a: PrePrepareArgs, f: nat)
    requires Invariant(s, f) && Acceptable(s, a) && InWindow(s, a.View, a.Seq)
    ensures Invariant(Accepted(s, a), f)
  {
    AcceptOrder(s, a);
    AcceptVotes(s, a, f);
  }

  // ---------- requests ----------

  lemma RequestLeads(s: State, args: RequestArgs, aux: Aux, cfg: Config, may: May)
    requires Invariant(s, cfg.f) && cfg.n > 0 && may.serve && Consents(aux, may)
    ensures Leads(s, OnRequest(s, args, aux, cfg), cfg.f, may)
  {
    hide Leads, Invariant, OnRequestLeader;
    NoPiece(s, cfg.f, may);
    Says(s, Send(s.(monitor := true), RequestMessage(args)), RequestMessage(args), cfg.f, may);
    if !s.changing && s.view % cfg.n == s.id {
      if args.Op in s.seqmap {
        RepeatLeads(s, args, aux, cfg, may);
      } else {
        NumberLeads(s, args, aux, cfg, may);
      }
    }
  }

  lemma NumberLeads(s: State, args: RequestArgs, aux: Aux, cfg: Config, may: May)
    requires Invariant(s, cfg.f) && args.Op !in s.seqmap && may.serve && Consents(aux, may)
    ensures Leads(s, OnRequestLeader(s, args, aux, cfg), cfg.f, may)
  {
    hide Leads, Invariant, OnPrePrepare;
    NoPiece(s, cfg.f, may);
    if s.tSeq < s.H && aux.auxiliary.Some? {
      var pp := PrePrepareArgs(s.view, s.tSeq, aux.auxiliary.value, args);
      SendsOrder(s, s.(seqmap := s.seqmap[args.Op := s.tSeq], tSeq := s.tSeq + 1), pp, aux, cfg, may);
    }
  }

  /** Sending a pre-prepare and handling it at once. */
  lemma SendsOrder(s: State, s0: State, pp: PrePrepareArgs, aux: Aux, cfg: Config, may: May)
    requires Invariant(s, cfg.f) && may.serve && Consents(aux, may)
    requires s0 == s.(seqmap := s0.seqmap, tSeq := s0.tSeq)
    ensures Leads(s, OnPrePrepare(Send(s0, PrePrepareMessage(pp)), pp, aux, cfg), cfg.f, may)
  {
    hide Leads, Invariant, OnPrePrepare;
    var s1 := Send(s0, PrePrepareMessage(pp));
    Says(s, s1, PrePrepareMessage(pp), cfg.f, may);
    OtherSent(s, s1, PrePrepareMessage(pp), cfg.f);
    PrePrepareLeads(s1, pp, aux, cfg, may);
    Then(s, s1, OnPrePrepare(s1, pp, aux, cfg), cfg.f, may);
  }

  lemma RepeatLeads(s: State, args: RequestArgs, aux: Aux, cfg: Config, may: May)
    requires Invariant(s, cfg.f) && args.Op in s.seqmap && may.serve && Consents(aux, may)
    ensures Leads(s, OnRequestLeader(s, args, aux, cfg), cfg.f, may)
  {
    hide Leads, Invariant, OnPrePrepare;
    NoPiece(s, cfg.f, may);
    var id := EntryId(s.view, s.seqmap[args.Op]);
    var e := At(s, id);
    var s1 := Put(s, id, e);
    Touches(s, id, e, cfg.f, may);
    TouchKeeps(s, id, e, cfg.f);
    if e.pp.Some? {
      SendsOrder(s1, s1, e.pp.value, aux, cfg, may);
      Then(s, s1, OnPrePrepare(Send(s1, PrePrepareMessage(e.pp.value)), e.pp.value, aux, cfg), cfg.f, may);
    }
    if e.r.Some? {
      Says(s1, Send(s1, ResponseMessage(e.r.value)), ResponseMessage(e.r.value), cfg.f, may);
      Then(s, s1, Send(s1, ResponseMessage(e.r.value)), cfg.f, may);
    }
  }

  lemma PostponedLeads(s: State, k: nat, aux: Aux, cfg: Config, may: May)
    requires Invariant(s, cfg.f) && k < |s.pending| && may.prepare && (aux.commitOk ==> may.commit)
    ensures Leads(s, SendPostponed(s, k, aux, cfg), cfg.f, may)
  {
    hide Leads, Invariant, OnPrepare;
    var s1 := Send(s.(pending := s.pending[..k] + s.pending[k + 1..]), PrepareMessage(s.pending[k]));
    PostponedReady(s, s1, k, cfg.f);
    Beside(s, s1, cfg.f, may);
    PrepareLeads(s1, s.pending[k], aux, cfg, may);
    Then(s, s1, OnPrepare(s1, s.pending[k], aux, cfg), cfg.f, may);
  }

  // ---------- view changes ----------

  lemma CatchUpLeads(s: State, V: seq<ViewChangeArgs>, f: nat, may: May)
    requires Ordered(s) && HasStable(s.cps) && may.catchUp
    ensures Leads(s, CatchUp(s, V, MinS(V)), f, may)
  {
    StableIsLast(s);
    MinFound(V);
    var mins := MinS(V);
    hide Leads, Stabilize, QueueOrdered, ExecutedInOrder;
    NoPiece(s, f, may);
    if mins > s.lastcp {
      FirstFound(V, mins);
      var c := FirstWith(V, mins).value;
      var s1 := s.(cps := s.cps[mins := CheckPoint(c.Seq, true, c.Digest, c.View, [])]);
      Beside(s, s1, f, may);
      assert AboutToStabilize(s1, mins);
      CpsIrrelevant(s, s1.cps);
      var proof := CheckPointArgs(c.Seq, c.Digest, s.id, s.view);
      var r := Stabilize(s1, mins, proof);
      assert Stabilizes(s1, r, mins, proof, f, may);
      OnePiece(s1, r, f, may);
      Then(s, s1, r, f, may);
    }
  }

  lemma TakeOverLeads(s: State, view: int, V: seq<ViewChangeArgs>, f: nat, may: May)
    requires s.view < view && may.catchUp
    ensures Leads(s, TakeOver(s, view, V), f, may)
  {
    var pps, s1 := NewViewSlots(view, V), s.(tSeq := MaxS(V) + 1);
    InstallKeeps(s1, view, pps);
    hide NewViewSlots, InstallSlots, SlotAt, MaxS, MinS;
    Beside(s, TakeOver(s, view, V), f, may);
  }

  lemma EnterLeads(s: State, nv: NewViewArgs, f: nat, may: May)
    requires Ordered(s) && HasStable(s.cps) && nv.View > s.view && may.catchUp
    ensures Leads(s, EnterNewView(s, nv), f, may)
  {
    hide Leads, CatchUp, TakeOver, Ordered, Quiet;
    CatchUpKeeps(s, nv.V);
    var c := CatchUp(s, nv.V, MinS(nv.V));
    CatchUpLeads(s, nv.V, f, may);
    TakeOverLeads(c, nv.View, nv.V, f, may);
    Then(s, c, TakeOver(c, nv.View, nv.V), f, may);
  }

  lemma LeadLeads(s: State, view: int, got: seq<ViewChangeArgs>, f: nat, may: May)
    requires Ordered(s) && view > s.view && may.catchUp
    ensures Leads(s, LeadNewView(s, view, got), f, may)
  {
    StableIsLast(s);
    hide Leads, EnterNewView, NewViewSlots, HasStable;
    var nv := NewViewArgs(view, got, NewViewSlots(view, got));
    var s1 := Send(s, NewViewMessage(nv));
    Says(s, s1, NewViewMessage(nv), f, may);
    EnterLeads(s1, nv, f, may);
    Then(s, s1, EnterNewView(s1, nv), f, may);
  }

  lemma ViewChangeLeads(s: State, a: ViewChangeArgs, cfg: Config, may: May)
    requires Ordered(s) && cfg.n > 0 && may.catchUp
    ensures Leads(s, OnViewChange(s, a, cfg), cfg.f, may)
  {
    hide Leads, LeadNewView;
    NoPiece(s, cfg.f, may);
    if a.View > s.view {
      var s1 := StoreViewChange(s, a);
      Elsewhere(s, s1, cfg.f, may);
      LeadLeads(s1, a.View, s1.vcs[a.View], cfg.f, may);
      Then(s, s1, LeadNewView(s1, a.View, s1.vcs[a.View]), cfg.f, may);
    }
  }

  lemma NewViewLeads(s: State, a: NewViewArgs, cfg: Config, may: May)
    requires Ordered(s) && may.catchUp
    ensures Leads(s, OnNewView(s, a, cfg), cfg.f, may)
  {
    StableIsLast(s);
    hide Leads, EnterNewView, NewViewSlots, HasStable, SlotsMatch, SlotsTooShort, Ordered;
    NoPiece(s, cfg.f, may);
    Elsewhere(s, s.(panic := true), cfg.f, may);
    if a.View > s.view {
      EnterLeads(s, a, cfg.f, may);
    }
  }

  lemma TimerLeads(s: State, order: seq<EntryId>, cfg: Config, may: May)
    requires Invariant(s, cfg.f) && cfg.n > 0 && may.catchUp
    ensures Leads(s, OnTimer(s, order, cfg), cfg.f, may)
  {
    StableIsLast(s);
    hide Leads, OnViewChange, Votes, GeneratedViewChange;
    NoPiece(s, cfg.f, may);
    if ReportOrder(s.log, order, s.cps[StableKey(s.cps)].Seq, cfg.f) {
      AskKeeps(s, order, cfg.f);
      var s1, vc := AskForView(s, order), GeneratedViewChange(s, order);
      hide Ordered, ReportOrder;
      Says(s, s1, ViewChangeMessage(vc), cfg.f, may);
      ViewChangeLeads(s1, vc, cfg, may);
      var r := OnViewChange(s1, vc, cfg);
      Then(s, s1, r, cfg.f, may);
      Elsewhere(r, r.(monitor := true), cfg.f, may);
      Then(s, r, r.(monitor := true), cfg.f, may);
    }
  }

  // ---------- every step ----------

  /** Every step of a reachable state is made of such pieces, and its input says of which. */
  lemma StepLeads(s: State, i: Input, cfg: Config)
    requires Invariant(s, cfg.f) && cfg.n > 0
    ensures Leads(s, Handle(s, i, cfg), cfg.f, MayOf(i))
  {
    var may := MayOf(i);
    hide Leads, Votes, OnRequest, OnPrePrepare, OnPrepare, OnCommit, OnCheckPoint, OnViewChange, OnNewView, OnTimer, SendPostponed;
    NoPiece(s, cfg.f, may);
    if !s.panic {
      match i
      case Timer(order) => TimerLeads(s, order, cfg, may);
      case Postponed(k, aux) => if k < |s.pending| { PostponedLeads(s, k, aux, cfg, may); }
      case Deliver(msg, aux) =>
        match msg
        case RequestMessage(req) => RequestLeads(s, req, aux, cfg, may);
        case PrePrepareMessage(pp) => PrePrepareLeads(s, pp, aux, cfg, may);
        case PrepareMessage(p) => PrepareLeads(s, p, aux, cfg, may);
        case CommitMessage(c) => CommitLeads(s, c, cfg, may);
        case CheckPointMessage(cp) => CheckPointLeads(s, cp, cfg, may);
        case ViewChangeMessage(vc) => ViewChangeLeads(s, vc, cfg, may);
        case NewViewMessage(nv) => NewViewLeads(s, nv, cfg, may);
        case ResponseMessage(_) =>
    }
  }
}
