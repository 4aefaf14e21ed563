/**
 What a step cannot do, whatever it delivers: send a prepare or a commit that the service has not
 consented to, or make a checkpoint stable that too few announcements agree on.
 */
module StepLimits {
  import opened Collections
  import opened Replica
  import opened ReplicaOrder
  import opened ReplicaVotes
  import opened ReplicaGrowth
  import opened Checkpoints
  import opened Progress
  import opened Effects

  // ---------- votes only with the service's consent ----------

  ghost predicate OnlyAnswers(before: seq<Message>, after: seq<Message>) {
    before <= after && forall k :: |before| <= k < |after| ==> after[k].ResponseMessage?
  }

  lemma OnlyAnswersIn(before: seq<Message>, after: seq<Message>)
    requires OnlyAnswers(before, after)
    ensures forall m :: m in after ==> m in before || m.ResponseMessage?
  {
  }

  lemma ReplyAnswersOnly(s: State, t: Vote)
    ensures OnlyAnswers(s.sent, ReplyTask(s, t).sent)
  {
  }

  lemma {:induction false} DrainAnswersOnly(s: State, limit: int, fuel: nat)
    ensures OnlyAnswers(s.sent, Drain(s, limit, fuel).sent)
    decreases fuel
  {
    hide ReplyTask;
    if fuel != 0 && s.queue != [] && s.queue[0].Seq <= limit {
      var s1 := s.(queue := s.queue[1..]);
      ReplyAnswersOnly(s1, s.queue[0]);
      DrainAnswersOnly(ReplyTask(s1, s.queue[0]), limit, fuel - 1);
    }
  }

  lemma StabilizeAnswersOnly(s: State, key: int, proof: CheckPointArgs)
    requires key in s.cps
    ensures OnlyAnswers(s.sent, Stabilize(s, key, proof).sent)
  {
    DrainAnswersOnly(Staged(s, key, proof), s.cps[key].Seq, |s.queue|);
    hide Drain;
  }

  lemma ApplyAnswersOnly(s: State)
    requires s.queue != []
    ensures OnlyAnswers(s.sent, ApplyNext(s).sent)
  {
    TakeShape(s);
    hide TakeNext, ReplyTask;
    ReplyAnswersOnly(TakeNext(s), s.queue[0]);
  }

  /** Answering more, committing to nothing. */
  ghost predicate AnswersMore(s: State, r: State) {
    r.id == s.id && OnlyAnswers(s.sent, r.sent) && s.view <= r.view && s.lastcp <= r.lastcp && NoCommitNoted(s, r)
  }

  lemma AppliesMore(s: State, r: State)
    requires Applies(s, r)
    ensures AnswersMore(s, r)
  {
    hide ApplyNext, CheckPointsOrdered, QueueOrdered, ExecutedInOrder;
    ApplyKeeps(s);
    ApplyAnswersOnly(s);
  }

  lemma StabilizesMore(s: State, r: State, key: int, proof: CheckPointArgs, f: nat, may: May)
    requires Stabilizes(s, r, key, proof, f, may)
    ensures AnswersMore(s, r)
  {
    hide Stabilize, CheckPointsOrdered, QueueOrdered, ExecutedInOrder, FirstAt;
    StabilizeKeeps(s, key, proof);
    StabilizeAnswersOnly(s, key, proof);
  }

  lemma PieceSends(s: State, r: State, f: nat, may: May)
    requires Piece(s, r, f, may)
    ensures r.id == s.id && s.sent <= r.sent && s.view <= r.view && s.lastcp <= r.lastcp
    ensures OnlyAllowed(s, r, may) && (may.commit || NoCommitNoted(s, r))
  {
    hide Applies, Stabilizes, Ordered, Executable, Queued, InsertTask, AnswersStay, ProofsGrow;
    if Aside(s, r, may) {
    } else if may.execute && Applies(s, r) {
      AppliesMore(s, r);
    } else if key, proof :| Stabilizes(s, r, key, proof, f, may) {
      StabilizesMore(s, r, key, proof, f, may);
    } else {
      assert may.execute;
      var a :| Queues(s, r, a);
    }
  }

  lemma {:induction false} PiecesSend(tr: seq<State>, f: nat, may: May)
    requires Pieces(tr, f, may)
    ensures var s, r := tr[0], tr[|tr| - 1];
            && r.id == s.id && s.sent <= r.sent && s.view <= r.view && s.lastcp <= r.lastcp
            && OnlyAllowed(s, r, may) && (may.commit || NoCommitNoted(s, r))
    decreases |tr|
  {
    hide Piece;
    if |tr| > 1 {
      var m := |tr| - 1;
      PiecesSend(tr[..m], f, may);
      PieceSends(tr[m - 1], tr[m], f, may);
    }
  }

  lemma LeadsSends(s: State, r: State, f: nat, may: May)
    requires Leads(s, r, f, may)
    ensures r.id == s.id && s.sent <= r.sent && s.view <= r.view && s.lastcp <= r.lastcp
    ensures OnlyAllowed(s, r, may) && (may.commit || NoCommitNoted(s, r))
  {
    hide Piece, OnlyAllowed, NoCommitNoted;
    var tr :| Pieces(tr, f, may) && tr[0] == s && tr[|tr| - 1] == r;
    PiecesSend(tr, f, may);
  }

  ghost predicate NoNewPrepares(s: State, r: State) {
    s.sent <= r.sent && forall k :: |s.sent| <= k < |r.sent| ==> !r.sent[k].PrepareMessage?
  }

  ghost predicate NoNewCommits(s: State, r: State) {
    s.sent <= r.sent && (forall k :: |s.sent| <= k < |r.sent| ==> !r.sent[k].CommitMessage?) && NoCommitNoted(s, r)
  }

  /** What each input can make a replica send, in every reachable state. */
  lemma StepSends(s: State, i: Input, cfg: Config)
    requires Invariant(s, cfg.f) && cfg.n > 0
    ensures var r := Handle(s, i, cfg); OnlyAllowed(s, r, MayOf(i)) && (MayOf(i).commit || NoCommitNoted(s, r))
  {
    hide Invariant, Handle, Leads, OnlyAllowed, NoCommitNoted;
    StepLeads(s, i, cfg);
    LeadsSends(s, Handle(s, i, cfg), cfg.f, MayOf(i));
  }

  /** The service refuses the request, or is not asked about it. */
  predicate CommitRefused(i: Input) {
    match i
    case Timer(_) => true
    case Postponed(_, aux) => !aux.commitOk
    case Deliver(msg, aux) => !aux.commitOk || !(msg.RequestMessage? || msg.PrePrepareMessage? || msg.PrepareMessage?)
  }

  /** The service refuses the number, or is not asked about it. */
  predicate PrepareRefused(i: Input) {
    match i
    case Timer(_) => true
    case Postponed(_, _) => false
    case Deliver(msg, aux) => !aux.prepareOk || !(msg.RequestMessage? || msg.PrePrepareMessage?)
  }

  /** In every reachable state, whatever happens: without the service's consent no commit is sent and none is noted as sent. */
  lemma RefusedCommit(s: State, i: Input, cfg: Config)
    requires Invariant(s, cfg.f) && cfg.n > 0 && CommitRefused(i)
    ensures NoNewCommits(s, Handle(s, i, cfg))
  {
    hide Invariant, Handle, NoCommitNoted;
    StepSends(s, i, cfg);
  }

  /** And without its consent to the number no prepare is sent; a refused pre-prepare changes nothing at all. */
  lemma RefusedPrepare(s: State, i: Input, cfg: Config)
    requires Invariant(s, cfg.f) && cfg.n > 0 && PrepareRefused(i)
    ensures NoNewPrepares(s, Handle(s, i, cfg))
    ensures i.Deliver? && i.msg.PrePrepareMessage? ==> Handle(s, i, cfg) == s
  {
    assert i.Deliver? && i.msg.PrePrepareMessage? ==> Handle(s, i, cfg) == s;
    hide Invariant, Handle, NoCommitNoted;
    StepSends(s, i, cfg);
  }

  /** When a prepare makes the replica commit: the last one of a quorum, for an entry not committed to, with consent. */
  ghost predicate Completes(s: State, a: Vote, aux: Aux, f: nat) {
    var e := At(s, EntryId(a.View, a.Seq));
    && !s.changing && InWindow(s, a.View, a.Seq) && e.pp.Some? && e.pp.value.Digest == a.Digest && !e.sendCommit
    && Prepared(e.(p := e.p + [a]), f) && aux.commitOk
  }

  lemma PrepareExact(s: State, a: Vote, aux: Aux, cfg: Config)
    requires Invariant(s, cfg.f)
    ensures var r, id := OnPrepare(s, a, aux, cfg), EntryId(a.View, a.Seq);
            if Completes(s, a, aux, cfg.f) then
              r.sent == s.sent + [CommitMessage(Vote(a.View, a.Seq, a.Digest, s.id))] && id in r.log && r.log[id].sendCommit
            else r.sent == s.sent && NoNewCommits(s, r)
  {
    hide OnPrepare, Invariant, Completes;
    if Completes(s, a, aux, cfg.f) { QuorumCommits(s, a, aux, cfg); } else { OtherPrepare(s, a, aux, cfg); }
  }

  lemma QuorumCommits(s: State, a: Vote, aux: Aux, cfg: Config)
    requires Invariant(s, cfg.f) && Completes(s, a, aux, cfg.f)
    ensures var r, id := OnPrepare(s, a, aux, cfg), EntryId(a.View, a.Seq);
            r.sent == s.sent + [CommitMessage(Vote(a.View, a.Seq, a.Digest, s.id))] && id in r.log && r.log[id].sendCommit
  {
    hide SendCommit, Prepared, Ordered, PreparesKept, PreparedOnce, CommitsKept, CommitsBacked, ReportsFaithful;
    var s1, id := StopTimer(s), EntryId(a.View, a.Seq);
    var e := At(s1, id);
    assert EntryRecorded(s, id, s.log[id]);
    OwnCommitOnlyRecorded(Put(s1, id, e.(p := e.p + [a])).(heard := s1.heard + {a}), id, cfg);
  }

  lemma OtherPrepare(s: State, a: Vote, aux: Aux, cfg: Config)
    requires !Completes(s, a, aux, cfg.f)
    ensures var r := OnPrepare(s, a, aux, cfg); r.sent == s.sent && NoNewCommits(s, r)
  {
    hide SendCommit, Prepared;
  }

  /** When a pre-prepare is taken: with consent, within the window, for a slot that holds none or one of this digest. */
  ghost predicate Takes(s: State, a: PrePrepareArgs, aux: Aux) {
    !s.changing && aux.prepareOk && InWindow(s, a.View, a.Seq) && Acceptable(s, a)
  }

  /** Then the entry holds it, one prepare goes out, and the own prepare counts like any other; else nothing is sent. */
  lemma PrePrepareExact(s: State, a: PrePrepareArgs, aux: Aux, cfg: Config)
    requires Invariant(s, cfg.f)
    ensures var r, id, p := OnPrePrepare(s, a, aux, cfg), EntryId(a.View, a.Seq), Vote(a.View, a.Seq, a.Digest, s.id);
            if Takes(s, a, aux) then
              && id in r.log && r.log[id].pp == Some(a) && r.log[id].p == At(s, id).p + [p] && r.heard == s.heard + {p}
              && r.sent == s.sent + [PrepareMessage(p)] + if Completes(Accepted(s, a), p, aux, cfg.f) then [CommitMessage(p)] else []
            else r.sent == s.sent && NoCommitNoted(s, r) && r.heard == s.heard
  {
    hide OnPrepare, Invariant, Prepared;
    var s1, p := StopTimer(s), Vote(a.View, a.Seq, a.Digest, s.id);
    StopKeeps(s, cfg.f);
    if Takes(s, a, aux) {
      AcceptInvariant(s1, a, cfg.f);
      PrepareExact(Accepted(s1, a), p, aux, cfg);
      OwnPrepareTaken(s1, a, aux, cfg);
    }
  }

  lemma OwnPrepareTaken(s: State, a: PrePrepareArgs, aux: Aux, cfg: Config)
    requires Invariant(Accepted(s, a), cfg.f) && !s.changing && InWindow(s, a.View, a.Seq)
    ensures var r, id, p := OnPrepare(Accepted(s, a), Vote(a.View, a.Seq, a.Digest, s.id), aux, cfg), EntryId(a.View, a.Seq), Vote(a.View, a.Seq, a.Digest, s.id);
            id in r.log && r.log[id].pp == Some(a) && r.log[id].p == At(s, id).p + [p] && r.heard == s.heard + {p}
  {
    hide SendCommit, Prepared, Ordered, PreparesKept, PreparedOnce, CommitsKept, CommitsBacked, ReportsFaithful;
    var t, id, p := Accepted(s, a), EntryId(a.View, a.Seq), Vote(a.View, a.Seq, a.Digest, s.id);
    var e1 := t.log[id].(p := t.log[id].p + [p]);
    var s2 := Put(StopTimer(t), id, e1).(heard := t.heard + {p});
    assert EntryRecorded(t, id, t.log[id]);
    if !e1.sendCommit { OwnCommitOnlyRecorded(s2, id, cfg); }
  }

  // ---------- votes only within the window ----------

  /** The replica's view, and a number from the stable checkpoint on and less than two intervals above it. */
  ghost predicate Within(s: State, a: Vote) {
    a.View == s.view && s.h <= a.Seq < s.h + 2 * CHECKPOINT_DIV
  }

  ghost predicate CommitsWithin(s: State, r: State) {
    s.sent <= r.sent && forall k :: |s.sent| <= k < |r.sent| && r.sent[k].CommitMessage? ==> Within(s, r.sent[k].commit)
  }

  ghost predicate PreparesWithin(s: State, r: State) {
    s.sent <= r.sent && forall k :: |s.sent| <= k < |r.sent| && r.sent[k].PrepareMessage? ==> Within(s, r.sent[k].prepare)
  }

  /** What a prepare can make the replica send: one commit, for the prepare's own slot, within the window. */
  lemma PrepareWithin(s: State, a: Vote, aux: Aux, cfg: Config)
    requires Invariant(s, cfg.f)
    ensures var r := OnPrepare(s, a, aux, cfg);
            && s.sent <= r.sent
            && forall k :: |s.sent| <= k < |r.sent| ==> r.sent[k] == CommitMessage(Vote(a.View, a.Seq, a.Digest, s.id)) && Within(s, a)
  {
    hide OnPrepare, Invariant, Prepared, NoCommitNoted;
    var r := OnPrepare(s, a, aux, cfg);
    WindowShape(s, cfg.f);
    PrepareExact(s, a, aux, cfg);
    if Completes(s, a, aux, cfg.f) { assert Within(s, a) && r.sent == s.sent + [CommitMessage(Vote(a.View, a.Seq, a.Digest, s.id))]; }
  }

  /** A pre-prepare makes it send at most its prepare and its commit. */
  lemma PrePrepareWithin(s: State, a: PrePrepareArgs, aux: Aux, cfg: Config)
    requires Invariant(s, cfg.f)
    ensures var r, p := OnPrePrepare(s, a, aux, cfg), Vote(a.View, a.Seq, a.Digest, s.id);
            && s.sent <= r.sent
            && forall k :: |s.sent| <= k < |r.sent| ==> (r.sent[k] == PrepareMessage(p) || r.sent[k] == CommitMessage(p)) && Within(s, p)
  {
    hide OnPrePrepare, Invariant, Completes, Acceptable, Accepted, NoCommitNoted;
    var r, p := OnPrePrepare(s, a, aux, cfg), Vote(a.View, a.Seq, a.Digest, s.id);
    WindowShape(s, cfg.f);
    PrePrepareExact(s, a, aux, cfg);
    if Takes(s, a, aux) {
      AtMostTwo(s.sent, r.sent, PrepareMessage(p), CommitMessage(p), Completes(Accepted(s, a), p, aux, cfg.f));
      assert Within(s, p);
    }
  }

  lemma AtMostTwo(before: seq<Message>, after: seq<Message>, m1: Message, m2: Message, both: bool)
    requires after == before + [m1] + if both then [m2] else []
    ensures before <= after && forall k :: |before| <= k < |after| ==> after[k] == m1 || after[k] == m2
  {
  }

  lemma WindowShape(s: State, f: nat)
    requires Invariant(s, f)
    ensures s.H == s.h + 2 * CHECKPOINT_DIV
  {
  }

  lemma RequestWithin(s: State, args: RequestArgs, aux: Aux, cfg: Config)
    requires Invariant(s, cfg.f) && cfg.n > 0
    ensures var r := OnRequest(s, args, aux, cfg); CommitsWithin(s, r) && PreparesWithin(s, r)
  {
    hide OnPrePrepare, Invariant;
    if !s.changing && s.view % cfg.n == s.id {
      if args.Op !in s.seqmap {
        if s.tSeq < s.H && aux.auxiliary.Some? {
          var pp := PrePrepareArgs(s.view, s.tSeq, aux.auxiliary.value, args);
          OrderWithin(s, s.(seqmap := s.seqmap[args.Op := s.tSeq], tSeq := s.tSeq + 1), pp, aux, cfg);
        }
      } else {
        var id := EntryId(s.view, s.seqmap[args.Op]);
        var e := At(s, id);
        TouchKeeps(s, id, e, cfg.f);
        if e.pp.Some? { OrderWithin(Put(s, id, e), Put(s, id, e), e.pp.value, aux, cfg); }
      }
    }
  }

  lemma OrderWithin(s: State, s0: State, pp: PrePrepareArgs, aux: Aux, cfg: Config)
    requires Invariant(s, cfg.f) && s0 == s.(seqmap := s0.seqmap, tSeq := s0.tSeq)
    ensures var r := OnPrePrepare(Send(s0, PrePrepareMessage(pp)), pp, aux, cfg); CommitsWithin(s, r) && PreparesWithin(s, r)
  {
    hide OnPrePrepare, Invariant;
    var s1 := Send(s0, PrePrepareMessage(pp));
    OtherSent(s, s1, PrePrepareMessage(pp), cfg.f);
    PrePrepareWithin(s1, pp, aux, cfg);
  }

  lemma PostponedWithin(s: State, k: nat, aux: Aux, cfg: Config)
    requires Invariant(s, cfg.f) && k < |s.pending|
    ensures CommitsWithin(s, SendPostponed(s, k, aux, cfg))
  {
    hide OnPrepare, Invariant;
    var s1 := Send(s.(pending := s.pending[..k] + s.pending[k + 1..]), PrepareMessage(s.pending[k]));
    PostponedReady(s, s1, k, cfg.f);
    PrepareWithin(s1, s.pending[k], aux, cfg);
  }

  /**
   In every reachable state, whatever happens: a commit is only ever sent within the window, and so
   is a prepare, but for those left over from entering a view.
   */
  lemma WindowRespected(s: State, i: Input, cfg: Config)
    requires Invariant(s, cfg.f) && cfg.n > 0
    ensures var r := Handle(s, i, cfg); CommitsWithin(s, r) && (!i.Postponed? ==> PreparesWithin(s, r))
  {
    if CommitRefused(i) { RefusedCommit(s, i, cfg); }
    if PrepareRefused(i) { RefusedPrepare(s, i, cfg); }
    hide OnRequest, OnPrePrepare, OnPrepare, OnCommit, OnCheckPoint, OnViewChange, OnNewView, OnTimer, SendPostponed, Invariant;
    if !s.panic {
      match i
      case Postponed(k, aux) => if k < |s.pending| { PostponedWithin(s, k, aux, cfg); }
      case Deliver(RequestMessage(req), aux) => RequestWithin(s, req, aux, cfg);
      case Deliver(PrePrepareMessage(pp), aux) => PrePrepareWithin(s, pp, aux, cfg);
      case Deliver(PrepareMessage(p), aux) => PrepareWithin(s, p, aux, cfg);
      case _ =>
    }
  }

  // ---------- a quorum behind every checkpoint ----------

  ghost predicate QuorumAt(s: State, f: nat) {
    s.lastcp in s.cps && exists k :: Agreed(s.cps[s.lastcp].Proof, k, f)
  }

  lemma AgreedStays(p: seq<CheckPointArgs>, q: seq<CheckPointArgs>, k: int, f: nat)
    requires Agreed(p, k, f) && p <= q
    ensures Agreed(q, k, f)
  {
    assert q[..k + 1] == p[..k + 1];
  }

  /** The stable checkpoint keeps its quorum, or is one that comes with a quorum. */
  ghost predicate StaysBacked(s: State, r: State, f: nat) {
    r.lastcp > s.lastcp || (QuorumAt(s, f) && r.lastcp == s.lastcp) ==> QuorumAt(r, f)
  }

  lemma AsideBacked(s: State, r: State, f: nat, may: May)
    requires Aside(s, r, may) && !may.catchUp
    ensures StaysBacked(s, r, f)
  {
    hide Agreed, OnlyAllowed, NoCommitNoted, AnswersStay;
    if QuorumAt(s, f) {
      var k :| Agreed(s.cps[s.lastcp].Proof, k, f);
      AgreedStays(s.cps[s.lastcp].Proof, r.cps[s.lastcp].Proof, k, f);
    }
  }

  lemma AppliesBacked(s: State, r: State, f: nat)
    requires Applies(s, r)
    ensures StaysBacked(s, r, f)
  {
    ApplyKeeps(s);
    ApplyShape(s);
    hide ApplyNext, Agreed, Ordered, Quiet;
  }

  lemma StabilizesBacked(s: State, r: State, key: int, proof: CheckPointArgs, f: nat, may: May)
    requires Stabilizes(s, r, key, proof, f, may) && !may.catchUp
    ensures StaysBacked(s, r, f)
  {
    hide Agreed, Stabilize, QueueOrdered, ExecutedInOrder, CheckPointsOrdered, Quiet;
    StableRecord(s, key, proof);
    StabilizeKeeps(s, key, proof);
    var k :| FirstAt(s.cps[key].Proof, k, f);
    assert Agreed(r.cps[r.lastcp].Proof, k, f);
  }

  lemma PieceBacked(s: State, r: State, f: nat, may: May)
    requires Piece(s, r, f, may) && !may.catchUp
    ensures StaysBacked(s, r, f)
  {
    hide Aside, Applies, Stabilizes, Agreed, Ordered, Executable, InsertTask, Queued;
    if Aside(s, r, may) {
      AsideBacked(s, r, f, may);
    } else if may.execute && Applies(s, r) {
      AppliesBacked(s, r, f);
    } else if key, proof :| Stabilizes(s, r, key, proof, f, may) {
      StabilizesBacked(s, r, key, proof, f, may);
    } else {
      var a :| Queues(s, r, a);
    }
  }

  lemma ApplyShape(s: State)
    requires Ordered(s) && s.queue != []
    ensures var r := ApplyNext(s); r == s.(apply := r.apply, queue := r.queue, executed := r.executed, state := r.state, log := r.log, sent := r.sent)
  {
    assert TaskReady(s.log, s.queue[0]);
  }

  lemma {:induction false} PiecesBacked(tr: seq<State>, f: nat, may: May)
    requires Pieces(tr, f, may) && !may.catchUp
    ensures var s, r := tr[0], tr[|tr| - 1]; r.lastcp > s.lastcp ==> QuorumAt(r, f)
    decreases |tr|
  {
    hide Piece, QuorumAt;
    if |tr| > 1 {
      var m := |tr| - 1;
      PiecesBacked(tr[..m], f, may);
      PiecesSend(tr[..m], f, may);
      PieceSends(tr[m - 1], tr[m], f, may);
      PieceBacked(tr[m - 1], tr[m], f, may);
    }
  }

  /** View changes apart, whatever step makes a checkpoint stable, enough recorded announcements agree with one of them. */
  lemma StableBacked(s: State, i: Input, cfg: Config)
    requires Invariant(s, cfg.f) && cfg.n > 0 && !MayOf(i).catchUp && Handle(s, i, cfg).lastcp > s.lastcp
    ensures QuorumAt(Handle(s, i, cfg), cfg.f)
  {
    hide Invariant, Handle, Piece, QuorumAt;
    StepLeads(s, i, cfg);
    var tr :| Pieces(tr, cfg.f, MayOf(i)) && tr[0] == s && tr[|tr| - 1] == Handle(s, i, cfg);
    PiecesBacked(tr, cfg.f, MayOf(i));
  }

  lemma {:induction false} FirstReported(V: seq<ViewChangeArgs>, n: int)
    ensures FirstWith(V, n).Some? ==> exists k :: 0 <= k < |V| && V[k].CP == FirstWith(V, n).value
  {
    if V != [] && V[0].CP.Seq != n {
      FirstReported(V[1..], n);
      if FirstWith(V[1..], n).Some? {
        var k :| 0 <= k < |V[1..]| && V[1..][k].CP == FirstWith(V[1..], n).value;
        assert V[k + 1].CP == FirstWith(V, n).value;
      }
    }
  }

  lemma CatchUpRecord(s: State, V: seq<ViewChangeArgs>)
    requires Ordered(s) && MinS(V) > s.lastcp
    ensures HasStable(s.cps) && FirstWith(V, MinS(V)).Some? && FirstWith(V, MinS(V)).value.Seq == MinS(V)
    ensures var r := CatchUp(s, V, MinS(V)); MinS(V) in r.cps && r.cps[MinS(V)].Digest == FirstWith(V, MinS(V)).value.Digest
  {
    StableIsLast(s);
    MinFound(V);
    var mins := MinS(V);
    FirstFound(V, mins);
    var told := FirstWith(V, mins).value;
    var s1 := s.(cps := s.cps[mins := CheckPoint(told.Seq, true, told.Digest, told.View, [])]);
    assert AboutToStabilize(s1, mins);
    hide Stabilize, QueueOrdered, ExecutedInOrder;
    StableRecord(s1, mins, CheckPointArgs(told.Seq, told.Digest, s.id, s.view));
  }

  /** And what entering a view makes stable is the highest checkpoint reported for it, with a digest that was reported. */
  lemma CaughtUp(s: State, nv: NewViewArgs)
    requires Ordered(s) && HasStable(s.cps) && EnterNewView(s, nv).lastcp > s.lastcp
    ensures var r := EnterNewView(s, nv);
            && r.lastcp == MinS(nv.V) && r.lastcp in r.cps
            && exists k :: 0 <= k < |nv.V| && nv.V[k].CP.Seq == r.lastcp && r.cps[r.lastcp].Digest == nv.V[k].CP.Digest
  {
    hide CatchUp, TakeOver, Quiet, Ordered;
    CatchUpKeeps(s, nv.V);
    TakeOverFields(CatchUp(s, nv.V, MinS(nv.V)), nv.View, nv.V);
    CatchUpRecord(s, nv.V);
    FirstReported(nv.V, MinS(nv.V));
  }
}
