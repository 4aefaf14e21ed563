/**
 What never goes back on one replica: its view, the last executed number, the stable checkpoint,
 and everything it has sent, heard, reported and executed.
 */
module ReplicaGrowth {
  import opened Replica
  import opened ReplicaOrder
  import opened ReplicaVotes

  datatype Inbox = Inbox(prepares: set<Vote>, commits: set<Vote>)

  const NO_VOTES := Inbox({}, {})

  /** `r` may follow `s` in a step that delivers the votes in `d`. */
  ghost predicate Grows(s: State, r: State, d: Inbox) {
    && r.id == s.id && s.view <= r.view && s.apply <= r.apply && s.lastcp <= r.lastcp && s.executed <= r.executed
    && s.sent <= r.sent && s.heard <= r.heard && s.confirmed <= r.confirmed && s.reported <= r.reported
    && (forall x :: x in r.heard ==> x in s.heard || x in d.prepares || PrepareMessage(x) in r.sent)
    && (forall x :: x in r.confirmed ==> x in s.confirmed || x in d.commits || CommitMessage(x) in r.sent)
  }

  lemma GrowsTrans(a: State, b: State, c: State, d: Inbox)
    requires Grows(a, b, d) && Grows(b, c, d)
    ensures Grows(a, c, d)
  {
    forall x | x in c.heard && x !in a.heard && x !in d.prepares
      ensures PrepareMessage(x) in c.sent
    {
      SentStays(b.sent, c.sent, PrepareMessage(x));
    }
    forall x | x in c.confirmed && x !in a.confirmed && x !in d.commits
      ensures CommitMessage(x) in c.sent
    {
      SentStays(b.sent, c.sent, CommitMessage(x));
    }
  }

  lemma SentStays(before: seq<Message>, after: seq<Message>, m: Message)
    requires before <= after
    ensures m in before ==> m in after
  {
    if m in before {
      var k :| 0 <= k < |before| && before[k] == m;
      assert after[k] == m;
    }
  }

  lemma QuietGrows(s: State, r: State, d: Inbox)
    requires Quiet(s, r)
    ensures Grows(s, r, d)
  {
  }

  /** An update of fields that only steer. */
  lemma PlainGrows(s: State, r: State, d: Inbox)
    requires r.id == s.id && s.view <= r.view && r.apply == s.apply && r.lastcp == s.lastcp && r.executed == s.executed
    requires s.sent <= r.sent && r.heard == s.heard && r.confirmed == s.confirmed && s.reported <= r.reported
    ensures Grows(s, r, d)
  {
  }

  lemma CommitGrows(s: State, a: Vote, cfg: Config, d: Inbox)
    requires Invariant(s, cfg.f) && !s.panic && a in d.commits
    ensures Grows(s, OnCommit(s, a, cfg), d)
  {
    var s1, id := StopTimer(s), EntryId(a.View, a.Seq);
    var e := At(s1, id);
    StopKeeps(s, cfg.f);
    ConfirmedKeeps(s1, a, cfg.f);
    TouchKeeps(s1.(confirmed := s1.confirmed + {a}), id, e.(c := e.c + [a]), cfg.f);
    var s2 := Put(s1.(confirmed := s1.confirmed + {a}), id, e.(c := e.c + [a]));
    PlainGrows(s, s1, d);
    assert Grows(s, s2, d);
    PlainGrows(s, Put(s1, id, e), d);
    hide Execute, Votes, Ordered, Grows, Quiet, Committed;
    if Executable(s2, a) {
      ExecuteKeeps(s2, a, cfg);
      QuietGrows(s2, Execute(s2, a, cfg), d);
      GrowsTrans(s, s2, Execute(s2, a, cfg), d);
    }
  }

  lemma SendCommitGrows(s: State, id: EntryId, cfg: Config, d: Inbox)
    requires LogRecorded(s) && id in s.log && s.log[id].pp.Some? && !s.log[id].sendCommit && !s.changing && InWindow(s, id.v, id.n)
    ensures Grows(s, SendCommit(s, id, cfg), d)
  {
    assert EntryRecorded(s, id, s.log[id]);
    OwnCommitOnlyRecorded(s, id, cfg);
    var r := SendCommit(s, id, cfg);
    hide SendCommit;
    assert r.sent[|s.sent|] == CommitMessage(Vote(id.v, id.n, s.log[id].pp.value.Digest, s.id));
  }

  lemma PrepareGrows(s: State, a: Vote, aux: Aux, cfg: Config, d: Inbox)
    requires Invariant(s, cfg.f) && (a in d.prepares || PrepareMessage(a) in s.sent)
    ensures Grows(s, OnPrepare(s, a, aux, cfg), d)
  {
    var s1, id := StopTimer(s), EntryId(a.View, a.Seq);
    var e := At(s1, id);
    var s2 := Put(s1, id, e.(p := e.p + [a])).(heard := s1.heard + {a});
    PlainGrows(s, s1, d);
    PlainGrows(s, Put(s1, id, e), d);
    assert Grows(s, s2, d);
    PrepareRecorded(s, a, cfg.f);
    hide SendCommit, Prepared, Invariant, Grows;
    if e.pp.Some? && !e.sendCommit && !s.changing && InWindow(s1, a.View, a.Seq) {
      SendCommitGrows(s2, id, cfg, d);
      GrowsTrans(s, s2, SendCommit(s2, id, cfg), d);
    }
  }

  lemma PrepareRecorded(s: State, a: Vote, f: nat)
    requires Invariant(s, f)
    ensures var s1, id := StopTimer(s), EntryId(a.View, a.Seq);
            LogRecorded(Put(s1, id, At(s1, id).(p := At(s1, id).p + [a])).(heard := s1.heard + {a}))
  {
    hide Invariant;
    var s1, id := StopTimer(s), EntryId(a.View, a.Seq);
    StopKeeps(s, f);
    HeardKeeps(s1, a, f);
    RecordPrepare(s1.(heard := s1.heard + {a}), a, f);
    RecordedPart(Put(s1, id, At(s1, id).(p := At(s1, id).p + [a])).(heard := s1.heard + {a}), f);
  }

  lemma RecordedPart(s: State, f: nat)
    requires Invariant(s, f)
    ensures LogRecorded(s)
  {
  }

  lemma PrePrepareGrows(s: State, a: PrePrepareArgs, aux: Aux, cfg: Config, d: Inbox)
    requires Invariant(s, cfg.f)
    ensures Grows(s, OnPrePrepare(s, a, aux, cfg), d)
  {
    StopKeeps(s, cfg.f);
    var s1, id := StopTimer(s), EntryId(a.View, a.Seq);
    PlainGrows(s, s1, d);
    PlainGrows(s, Put(s1, id, At(s1, id)), d);
    if InWindow(s1, a.View, a.Seq) && Acceptable(s1, a) {
      AcceptOrder(s1, a);
      AcceptVotes(s1, a, cfg.f);
      var s2, p := Accepted(s1, a), Vote(a.View, a.Seq, a.Digest, s.id);
      assert s2.sent[|s1.sent|] == PrepareMessage(p);
      PlainGrows(s, s2, d);
      hide Votes, Ordered, OnPrepare, Grows;
      PrepareGrows(s2, p, aux, cfg, d);
      GrowsTrans(s, s2, OnPrepare(s2, p, aux, cfg), d);
    }
  }

  lemma RequestGrows(s: State, args: RequestArgs, aux: Aux, cfg: Config, d: Inbox)
    requires Invariant(s, cfg.f) && cfg.n > 0
    ensures Grows(s, OnRequest(s, args, aux, cfg), d)
  {
    hide Invariant, OnPrePrepare;
    if !s.changing && s.view % cfg.n == s.id {
      if args.Op !in s.seqmap {
        if s.tSeq < s.H && aux.auxiliary.Some? {
          var pp := PrePrepareArgs(s.view, s.tSeq, aux.auxiliary.value, args);
          var s1 := Send(s.(seqmap := s.seqmap[args.Op := s.tSeq], tSeq := s.tSeq + 1), PrePrepareMessage(pp));
          OtherSent(s, s1, PrePrepareMessage(pp), cfg.f);
          PlainGrows(s, s1, d);
          PrePrepareGrows(s1, pp, aux, cfg, d);
          GrowsTrans(s, s1, OnPrePrepare(s1, pp, aux, cfg), d);
        }
      } else {
        RepeatGrows(s, args, aux, cfg, d);
      }
    }
  }

  lemma RepeatGrows(s: State, args: RequestArgs, aux: Aux, cfg: Config, d: Inbox)
    requires Invariant(s, cfg.f) && args.Op in s.seqmap
    ensures Grows(s, OnRequestLeader(s, args, aux, cfg), d)
  {
    hide Invariant, OnPrePrepare;
    var id := EntryId(s.view, s.seqmap[args.Op]);
    var e := At(s, id);
    TouchKeeps(s, id, e, cfg.f);
    if e.pp.Some? {
      var s1 := Send(Put(s, id, e), PrePrepareMessage(e.pp.value));
      OtherSent(Put(s, id, e), s1, PrePrepareMessage(e.pp.value), cfg.f);
      PlainGrows(s, s1, d);
      PrePrepareGrows(s1, e.pp.value, aux, cfg, d);
      GrowsTrans(s, s1, OnPrePrepare(s1, e.pp.value, aux, cfg), d);
    }
  }

  lemma EnterGrows(s: State, nv: NewViewArgs, d: Inbox)
    requires Ordered(s) && nv.View > s.view && HasStable(s.cps)
    ensures Grows(s, EnterNewView(s, nv), d)
  {
    CatchUpKeeps(s, nv.V);
    var c := CatchUp(s, nv.V, MinS(nv.V));
    InstallKeeps(c.(tSeq := MaxS(nv.V) + 1), nv.View, NewViewSlots(nv.View, nv.V));
    hide CatchUp, NewViewSlots, InstallSlots;
    QuietGrows(s, c, d);
    PlainGrows(c, EnterNewView(s, nv), d);
    GrowsTrans(s, c, EnterNewView(s, nv), d);
  }

  lemma LeadGrows(s: State, view: int, got: seq<ViewChangeArgs>, d: Inbox)
    requires Ordered(s) && view > s.view
    ensures Grows(s, LeadNewView(s, view, got), d)
  {
    hide EnterNewView, NewViewSlots;
    var nv := NewViewArgs(view, got, NewViewSlots(view, got));
    var s1 := Send(s, NewViewMessage(nv));
    PlainGrows(s, s1, d);
    if HasStable(s.cps) {
      EnterGrows(s1, nv, d);
      GrowsTrans(s, s1, EnterNewView(s1, nv), d);
    }
  }

  lemma ViewChangeGrows(s: State, a: ViewChangeArgs, cfg: Config, d: Inbox)
    requires Ordered(s) && cfg.n > 0
    ensures Grows(s, OnViewChange(s, a, cfg), d)
  {
    hide LeadNewView;
    var s1 := StoreViewChange(s, a);
    PlainGrows(s, s1, d);
    if a.View > s.view {
      LeadGrows(s1, a.View, s1.vcs[a.View], d);
      GrowsTrans(s, s1, LeadNewView(s1, a.View, s1.vcs[a.View]), d);
    }
  }

  lemma TimerGrows(s: State, order: seq<EntryId>, cfg: Config, d: Inbox)
    requires Invariant(s, cfg.f) && cfg.n > 0
    ensures Grows(s, OnTimer(s, order, cfg), d)
  {
    StableIsLast(s);
    if ReportOrder(s.log, order, s.cps[StableKey(s.cps)].Seq, cfg.f) {
      AskKeeps(s, order, cfg.f);
      var s1, vc := AskForView(s, order), GeneratedViewChange(s, order);
      PlainGrows(s, s1, d);
      hide OnViewChange, GeneratedViewChange, AskForView, Votes, Ordered;
      ViewChangeGrows(s1, vc, cfg, d);
      GrowsTrans(s, s1, OnViewChange(s1, vc, cfg), d);
    }
  }

  /** The votes a step is given from outside. */
  ghost function Given(i: Input): Inbox {
    if i.Deliver? && i.msg.PrepareMessage? then Inbox({i.msg.prepare}, {})
    else if i.Deliver? && i.msg.CommitMessage? then Inbox({}, {i.msg.commit})
    else NO_VOTES
  }

  lemma PostponedGrows(s: State, k: nat, aux: Aux, cfg: Config, d: Inbox)
    requires Invariant(s, cfg.f) && k < |s.pending|
    ensures Grows(s, SendPostponed(s, k, aux, cfg), d)
  {
    var p := s.pending[k];
    var s1 := Send(s.(pending := s.pending[..k] + s.pending[k + 1..]), PrepareMessage(p));
    assert s1.sent[|s.sent|] == PrepareMessage(p);
    PostponedReady(s, s1, k, cfg.f);
    PlainGrows(s, s1, d);
    hide OnPrepare, Invariant;
    PrepareGrows(s1, p, aux, cfg, d);
    GrowsTrans(s, s1, OnPrepare(s1, p, aux, cfg), d);
  }

  /** Nothing a replica has done is ever undone by a step. */
  lemma StepGrows(s: State, i: Input, cfg: Config)
    requires Invariant(s, cfg.f) && cfg.n > 0
    ensures Grows(s, Handle(s, i, cfg), Given(i))
  {
    hide Votes, OnRequest, OnPrePrepare, OnPrepare, OnCommit, OnCheckPoint, OnViewChange, OnNewView, OnTimer, SendPostponed;
    if !s.panic {
      match i
      case Timer(order) => TimerGrows(s, order, cfg, NO_VOTES);
      case Postponed(k, aux) => if k < |s.pending| { PostponedGrows(s, k, aux, cfg, NO_VOTES); }
      case Deliver(msg, aux) =>
        match msg
        case RequestMessage(req) => RequestGrows(s, req, aux, cfg, NO_VOTES);
        case PrePrepareMessage(pp) => PrePrepareGrows(s, pp, aux, cfg, NO_VOTES);
        case PrepareMessage(p) => PrepareGrows(s, p, aux, cfg, Inbox({p}, {}));
        case CommitMessage(c) => CommitGrows(s, c, cfg, Inbox({}, {c}));
        case CheckPointMessage(cp) => AnnouncementGrows(s, cp, cfg);
        case ViewChangeMessage(vc) => ViewChangeGrows(s, vc, cfg, NO_VOTES);
        case NewViewMessage(nv) => NewViewGrows(s, nv, cfg);
        case ResponseMessage(_) =>
    }
  }

  lemma AnnouncementGrows(s: State, a: CheckPointArgs, cfg: Config)
    requires Ordered(s)
    ensures Grows(s, OnCheckPoint(s, a, cfg), NO_VOTES)
  {
    hide Ordered, OnCheckPoint;
    CheckPointKeeps(s, a, cfg);
    QuietGrows(s, OnCheckPoint(s, a, cfg), NO_VOTES);
  }

  lemma NewViewGrows(s: State, a: NewViewArgs, cfg: Config)
    requires Ordered(s)
    ensures Grows(s, OnNewView(s, a, cfg), NO_VOTES)
  {
    hide EnterNewView, NewViewSlots, SlotsMatch, SlotsTooShort;
    if a.View > s.view && HasStable(s.cps) {
      EnterGrows(s, a, NO_VOTES);
    }
  }

  // ---------- consequences ----------

  /** Once a checkpoint has been stabilised the window starts at it, spans two intervals, and never moves back. */
  lemma WindowForward(s: State, i: Input, cfg: Config)
    requires Invariant(s, cfg.f) && cfg.n > 0 && s.lastcp >= 0
    ensures var r := Handle(s, i, cfg); r.lastcp >= 0 && r.h == r.lastcp >= s.h == s.lastcp && r.H == r.h + 2 * CHECKPOINT_DIV
  {
    hide Handle, Votes;
    StepKeeps(s, i, cfg);
    StepGrows(s, i, cfg);
  }

  /**
   This commit completes the quorum of an entry that was not executed yet, while a task with the
   same number is waiting in the queue.
   */
  ghost predicate QueuedTwice(s: State, a: Vote, cfg: Config) {
    var e := At(s, EntryId(a.View, a.Seq));
    && !s.changing && InWindow(s, a.View, a.Seq)
    && e.pp.Some? && e.pp.value.Digest == a.Digest && e.sendCommit && !e.sendReply && Committed(e.(c := e.c + [a]), cfg.f)
    && a.Seq > s.apply && Queued(s.queue, a.Seq)
  }

  /** This new-view message names enough senders, and its list agrees as far as it goes but is too short. */
  ghost predicate ListTooShort(s: State, a: NewViewArgs, cfg: Config) {
    a.View > s.view && |Changers(a)| > 2 * cfg.f && SlotsTooShort(NewViewSlots(a.View, a.V), a.O)
  }

  ghost predicate WillPanic(s: State, i: Input, cfg: Config) {
    i.Deliver? && match i.msg
                  case CommitMessage(a) => QueuedTwice(s, a, cfg)
                  case NewViewMessage(a) => ListTooShort(s, a, cfg)
                  case _ => false
  }

  lemma CommitPanics(s: State, a: Vote, cfg: Config)
    requires Invariant(s, cfg.f) && !s.panic
    ensures OnCommit(s, a, cfg).panic <==> QueuedTwice(s, a, cfg)
  {
    hide Execute, Committed, Invariant, Queued;
    var s1, id := StopTimer(s), EntryId(a.View, a.Seq);
    var e := At(s1, id);
    StopKeeps(s, cfg.f);
    ConfirmedKeeps(s1, a, cfg.f);
    TouchKeeps(s1.(confirmed := s1.confirmed + {a}), id, e.(c := e.c + [a]), cfg.f);
    var s2 := Put(s1.(confirmed := s1.confirmed + {a}), id, e.(c := e.c + [a]));
    if Executable(s2, a) {
      ExecutionPanics(s2, a, cfg);
    }
    if QueuedTwice(s, a, cfg) {
      CommittedView(s, id, cfg.f);
    }
  }

  lemma ExecutionPanics(s: State, a: Vote, cfg: Config)
    requires Invariant(s, cfg.f) && Executable(s, a) && !s.panic
    ensures Execute(s, a, cfg).panic <==> a.Seq > s.apply && Queued(s.queue, a.Seq)
  {
    hide Votes, Ordered, Quiet, Execute;
    ExecuteKeeps(s, a, cfg);
  }

  lemma CommittedView(s: State, id: EntryId, f: nat)
    requires Invariant(s, f) && id in s.log
    ensures EntryRecorded(s, id, s.log[id])
  {
  }

  /** The waiting task is of another view: within one view no number is queued twice. */
  lemma QueuedInOtherView(s: State, a: Vote, cfg: Config)
    requires Invariant(s, cfg.f) && QueuedTwice(s, a, cfg)
    ensures a.View == s.view && exists k :: 0 <= k < |s.queue| && s.queue[k].Seq == a.Seq && s.queue[k].View != s.view
  {
    var k :| 0 <= k < |s.queue| && s.queue[k].Seq == a.Seq;
    assert TaskReady(s.log, s.queue[k]);
  }

  lemma NewViewPanics(s: State, a: NewViewArgs, cfg: Config)
    requires Invariant(s, cfg.f) && !s.panic
    ensures OnNewView(s, a, cfg).panic <==> ListTooShort(s, a, cfg)
  {
    StableIsLast(s);
    hide Votes, Ordered, EnterNewView, NewViewSlots, HasStable, SlotsMatch, SlotsTooShort, Changers;
    if a.View > s.view {
      EnterKeeps(s, a, cfg.f);
    }
  }

  /**
   In every reachable state a step panics exactly in these two cases: a number queued twice across a
   view change, and a new-view list that is too short.  The other panics of the source cannot happen.
   */
  lemma OnlyTwoPanics(s: State, i: Input, cfg: Config)
    requires Invariant(s, cfg.f) && cfg.n > 0 && !s.panic
    ensures Handle(s, i, cfg).panic <==> WillPanic(s, i, cfg)
  {
    hide Votes, OnRequest, OnPrePrepare, OnPrepare, OnCommit, OnCheckPoint, OnViewChange, OnNewView, OnTimer, SendPostponed,
         QueuedTwice, ListTooShort;
    match i
    case Timer(order) => TimerKeeps(s, order, cfg);
    case Postponed(k, aux) => if k < |s.pending| { PostponedKeeps(s, k, aux, cfg); }
    case Deliver(msg, aux) =>
      match msg
      case RequestMessage(req) => RequestKeeps(s, req, aux, cfg);
      case PrePrepareMessage(pp) => PrePrepareKeeps(s, pp, aux, cfg);
      case PrepareMessage(p) => PrepareKeeps(s, p, aux, cfg);
      case CommitMessage(c) => CommitPanics(s, c, cfg);
      case CheckPointMessage(cp) => CheckPointKeeps(s, cp, cfg);
      case ViewChangeMessage(vc) => ViewChangeKeeps(s, vc, cfg);
      case NewViewMessage(nv) => NewViewPanics(s, nv, cfg);
      case ResponseMessage(_) =>
  }
}
