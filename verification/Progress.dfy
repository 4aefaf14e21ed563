/**
 What the messages a replica waits for make it do: enough prepares make it commit, and enough
 commits make it execute, queue or panic.  Used to build runs.
 */
module Progress {
  import opened Collections
  import opened Replica
  import opened ReplicaOrder
  import opened ReplicaVotes
  import opened ReplicaGrowth

  /** The service accepts whatever it is asked about. */
  const ACCEPT := Aux(None, true, true)

  /** The replica takes part in the view and holds the slot's pre-prepare. */
  ghost predicate Holds(s: State, id: EntryId, d: string) {
    !s.panic && !s.changing && InWindow(s, id.v, id.n) && HasDigest(s.log, id, d)
  }

  ghost function Senders(xs: seq<int>): set<int> {
    set k | 0 <= k < |xs| :: xs[k]
  }

  lemma SendersSnoc(xs: seq<int>)
    requires xs != []
    ensures Senders(xs) == Senders(xs[..|xs| - 1]) + {xs[|xs| - 1]}
  {
    var m := |xs| - 1;
    forall x | x in Senders(xs)
      ensures x in Senders(xs[..m]) + {xs[m]}
    {
      var k :| 0 <= k < |xs| && xs[k] == x;
      if k < m { assert xs[..m][k] == x; }
    }
  }

  ghost function Range(n: nat): (r: seq<int>)
    ensures |r| == n && forall k :: 0 <= k < n ==> r[k] == k
  {
    seq(n, k => k)
  }

  lemma {:induction false} DistinctSenders(xs: seq<int>)
    requires Distinct(xs)
    ensures |Senders(xs)| == |xs|
  {
    if xs != [] {
      var m := |xs| - 1;
      DistinctSenders(xs[..m]);
      SendersSnoc(xs);
      assert forall k :: 0 <= k < m ==> xs[..m][k] != xs[m];
    }
  }

  lemma RangeSenders(n: nat)
    ensures |Senders(Range(n))| == n && forall x :: x in Senders(Range(n)) <==> 0 <= x < n
  {
    DistinctSenders(Range(n));
    forall x | 0 <= x < n
      ensures x in Senders(Range(n))
    {
      assert Range(n)[x] == x;
    }
  }

  lemma {:induction false} RunConcat(s: State, a: seq<Input>, b: seq<Input>, cfg: Config)
    requires cfg.n > 0
    ensures Run(s, a + b, cfg) == Run(Run(s, a, cfg), b, cfg)
  {
    hide Handle;
    if b == [] {
      assert a + b == a;
    } else {
      var m := |b| - 1;
      RunConcat(s, a, b[..m], cfg);
      assert (a + b)[..|a + b| - 1] == a + b[..m];
    }
  }

  lemma RunNone(s: State, cfg: Config)
    requires cfg.n > 0
    ensures Run(s, [], cfg) == s
  {
  }

  lemma RunLast(s: State, before: seq<Input>, all: seq<Input>, cfg: Config)
    requires cfg.n > 0 && |all| == |before| + 1 && forall k :: 0 <= k < |before| ==> all[k] == before[k]
    ensures Run(s, all, cfg) == Handle(Run(s, before, cfg), all[|before|], cfg)
  {
    hide Handle;
    assert all[..|before|] == before;
  }

  lemma RunOne(s: State, i: Input, cfg: Config)
    requires cfg.n > 0
    ensures Run(s, [i], cfg) == Handle(s, i, cfg)
  {
    assert [i][..0] == [];
    assert Run(s, [], cfg) == s;
  }

  /** Votes and timers apart, only this slot's entry changed, and neither its pre-prepare nor its execution nor its answer. */
  ghost predicate OnlyVotes(s: State, r: State, id: EntryId) {
    && r == s.(monitor := r.monitor, vcCount := r.vcCount, seqmap := r.seqmap, log := r.log, sent := r.sent,
               heard := r.heard, confirmed := r.confirmed)
    && id in s.log && r.log == s.log[id := At(r, id)]
    && At(r, id).pp == At(s, id).pp && At(r, id).sendReply == At(s, id).sendReply && At(r, id).r == At(s, id).r
    && (At(s, id).sendCommit ==> At(r, id).sendCommit)
  }

  lemma OnlyVotesTrans(a: State, b: State, c: State, id: EntryId)
    requires OnlyVotes(a, b, id) && OnlyVotes(b, c, id)
    ensures OnlyVotes(a, c, id)
  {
  }

  /** One more matching vote counts its sender in, and more than 2f senders are a quorum. */
  lemma VoteCounts(votes: seq<Vote>, a: Vote, pp: PrePrepareArgs, got: set<int>, f: nat)
    requires a.View == pp.View && a.Seq == pp.Seq && a.Digest == pp.Digest && got <= Voters(votes, pp)
    ensures got + {a.Rid} <= Voters(votes + [a], pp)
    ensures |got + {a.Rid}| > 2 * f ==> |votes + [a]| > 2 * f && |Voters(votes + [a], pp)| > 2 * f
  {
    VotersSnoc(votes, a, pp);
    FewVoters(votes + [a], pp);
    hide Voters;
    SubsetSize(got + {a.Rid}, Voters(votes + [a], pp));
  }

  lemma EntryOf(s: State, id: EntryId, f: nat)
    requires Invariant(s, f) && id in s.log
    ensures EntryRecorded(s, id, s.log[id])
  {
  }

  lemma VotesKeepQueue(s: State, r: State, id: EntryId)
    requires OnlyVotes(s, r, id)
    ensures r.queue == s.queue && r.apply == s.apply && r.executed == s.executed && At(r, id).r == At(s, id).r
  {
  }

  // ---------- prepares ----------

  /** The replica has committed to the slot, or has at least these senders' prepares. */
  ghost predicate Collecting(s: State, id: EntryId, d: string, got: set<int>) {
    Holds(s, id, d) && (s.log[id].sendCommit || got <= Voters(s.log[id].p, s.log[id].pp.value))
  }

  lemma PrepareCollects(s: State, id: EntryId, d: string, x: int, got: set<int>, cfg: Config)
    requires Invariant(s, cfg.f) && Collecting(s, id, d, got)
    ensures var r := OnPrepare(s, Vote(id.v, id.n, d, x), ACCEPT, cfg);
            && Collecting(r, id, d, got + {x}) && OnlyVotes(s, r, id) && r.vcCount == 0
            && (|got + {x}| > 2 * cfg.f ==> r.log[id].sendCommit)
  {
    hide Invariant, Voters, SendCommit, Holds;
    HoldsMeans(s, id, d);
    var a := Vote(id.v, id.n, d, x);
    EntryOf(s, id, cfg.f);
    var s1 := StopTimer(s);
    var e := s1.log[id];
    var s2 := Put(s1, id, e.(p := e.p + [a])).(heard := s1.heard + {a});
    if e.sendCommit {
      assert OnPrepare(s, a, ACCEPT, cfg) == s2;
    } else {
      VoteCounts(e.p, a, e.pp.value, got, cfg.f);
      if Prepared(s2.log[id], cfg.f) {
        OwnCommitOnlyRecorded(s2, id, cfg);
        assert OnPrepare(s, a, ACCEPT, cfg) == SendCommit(s2, id, cfg);
      } else {
        assert OnPrepare(s, a, ACCEPT, cfg) == s2;
      }
    }
    StillHolds(s, OnPrepare(s, a, ACCEPT, cfg), id, d);
  }

  lemma StillHolds(s: State, r: State, id: EntryId, d: string)
    requires Holds(s, id, d) && OnlyVotes(s, r, id)
    ensures Holds(r, id, d)
  {
  }

  ghost function Prepares(id: EntryId, d: string, xs: seq<int>): (r: seq<Input>)
    ensures |r| == |xs| && forall k :: 0 <= k < |r| ==> r[k] == Deliver(PrepareMessage(Vote(id.v, id.n, d, xs[k])), ACCEPT)
  {
    seq(|xs|, k requires 0 <= k < |xs| => Deliver(PrepareMessage(Vote(id.v, id.n, d, xs[k])), ACCEPT))
  }

  lemma HoldsMeans(s: State, id: EntryId, d: string)
    requires Holds(s, id, d)
    ensures OnlyVotes(s, s, id) && !s.panic && !s.changing && InWindow(s, id.v, id.n)
    ensures id in s.log && s.log[id].pp.Some? && s.log[id].pp.value.Digest == d
  {
  }

  /** A replica that holds a slot's pre-prepare and hears more than 2f different prepares for it has committed to it. */
  lemma {:induction false} PreparesCollected(s: State, id: EntryId, d: string, xs: seq<int>, got: set<int>, cfg: Config)
    requires cfg.n > 0 && Invariant(s, cfg.f) && Collecting(s, id, d, got)
    ensures var r := Run(s, Prepares(id, d, xs), cfg);
            && Invariant(r, cfg.f) && Collecting(r, id, d, got + Senders(xs)) && OnlyVotes(s, r, id)
            && (xs != [] ==> r.vcCount == 0) && (xs != [] && |got + Senders(xs)| > 2 * cfg.f ==> r.log[id].sendCommit)
  {
    hide Invariant, Run, OnPrepare, OnlyVotes, Prepares, Voters;
    HoldsMeans(s, id, d);
    if xs == [] {
      RunNone(s, cfg);
      assert Prepares(id, d, xs) == [] && got + Senders(xs) == got;
    } else {
      var m := |xs| - 1;
      PreparesCollected(s, id, d, xs[..m], got, cfg);
      var s1 := Run(s, Prepares(id, d, xs[..m]), cfg);
      var r := OnPrepare(s1, Vote(id.v, id.n, d, xs[m]), ACCEPT, cfg);
      RunLast(s, Prepares(id, d, xs[..m]), Prepares(id, d, xs), cfg);
      assert Run(s, Prepares(id, d, xs), cfg) == r;
      hide Collecting, Handle;
      SendersSnoc(xs);
      assert got + Senders(xs) == got + Senders(xs[..m]) + {xs[m]};
      PrepareCollects(s1, id, d, xs[m], got + Senders(xs[..m]), cfg);
      PrepareKeeps(s1, Vote(id.v, id.n, d, xs[m]), ACCEPT, cfg);
      OnlyVotesTrans(s, s1, r, id);
    }
  }

  // ---------- a pre-prepare ----------

  /** What is left of a state when a fresh slot's pre-prepare has been stored and votes for it counted. */
  lemma AcceptedShape(s: State, a: PrePrepareArgs, r: State)
    requires var id := EntryId(a.View, a.Seq); id !in s.log && OnlyVotes(Accepted(StopTimer(s), a), r, id)
    ensures var id := EntryId(a.View, a.Seq);
            && r.log.Keys == s.log.Keys + {id} && (forall x :: x in s.log ==> r.log[x] == s.log[x])
            && At(r, id).pp == Some(a) && !At(r, id).sendReply
            && r == s.(monitor := r.monitor, vcCount := r.vcCount, seqmap := r.seqmap, log := r.log, sent := r.sent,
                       heard := r.heard, confirmed := r.confirmed)
  {
  }

  lemma AcceptedHolds(s: State, a: PrePrepareArgs)
    requires !s.panic && !s.changing && InWindow(s, a.View, a.Seq)
    ensures var s2 := Accepted(StopTimer(s), a);
            Holds(s2, EntryId(a.View, a.Seq), a.Digest) && PrepareMessage(Vote(a.View, a.Seq, a.Digest, s.id)) in s2.sent
  {
    var s2 := Accepted(StopTimer(s), a);
    assert s2.sent[|s.sent|] == PrepareMessage(Vote(a.View, a.Seq, a.Digest, s.id));
  }

  /** A pre-prepare for an untouched slot is stored and prepared. */
  lemma AcceptCollects(s: State, a: PrePrepareArgs, cfg: Config)
    requires Invariant(s, cfg.f) && !s.panic && !s.changing && InWindow(s, a.View, a.Seq) && EntryId(a.View, a.Seq) !in s.log
    ensures var r, id := OnPrePrepare(s, a, ACCEPT, cfg), EntryId(a.View, a.Seq);
            && Collecting(r, id, a.Digest, {s.id}) && PrepareMessage(Vote(a.View, a.Seq, a.Digest, s.id)) in r.sent
            && r.log.Keys == s.log.Keys + {id} && (forall x :: x in s.log ==> r.log[x] == s.log[x])
            && At(r, id).pp == Some(a) && !At(r, id).sendReply
            && r == s.(monitor := r.monitor, vcCount := r.vcCount, seqmap := r.seqmap, log := r.log, sent := r.sent,
                       heard := r.heard, confirmed := r.confirmed)
  {
    var s1, id, p := StopTimer(s), EntryId(a.View, a.Seq), Vote(a.View, a.Seq, a.Digest, s.id);
    StopKeeps(s, cfg.f);
    AcceptOrder(s1, a);
    AcceptVotes(s1, a, cfg.f);
    AcceptedHolds(s, a);
    var s2 := Accepted(s1, a);
    var r := OnPrepare(s2, p, ACCEPT, cfg);
    assert OnPrePrepare(s, a, ACCEPT, cfg) == r by { hide Votes, Ordered, OnPrepare; }
    hide Votes, Ordered, OnPrepare, OnPrePrepare, Voters, OnlyVotes, Holds, Accepted;
    PrepareCollects(s2, id, a.Digest, s.id, {}, cfg);
    AcceptedShape(s, a, r);
    PrepareGrows(s2, p, ACCEPT, cfg, NO_VOTES);
    SentStays(s2.sent, r.sent, PrepareMessage(p));
    assert {} + {s.id} == {s.id};
  }

  // ---------- commits ----------

  /** Committed to the slot, not executed, and with at least these senders' commits. */
  ghost predicate Confirming(s: State, id: EntryId, d: string, got: set<int>) {
    Holds(s, id, d) && s.log[id].sendCommit && !s.log[id].sendReply && got <= Voters(s.log[id].c, s.log[id].pp.value)
  }

  /** One more commit is recorded, and the quorum is tested; `s2` is what the test sees. */
  lemma CommitConfirms(s: State, id: EntryId, d: string, x: int, got: set<int>, cfg: Config) returns (s2: State)
    requires Invariant(s, cfg.f) && Confirming(s, id, d, got)
    ensures var a := Vote(id.v, id.n, d, x);
            && Confirming(s2, id, d, got + {x}) && OnlyVotes(s, s2, id) && Invariant(s2, cfg.f) && Executable(s2, a)
            && OnCommit(s, a, cfg) == (if Committed(s2.log[id], cfg.f) then Execute(s2, a, cfg) else s2)
            && (|got + {x}| > 2 * cfg.f ==> Committed(s2.log[id], cfg.f))
  {
    hide Invariant, Voters, Execute, Holds;
    HoldsMeans(s, id, d);
    var a := Vote(id.v, id.n, d, x);
    EntryOf(s, id, cfg.f);
    var s1 := StopTimer(s);
    var e := s1.log[id];
    s2 := Put(s1.(confirmed := s1.confirmed + {a}), id, e.(c := e.c + [a]));
    VoteCounts(e.c, a, e.pp.value, got, cfg.f);
    StopKeeps(s, cfg.f);
    ConfirmedKeeps(s1, a, cfg.f);
    TouchKeeps(s1.(confirmed := s1.confirmed + {a}), id, e.(c := e.c + [a]), cfg.f);
    StillHolds(s, s2, id, d);
  }

  ghost function Commits(id: EntryId, d: string, xs: seq<int>): (r: seq<Input>)
    ensures |r| == |xs| && forall k :: 0 <= k < |r| ==> r[k] == Deliver(CommitMessage(Vote(id.v, id.n, d, xs[k])), ACCEPT)
  {
    seq(|xs|, k requires 0 <= k < |xs| => Deliver(CommitMessage(Vote(id.v, id.n, d, xs[k])), ACCEPT))
  }

  // ---------- commits of the next number ----------

  ghost predicate Executed(s: State, id: EntryId, d: string) {
    exists t :: t in s.executed && t.View == id.v && t.Seq == id.n && t.Digest == d
  }

  ghost predicate Answered(s: State, id: EntryId, d: string) {
    exists a :: ResponseMessage(a) in s.sent && a.View == id.v && a.Seq == id.n && a.Auxiliary == d && a.Rid == s.id
  }

  /** The next number to execute, with nothing else waiting; or executed already. */
  ghost predicate Due(s: State, id: EntryId, d: string, got: set<int>) {
    (Executed(s, id, d) && Answered(s, id, d)) ||
    (Confirming(s, id, d, got) && s.log[id].r.None? && s.queue == [] && s.apply + 1 == id.n)
  }

  /** The answer to the task at the head of the queue goes out with its digest. */
  lemma AnswersNext(s: State)
    requires s.queue != []
    requires var m := s.queue[0]; var id := EntryId(m.View, m.Seq); HasDigest(s.log, id, m.Digest) && s.log[id].r.None?
    ensures var m := s.queue[0]; Answered(ApplyNext(s), EntryId(m.View, m.Seq), m.Digest)
  {
    var m, r := s.queue[0], ApplyNext(s);
    var a := ResponseFor(TakeNext(s), m, s.log[EntryId(m.View, m.Seq)].pp.value);
    assert r.sent[|s.sent|] == ResponseMessage(a);
  }

  lemma ExecutesNext(s: State, a: Vote, cfg: Config)
    requires Invariant(s, cfg.f) && !s.panic && Executable(s, a) && s.queue == [] && s.apply + 1 == a.Seq
    requires At(s, EntryId(a.View, a.Seq)).r.None?
    ensures a in Execute(s, a, cfg).executed && Answered(Execute(s, a, cfg), EntryId(a.View, a.Seq), a.Digest)
  {
    var id := EntryId(a.View, a.Seq);
    var s1 := Put(s.(queue := InsertTask(s.queue, a)), id, At(s, id).(sendReply := true));
    QueueGrows(s, a);
    assert s1.queue == [a];
    AnswersNext(s1);
    ApplyKeeps(s1);
    var s2 := ApplyNext(s1);
    hide Votes, ApplyNext, Quiet, StartCheckPoint, Answered;
    NextAboveStable(s1);
    if s2.apply % CHECKPOINT_DIV == 0 {
      StartKeeps(s2, s2.apply, cfg);
      StillExecuted(s2, StartCheckPoint(s2, s2.apply, cfg), a);
      StillAnswered(s2, StartCheckPoint(s2, s2.apply, cfg), id, a.Digest);
    }
    assert s2.executed[|s1.executed|] == a;
  }

  lemma StillExecuted(s: State, r: State, t: Vote)
    requires Quiet(s, r)
    ensures t in s.executed ==> t in r.executed
  {
    if t in s.executed {
      var k :| 0 <= k < |s.executed| && s.executed[k] == t;
      assert r.executed[k] == t;
    }
  }

  lemma StillAnswered(s: State, r: State, id: EntryId, d: string)
    requires Quiet(s, r) && Answered(s, id, d)
    ensures Answered(r, id, d)
  {
    SameSent(s.sent, r.sent);
  }

  lemma ExecutedStays(s: State, i: Input, id: EntryId, d: string, cfg: Config)
    requires Invariant(s, cfg.f) && cfg.n > 0 && Executed(s, id, d) && Answered(s, id, d)
    ensures var r := Handle(s, i, cfg); Executed(r, id, d) && Answered(r, id, d)
  {
    hide Invariant, Handle;
    StepGrows(s, i, cfg);
    var r := Handle(s, i, cfg);
    var t :| t in s.executed && t.View == id.v && t.Seq == id.n && t.Digest == d;
    var k :| 0 <= k < |s.executed| && s.executed[k] == t;
    assert r.executed[k] == t;
    var a :| ResponseMessage(a) in s.sent && a.View == id.v && a.Seq == id.n && a.Auxiliary == d && a.Rid == s.id;
    SentStays(s.sent, r.sent, ResponseMessage(a));
  }

  lemma CommitDue(s: State, id: EntryId, d: string, x: int, got: set<int>, cfg: Config)
    requires Invariant(s, cfg.f) && cfg.n > 0 && Due(s, id, d, got)
    ensures var r := Handle(s, Deliver(CommitMessage(Vote(id.v, id.n, d, x)), ACCEPT), cfg);
            Due(r, id, d, got + {x}) && (|got + {x}| > 2 * cfg.f ==> Executed(r, id, d) && Answered(r, id, d))
  {
    var a := Vote(id.v, id.n, d, x);
    hide OnCommit, Invariant, Execute, Voters, Executable, OnlyVotes, Confirming, Committed;
    if Executed(s, id, d) && Answered(s, id, d) {
      hide Handle;
      ExecutedStays(s, Deliver(CommitMessage(a), ACCEPT), id, d, cfg);
    } else {
      ConfirmingMeans(s, id, d, got);
      var s2 := CommitConfirms(s, id, d, x, got, cfg);
      ConfirmingMeans(s2, id, d, got + {x});
      VotesKeepQueue(s, s2, id);
      if Committed(s2.log[id], cfg.f) {
        ExecutesNext(s2, a, cfg);
        assert Executed(Execute(s2, a, cfg), id, d);
      }
    }
  }

  lemma ConfirmingMeans(s: State, id: EntryId, d: string, got: set<int>)
    requires Confirming(s, id, d, got)
    ensures !s.panic && id in s.log && s.log[id].pp.Some?
  {
  }

  /** A replica that has committed to its next number and hears more than 2f different commits has executed it. */
  lemma {:induction false} CommitsExecute(s: State, id: EntryId, d: string, xs: seq<int>, got: set<int>, cfg: Config)
    requires cfg.n > 0 && Invariant(s, cfg.f) && Due(s, id, d, got)
    ensures var r := Run(s, Commits(id, d, xs), cfg);
            && Invariant(r, cfg.f) && Due(r, id, d, got + Senders(xs))
            && (xs != [] && |got + Senders(xs)| > 2 * cfg.f ==> Executed(r, id, d) && Answered(r, id, d))
  {
    hide Invariant, Handle, Due, Executed, Answered;
    if xs == [] {
      assert got + Senders(xs) == got;
    } else {
      var m := |xs| - 1;
      var before := Commits(id, d, xs[..m]);
      CommitsExecute(s, id, d, xs[..m], got, cfg);
      assert Commits(id, d, xs)[..m] == before;
      var s1 := Run(s, before, cfg);
      hide Run;
      SendersSnoc(xs);
      assert got + Senders(xs) == got + Senders(xs[..m]) + {xs[m]};
      CommitDue(s1, id, d, xs[m], got + Senders(xs[..m]), cfg);
      StepKeeps(s1, Deliver(CommitMessage(Vote(id.v, id.n, d, xs[m])), ACCEPT), cfg);
    }
  }

  // ---------- entering a view ----------

  /** A slot of the new view that the log does not know is installed as a fresh entry. */
  lemma FreshSlot(s: State, m: State, view: int, pps: seq<PrePrepareArgs>, n: nat)
    requires Installed(s, m, view, pps) && EntryId(view, n) !in s.log && n < |pps| && forall k :: 0 <= k < |pps| ==> pps[k].Seq == k
    ensures var id := EntryId(view, n); id in m.log && m.log[id] == EMPTY_ENTRY.(pp := Some(pps[n]))
    ensures m == s.(log := m.log, seqmap := m.seqmap)
  {
    NumberedSlots(pps, -1, n);
    assert InSlot(EntryId(view, n), view, pps);
  }

  /** Without a reported checkpoint ahead of its own, a follower takes the view over as it is. */
  lemma EntersDirectly(s: State, view: int, V: seq<ViewChangeArgs>, cfg: Config)
    requires CheckPointsOrdered(s) && s.view < view && MinS(V) <= s.lastcp && |Changers(NewViewArgs(view, V, []))| > 2 * cfg.f
    ensures OnNewView(s, NewViewArgs(view, V, NewViewSlots(view, V)), cfg) == TakeOver(s, view, V)
  {
    StableIsLast(s);
    var nv := NewViewArgs(view, V, NewViewSlots(view, V));
    assert Changers(nv) == Changers(NewViewArgs(view, V, []));
    hide NewViewSlots, Changers, TakeOver, MinS;
    assert SlotsMatch(nv.O, nv.O) && !SlotsTooShort(nv.O, nv.O);
  }

  /** And so does the leader, once it has sent the announcement. */
  lemma LeadsDirectly(s: State, view: int, V: seq<ViewChangeArgs>)
    requires CheckPointsOrdered(s) && MinS(V) <= s.lastcp
    ensures LeadNewView(s, view, V) == TakeOver(Send(s, NewViewMessage(NewViewArgs(view, V, NewViewSlots(view, V)))), view, V)
  {
    StableIsLast(s);
    hide NewViewSlots, TakeOver, MinS;
  }

  /** What taking a view over leaves alone, and what it sets. */
  lemma TakeOverFields(s: State, view: int, V: seq<ViewChangeArgs>)
    ensures var r := TakeOver(s, view, V);
            && r == s.(tSeq := MaxS(V) + 1, log := r.log, seqmap := r.seqmap, view := view, changing := false, monitor := false, vcCount := 0,
                       vcs := VcsFrom(s.vcs, view), pending := s.pending + PreparesFor(s.id, view, NewViewSlots(view, V)))
  {
    InstallKeeps(s.(tSeq := MaxS(V) + 1), view, NewViewSlots(view, V));
    hide NewViewSlots, InstallSlots, MaxS;
  }

  /** A view without slots changes neither the log from min-s on nor the numbering table. */
  lemma EmptyTakeOver(s: State, view: int, V: seq<ViewChangeArgs>)
    requires NewViewSlots(view, V) == []
    ensures var r := TakeOver(s, view, V); r.log == LogFrom(s.log, MinS(V)) && r.seqmap == s.seqmap && r.pending == s.pending
  {
    hide NewViewSlots, MinS, MaxS;
    assert InstallSlots(s.(tSeq := MaxS(V) + 1), view, []) == s.(tSeq := MaxS(V) + 1);
    assert PreparesFor(s.id, view, []) == [];
  }
}
