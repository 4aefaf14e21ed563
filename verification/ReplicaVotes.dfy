/**
 What one replica's votes mean, in every run: it prepares at most one digest per view and number
 although old entries are deleted, it commits only what a quorum prepared, and once it has asked
 for a new view it sends no more commits in the old one.
 */
module ReplicaVotes {
  import opened Collections
  import opened Replica
  import opened ReplicaOrder

  /** The senders heard to have prepared this digest in this slot. */
  ghost function Supporters(heard: set<Vote>, v: int, n: int, d: string): set<int> {
    set x | x in heard && x.View == v && x.Seq == n && x.Digest == d :: x.Rid
  }

  ghost predicate Backed(heard: set<Vote>, v: int, n: int, d: string, f: nat) {
    |Supporters(heard, v, n, d)| > 2 * f
  }

  /** The prepare was sent, or waits to be sent after a view change. */
  ghost predicate PrepareOut(s: State, a: Vote) {
    PrepareMessage(a) in s.sent || a in s.pending
  }

  ghost predicate HasDigest(log: map<EntryId, Entry>, id: EntryId, d: string) {
    id in log && log[id].pp.Some? && log[id].pp.value.Digest == d
  }

  ghost predicate CommittedTo(log: map<EntryId, Entry>, id: EntryId, d: string) {
    HasDigest(log, id, d) && log[id].sendCommit
  }

  // ---------- the invariant ----------

  ghost predicate EntryRecorded(s: State, id: EntryId, e: Entry) {
    && (e.pp.Some? ==> e.pp.value.View == id.v && e.pp.value.Seq == id.n && 0 <= id.v <= s.view)
    && (forall k :: 0 <= k < |e.p| ==> e.p[k].View == id.v && e.p[k].Seq == id.n && e.p[k] in s.heard)
    && (forall k :: 0 <= k < |e.c| ==> e.c[k].View == id.v && e.c[k].Seq == id.n && e.c[k] in s.confirmed)
    && (e.sendCommit ==> e.pp.Some? && CommitMessage(Vote(id.v, id.n, e.pp.value.Digest, s.id)) in s.sent)
  }

  ghost predicate LogRecorded(s: State) {
    forall id :: id in s.log ==> EntryRecorded(s, id, s.log[id])
  }

  /** A prepare of the current view is still in the log, unless it is below the stable checkpoint. */
  ghost predicate PreparesKept(s: State) {
    forall a :: PrepareOut(s, a) ==>
      a.Rid == s.id && a.View <= s.view &&
      (a.View == s.view ==> a.Seq < s.lastcp || HasDigest(s.log, EntryId(a.View, a.Seq), a.Digest))
  }

  /** At most one digest per view and number, in the whole history of the replica. */
  ghost predicate PreparedOnce(s: State) {
    forall a, b :: PrepareOut(s, a) && PrepareOut(s, b) && a.View == b.View && a.Seq == b.Seq ==> a.Digest == b.Digest
  }

  ghost predicate CommitsKept(s: State) {
    s.view >= 0 && forall a :: CommitMessage(a) in s.sent ==>
      a.Rid == s.id && 0 <= a.View <= s.view &&
      (a.View == s.view ==> a.Seq < s.lastcp || CommittedTo(s.log, EntryId(a.View, a.Seq), a.Digest))
  }

  ghost predicate CommitsBacked(s: State, f: nat) {
    forall a :: CommitMessage(a) in s.sent ==> Backed(s.heard, a.View, a.Seq, a.Digest, f)
  }

  /** The report covers a commit: it is below the reported checkpoint, or it is listed with its digest. */
  ghost predicate Covers(r: Report, n: int, d: string) {
    n <= r.vc.CP.Seq || exists k :: 0 <= k < |r.vc.P| && r.vc.P[k].PP.View == r.at && r.vc.P[k].PP.Seq == n && r.vc.P[k].PP.Digest == d
  }

  /** Everything a report lists was prepared by a quorum. */
  ghost predicate ReportBacked(r: Report, heard: set<Vote>, f: nat) {
    forall k :: 0 <= k < |r.vc.P| ==>
      var pp := r.vc.P[k].PP;
      0 <= pp.View <= r.at && pp.Seq > r.vc.CP.Seq && Backed(heard, pp.View, pp.Seq, pp.Digest, f)
  }

  ghost predicate ReportsFaithful(s: State, f: nat) {
    forall r :: r in s.reported ==>
      && r.vc.Rid == s.id && r.at <= s.view && (r.at == s.view ==> s.changing) && r.vc.CP.Seq >= -1
      && ReportBacked(r, s.heard, f)
      && (forall a :: CommitMessage(a) in s.sent && a.View == r.at ==> Covers(r, a.Seq, a.Digest))
  }

  ghost predicate Votes(s: State, f: nat) {
    LogRecorded(s) && PreparesKept(s) && PreparedOnce(s) && CommitsKept(s) && CommitsBacked(s, f) && ReportsFaithful(s, f)
  }

  ghost predicate Invariant(s: State, f: nat) {
    Ordered(s) && Votes(s, f)
  }

  // ---------- quiet steps ----------

  lemma SameSent(before: seq<Message>, after: seq<Message>)
    requires OnlyHarmless(before, after)
    ensures forall m :: m in before ==> m in after
    ensures forall a :: PrepareMessage(a) in after ==> PrepareMessage(a) in before
    ensures forall a :: CommitMessage(a) in after ==> CommitMessage(a) in before
  {
    forall m | m in before
      ensures m in after
    {
      var k :| 0 <= k < |before| && before[k] == m;
      assert after[k] == m;
    }
    forall m | m in after && !Harmless(m)
      ensures m in before
    {
      var k :| 0 <= k < |after| && after[k] == m;
      assert before[k] == m;
    }
    forall a | PrepareMessage(a) in after
      ensures PrepareMessage(a) in before
    {
      assert !Harmless(PrepareMessage(a));
    }
    forall a | CommitMessage(a) in after
      ensures CommitMessage(a) in before
    {
      assert !Harmless(CommitMessage(a));
    }
  }

  lemma QuietKeepsVotes(s: State, r: State, f: nat)
    requires Votes(s, f) && Quiet(s, r)
    ensures Votes(r, f)
  {
    SameSent(s.sent, r.sent);
    forall a | PrepareOut(r, a)
      ensures PrepareOut(s, a)
    {
    }
  }

  // ---------- touching one entry ----------

  /** Commits and empty entries: the stored pre-prepare and prepares do not change. */
  ghost predicate OnlyCommits(before: Entry, after: Entry) {
    after.pp == before.pp && after.p == before.p && after.sendCommit == before.sendCommit && after.sendReply == before.sendReply
  }

  lemma TouchKeeps(s: State, id: EntryId, e: Entry, f: nat)
    requires Invariant(s, f) && OnlyCommits(At(s, id), e)
    requires forall k :: 0 <= k < |e.c| ==> e.c[k] in At(s, id).c || (e.c[k].View == id.v && e.c[k].Seq == id.n && e.c[k] in s.confirmed)
    ensures Invariant(Put(s, id, e), f)
  {
    var r := Put(s, id, e);
    forall k | 0 <= k < |r.queue|
      ensures TaskReady(r.log, r.queue[k])
    {
      assert TaskReady(s.log, s.queue[k]);
    }
    forall a | PrepareOut(r, a)
      ensures PrepareOut(s, a)
    {
    }
  }

  lemma ConfirmedKeeps(s: State, a: Vote, f: nat)
    requires Invariant(s, f)
    ensures Invariant(s.(confirmed := s.confirmed + {a}), f)
  {
    var r := s.(confirmed := s.confirmed + {a});
    forall x | PrepareOut(r, x)
      ensures PrepareOut(s, x)
    {
    }
  }

  lemma StopKeeps(s: State, f: nat)
    requires Invariant(s, f)
    ensures Invariant(StopTimer(s), f)
  {
    var r := StopTimer(s);
    forall a | PrepareOut(r, a)
      ensures PrepareOut(s, a)
    {
    }
  }

  lemma WindowAboveStable(s: State, v: int, n: int)
    requires CheckPointsOrdered(s) && InWindow(s, v, n)
    ensures n >= s.lastcp && n >= 0
  {
  }

  // ---------- commits ----------

  /** A commit message, from anyone, keeps the invariant; it panics only on a number already queued. */
  lemma CommitKeeps(s: State, a: Vote, cfg: Config)
    requires Invariant(s, cfg.f) && !s.panic
    ensures Invariant(OnCommit(s, a, cfg), cfg.f)
    ensures OnCommit(s, a, cfg).panic ==> a.Seq > s.apply && Queued(s.queue, a.Seq)
  {
    hide Execute, Invariant, Committed;
    StopKeeps(s, cfg.f);
    var s1, id := StopTimer(s), EntryId(a.View, a.Seq);
    var e := At(s1, id);
    TouchKeeps(s1, id, e, cfg.f);
    ConfirmedKeeps(s1, a, cfg.f);
    TouchKeeps(s1.(confirmed := s1.confirmed + {a}), id, e.(c := e.c + [a]), cfg.f);
    var s2 := Put(s1.(confirmed := s1.confirmed + {a}), id, e.(c := e.c + [a]));
    if Executable(s2, a) {
      QuietExecution(s2, a, cfg);
    }
  }

  lemma QuietExecution(s: State, a: Vote, cfg: Config)
    requires Invariant(s, cfg.f) && Executable(s, a) && !s.panic
    ensures Invariant(Execute(s, a, cfg), cfg.f)
    ensures Execute(s, a, cfg).panic ==> a.Seq > s.apply && Queued(s.queue, a.Seq)
  {
    ExecuteKeeps(s, a, cfg);
    hide Votes, Ordered, Quiet, Execute;
    QuietKeepsVotes(s, Execute(s, a, cfg), cfg.f);
  }

  // ---------- sending a commit ----------

  /** The own commit is handled before `sendCommit` is set, so it never executes anything. */
  lemma OwnCommitOnlyRecorded(s: State, id: EntryId, cfg: Config)
    requires id in s.log && s.log[id].pp.Some? && s.log[id].pp.value.Seq == id.n && !s.log[id].sendCommit
    requires !s.changing && InWindow(s, id.v, id.n)
    ensures var pp := s.log[id].pp.value;
            var c := Vote(id.v, id.n, pp.Digest, s.id);
            SendCommit(s, id, cfg) ==
              Put(StopTimer(Send(s.(seqmap := s.seqmap[pp.Message.Op := id.n], confirmed := s.confirmed + {c}), CommitMessage(c))), id,
                  s.log[id].(c := s.log[id].c + [c], sendCommit := true))
  {
    hide Execute;
  }

  lemma VotersSnoc(votes: seq<Vote>, v: Vote, pp: PrePrepareArgs)
    ensures Voters(votes + [v], pp) ==
              Voters(votes, pp) + if v.View == pp.View && v.Seq == pp.Seq && v.Digest == pp.Digest then {v.Rid} else {}
  {
    var all := votes + [v];
    forall r | r in Voters(votes, pp)
      ensures r in Voters(all, pp)
    {
      var k :| 0 <= k < |votes| && votes[k].View == pp.View && votes[k].Seq == pp.Seq && votes[k].Digest == pp.Digest && votes[k].Rid == r;
      assert all[k] == votes[k];
    }
    forall r | r in Voters(all, pp)
      ensures r in Voters(votes, pp) || (v.View == pp.View && v.Seq == pp.Seq && v.Digest == pp.Digest && r == v.Rid)
    {
      var k :| 0 <= k < |all| && all[k].View == pp.View && all[k].Seq == pp.Seq && all[k].Digest == pp.Digest && all[k].Rid == r;
      assert k < |votes| ==> votes[k] == all[k];
    }
    assert all[|votes|] == v;
  }

  /** There are no more voters than votes. */
  lemma {:induction false} FewVoters(votes: seq<Vote>, pp: PrePrepareArgs)
    ensures |Voters(votes, pp)| <= |votes|
  {
    if votes != [] {
      var m := |votes| - 1;
      FewVoters(votes[..m], pp);
      VotersSnoc(votes[..m], votes[m], pp);
      assert votes == votes[..m] + [votes[m]];
    }
  }

  lemma EnoughVoters(e: Entry, heard: set<Vote>, f: nat)
    requires e.pp.Some? && Prepared(e, f) && forall k :: 0 <= k < |e.p| ==> e.p[k] in heard
    ensures Backed(heard, e.pp.value.View, e.pp.value.Seq, e.pp.value.Digest, f)
  {
    var pp := e.pp.value;
    var a, b := Voters(e.p, pp), Supporters(heard, pp.View, pp.Seq, pp.Digest);
    forall r | r in a
      ensures r in b
    {
      var k :| 0 <= k < |e.p| && e.p[k].View == pp.View && e.p[k].Seq == pp.Seq && e.p[k].Digest == pp.Digest && e.p[k].Rid == r;
      assert e.p[k] in heard;
    }
    SubsetSize(a, b);
  }

  /** `r` is `s` with one commit sent for a prepared entry of the current view. */
  ghost predicate CommitAdded(s: State, r: State, id: EntryId) {
    && id in s.log && s.log[id].pp.Some?
    && (var c := Vote(id.v, id.n, s.log[id].pp.value.Digest, s.id);
        r == s.(monitor := r.monitor, vcCount := r.vcCount, seqmap := r.seqmap, sent := s.sent + [CommitMessage(c)],
                confirmed := s.confirmed + {c},
                log := s.log[id := s.log[id].(c := s.log[id].c + [c], sendCommit := true)]))
  }

  lemma CommitAddedOrder(s: State, r: State, id: EntryId)
    requires Ordered(s) && CommitAdded(s, r, id)
    ensures Ordered(r)
  {
    forall k | 0 <= k < |r.queue|
      ensures TaskReady(r.log, r.queue[k])
    {
      assert TaskReady(s.log, s.queue[k]);
    }
  }

  lemma CommitAddedVotes(s: State, r: State, id: EntryId, f: nat)
    requires Votes(s, f) && CommitAdded(s, r, id) && id.v == s.view && !s.changing
    requires Backed(s.heard, id.v, id.n, s.log[id].pp.value.Digest, f)
    ensures Votes(r, f)
  {
    var c := Vote(id.v, id.n, s.log[id].pp.value.Digest, s.id);
    assert r.sent[|s.sent|] == CommitMessage(c);
    forall m | m in s.sent
      ensures m in r.sent
    {
    }
    forall a | PrepareOut(r, a)
      ensures PrepareOut(s, a)
    {
    }
    forall a | CommitMessage(a) in r.sent
      ensures CommitMessage(a) in s.sent || a == c
    {
    }
  }

  lemma SendCommitKeeps(s: State, id: EntryId, cfg: Config)
    requires Invariant(s, cfg.f) && id in s.log && s.log[id].pp.Some? && !s.log[id].sendCommit && Prepared(s.log[id], cfg.f)
    requires !s.changing && InWindow(s, id.v, id.n)
    ensures Invariant(SendCommit(s, id, cfg), cfg.f) && SendCommit(s, id, cfg).panic == s.panic
  {
    assert EntryRecorded(s, id, s.log[id]);
    EnoughVoters(s.log[id], s.heard, cfg.f);
    OwnCommitOnlyRecorded(s, id, cfg);
    var r := SendCommit(s, id, cfg);
    hide Votes, Ordered, SendCommit;
    CommitAddedOrder(s, r, id);
    CommitAddedVotes(s, r, id, cfg.f);
  }

  // ---------- prepares ----------

  lemma HeardKeeps(s: State, a: Vote, f: nat)
    requires Invariant(s, f)
    ensures Invariant(s.(heard := s.heard + {a}), f)
  {
    var r := s.(heard := s.heard + {a});
    forall v, n, d | Backed(s.heard, v, n, d, f)
      ensures Backed(r.heard, v, n, d, f)
    {
      SubsetSize(Supporters(s.heard, v, n, d), Supporters(r.heard, v, n, d));
    }
    forall x | PrepareOut(r, x)
      ensures PrepareOut(s, x)
    {
    }
  }

  lemma RecordPrepareOrder(s: State, a: Vote)
    requires Ordered(s)
    ensures var id := EntryId(a.View, a.Seq); Ordered(Put(s, id, At(s, id).(p := At(s, id).p + [a])))
  {
    var id := EntryId(a.View, a.Seq);
    var r := Put(s, id, At(s, id).(p := At(s, id).p + [a]));
    forall k | 0 <= k < |r.queue|
      ensures TaskReady(r.log, r.queue[k])
    {
      assert TaskReady(s.log, s.queue[k]);
    }
  }

  /** Records one prepare on its entry. */
  lemma RecordPrepare(s: State, a: Vote, f: nat)
    requires Invariant(s, f) && a in s.heard
    ensures var id := EntryId(a.View, a.Seq); Invariant(Put(s, id, At(s, id).(p := At(s, id).p + [a])), f)
  {
    RecordPrepareOrder(s, a);
    hide Ordered;
    var id := EntryId(a.View, a.Seq);
    var r := Put(s, id, At(s, id).(p := At(s, id).p + [a]));
    forall x | PrepareOut(r, x)
      ensures PrepareOut(s, x)
    {
    }
  }

  /** A prepare message keeps the invariant and never panics. */
  lemma PrepareKeeps(s: State, a: Vote, aux: Aux, cfg: Config)
    requires Invariant(s, cfg.f)
    ensures var r := OnPrepare(s, a, aux, cfg); Invariant(r, cfg.f) && r.panic == s.panic
  {
    hide Invariant, Prepared, SendCommit;
    StopKeeps(s, cfg.f);
    var s1, id := StopTimer(s), EntryId(a.View, a.Seq);
    var e := At(s1, id);
    TouchKeeps(s1, id, e, cfg.f);
    HeardKeeps(s1, a, cfg.f);
    var s2 := s1.(heard := s1.heard + {a});
    RecordPrepare(s2, a, cfg.f);
    var s3 := Put(s2, id, e.(p := e.p + [a]));
    if s3.log[id].pp.Some? && !s3.log[id].sendCommit && Prepared(s3.log[id], cfg.f) && !s3.changing && InWindow(s3, id.v, id.n) {
      SendCommitKeeps(s3, id, cfg);
    }
  }

  // ---------- pre-prepares ----------

  /** Accepts a pre-prepare into an entry that had none, or the same digest, and sends the prepare. */
  ghost function Accepted(s: State, a: PrePrepareArgs): State {
    var id := EntryId(a.View, a.Seq);
    Send(Put(s, id, At(s, id).(pp := Some(a))), PrepareMessage(Vote(a.View, a.Seq, a.Digest, s.id)))
  }

  ghost predicate Acceptable(s: State, a: PrePrepareArgs) {
    var e := At(s, EntryId(a.View, a.Seq));
    e.pp.None? || (e.pp.value.Digest == a.Digest && e.pp.value.Seq == a.Seq)
  }

  lemma AcceptOrder(s: State, a: PrePrepareArgs)
    requires Ordered(s) && Acceptable(s, a)
    ensures Ordered(Accepted(s, a))
  {
    var r := Accepted(s, a);
    forall k | 0 <= k < |r.queue|
      ensures TaskReady(r.log, r.queue[k])
    {
      assert TaskReady(s.log, s.queue[k]);
    }
  }

  lemma AcceptSent(s: State, a: PrePrepareArgs)
    ensures var r, p := Accepted(s, a), Vote(a.View, a.Seq, a.Digest, s.id);
            && (forall m :: m in s.sent ==> m in r.sent)
            && (forall x :: PrepareOut(r, x) ==> PrepareOut(s, x) || x == p)
            && (forall x :: CommitMessage(x) in r.sent ==> CommitMessage(x) in s.sent)
  {
    var r := Accepted(s, a);
    assert r.sent[|s.sent|] == PrepareMessage(Vote(a.View, a.Seq, a.Digest, s.id));
  }

  lemma AcceptLog(s: State, a: PrePrepareArgs)
    requires LogRecorded(s) && Acceptable(s, a) && s.view == a.View && s.view >= 0
    ensures LogRecorded(Accepted(s, a))
  {
    AcceptSent(s, a);
    var r := Accepted(s, a);
    forall id | id in r.log
      ensures EntryRecorded(r, id, r.log[id])
    {
      if id in s.log { assert EntryRecorded(s, id, s.log[id]); }
    }
  }

  /** The heart of the matter: an accepted pre-prepare never contradicts an earlier prepare, even one whose entry is gone. */
  lemma AcceptPrepares(s: State, a: PrePrepareArgs)
    requires PreparesKept(s) && PreparedOnce(s) && CheckPointsOrdered(s) && Acceptable(s, a) && InWindow(s, a.View, a.Seq)
    ensures PreparesKept(Accepted(s, a)) && PreparedOnce(Accepted(s, a))
  {
    AcceptSent(s, a);
    WindowAboveStable(s, a.View, a.Seq);
    forall x | PrepareOut(s, x) && x.View == a.View && x.Seq == a.Seq
      ensures x.Digest == a.Digest
    {
      assert HasDigest(s.log, EntryId(a.View, a.Seq), x.Digest);
    }
  }

  lemma AcceptVotes(s: State, a: PrePrepareArgs, f: nat)
    requires Votes(s, f) && CheckPointsOrdered(s) && Acceptable(s, a) && InWindow(s, a.View, a.Seq)
    ensures Votes(Accepted(s, a), f)
  {
    AcceptSent(s, a);
    AcceptLog(s, a);
    AcceptPrepares(s, a);
    hide LogRecorded, PreparesKept, PreparedOnce;
  }

  lemma PrePrepareKeeps(s: State, a: PrePrepareArgs, aux: Aux, cfg: Config)
    requires Invariant(s, cfg.f)
    ensures var r := OnPrePrepare(s, a, aux, cfg); Invariant(r, cfg.f) && r.panic == s.panic
  {
    StopKeeps(s, cfg.f);
    var s1, id := StopTimer(s), EntryId(a.View, a.Seq);
    TouchKeeps(s1, id, At(s1, id), cfg.f);
    if InWindow(s1, a.View, a.Seq) && Acceptable(s1, a) {
      AcceptOrder(s1, a);
      AcceptVotes(s1, a, cfg.f);
      hide Votes, Ordered, OnPrepare;
      PrepareKeeps(Accepted(s1, a), Vote(a.View, a.Seq, a.Digest, s.id), aux, cfg);
    }
  }

  // ---------- requests ----------

  ghost predicate NoVote(m: Message) {
    !m.PrepareMessage? && !m.CommitMessage?
  }

  /** Sending something that is not a vote, and changing the numbering, keeps the invariant. */
  lemma OtherSent(s: State, r: State, m: Message, f: nat)
    requires Invariant(s, f) && NoVote(m)
    requires r == s.(seqmap := r.seqmap, tSeq := r.tSeq, monitor := r.monitor, vcs := r.vcs, sent := s.sent + [m])
    ensures Invariant(r, f)
  {
    forall x | x in s.sent
      ensures x in r.sent
    {
    }
    forall x | PrepareOut(r, x)
      ensures PrepareOut(s, x)
    {
    }
    forall a | CommitMessage(a) in r.sent
      ensures CommitMessage(a) in s.sent
    {
    }
  }

  lemma RequestKeeps(s: State, args: RequestArgs, aux: Aux, cfg: Config)
    requires Invariant(s, cfg.f) && cfg.n > 0
    ensures var r := OnRequest(s, args, aux, cfg); Invariant(r, cfg.f) && r.panic == s.panic
  {
    hide Invariant, OnPrePrepare;
    if s.changing {
    } else if s.view % cfg.n == s.id {
      if args.Op !in s.seqmap {
        if s.tSeq < s.H && aux.auxiliary.Some? {
          var pp := PrePrepareArgs(s.view, s.tSeq, aux.auxiliary.value, args);
          var s1 := Send(s.(seqmap := s.seqmap[args.Op := s.tSeq], tSeq := s.tSeq + 1), PrePrepareMessage(pp));
          OtherSent(s, s1, PrePrepareMessage(pp), cfg.f);
          PrePrepareKeeps(s1, pp, aux, cfg);
        }
      } else {
        RepeatKeeps(s, args, aux, cfg);
      }
    } else if !s.monitor {
      OtherSent(s, OnRequest(s, args, aux, cfg), RequestMessage(args), cfg.f);
    }
  }

  /** A request that already has a number. */
  lemma RepeatKeeps(s: State, args: RequestArgs, aux: Aux, cfg: Config)
    requires Invariant(s, cfg.f) && args.Op in s.seqmap
    ensures var r := OnRequestLeader(s, args, aux, cfg); Invariant(r, cfg.f) && r.panic == s.panic
  {
    hide Invariant, OnPrePrepare;
    var id := EntryId(s.view, s.seqmap[args.Op]);
    var e := At(s, id);
    TouchKeeps(s, id, e, cfg.f);
    var s1 := Put(s, id, e);
    if e.pp.Some? {
      OtherSent(s1, Send(s1, PrePrepareMessage(e.pp.value)), PrePrepareMessage(e.pp.value), cfg.f);
      PrePrepareKeeps(Send(s1, PrePrepareMessage(e.pp.value)), e.pp.value, aux, cfg);
    }
    if e.r.Some? {
      OtherSent(s1, Send(s1, ResponseMessage(e.r.value)), ResponseMessage(e.r.value), cfg.f);
    }
  }

  // ---------- entering a new view ----------

  lemma {:induction false} MinFound(V: seq<ViewChangeArgs>)
    ensures MinS(V) >= -1 && forall k :: 0 <= k < |V| ==> V[k].CP.Seq <= MinS(V)
    ensures MinS(V) > -1 ==> exists k :: 0 <= k < |V| && V[k].CP.Seq == MinS(V)
  {
    if V != [] {
      MinFound(V[..|V| - 1]);
    }
  }

  lemma {:induction false} FirstFound(V: seq<ViewChangeArgs>, n: int)
    requires exists k :: 0 <= k < |V| && V[k].CP.Seq == n
    ensures FirstWith(V, n).Some? && FirstWith(V, n).value.Seq == n
  {
    var k :| 0 <= k < |V| && V[k].CP.Seq == n;
    if V[0].CP.Seq != n {
      assert V[1..][k - 1].CP.Seq == n;
      FirstFound(V[1..], n);
    }
  }

  lemma StableIsLast(s: State)
    requires CheckPointsOrdered(s)
    ensures HasStable(s.cps) && StableKey(s.cps) == s.lastcp && s.cps[StableKey(s.cps)].Seq == s.lastcp
  {
  }

  /** The stable checkpoint a replica has once it entered a view on V. */
  ghost function StableAfter(s: State, V: seq<ViewChangeArgs>): int {
    if MinS(V) > s.lastcp then MinS(V) else s.lastcp
  }

  lemma CatchUpKeeps(s: State, V: seq<ViewChangeArgs>)
    requires Ordered(s)
    ensures HasStable(s.cps)
    ensures var r := CatchUp(s, V, MinS(V));
            Ordered(r) && Quiet(s, r) && r.panic == s.panic && r.view == s.view && r.lastcp == StableAfter(s, V)
  {
    StableIsLast(s);
    MinFound(V);
    QuietRefl(s, s.cps);
    var mins := MinS(V);
    if mins > s.lastcp {
      FirstFound(V, mins);
      var c := FirstWith(V, mins).value;
      var s1 := s.(cps := s.cps[mins := CheckPoint(c.Seq, true, c.Digest, c.View, [])]);
      QuietRefl(s, s1.cps);
      assert AboutToStabilize(s1, mins);
      CpsIrrelevant(s, s1.cps);
      var proof := CheckPointArgs(c.Seq, c.Digest, s.id, s.view);
      hide Ordered, Quiet, QueueOrdered, ExecutedInOrder, CheckPointsOrdered, Stabilize, AboutToStabilize;
      StabilizeKeeps(s1, mins, proof);
      QuietTrans(s, s1, Stabilize(s1, mins, proof));
    }
  }

  /** The slot listed last for number `n`. */
  ghost function SlotAt(pps: seq<PrePrepareArgs>, n: int): Option<PrePrepareArgs> {
    if pps == [] then None
    else if pps[|pps| - 1].Seq == n then Some(pps[|pps| - 1])
    else SlotAt(pps[..|pps| - 1], n)
  }

  ghost predicate InSlot(id: EntryId, view: int, pps: seq<PrePrepareArgs>) {
    id.v == view && SlotAt(pps, id.n).Some?
  }

  /** What installing slots does to the log: every slot's entry gets its pre-prepare, everything else stays. */
  ghost predicate Installed(s: State, r: State, view: int, pps: seq<PrePrepareArgs>) {
    && r == s.(log := r.log, seqmap := r.seqmap)
    && (forall id :: id in r.log <==> id in s.log || InSlot(id, view, pps))
    && (forall id :: id in r.log ==> r.log[id] == if InSlot(id, view, pps) then At(s, id).(pp := SlotAt(pps, id.n)) else s.log[id])
  }

  lemma {:induction false} InstallKeeps(s: State, view: int, pps: seq<PrePrepareArgs>)
    ensures Installed(s, InstallSlots(s, view, pps), view, pps)
  {
    if pps != [] {
      InstallKeeps(s, view, pps[..|pps| - 1]);
    }
  }

  lemma {:induction false} NumberedSlots(pps: seq<PrePrepareArgs>, mins: int, n: int)
    requires forall k :: 0 <= k < |pps| ==> pps[k].Seq == mins + 1 + k
    ensures SlotAt(pps, n) == if mins < n <= mins + |pps| then Some(pps[n - mins - 1]) else None
  {
    if pps != [] {
      NumberedSlots(pps[..|pps| - 1], mins, n);
    }
  }

  /** `r` entered the view: slots installed, old entries cut, prepares waiting to be sent. */
  ghost predicate Entered(s: State, m: State, r: State, view: int, mins: int, pps: seq<PrePrepareArgs>) {
    && Installed(s, m, view, pps)
    && r == m.(view := view, log := LogFrom(m.log, mins), changing := false, monitor := r.monitor, vcCount := r.vcCount, vcs := r.vcs,
               tSeq := r.tSeq, pending := m.pending + PreparesFor(s.id, view, pps))
    && view > s.view && mins <= s.lastcp
    && (forall k :: 0 <= k < |pps| ==> pps[k].View == view && pps[k].Seq == mins + 1 + k)
  }

  lemma EnteredOrder(s: State, m: State, r: State, view: int, mins: int, pps: seq<PrePrepareArgs>)
    requires Ordered(s) && LogRecorded(s) && Entered(s, m, r, view, mins, pps)
    ensures Ordered(r)
  {
    forall k | 0 <= k < |r.queue|
      ensures TaskReady(r.log, r.queue[k])
    {
      assert TaskReady(s.log, s.queue[k]);
      var id := EntryId(s.queue[k].View, s.queue[k].Seq);
      assert EntryRecorded(s, id, s.log[id]);
      assert !InSlot(id, view, pps);
    }
  }

  lemma EnteredLog(s: State, m: State, r: State, view: int, mins: int, pps: seq<PrePrepareArgs>)
    requires LogRecorded(s) && Entered(s, m, r, view, mins, pps) && s.view >= 0
    ensures LogRecorded(r)
  {
    forall id | id in r.log
      ensures EntryRecorded(r, id, r.log[id])
    {
      NumberedSlots(pps, mins, id.n);
      if id in s.log { assert EntryRecorded(s, id, s.log[id]); }
    }
  }

  lemma EnteredOut(s: State, m: State, r: State, view: int, mins: int, pps: seq<PrePrepareArgs>, a: Vote)
    requires Entered(s, m, r, view, mins, pps) && PrepareOut(r, a)
    ensures PrepareOut(s, a) || (a.View == view && mins < a.Seq <= mins + |pps| && a.Rid == s.id
                                 && a.Digest == pps[a.Seq - mins - 1].Digest && HasDigest(r.log, EntryId(view, a.Seq), a.Digest))
  {
    var ps := PreparesFor(s.id, view, pps);
    if !PrepareOut(s, a) {
      assert a in ps;
      NumberedSlots(pps, mins, a.Seq);
      assert InSlot(EntryId(view, a.Seq), view, pps);
    }
  }

  lemma EnteredPrepares(s: State, m: State, r: State, view: int, mins: int, pps: seq<PrePrepareArgs>)
    requires PreparesKept(s) && PreparedOnce(s) && Entered(s, m, r, view, mins, pps)
    ensures PreparesKept(r) && PreparedOnce(r)
  {
    assert r.view == view && r.id == s.id && view > s.view;
    forall a | PrepareOut(r, a)
      ensures a.Rid == r.id && a.View <= r.view && (a.View == r.view ==> HasDigest(r.log, EntryId(a.View, a.Seq), a.Digest))
    {
      EnteredOut(s, m, r, view, mins, pps, a);
    }
    forall a, b | PrepareOut(r, a) && PrepareOut(r, b) && a.View == b.View && a.Seq == b.Seq
      ensures a.Digest == b.Digest
    {
      EnteredOut(s, m, r, view, mins, pps, a);
      EnteredOut(s, m, r, view, mins, pps, b);
    }
  }

  lemma EnteredVotes(s: State, m: State, r: State, view: int, mins: int, pps: seq<PrePrepareArgs>, f: nat)
    requires Votes(s, f) && Entered(s, m, r, view, mins, pps)
    ensures Votes(r, f)
  {
    EnteredLog(s, m, r, view, mins, pps);
    EnteredPrepares(s, m, r, view, mins, pps);
    hide LogRecorded, PreparesKept, PreparedOnce;
  }

  lemma TakeOverKeeps(s: State, view: int, V: seq<ViewChangeArgs>, f: nat)
    requires Invariant(s, f) && view > s.view && MinS(V) <= s.lastcp
    ensures Invariant(TakeOver(s, view, V), f) && TakeOver(s, view, V).panic == s.panic
  {
    var pps, s1 := NewViewSlots(view, V), s.(tSeq := MaxS(V) + 1);
    NumberingIrrelevant(s, s1, f);
    InstallKeeps(s1, view, pps);
    SlotNumbers(view, V);
    hide NewViewSlots, Installed, InstallSlots;
    var m, r := InstallSlots(s1, view, pps), TakeOver(s, view, V);
    assert Entered(s1, m, r, view, MinS(V), pps);
    InstalledPanic(s1, m, view, pps);
    assert r.panic == m.panic;
    hide Entered, TakeOver;
    EnteredOrder(s1, m, r, view, MinS(V), pps);
    EnteredVotes(s1, m, r, view, MinS(V), pps, f);
  }

  lemma InstalledPanic(s: State, m: State, view: int, pps: seq<PrePrepareArgs>)
    requires Installed(s, m, view, pps)
    ensures m.panic == s.panic
  {
  }

  /** Entering a view raises it. */
  lemma EnterRaises(s: State, nv: NewViewArgs)
    requires HasStable(s.cps)
    ensures EnterNewView(s, nv).view == nv.View
  {
    hide CatchUp, InstallSlots, NewViewSlots;
  }

  /** Entering a view, on any set of view changes, keeps the invariant. */
  lemma EnterKeeps(s: State, nv: NewViewArgs, f: nat)
    requires Invariant(s, f) && nv.View > s.view
    ensures HasStable(s.cps)
    ensures var r := EnterNewView(s, nv); Invariant(r, f) && r.panic == s.panic
  {
    CatchUpKeeps(s, nv.V);
    var c := CatchUp(s, nv.V, MinS(nv.V));
    QuietKeepsVotes(s, c, f);
    hide CatchUp, Votes, Quiet, Ordered, TakeOver;
    TakeOverKeeps(c, nv.View, nv.V, f);
  }

  lemma SlotNumbers(view: int, V: seq<ViewChangeArgs>)
    ensures var pps := NewViewSlots(view, V);
            forall k :: 0 <= k < |pps| ==> pps[k].View == view && pps[k].Seq == MinS(V) + 1 + k
  {
  }

  lemma NumberingIrrelevant(s: State, r: State, f: nat)
    requires Invariant(s, f) && r == s.(tSeq := r.tSeq, vcs := r.vcs)
    ensures Invariant(r, f)
  {
    forall x | PrepareOut(r, x)
      ensures PrepareOut(s, x)
    {
    }
  }

  lemma LeadKeeps(s: State, view: int, got: seq<ViewChangeArgs>, f: nat)
    requires Invariant(s, f) && view > s.view
    ensures var r := LeadNewView(s, view, got); Invariant(r, f) && r.panic == s.panic
  {
    StableIsLast(s);
    hide Invariant, EnterNewView, NewViewSlots, HasStable;
    var nv := NewViewArgs(view, got, NewViewSlots(view, got));
    OtherSent(s, Send(s, NewViewMessage(nv)), NewViewMessage(nv), f);
    EnterKeeps(Send(s, NewViewMessage(nv)), nv, f);
  }

  lemma ViewChangeKeeps(s: State, a: ViewChangeArgs, cfg: Config)
    requires Invariant(s, cfg.f) && cfg.n > 0
    ensures var r := OnViewChange(s, a, cfg); Invariant(r, cfg.f) && r.panic == s.panic
  {
    hide Invariant, LeadNewView;
    if a.View > s.view {
      var s1 := StoreViewChange(s, a);
      NumberingIrrelevant(s, s1, cfg.f);
      LeadKeeps(s1, a.View, s1.vcs[a.View], cfg.f);
    }
  }

  lemma NewViewKeeps(s: State, a: NewViewArgs, cfg: Config)
    requires Invariant(s, cfg.f)
    ensures var r := OnNewView(s, a, cfg);
            Invariant(r, cfg.f) && (r.panic ==> s.panic || SlotsTooShort(NewViewSlots(a.View, a.V), a.O))
  {
    StableIsLast(s);
    hide Votes, Ordered, EnterNewView, NewViewSlots, HasStable, SlotsMatch, SlotsTooShort;
    PanicKeeps(s, cfg.f);
    if a.View > s.view {
      EnterKeeps(s, a, cfg.f);
    }
  }

  lemma PanicKeeps(s: State, f: nat)
    requires Invariant(s, f)
    ensures Invariant(s.(panic := true), f)
  {
    var r := s.(panic := true);
    forall x | PrepareOut(r, x)
      ensures PrepareOut(s, x)
    {
    }
  }

  // ---------- asking for a new view ----------

  lemma ReportMade(s: State, order: seq<EntryId>, f: nat)
    requires Invariant(s, f) && HasStable(s.cps) && ReportOrder(s.log, order, s.cps[StableKey(s.cps)].Seq, f)
    ensures var r := Report(s.view, GeneratedViewChange(s, order));
            && r.vc.Rid == s.id && r.vc.CP.Seq == s.lastcp && ReportBacked(r, s.heard, f)
            && (forall a :: CommitMessage(a) in s.sent && a.View == r.at ==> Covers(r, a.Seq, a.Digest))
  {
    StableIsLast(s);
    var r := Report(s.view, GeneratedViewChange(s, order));
    forall k | 0 <= k < |r.vc.P|
      ensures var pp := r.vc.P[k].PP; 0 <= pp.View <= r.at && pp.Seq > r.vc.CP.Seq && Backed(s.heard, pp.View, pp.Seq, pp.Digest, f)
    {
      var id := order[k];
      assert id in order;
      assert EntryRecorded(s, id, s.log[id]);
      if !s.log[id].sendCommit {
        EnoughVoters(s.log[id], s.heard, f);
      }
    }
    forall a | CommitMessage(a) in s.sent && a.View == r.at
      ensures Covers(r, a.Seq, a.Digest)
    {
      var id := EntryId(a.View, a.Seq);
      if a.Seq > s.lastcp {
        assert CommittedTo(s.log, id, a.Digest);
        assert EntryRecorded(s, id, s.log[id]);
        assert Reportable(s.log, id, s.lastcp, f);
        var k :| 0 <= k < |order| && order[k] == id;
        assert r.vc.P[k].PP == s.log[id].pp.value;
      }
    }
  }

  lemma ReportKept(s: State, rep: Report, count: nat, f: nat)
    requires Invariant(s, f) && rep.at == s.view && rep.vc.Rid == s.id && rep.vc.CP.Seq >= -1 && ReportBacked(rep, s.heard, f)
    requires forall a :: CommitMessage(a) in s.sent && a.View == rep.at ==> Covers(rep, a.Seq, a.Digest)
    ensures Invariant(s.(changing := true, vcCount := count, reported := s.reported + {rep}), f)
  {
    var r := s.(changing := true, vcCount := count, reported := s.reported + {rep});
    forall x | PrepareOut(r, x)
      ensures PrepareOut(s, x)
    {
    }
  }

  lemma AskKeeps(s: State, order: seq<EntryId>, f: nat)
    requires Invariant(s, f) && HasStable(s.cps) && ReportOrder(s.log, order, s.cps[StableKey(s.cps)].Seq, f)
    ensures Invariant(AskForView(s, order), f)
  {
    StableIsLast(s);
    ReportMade(s, order, f);
    hide Votes, Ordered, ReportBacked, Covers, GeneratedViewChange;
    var vc := GeneratedViewChange(s, order);
    ReportKept(s, Report(s.view, vc), s.vcCount + 1, f);
    var s1 := s.(changing := true, vcCount := s.vcCount + 1, reported := s.reported + {Report(s.view, vc)});
    OtherSent(s1, AskForView(s, order), ViewChangeMessage(vc), f);
  }

  lemma TimerKeeps(s: State, order: seq<EntryId>, cfg: Config)
    requires Invariant(s, cfg.f) && cfg.n > 0
    ensures var r := OnTimer(s, order, cfg); Invariant(r, cfg.f) && r.panic == s.panic
  {
    StableIsLast(s);
    if ReportOrder(s.log, order, s.cps[StableKey(s.cps)].Seq, cfg.f) {
      AskKeeps(s, order, cfg.f);
      hide Invariant, OnViewChange, GeneratedViewChange;
      ViewChangeKeeps(AskForView(s, order), GeneratedViewChange(s, order), cfg);
      MonitorKeeps(OnViewChange(AskForView(s, order), GeneratedViewChange(s, order), cfg), cfg.f);
    }
  }

  lemma MonitorKeeps(s: State, f: nat)
    requires Invariant(s, f)
    ensures Invariant(s.(monitor := true), f)
  {
    var r := s.(monitor := true);
    forall x | PrepareOut(r, x)
      ensures PrepareOut(s, x)
    {
    }
  }

  // ---------- every step, every run ----------

  lemma PostponedReady(s: State, r: State, k: nat, f: nat)
    requires Invariant(s, f) && k < |s.pending|
    requires r == Send(s.(pending := s.pending[..k] + s.pending[k + 1..]), PrepareMessage(s.pending[k]))
    ensures Invariant(r, f)
  {
    assert s.pending[k] in s.pending;
    forall x | PrepareOut(r, x)
      ensures PrepareOut(s, x)
    {
    }
    forall a | CommitMessage(a) in r.sent
      ensures CommitMessage(a) in s.sent
    {
    }
    forall m | m in s.sent
      ensures m in r.sent
    {
    }
  }

  lemma PostponedKeeps(s: State, k: nat, aux: Aux, cfg: Config)
    requires Invariant(s, cfg.f) && k < |s.pending|
    ensures var r := SendPostponed(s, k, aux, cfg); Invariant(r, cfg.f) && r.panic == s.panic
  {
    hide Invariant, OnPrepare;
    var s1 := Send(s.(pending := s.pending[..k] + s.pending[k + 1..]), PrepareMessage(s.pending[k]));
    PostponedReady(s, s1, k, cfg.f);
    PrepareKeeps(s1, s.pending[k], aux, cfg);
  }

  /** Every step a replica can take keeps the invariant, whatever it is sent. */
  lemma StepKeeps(s: State, i: Input, cfg: Config)
    requires Invariant(s, cfg.f) && cfg.n > 0
    ensures Invariant(Handle(s, i, cfg), cfg.f)
  {
    hide Invariant, OnRequest, OnPrePrepare, OnPrepare, OnCommit, OnCheckPoint, OnViewChange, OnNewView, OnTimer, SendPostponed;
    if !s.panic {
      match i
      case Timer(order) => TimerKeeps(s, order, cfg);
      case Postponed(k, aux) => if k < |s.pending| { PostponedKeeps(s, k, aux, cfg); }
      case Deliver(msg, aux) =>
        match msg
        case RequestMessage(req) => RequestKeeps(s, req, aux, cfg);
        case PrePrepareMessage(pp) => PrePrepareKeeps(s, pp, aux, cfg);
        case PrepareMessage(p) => PrepareKeeps(s, p, aux, cfg);
        case CommitMessage(c) => CommitKeeps(s, c, cfg);
        case CheckPointMessage(cp) => AnnouncementKeeps(s, cp, cfg);
        case ViewChangeMessage(vc) => ViewChangeKeeps(s, vc, cfg);
        case NewViewMessage(nv) => NewViewKeeps(s, nv, cfg);
        case ResponseMessage(_) =>
    }
  }

  lemma AnnouncementKeeps(s: State, a: CheckPointArgs, cfg: Config)
    requires Invariant(s, cfg.f)
    ensures Invariant(OnCheckPoint(s, a, cfg), cfg.f)
  {
    CheckPointKeeps(s, a, cfg);
    hide Votes, Ordered, Quiet, OnCheckPoint;
    QuietKeepsVotes(s, OnCheckPoint(s, a, cfg), cfg.f);
  }

  lemma InitialInvariant(id: int, initSeq: nat, f: nat)
    ensures Invariant(Initial(id, initSeq), f)
  {
  }

  lemma {:induction false} RunKeeps(id: int, initSeq: nat, inputs: seq<Input>, cfg: Config)
    requires cfg.n > 0
    ensures Invariant(Run(Initial(id, initSeq), inputs, cfg), cfg.f)
  {
    hide Invariant, Handle, Initial;
    if inputs == [] {
      InitialInvariant(id, initSeq, cfg.f);
    } else {
      RunKeeps(id, initSeq, inputs[..|inputs| - 1], cfg);
      StepKeeps(Run(Initial(id, initSeq), inputs[..|inputs| - 1], cfg), inputs[|inputs| - 1], cfg);
    }
  }
}
