/**
 The two panics that are left do happen: for every number of tolerated faults there is a run of one
 replica that ends in each.
 */
module Panics {
  import opened Collections
  import opened Replica
  import opened ReplicaOrder
  import opened ReplicaVotes
  import opened ReplicaGrowth
  import opened Agreement
  import opened NewView
  import opened LeaderViews
  import opened Progress

  /** View changes from replicas 0 to 2f, each reporting the one pre-prepare. */
  ghost function Reports(view: int, pp: PrePrepareArgs, f: nat): (V: seq<ViewChangeArgs>)
    ensures |V| == 2 * f + 1
    ensures forall k :: 0 <= k < |V| ==> V[k] == ViewChangeArgs(view, CheckPointArgs(-1, "", k, 0), [Pm(pp, [])], k)
  {
    seq(2 * f + 1, k => ViewChangeArgs(view, CheckPointArgs(-1, "", k, 0), [Pm(pp, [])], k))
  }

  /** Everybody reports the pre-prepare: it is in the new view's slots, and nothing is below it. */
  lemma ReportedSlot(view: int, pp: PrePrepareArgs, f: nat)
    requires pp.Seq >= 0
    ensures var V := Reports(view, pp, f);
            var pps := NewViewSlots(view, V);
            && MinS(V) == -1 && |pps| > pp.Seq && pps[pp.Seq].Digest == pp.Digest
            && |Changers(NewViewArgs(view, V, []))| == 2 * f + 1
  {
    var V := Reports(view, pp, f);
    MinFound(V);
    assert V[0].CP.Seq <= MinS(V);
    assert V[0].P[0].PP == pp;
    assert Reported(V, pp.Seq);
    SlotsTotal(view, V, pp.Seq);
    assert Changers(NewViewArgs(view, V, [])) == Senders(Range(2 * f + 1)) by {
      forall x | x in Senders(Range(2 * f + 1))
        ensures x in Changers(NewViewArgs(view, V, []))
      {
        RangeSenders(2 * f + 1);
        assert V[x].Rid == x;
      }
      RangeSenders(2 * f + 1);
    }
    RangeSenders(2 * f + 1);
  }

  /** One new-view message without its list makes a fresh replica panic. */
  lemma ShortListPanics(id: int, initSeq: nat, d: string, req: RequestArgs, cfg: Config)
    requires cfg.n > 0
    ensures var V := Reports(1, PrePrepareArgs(0, 0, d, req), cfg.f);
            Run(Initial(id, initSeq), [Deliver(NewViewMessage(NewViewArgs(1, V, [])), ACCEPT)], cfg).panic
  {
    var pp := PrePrepareArgs(0, 0, d, req);
    var a := NewViewArgs(1, Reports(1, pp, cfg.f), []);
    ReportedSlot(1, pp, cfg.f);
    InitialInvariant(id, initSeq, cfg.f);
    RunOne(Initial(id, initSeq), Deliver(NewViewMessage(a), ACCEPT), cfg);
    assert Changers(a) == Changers(NewViewArgs(1, a.V, []));
    hide NewViewSlots, Changers, OnNewView, Invariant;
    NewViewPanics(Initial(id, initSeq), a, cfg);
  }

  // ---------- a number queued twice ----------

  /** The slot is confirmed but not next, with an empty queue; or it waits alone in the queue. */
  ghost predicate Parking(s: State, id: EntryId, d: string, got: set<int>) {
    && Holds(s, id, d) && s.apply + 1 < id.n
    && ((Confirming(s, id, d, got) && s.queue == []) || (s.log[id].sendReply && |s.queue| == 1 && s.queue[0].Seq == id.n))
  }

  ghost predicate OnlyParked(s: State, r: State, id: EntryId) {
    && r == s.(monitor := r.monitor, vcCount := r.vcCount, log := r.log, confirmed := r.confirmed, queue := r.queue)
    && id in s.log && r.log == s.log[id := At(r, id)] && At(r, id).pp == At(s, id).pp
  }

  /** A commit for a task that waits is recorded, and that is all. */
  lemma ParkAgain(s: State, id: EntryId, d: string, x: int, got: set<int>, cfg: Config)
    requires Parking(s, id, d, got) && s.log[id].sendReply
    ensures var r := OnCommit(s, Vote(id.v, id.n, d, x), cfg); Parking(r, id, d, got + {x}) && OnlyParked(s, r, id) && r.queue != []
  {
    hide Execute, Voters;
    var a := Vote(id.v, id.n, d, x);
    assert OnCommit(s, a, cfg) == Put(StopTimer(s).(confirmed := s.confirmed + {a}), id, s.log[id].(c := s.log[id].c + [a]));
  }

  lemma ParkStep(s: State, id: EntryId, d: string, x: int, got: set<int>, cfg: Config)
    requires Invariant(s, cfg.f) && Parking(s, id, d, got)
    ensures var r := OnCommit(s, Vote(id.v, id.n, d, x), cfg);
            && Parking(r, id, d, got + {x}) && OnlyParked(s, r, id) && (|got + {x}| > 2 * cfg.f ==> r.queue != [])
  {
    var a := Vote(id.v, id.n, d, x);
    hide Invariant, Voters;
    if s.log[id].sendReply {
      ParkAgain(s, id, d, x, got, cfg);
    } else {
      hide OnCommit;
      var s2 := CommitConfirms(s, id, d, x, got, cfg);
      var s3 := Put(s2.(queue := [a]), id, At(s2, id).(sendReply := true));
      assert s2.queue == [] ==> InsertTask(s2.queue, a) == [a];
      assert Committed(s2.log[id], cfg.f) ==> Execute(s2, a, cfg) == s3;
    }
  }

  lemma ParkedTrans(a: State, b: State, c: State, id: EntryId)
    requires OnlyParked(a, b, id) && OnlyParked(b, c, id)
    ensures OnlyParked(a, c, id)
  {
  }

  lemma ParkingMeans(s: State, id: EntryId, d: string, got: set<int>)
    requires Parking(s, id, d, got)
    ensures OnlyParked(s, s, id) && !s.panic
  {
  }

  lemma {:induction false} Parked(s: State, id: EntryId, d: string, xs: seq<int>, got: set<int>, cfg: Config)
    requires cfg.n > 0 && Invariant(s, cfg.f) && Parking(s, id, d, got)
    ensures var r := Run(s, Commits(id, d, xs), cfg);
            && Invariant(r, cfg.f) && Parking(r, id, d, got + Senders(xs)) && OnlyParked(s, r, id)
            && (xs != [] && |got + Senders(xs)| > 2 * cfg.f ==> r.queue != [])
  {
    hide Invariant, Run, OnCommit, Parking, OnlyParked, Commits;
    ParkingMeans(s, id, d, got);
    if xs == [] {
      RunNone(s, cfg);
      assert Commits(id, d, xs) == [] && got + Senders(xs) == got;
    } else {
      var m := |xs| - 1;
      Parked(s, id, d, xs[..m], got, cfg);
      var s1 := Run(s, Commits(id, d, xs[..m]), cfg);
      RunLast(s, Commits(id, d, xs[..m]), Commits(id, d, xs), cfg);
      hide Senders;
      SendersSnoc(xs);
      assert got + Senders(xs) == got + Senders(xs[..m]) + {xs[m]};
      ParkingMeans(s1, id, d, got + Senders(xs[..m]));
      ParkStep(s1, id, d, xs[m], got + Senders(xs[..m]), cfg);
      ParkedTrans(s, s1, OnCommit(s1, Vote(id.v, id.n, d, xs[m]), cfg), id);
      CommitKeeps(s1, Vote(id.v, id.n, d, xs[m]), cfg);
    }
  }

  /** Panicked, or waiting for the commits of a number that is queued already. */
  ghost predicate Stuck(s: State, id: EntryId, d: string, got: set<int>) {
    s.panic || (Confirming(s, id, d, got) && s.apply < id.n && Queued(s.queue, id.n))
  }

  lemma StuckStep(s: State, id: EntryId, d: string, x: int, got: set<int>, cfg: Config)
    requires cfg.n > 0 && Invariant(s, cfg.f) && Stuck(s, id, d, got)
    ensures var r := Handle(s, Deliver(CommitMessage(Vote(id.v, id.n, d, x)), ACCEPT), cfg);
            Stuck(r, id, d, got + {x}) && (|got + {x}| > 2 * cfg.f ==> r.panic)
  {
    hide Invariant, Voters, OnCommit, Queued, Holds;
    if !s.panic {
      assert !s.panic && Confirming(s, id, d, got);
      var s2 := CommitConfirms(s, id, d, x, got, cfg);
      assert Committed(s2.log[id], cfg.f) ==> Execute(s2, Vote(id.v, id.n, d, x), cfg) == s2.(panic := true);
    }
  }

  lemma {:induction false} StuckPanics(s: State, id: EntryId, d: string, xs: seq<int>, got: set<int>, cfg: Config)
    requires cfg.n > 0 && Invariant(s, cfg.f) && Stuck(s, id, d, got)
    ensures var r := Run(s, Commits(id, d, xs), cfg);
            Invariant(r, cfg.f) && Stuck(r, id, d, got + Senders(xs)) && (xs != [] && |got + Senders(xs)| > 2 * cfg.f ==> r.panic)
  {
    hide Invariant, Handle, Stuck;
    if xs == [] {
      assert got + Senders(xs) == got;
    } else {
      var m := |xs| - 1;
      var before := Commits(id, d, xs[..m]);
      StuckPanics(s, id, d, xs[..m], got, cfg);
      assert Commits(id, d, xs)[..m] == before;
      var s1 := Run(s, before, cfg);
      hide Run;
      SendersSnoc(xs);
      assert got + Senders(xs) == got + Senders(xs[..m]) + {xs[m]};
      StuckStep(s1, id, d, xs[m], got + Senders(xs[..m]), cfg);
      StepKeeps(s1, Deliver(CommitMessage(Vote(id.v, id.n, d, xs[m])), ACCEPT), cfg);
    }
  }

  /** Through the prepare phase of one slot. */
  lemma ThroughPrepares(s: State, id: EntryId, d: string, cfg: Config)
    requires cfg.n > 0 && Invariant(s, cfg.f) && Collecting(s, id, d, {}) && !s.log[id].sendReply
    ensures var r := Run(s, Prepares(id, d, Range(2 * cfg.f + 1)), cfg);
            Invariant(r, cfg.f) && OnlyVotes(s, r, id) && Confirming(r, id, d, {})
  {
    hide Invariant, Run, Prepares, Voters;
    var xs := Range(2 * cfg.f + 1);
    RangeSenders(2 * cfg.f + 1);
    assert {} + Senders(xs) == Senders(xs);
    PreparesCollected(s, id, d, xs, {}, cfg);
  }

  /** The replica is where it started, except for this one slot. */
  ghost predicate FirstView(s: State, initSeq: nat, id: EntryId) {
    && !s.panic && !s.changing && s.view == 0 && s.lastcp == -1 && s.h == initSeq && s.H == initSeq + 2 * CHECKPOINT_DIV
    && s.apply == initSeq - 1 && s.log.Keys == {id} && s.cps == map[-1 := CheckPoint(-1, true, "", 0, [])]
  }

  lemma AcceptedInFirstView(rid: int, initSeq: nat, pp: PrePrepareArgs, cfg: Config)
    requires cfg.n > 0 && pp.View == 0 && pp.Seq == initSeq + 1
    ensures var s, id := Run(Initial(rid, initSeq), [Deliver(PrePrepareMessage(pp), ACCEPT)], cfg), EntryId(0, pp.Seq);
            && Invariant(s, cfg.f) && FirstView(s, initSeq, id) && s.queue == []
            && Collecting(s, id, pp.Digest, {}) && !s.log[id].sendReply
  {
    var s0, i := Initial(rid, initSeq), Deliver(PrePrepareMessage(pp), ACCEPT);
    InitialInvariant(rid, initSeq, cfg.f);
    RunOne(s0, i, cfg);
    StepKeeps(s0, i, cfg);
    AcceptCollects(s0, pp, cfg);
    assert Handle(s0, i, cfg) == OnPrePrepare(s0, pp, ACCEPT, cfg);
    hide OnPrePrepare, Invariant, Handle;
  }

  /** The first view: the slot after the next one is committed and waits in the queue. */
  lemma QueuedInFirstView(rid: int, initSeq: nat, pp: PrePrepareArgs, cfg: Config) returns (s: State)
    requires cfg.n > 0 && pp.View == 0 && pp.Seq == initSeq + 1
    ensures var id, xs := EntryId(0, pp.Seq), Range(2 * cfg.f + 1);
            s == Run(Initial(rid, initSeq), [Deliver(PrePrepareMessage(pp), ACCEPT)] + Prepares(id, pp.Digest, xs) + Commits(id, pp.Digest, xs), cfg)
    ensures Invariant(s, cfg.f) && FirstView(s, initSeq, EntryId(0, pp.Seq)) && Queued(s.queue, pp.Seq)
  {
    var id, xs, first := EntryId(0, pp.Seq), Range(2 * cfg.f + 1), [Deliver(PrePrepareMessage(pp), ACCEPT)];
    var s0 := Initial(rid, initSeq);
    AcceptedInFirstView(rid, initSeq, pp, cfg);
    var s1 := Run(s0, first, cfg);
    hide Run, Invariant, Initial, Collecting, Confirming, Parking, Prepares, Commits, Senders, OnlyVotes, OnlyParked, FirstView;
    ThroughPrepares(s1, id, pp.Digest, cfg);
    var s2 := Run(s1, Prepares(id, pp.Digest, xs), cfg);
    s := Run(s2, Commits(id, pp.Digest, xs), cfg);
    ParkAll(s1, s2, initSeq, id, pp.Digest, cfg);
    RunConcat(s0, first, Prepares(id, pp.Digest, xs), cfg);
    RunConcat(s0, first + Prepares(id, pp.Digest, xs), Commits(id, pp.Digest, xs), cfg);
  }

  lemma ParkAll(s1: State, s2: State, initSeq: nat, id: EntryId, d: string, cfg: Config)
    requires cfg.n > 0 && FirstView(s1, initSeq, id) && s1.queue == [] && OnlyVotes(s1, s2, id)
    requires Invariant(s2, cfg.f) && Confirming(s2, id, d, {}) && id.n == initSeq + 1
    ensures var s := Run(s2, Commits(id, d, Range(2 * cfg.f + 1)), cfg);
            Invariant(s, cfg.f) && FirstView(s, initSeq, id) && Queued(s.queue, id.n)
  {
    hide Run, Invariant, Commits, Senders, Voters;
    var xs := Range(2 * cfg.f + 1);
    RangeSenders(2 * cfg.f + 1);
    assert {} + Senders(xs) == Senders(xs);
    Parked(s2, id, d, xs, {}, cfg);
    var s := Run(s2, Commits(id, d, xs), cfg);
    assert s.queue[0].Seq == id.n;
  }

  /** Entering the second view keeps the queue, and the slot is there again, untouched. */
  lemma ReenteredSlot(s: State, pp: PrePrepareArgs, cfg: Config)
    requires Invariant(s, cfg.f) && !s.panic && s.view == 0 && s.lastcp == -1 && pp.Seq >= 0 && s.h <= pp.Seq < s.H
    requires EntryId(1, pp.Seq) !in s.log
    ensures var V, id := Reports(1, pp, cfg.f), EntryId(1, pp.Seq);
            var r := OnNewView(s, NewViewArgs(1, V, NewViewSlots(1, V)), cfg);
            && Invariant(r, cfg.f) && Collecting(r, id, pp.Digest, {}) && !r.log[id].sendReply
            && r.apply == s.apply && r.queue == s.queue
  {
    var V, id := Reports(1, pp, cfg.f), EntryId(1, pp.Seq);
    ReportedSlot(1, pp, cfg.f);
    EntersDirectly(s, 1, V, cfg);
    hide NewViewSlots, InstallSlots, Invariant, OnNewView, TakeOver, MaxS, Reports, Changers, Collecting;
    ReenteredEntry(s, pp, cfg.f);
    TakeOverKeeps(s, 1, V, cfg.f);
    TookSlot(s, V, id, pp.Digest);
  }

  lemma ReenteredEntry(s: State, pp: PrePrepareArgs, f: nat)
    requires pp.Seq >= 0 && EntryId(1, pp.Seq) !in s.log
    ensures var V, id := Reports(1, pp, f), EntryId(1, pp.Seq);
            var s1 := s.(tSeq := MaxS(V) + 1);
            var m := InstallSlots(s1, 1, NewViewSlots(1, V));
            && m == s1.(log := m.log, seqmap := m.seqmap)
            && id in m.log && m.log[id].pp.Some? && m.log[id].pp.value.Digest == pp.Digest && !m.log[id].sendReply
  {
    var V := Reports(1, pp, f);
    var pps, s1 := NewViewSlots(1, V), s.(tSeq := MaxS(V) + 1);
    ReportedSlot(1, pp, f);
    SlotNumbers(1, V);
    InstallKeeps(s1, 1, pps);
    hide NewViewSlots, InstallSlots, Installed, MaxS, Reports, Changers;
    FreshSlot(s1, InstallSlots(s1, 1, pps), 1, pps, pp.Seq);
  }

  lemma TookSlot(s: State, V: seq<ViewChangeArgs>, id: EntryId, d: string)
    requires id.v == 1 && id.n >= 0 && !s.panic && s.h <= id.n < s.H && MinS(V) == -1
    requires var m := InstallSlots(s.(tSeq := MaxS(V) + 1), 1, NewViewSlots(1, V));
             && m == s.(tSeq := MaxS(V) + 1, log := m.log, seqmap := m.seqmap)
             && id in m.log && m.log[id].pp.Some? && m.log[id].pp.value.Digest == d && !m.log[id].sendReply
    ensures var r := TakeOver(s, 1, V);
            Collecting(r, id, d, {}) && !r.log[id].sendReply && r.apply == s.apply && r.queue == s.queue
  {
    hide NewViewSlots, InstallSlots, MinS, MaxS, Voters, PreparesFor, VcsFrom;
  }

  lemma StuckAll(s: State, s1: State, id: EntryId, d: string, cfg: Config)
    requires cfg.n > 0 && OnlyVotes(s, s1, id) && s.apply < id.n && Queued(s.queue, id.n)
    requires Invariant(s1, cfg.f) && Confirming(s1, id, d, {})
    ensures Run(s1, Commits(id, d, Range(2 * cfg.f + 1)), cfg).panic
  {
    var xs := Range(2 * cfg.f + 1);
    hide Run, Invariant, Confirming, Commits, Queued, Senders, OnlyVotes;
    VotesKeepQueue(s, s1, id);
    RangeSenders(2 * cfg.f + 1);
    assert {} + Senders(xs) == Senders(xs);
    StuckPanics(s1, id, d, xs, {}, cfg);
  }

  /** The second view: the slot is prepared and committed once more. */
  lemma SecondView(s: State, id: EntryId, d: string, cfg: Config)
    requires cfg.n > 0 && Invariant(s, cfg.f) && Collecting(s, id, d, {}) && !s.log[id].sendReply && s.apply < id.n && Queued(s.queue, id.n)
    ensures var xs := Range(2 * cfg.f + 1); Run(s, Prepares(id, d, xs) + Commits(id, d, xs), cfg).panic
  {
    var xs := Range(2 * cfg.f + 1);
    hide *;
    ThroughPrepares(s, id, d, cfg);
    StuckAll(s, Run(s, Prepares(id, d, xs), cfg), id, d, cfg);
    RunConcat(s, Prepares(id, d, xs), Commits(id, d, xs), cfg);
  }

  lemma Reentered(s: State, initSeq: nat, pp: PrePrepareArgs, cfg: Config)
    requires cfg.n > 0 && Invariant(s, cfg.f) && FirstView(s, initSeq, EntryId(0, pp.Seq)) && pp.Seq == initSeq + 1 && Queued(s.queue, pp.Seq)
    ensures var V, id := Reports(1, pp, cfg.f), EntryId(1, pp.Seq);
            var r := Run(s, [Deliver(NewViewMessage(NewViewArgs(1, V, NewViewSlots(1, V))), ACCEPT)], cfg);
            && Invariant(r, cfg.f) && Collecting(r, id, pp.Digest, {}) && !r.log[id].sendReply && r.apply < id.n && Queued(r.queue, id.n)
  {
    hide Run, OnNewView, Invariant, NewViewSlots, Collecting, Queued, Reports;
    var V := Reports(1, pp, cfg.f);
    var nv := NewViewArgs(1, V, NewViewSlots(1, V));
    ReenteredSlot(s, pp, cfg);
    RunOne(s, Deliver(NewViewMessage(nv), ACCEPT), cfg);
    assert Handle(s, Deliver(NewViewMessage(nv), ACCEPT), cfg) == OnNewView(s, nv, cfg);
  }

  /**
   A number is queued in view 0 because the one before it is missing; the new view lists it again,
   it is prepared and committed in view 1, and the replica panics.
   */
  lemma QueuedTwicePanics(rid: int, initSeq: nat, d: string, req: RequestArgs, cfg: Config)
    requires cfg.n > 0
    ensures var n, xs := initSeq + 1, Range(2 * cfg.f + 1);
            var pp := PrePrepareArgs(0, n, d, req);
            var V := Reports(1, pp, cfg.f);
            var first := [Deliver(PrePrepareMessage(pp), ACCEPT)] + Prepares(EntryId(0, n), d, xs) + Commits(EntryId(0, n), d, xs);
            var change := [Deliver(NewViewMessage(NewViewArgs(1, V, NewViewSlots(1, V))), ACCEPT)];
            var second := Prepares(EntryId(1, n), d, xs) + Commits(EntryId(1, n), d, xs);
            Run(Initial(rid, initSeq), first + change + second, cfg).panic
  {
    var n, xs, s0 := initSeq + 1, Range(2 * cfg.f + 1), Initial(rid, initSeq);
    var pp := PrePrepareArgs(0, n, d, req);
    var V := Reports(1, pp, cfg.f);
    var i := Deliver(NewViewMessage(NewViewArgs(1, V, NewViewSlots(1, V))), ACCEPT);
    var first := [Deliver(PrePrepareMessage(pp), ACCEPT)] + Prepares(EntryId(0, n), d, xs) + Commits(EntryId(0, n), d, xs);
    var second := Prepares(EntryId(1, n), d, xs) + Commits(EntryId(1, n), d, xs);
    hide *;
    var s3 := QueuedInFirstView(rid, initSeq, pp, cfg);
    Reentered(s3, initSeq, pp, cfg);
    SecondView(Run(s3, [i], cfg), EntryId(1, n), d, cfg);
    RunConcat(s0, first, [i], cfg);
    RunConcat(s0, first + [i], second, cfg);
  }
}
