/**
 The set of pre-prepares a new view starts from: what it lists, that leader and followers compute
 and install the same one, and that a slot executed in the first view survives the first change.
 */
module NewView {
  import opened Collections
  import opened Replica
  import opened ReplicaOrder
  import opened ReplicaVotes
  import opened ReplicaGrowth
  import opened ReplicaReplies
  import opened Agreement

  // ---------- what the set lists ----------

  /** Some member of V reports a pre-prepare for number `n`. */
  ghost predicate Reported(V: seq<ViewChangeArgs>, n: int) {
    exists i, j :: 0 <= i < |V| && 0 <= j < |V[i].P| && V[i].P[j].PP.Seq == n
  }

  ghost predicate ReportedAs(V: seq<ViewChangeArgs>, pp: PrePrepareArgs) {
    exists i, j :: 0 <= i < |V| && 0 <= j < |V[i].P| && V[i].P[j].PP == pp
  }

  /** The slot repeats one of the reports for its number. */
  ghost predicate FromReport(V: seq<ViewChangeArgs>, n: int, slot: PrePrepareArgs) {
    exists pp :: ReportedAs(V, pp) && pp.Seq == n && slot.Seq == n && slot.Digest == pp.Digest && slot.Message == pp.Message
  }

  lemma {:induction false} CollectSound(P: seq<Pm>, m: map<int, PrePrepareArgs>, n: int)
    ensures n in CollectReport(P, m) <==> n in m || exists j :: 0 <= j < |P| && P[j].PP.Seq == n
    ensures n in CollectReport(P, m) && (forall j :: 0 <= j < |P| ==> P[j].PP.Seq != n) ==> n in m && CollectReport(P, m)[n] == m[n]
    ensures (exists j :: 0 <= j < |P| && P[j].PP.Seq == n) ==>
              exists j :: 0 <= j < |P| && P[j].PP == CollectReport(P, m)[n] && P[j].PP.Seq == n
  {
    if P != [] {
      var Q, last := P[..|P| - 1], P[|P| - 1];
      CollectSound(Q, m, n);
      if last.PP.Seq == n {
        assert P[|P| - 1].PP == CollectReport(P, m)[n];
      } else {
        assert forall j :: 0 <= j < |Q| ==> Q[j] == P[j];
        if j :| 0 <= j < |Q| && Q[j].PP.Seq == n && Q[j].PP == CollectReport(Q, m)[n] {
          assert P[j].PP == CollectReport(P, m)[n];
        }
      }
    }
  }

  /** The collected table has exactly the reported numbers, each with one of its reports. */
  lemma {:induction false} TableSound(V: seq<ViewChangeArgs>, n: int)
    ensures n in PPrepared(V) <==> Reported(V, n)
    ensures n in PPrepared(V) ==> PPrepared(V)[n].Seq == n && ReportedAs(V, PPrepared(V)[n])
  {
    if V != [] {
      var W, last := V[..|V| - 1], V[|V| - 1];
      TableSound(W, n);
      CollectSound(last.P, PPrepared(W), n);
      if j :| 0 <= j < |last.P| && last.P[j].PP.Seq == n {
        var k :| 0 <= k < |last.P| && last.P[k].PP == PPrepared(V)[n] && last.P[k].PP.Seq == n;
        assert V[|V| - 1].P[k].PP.Seq == n;
      } else {
        if i, k :| 0 <= i < |V| && 0 <= k < |V[i].P| && V[i].P[k].PP.Seq == n {
          assert W[i].P[k].PP.Seq == n;
        }
        if Reported(W, n) {
          var i, k :| 0 <= i < |W| && 0 <= k < |W[i].P| && W[i].P[k].PP == PPrepared(W)[n];
          assert V[i].P[k].PP == PPrepared(V)[n];
        }
      }
    }
  }

  lemma {:induction false} MaxReportedSound(P: seq<Pm>, m: int)
    ensures MaxReported(P, m) >= m && forall j :: 0 <= j < |P| ==> P[j].PP.Seq <= MaxReported(P, m)
  {
    if P != [] {
      MaxReportedSound(P[..|P| - 1], m);
    }
  }

  lemma {:induction false} MaxSound(V: seq<ViewChangeArgs>, n: int)
    requires Reported(V, n)
    ensures n <= MaxSeq(V)
  {
    var i, j :| 0 <= i < |V| && 0 <= j < |V[i].P| && V[i].P[j].PP.Seq == n;
    MaxReportedSound(V[|V| - 1].P, MaxSeq(V[..|V| - 1]));
    if i < |V| - 1 {
      assert V[..|V| - 1][i].P[j].PP.Seq == n;
      MaxSound(V[..|V| - 1], n);
    }
  }

  /**
   The new view's set lists the numbers from min-s + 1 on, once each and in order; a number anyone
   reported is listed with one of its reports, every other one as a null request.
   */
  lemma SlotsTotal(view: int, V: seq<ViewChangeArgs>, n: int)
    requires n > MinS(V)
    ensures var pps := NewViewSlots(view, V);
            && |pps| == MaxS(V) - MinS(V)
            && (forall k :: 0 <= k < |pps| ==> pps[k].View == view && pps[k].Seq == MinS(V) + 1 + k)
            && (Reported(V, n) ==> n <= MaxS(V) && FromReport(V, n, pps[n - MinS(V) - 1]))
            && (n <= MaxS(V) && !Reported(V, n) ==> pps[n - MinS(V) - 1] == PrePrepareArgs(view, n, "", NO_REQUEST))
  {
    SlotNumbers(view, V);
    TableSound(V, n);
    if Reported(V, n) {
      MaxSound(V, n);
      assert ReportedAs(V, PPrepared(V)[n]) && PPrepared(V)[n].Seq == n;
    }
  }

  /** The j-th report of the i-th view change is the last one for number `n`. */
  ghost predicate LastReport(V: seq<ViewChangeArgs>, n: int, i: nat, j: nat) {
    && i < |V| && j < |V[i].P| && V[i].P[j].PP.Seq == n
    && (forall k :: j < k < |V[i].P| ==> V[i].P[k].PP.Seq != n)
    && (forall h, k :: i < h < |V| && 0 <= k < |V[h].P| ==> V[h].P[k].PP.Seq != n)
  }

  lemma {:induction false} CollectLast(P: seq<Pm>, m: map<int, PrePrepareArgs>, n: int, j: nat)
    requires j < |P| && P[j].PP.Seq == n && forall k :: j < k < |P| ==> P[k].PP.Seq != n
    ensures n in CollectReport(P, m) && CollectReport(P, m)[n] == P[j].PP
  {
    if j < |P| - 1 {
      CollectLast(P[..|P| - 1], m, n, j);
    }
  }

  lemma {:induction false} TableIsLast(V: seq<ViewChangeArgs>, n: int, i: nat, j: nat)
    requires LastReport(V, n, i, j)
    ensures n in PPrepared(V) && PPrepared(V)[n] == V[i].P[j].PP
  {
    var m := |V| - 1;
    if i == m {
      CollectLast(V[m].P, PPrepared(V[..m]), n, j);
    } else {
      TableIsLast(V[..m], n, i, j);
      CollectSound(V[m].P, PPrepared(V[..m]), n);
    }
  }

  /**
   What a slot holds, exactly: the last report for its number, whatever view that report is from.  So
   a digest decided earlier is kept if and only if the last report carries it.
   */
  lemma SlotIsLastReport(view: int, V: seq<ViewChangeArgs>, n: int, i: nat, j: nat, d: string)
    requires n > MinS(V) && LastReport(V, n, i, j)
    ensures var slots := NewViewSlots(view, V);
            && n <= MaxS(V) && |slots| == MaxS(V) - MinS(V)
            && slots[n - MinS(V) - 1].Message == V[i].P[j].PP.Message
            && (slots[n - MinS(V) - 1].Digest == d <==> V[i].P[j].PP.Digest == d)
  {
    assert Reported(V, n);
    MaxSound(V, n);
    TableIsLast(V, n, i, j);
  }

  // ---------- leader and followers ----------

  /** A replica that has just entered a view: what the view starts from. */
  ghost predicate StartsFrom(r: State, view: int, V: seq<ViewChangeArgs>) {
    var pps := NewViewSlots(view, V);
    && r.view == view && !r.changing && r.tSeq == MaxS(V) + 1
    && forall k :: 0 <= k < |pps| ==>
         var id := EntryId(view, pps[k].Seq);
         id in r.log && r.log[id].pp == Some(pps[k]) && Vote(view, pps[k].Seq, pps[k].Digest, r.id) in r.pending
  }

  lemma TakeOverStarts(s: State, view: int, V: seq<ViewChangeArgs>)
    ensures StartsFrom(TakeOver(s, view, V), view, V)
  {
    var pps := NewViewSlots(view, V);
    InstallKeeps(s.(tSeq := MaxS(V) + 1), view, pps);
    SlotNumbers(view, V);
    hide NewViewSlots, InstallSlots;
    forall k | 0 <= k < |pps|
      ensures var r, id := TakeOver(s, view, V), EntryId(view, pps[k].Seq);
              id in r.log && r.log[id].pp == Some(pps[k]) && Vote(view, pps[k].Seq, pps[k].Digest, r.id) in r.pending
    {
      NumberedSlots(pps, MinS(V), pps[k].Seq);
      assert InSlot(EntryId(view, pps[k].Seq), view, pps);
      assert PreparesFor(s.id, view, pps)[k] == Vote(view, pps[k].Seq, pps[k].Digest, s.id);
    }
  }

  /** The message a leader that has enough view changes sends, and what it starts from. */
  lemma LeaderStarts(s: State, view: int, got: seq<ViewChangeArgs>)
    requires Ordered(s) && view > s.view
    ensures var r := LeadNewView(s, view, got);
            && NewViewMessage(NewViewArgs(view, got, NewViewSlots(view, got))) in r.sent
            && StartsFrom(r, view, got)
  {
    StableIsLast(s);
    var nv := NewViewArgs(view, got, NewViewSlots(view, got));
    var s1 := Send(s, NewViewMessage(nv));
    EnterGrows(s1, nv, NO_VOTES);
    assert s1.sent[|s.sent|] == NewViewMessage(nv);
    SentStays(s1.sent, EnterNewView(s1, nv).sent, NewViewMessage(nv));
    hide CatchUp, TakeOver;
    TakeOverStarts(CatchUp(s1, got, MinS(got)), view, got);
  }

  /**
   A follower that has not reached the view yet accepts the leader's message exactly when it holds
   enough distinct senders, and then starts from the very same slots and number as the leader.
   */
  lemma FollowerStarts(s: State, view: int, V: seq<ViewChangeArgs>, cfg: Config)
    requires Ordered(s) && view > s.view
    ensures var nv := NewViewArgs(view, V, NewViewSlots(view, V));
            var r := OnNewView(s, nv, cfg);
            && (|Changers(nv)| > 2 * cfg.f ==> StartsFrom(r, view, V))
            && (|Changers(nv)| <= 2 * cfg.f ==> r == s)
  {
    StableIsLast(s);
    var nv := NewViewArgs(view, V, NewViewSlots(view, V));
    if |Changers(nv)| > 2 * cfg.f {
      assert SlotsMatch(NewViewSlots(view, V), nv.O);
      hide NewViewSlots, CatchUp, TakeOver, StartsFrom, SlotsMatch;
      TakeOverStarts(CatchUp(s, V, MinS(V)), view, V);
    }
  }

  ghost predicate DiffersAt(a: NewViewArgs, k: nat) {
    var pps := NewViewSlots(a.View, a.V);
    k < |pps| && k < |a.O| && !SameSlot(pps[k], a.O[k])
  }

  /** A message whose list differs anywhere from what its view changes call for is refused. */
  lemma WrongListRefused(s: State, a: NewViewArgs, k: nat, cfg: Config)
    requires DiffersAt(a, k)
    ensures OnNewView(s, a, cfg) == s
  {
    var pps := NewViewSlots(a.View, a.V);
    if |a.O| >= |pps| {
      assert !SlotsMatch(pps, a.O);
    }
  }

  // ---------- surviving the first view change ----------

  /** V holds reports made in the first view, each by the replica it names. */
  ghost predicate FirstViewReports(sys: System, V: seq<ViewChangeArgs>) {
    forall i :: 0 <= i < |V| ==> 0 <= V[i].Rid < |sys.replicas| && Report(0, V[i]) in sys.replicas[V[i].Rid].reported
  }

  /** With no faulty replica, everything reported for a slot of the first view carries the committed digest. */
  lemma ReportsCarry(sys: System, r: int, n: int, d: string, V: seq<ViewChangeArgs>, pp: PrePrepareArgs)
    requires Sound(sys) && sys.byz == {} && 3 <= sys.cfg.n <= 3 * sys.cfg.f + 2
    requires FirstViewReports(sys, V) && ReportedAs(V, pp) && pp.Seq == n
    requires Honest(sys, r) && Backed(sys.replicas[r].heard, 0, n, d, sys.cfg.f)
    ensures pp.Digest == d
  {
    var i, j :| 0 <= i < |V| && 0 <= j < |V[i].P| && V[i].P[j].PP == pp;
    var x := V[i].Rid;
    assert ReplicaSound(sys, x) && ReplicaSound(sys, r);
    assert ReportBacked(Report(0, V[i]), sys.replicas[x].heard, sys.cfg.f);
    assert Backed(sys.replicas[x].heard, 0, n, pp.Digest, sys.cfg.f);
    var q1 := BackedByAll(sys, r, 0, n, d);
    var q2 := BackedByAll(sys, x, 0, n, pp.Digest);
    Overlap(q1, q2, sys.cfg.n, sys.cfg.f);
    var y := SomeOutside(q1 * q2, {});
    OneDigest(sys, y, 0, n, d, pp.Digest);
  }

  /** A replica that executed a slot of the first view heard more than 2f replicas commit to it. */
  lemma ExecutedCommits(sys: System, r: int, t: Vote) returns (q: set<int>)
    requires Sound(sys) && Honest(sys, r) && t in sys.replicas[r].executed
    ensures |q| > 2 * sys.cfg.f
    ensures forall x :: x in q ==>
              0 <= x < sys.cfg.n && (Honest(sys, x) ==> CommitMessage(Vote(t.View, t.Seq, t.Digest, x)) in sys.replicas[x].sent)
  {
    assert ReplicaSound(sys, r);
    var s := sys.replicas[r];
    var k :| 0 <= k < |s.executed| && s.executed[k] == t;
    q := Supporters(s.confirmed, t.View, t.Seq, t.Digest);
    assert Backed(s.confirmed, t.View, t.Seq, t.Digest, sys.cfg.f);
    forall x | x in q
      ensures 0 <= x < sys.cfg.n && (Honest(sys, x) ==> CommitMessage(Vote(t.View, t.Seq, t.Digest, x)) in sys.replicas[x].sent)
    {
      var a :| a in s.confirmed && a.View == t.View && a.Seq == t.Seq && a.Digest == t.Digest && a.Rid == x;
      assert a == Vote(t.View, t.Seq, t.Digest, x);
    }
  }

  lemma ExecutedBacked(sys: System, r: int, t: Vote)
    requires Sound(sys) && Honest(sys, r) && t in sys.replicas[r].executed
    ensures Backed(sys.replicas[r].heard, t.View, t.Seq, t.Digest, sys.cfg.f)
  {
    assert ReplicaSound(sys, r);
    var s := sys.replicas[r];
    var k :| 0 <= k < |s.executed| && s.executed[k] == t;
    assert CommitOut(s, t.View, t.Seq, t.Digest);
  }

  /** The report of a replica that committed covers the slot. */
  lemma CommitCovered(sys: System, x: int, t: Vote, vc: ViewChangeArgs)
    requires Sound(sys) && Honest(sys, x) && Report(0, vc) in sys.replicas[x].reported && t.View == 0
    requires CommitMessage(Vote(t.View, t.Seq, t.Digest, x)) in sys.replicas[x].sent
    ensures t.Seq <= vc.CP.Seq || exists j :: 0 <= j < |vc.P| && vc.P[j].PP.Seq == t.Seq
  {
    assert ReplicaSound(sys, x);
    assert Covers(Report(0, vc), t.Seq, t.Digest);
  }

  /** One of the reports is by a replica that committed, and it covers the slot. */
  lemma SomeoneCovers(sys: System, r: int, t: Vote, nv: NewViewArgs)
    requires Sound(sys) && sys.byz == {} && 3 <= sys.cfg.n <= 3 * sys.cfg.f + 2
    requires Honest(sys, r) && t in sys.replicas[r].executed && t.View == 0
    requires FirstViewReports(sys, nv.V) && |Changers(nv)| > 2 * sys.cfg.f
    ensures t.Seq <= MinS(nv.V) || Reported(nv.V, t.Seq)
  {
    var q := ExecutedCommits(sys, r, t);
    forall x | x in Changers(nv)
      ensures 0 <= x < sys.cfg.n
    {
    }
    Overlap(q, Changers(nv), sys.cfg.n, sys.cfg.f);
    var x := SomeOutside(q * Changers(nv), {});
    var i := ReportOfSender(nv, x);
    MinFound(nv.V);
    assert Honest(sys, x);
    hide Sound, MinS, Changers;
    CommitCovered(sys, x, t, nv.V[i]);
  }

  lemma ReportOfSender(nv: NewViewArgs, x: int) returns (i: nat)
    requires x in Changers(nv)
    ensures i < |nv.V| && nv.V[i].Rid == x
  {
    i :| i < |nv.V| && nv.V[i].View == nv.View && nv.V[i].Rid == x;
  }

  /**
   A slot executed in the first view survives the first view change.  With crashes only, three or
   more replicas and f a third of them: whatever run led here, if some replica executed number n
   with digest d in view 0, every new view built from more than 2f replicas' reports made in view 0
   either starts above n or lists n with the digest d.
   */
  lemma ExecutedSurvives(systems: seq<System>, events: seq<Event>, initSeq: nat, r: int, t: Vote, nv: NewViewArgs)
    requires IsRun(systems, events, initSeq)
    requires var sys := systems[|events|];
             && sys.byz == {} && sys.cfg.n >= 3 && sys.cfg.f == sys.cfg.n / 3
             && Honest(sys, r) && t in sys.replicas[r].executed && t.View == 0
             && FirstViewReports(sys, nv.V) && |Changers(nv)| > 2 * sys.cfg.f
    ensures t.Seq <= MinS(nv.V) || Lists(NewViewSlots(nv.View, nv.V), t.Seq, t.Digest)
  {
    var sys := systems[|events|];
    RunSound(systems, events, initSeq);
    SomeoneCovers(sys, r, t, nv);
    ExecutedBacked(sys, r, t);
    if t.Seq > MinS(nv.V) {
      SlotsTotal(nv.View, nv.V, t.Seq);
      var slots, k := NewViewSlots(nv.View, nv.V), t.Seq - MinS(nv.V) - 1;
      var pp :| ReportedAs(nv.V, pp) && pp.Seq == t.Seq && slots[k].Digest == pp.Digest;
      hide Sound, IsRun, NewViewSlots, Backed;
      ReportsCarry(sys, r, t.Seq, t.Digest, nv.V, pp);
      assert slots[k].Seq == t.Seq && slots[k].Digest == t.Digest;
    }
  }

  ghost predicate Lists(slots: seq<PrePrepareArgs>, n: int, d: string) {
    exists k :: 0 <= k < |slots| && slots[k].Seq == n && slots[k].Digest == d
  }
}
