/**
 Agreement across views fails without a single faulty replica.  For every f >= 1 and 3f+1 replicas
 there is a run of authentic messages in which two replicas execute different requests under the
 same number: a replica left behind in view 0 reports last when view 2 is formed, and the rule that
 keeps the last report for a slot drops what view 1 has executed.
 */
module Divergence {
  import opened Collections
  import opened Replica
  import opened ReplicaOrder
  import opened ReplicaVotes
  import opened ReplicaGrowth
  import opened ReplicaReplies
  import opened Agreement
  import opened NewView
  import opened Progress
  import opened Runs

  // ---------- one replica's steps ----------

  const FIRST := map[-1 := CheckPoint(-1, true, "", 0, [])]

  /** Nothing executed, nothing queued, no checkpoint yet. */
  ghost predicate Base(s: State, r: int, f: nat) {
    && Invariant(s, f) && s.id == r && !s.panic && s.lastcp == -1 && s.h == 0 && s.H == 2 * CHECKPOINT_DIV && s.apply == -1
    && s.queue == [] && s.cps == FIRST
  }

  /** With f >= 1 a replica's own prepare is not a quorum: the pre-prepare is stored, the prepare sent, and that is all. */
  lemma AcceptAlone(s: State, a: PrePrepareArgs, aux: Aux, cfg: Config)
    requires cfg.f >= 1 && !s.changing && aux.prepareOk && InWindow(s, a.View, a.Seq) && EntryId(a.View, a.Seq) !in s.log
    ensures var own := Vote(a.View, a.Seq, a.Digest, s.id);
            OnPrePrepare(s, a, aux, cfg) ==
              StopTimer(s).(log := s.log[EntryId(a.View, a.Seq) := EMPTY_ENTRY.(pp := Some(a), p := [own])],
                            sent := s.sent + [PrepareMessage(own)], heard := s.heard + {own})
  {
    hide SendCommit;
    var id, own := EntryId(a.View, a.Seq), Vote(a.View, a.Seq, a.Digest, s.id);
    var s1 := StopTimer(s);
    var e := EMPTY_ENTRY.(pp := Some(a));
    var s2 := Send(Put(s1, id, e), PrepareMessage(own));
    assert OnPrePrepare(s, a, aux, cfg) == OnPrepare(s2, own, aux, cfg);
    var e1 := e.(p := [] + [own]);
    assert [] + [own] == [own];
    assert !Prepared(e1, cfg.f);
    var s3 := Put(StopTimer(s2), id, e1).(heard := s2.heard + {own});
    assert OnPrepare(s2, own, aux, cfg) == s3;
    assert s.log[id := e][id := e1] == s.log[id := e1];
  }

  ghost function ReportableIds(log: map<EntryId, Entry>, f: nat): set<EntryId> {
    set id | id in log && Reportable(log, id, -1, f)
  }

  ghost function Listed(ids: set<EntryId>): (order: seq<EntryId>)
    ensures Distinct(order) && forall id :: id in order <==> id in ids
  {
    if ids == {} then [] else
    var id :| id in ids;
    [id] + Listed(ids - {id})
  }

  /** Some order in which the log may be walked. */
  ghost function OrderOf(log: map<EntryId, Entry>, f: nat): (order: seq<EntryId>)
    ensures ReportOrder(log, order, -1, f)
    ensures forall id :: id in order ==> id in log && log[id].pp.Some?
  {
    Listed(ReportableIds(log, f))
  }

  /** The view change a replica sends when its log is walked in this order. */
  ghost function VcFrom(log: map<EntryId, Entry>, order: seq<EntryId>, r: int, v: int): ViewChangeArgs {
    var P := if forall id :: id in order ==> id in log && log[id].pp.Some? then ReportOf(log, order) else [];
    ViewChangeArgs(v, CheckPointArgs(-1, "", r, 0), P, r)
  }

  /** What the timer makes a replica without a stable checkpoint report. */
  lemma FirstReport(s: State, order: seq<EntryId>, cfg: Config)
    requires Base(s, s.id, cfg.f) && ReportOrder(s.log, order, -1, cfg.f)
    ensures HasStable(s.cps) && s.cps[StableKey(s.cps)].Seq == -1 && forall id :: id in order ==> id in s.log && s.log[id].pp.Some?
    ensures var v := s.view + s.vcCount + 1; GeneratedViewChange(s, order) == VcFrom(s.log, order, s.id, v) && VcFrom(s.log, order, s.id, v).View == v
  {
    StableIsLast(s);
    hide Invariant, ReportOf;
    assert s.cps[-1] == CheckPoint(-1, true, "", 0, []) && StableKey(s.cps) == -1;
    assert forall id :: id in order ==> id in s.log && s.log[id].pp.Some?;
  }

  /** A first view change for a view is only stored. */
  lemma FirstStored(s: State, vc: ViewChangeArgs, cfg: Config)
    requires cfg.n > 0 && cfg.f >= 1 && vc.View > s.view && vc.View !in s.vcs
    ensures OnViewChange(s, vc, cfg) == s.(vcs := s.vcs[vc.View := [vc]])
  {
    hide LeadNewView;
    assert [] + [vc] == [vc];
    assert StoreViewChange(s, vc) == s.(vcs := s.vcs[vc.View := [vc]]);
  }

  /** What the timer does to a replica that is not the next view's leader with a quorum already. */
  lemma TimerAsks(s: State, order: seq<EntryId>, cfg: Config)
    requires cfg.n > 0 && cfg.f >= 1 && Base(s, s.id, cfg.f) && ReportOrder(s.log, order, -1, cfg.f)
    requires s.view + s.vcCount + 1 !in s.vcs
    ensures var v, r := s.view + s.vcCount + 1, Handle(s, Timer(order), cfg);
            var vc := VcFrom(s.log, order, s.id, v);
            r == s.(changing := true, vcCount := s.vcCount + 1, reported := s.reported + {Report(s.view, vc)},
                    sent := s.sent + [ViewChangeMessage(vc)], vcs := s.vcs[v := [vc]], monitor := true)
  {
    hide OnViewChange, ReportOrder, VcFrom, GeneratedViewChange, HasStable, Invariant;
    FirstReport(s, order, cfg);
    FirstStored(AskForView(s, order), GeneratedViewChange(s, order), cfg);
  }

  ghost function ViewChanges(ws: seq<ViewChangeArgs>): (r: seq<Input>)
    ensures |r| == |ws| && forall k :: 0 <= k < |r| ==> r[k] == Deliver(ViewChangeMessage(ws[k]), ACCEPT)
  {
    seq(|ws|, k requires 0 <= k < |ws| => Deliver(ViewChangeMessage(ws[k]), ACCEPT))
  }

  lemma GatherOne(s: State, v: int, got: seq<ViewChangeArgs>, w: ViewChangeArgs, cfg: Config)
    requires cfg.n > 0 && !s.panic && s.view < v && v % cfg.n == s.id && v in s.vcs && s.vcs[v] == got && w.View == v
    ensures var gathered := s.(vcs := s.vcs[v := got + [w]]);
            Handle(s, Deliver(ViewChangeMessage(w), ACCEPT), cfg) ==
              if |got| >= 2 * cfg.f then LeadNewView(gathered, v, got + [w]) else gathered
  {
    hide LeadNewView;
  }

  /** The view's leader gathers view changes and leads with the last one it needs. */
  lemma {:induction false} LeaderGathers(s: State, v: int, w: ViewChangeArgs, ws: seq<ViewChangeArgs>, cfg: Config)
    requires cfg.n > 0 && !s.panic && s.view < v && v % cfg.n == s.id && v in s.vcs && s.vcs[v] == [w]
    requires |ws| <= 2 * cfg.f && forall k :: 0 <= k < |ws| ==> ws[k].View == v
    ensures var got := [w] + ws;
            var gathered := s.(vcs := s.vcs[v := got]);
            Run(s, ViewChanges(ws), cfg) == if |ws| == 2 * cfg.f && ws != [] then LeadNewView(gathered, v, got) else gathered
  {
    hide LeadNewView, Handle;
    if ws == [] {
      assert [w] + ws == [w];
      assert s.vcs[v := [w]] == s.vcs;
    } else {
      var m := |ws| - 1;
      LeaderGathers(s, v, w, ws[..m], cfg);
      assert ViewChanges(ws)[..m] == ViewChanges(ws[..m]);
      var got := [w] + ws[..m];
      var before := s.(vcs := s.vcs[v := got]);
      assert got + [ws[m]] == [w] + ws;
      assert before.vcs[v := [w] + ws] == s.vcs[v := [w] + ws];
      GatherOne(before, v, got, ws[m], cfg);
    }
  }

  lemma AskedBase(s: State, t: State, r: int, f: nat)
    requires Base(s, r, f) && Invariant(t, f)
    requires t == s.(changing := t.changing, vcCount := t.vcCount, reported := t.reported, sent := t.sent, vcs := t.vcs, monitor := t.monitor)
    ensures Base(t, r, f)
  {
    hide Invariant;
  }

  lemma AskedFields(s: State, t: State, v: int, w: ViewChangeArgs)
    requires t == s.(changing := true, vcCount := s.vcCount + 1, reported := t.reported, sent := s.sent + [ViewChangeMessage(w)],
                     vcs := s.vcs[v := [w]], monitor := true)
    ensures t.view == s.view && t.vcCount == s.vcCount + 1 && t.vcs == s.vcs[v := [w]] && t.log == s.log && ViewChangeMessage(w) in t.sent
  {
    assert t.sent[|s.sent|] == ViewChangeMessage(w);
  }

  /** The timer sends a view change for view `v`, the first one this replica knows of. */
  lemma AskingTimer(s: State, r: int, order: seq<EntryId>, v: int, cfg: Config)
    requires cfg.n > 0 && cfg.f >= 1 && Base(s, r, cfg.f) && s.view + s.vcCount + 1 == v && v !in s.vcs
    requires ReportOrder(s.log, order, -1, cfg.f)
    ensures var t, w := Handle(s, Timer(order), cfg), VcFrom(s.log, order, r, v);
            && Base(t, r, cfg.f) && t.view == s.view && t.vcCount == s.vcCount + 1 && t.vcs == s.vcs[v := [w]] && t.log == s.log
            && ViewChangeMessage(w) in t.sent
  {
    hide *;
    BaseParts(s, r, cfg.f);
    StepKeeps(s, Timer(order), cfg);
    TimerAsks(s, order, cfg);
    AskedBase(s, Handle(s, Timer(order), cfg), r, cfg.f);
    AskedFields(s, Handle(s, Timer(order), cfg), v, VcFrom(s.log, order, r, v));
  }

  // ---------- the play ----------

  /** The two requests, with the digests their leaders give them, and who is faulty. */
  datatype Play = Play(cfg: Config, byz: set<int>, op0: string, d0: string, op1: string, d1: string) {
    /** Nobody has to be faulty; the second leader and those who never act may be. */
    ghost predicate Good() {
      && cfg.f >= 1 && cfg.n == 3 * cfg.f + 1 && op0 != op1 && d0 != "" && d1 != "" && d0 != d1
      && forall r :: r in byz ==> r == 1 || 2 * cfg.f < r < 3 * cfg.f
    }

    /** What the digests stand for. */
    function OpOf(d: string): string {
      if d == d0 then op0 else if d == d1 then op1 else ""
    }

    function F(): nat {
      cfg.f
    }

    /** The replica that is left behind in view 0. */
    function Late(): nat {
      3 * cfg.f
    }
  }

  ghost function Ops(pl: Play): string -> string {
    d => pl.OpOf(d)
  }

  const S0 := EntryId(0, 0)

  const S1 := EntryId(1, 0)

  const S2 := EntryId(2, 0)

  function PP0(pl: Play): PrePrepareArgs {
    PrePrepareArgs(0, 0, pl.d0, RequestArgs(pl.op0, 0))
  }

  function PP1(pl: Play): PrePrepareArgs {
    PrePrepareArgs(1, 0, pl.d1, RequestArgs(pl.op1, 0))
  }

  function Asked(op: string, d: string): Input {
    Deliver(RequestMessage(RequestArgs(op, 0)), Aux(Some(d), true, true))
  }

  function ToldOf(pp: PrePrepareArgs): Input {
    Deliver(PrePrepareMessage(pp), ACCEPT)
  }

  /** The entry of a pre-prepare that only its holder has prepared. */
  function Alone(pp: PrePrepareArgs, r: int): Entry {
    EMPTY_ENTRY.(pp := Some(pp), p := [Vote(pp.View, pp.Seq, pp.Digest, r)])
  }

  // ---------- view 0: everybody accepts, nobody but the late replica hears ----------

  /** The replica has prepared the first request, alone. */
  ghost predicate InA(s: State, r: int, pl: Play) {
    && Base(s, r, pl.F()) && s.view == 0 && !s.changing && s.vcCount == 0 && s.vcs == map[] && s.pending == []
    && s.log == map[S0 := Alone(PP0(pl), r)] && pl.op1 !in s.seqmap
    && PrepareMessage(Vote(0, 0, pl.d0, r)) in s.sent
  }

  lemma InitialBase(r: int, pl: Play)
    requires pl.Good()
    ensures Base(Initial(r, 0), r, pl.F())
  {
    InitialInvariant(r, 0, pl.F());
    hide Invariant;
  }

  lemma LeaderAsked(pl: Play)
    requires pl.Good()
    ensures var s := Run(Initial(0, 0), [Asked(pl.op0, pl.d0)], pl.cfg); InA(s, 0, pl) && PrePrepareMessage(PP0(pl)) in s.sent
  {
    var s, i := Initial(0, 0), Asked(pl.op0, pl.d0);
    RunOne(s, i, pl.cfg);
    InitialBase(0, pl);
    StepKeeps(s, i, pl.cfg);
    var s1 := Send(s.(seqmap := map[pl.op0 := 0], tSeq := 1), PrePrepareMessage(PP0(pl)));
    AcceptAlone(s1, PP0(pl), i.aux, pl.cfg);
    hide Invariant, OnPrePrepare;
    assert s.seqmap[pl.op0 := s.tSeq] == map[pl.op0 := 0];
    assert Handle(s, i, pl.cfg) == OnPrePrepare(s1, PP0(pl), i.aux, pl.cfg);
    var r := Handle(s, i, pl.cfg);
    assert r.sent[0] == PrePrepareMessage(PP0(pl)) && r.sent[1] == PrepareMessage(Vote(0, 0, pl.d0, 0));
  }

  lemma FollowerTold(r: int, pl: Play)
    requires pl.Good()
    ensures InA(Run(Initial(r, 0), [ToldOf(PP0(pl))], pl.cfg), r, pl)
  {
    var s, i := Initial(r, 0), ToldOf(PP0(pl));
    RunOne(s, i, pl.cfg);
    InitialBase(r, pl);
    StepKeeps(s, i, pl.cfg);
    AcceptAlone(s, PP0(pl), ACCEPT, pl.cfg);
    hide Invariant, OnPrePrepare;
    assert Handle(s, i, pl.cfg) == OnPrePrepare(s, PP0(pl), ACCEPT, pl.cfg);
    assert Handle(s, i, pl.cfg).sent[0] == PrepareMessage(Vote(0, 0, pl.d0, r));
  }

  /** The late replica has heard enough prepares and committed; nobody hears its commit. */
  ghost predicate InLate(s: State, pl: Play) {
    && Base(s, pl.Late(), pl.F()) && s.view == 0 && !s.changing && s.vcCount == 0 && s.vcs == map[] && s.pending == []
    && s.log.Keys == {S0} && s.log[S0].pp == Some(PP0(pl)) && s.log[S0].sendCommit
  }

  ghost predicate Unanswered(s: State, id: EntryId) {
    !At(s, id).sendReply && At(s, id).r.None?
  }

  /** Votes change nothing of the base. */
  lemma BaseKept(s: State, r: State, id: EntryId, x: int, f: nat)
    requires Base(s, x, f) && OnlyVotes(s, r, id) && Invariant(r, f)
    ensures Base(r, x, f) && r.view == s.view && r.changing == s.changing && r.vcs == s.vcs && r.pending == s.pending
    ensures r.log.Keys == s.log.Keys && At(r, id).pp == At(s, id).pp
  {
    hide Invariant;
    assert r.log.Keys == s.log.Keys + {id};
  }

  /** Through a prepare quorum of the whole group. */
  lemma GroupPrepares(s: State, id: EntryId, d: string, x: int, xs: seq<int>, cfg: Config)
    requires cfg.n > 0 && Base(s, x, cfg.f) && Collecting(s, id, d, {}) && Unanswered(s, id) && Distinct(xs) && |xs| == 2 * cfg.f + 1
    ensures var r := Run(s, Prepares(id, d, xs), cfg);
            && Base(r, x, cfg.f) && r.view == s.view && r.changing == s.changing && r.vcs == s.vcs && r.pending == s.pending && r.vcCount == 0
            && r.log.Keys == s.log.Keys && At(r, id).pp == At(s, id).pp && Confirming(r, id, d, {}) && Unanswered(r, id)
            && CommitMessage(Vote(id.v, id.n, d, x)) in r.sent
  {
    DistinctSenders(xs);
    assert {} + Senders(xs) == Senders(xs);
    hide Invariant, Run, Prepares, Senders, Base, OnlyVotes;
    BaseParts(s, x, cfg.f);
    PreparesCollected(s, id, d, xs, {}, cfg);
    var r := Run(s, Prepares(id, d, xs), cfg);
    BaseKept(s, r, id, x, cfg.f);
    BaseParts(r, x, cfg.f);
    EntryOf(r, id, cfg.f);
    ReplyKept(s, r, id);
  }

  lemma BaseParts(s: State, x: int, f: nat)
    requires Base(s, x, f)
    ensures Invariant(s, f) && s.id == x && !s.panic && s.queue == [] && s.apply == -1
  {
  }

  lemma ReplyKept(s: State, r: State, id: EntryId)
    requires OnlyVotes(s, r, id)
    ensures At(r, id).sendReply == At(s, id).sendReply && At(r, id).r == At(s, id).r
  {
  }

  lemma LateCommits(s: State, pl: Play)
    requires pl.Good() && InA(s, pl.Late(), pl)
    ensures InLate(Run(s, Prepares(S0, pl.d0, Range(2 * pl.F() + 1)), pl.cfg), pl)
  {
    assert Collecting(s, S0, pl.d0, {});
    hide Run, Prepares, Base;
    GroupPrepares(s, S0, pl.d0, pl.Late(), Range(2 * pl.F() + 1), pl.cfg);
  }

  // ---------- view 1 starts with nothing ----------

  function Vc1(r: int): ViewChangeArgs {
    ViewChangeArgs(1, CheckPointArgs(-1, "", r, 0), [], r)
  }

  ghost predicate InB0(s: State, r: int, pl: Play) {
    && Base(s, r, pl.F()) && s.view == 0 && s.vcs == map[1 := [Vc1(r)]] && s.pending == []
    && s.log == map[S0 := Alone(PP0(pl), r)] && pl.op1 !in s.seqmap && ViewChangeMessage(Vc1(r)) in s.sent
  }

  lemma InAParts(s: State, r: int, pl: Play)
    requires InA(s, r, pl)
    ensures Base(s, r, pl.F()) && s.view == 0 && s.vcCount == 0 && s.vcs == map[] && s.pending == []
    ensures s.log == map[S0 := Alone(PP0(pl), r)] && pl.op1 !in s.seqmap
  {
  }

  lemma NothingToReport(log: map<EntryId, Entry>, r: int, pl: Play)
    requires pl.Good() && log == map[S0 := Alone(PP0(pl), r)]
    ensures ReportOrder(log, [], -1, pl.F()) && VcFrom(log, [], r, 1) == Vc1(r)
  {
    assert forall id :: id in log ==> !Reportable(log, id, -1, pl.F());
  }

  lemma TimerWithNothing(s: State, r: int, pl: Play)
    requires pl.Good() && InA(s, r, pl)
    ensures InB0(Run(s, [Timer([])], pl.cfg), r, pl)
  {
    hide InA, Base, Handle, Run, ReportOrder, VcFrom, Alone, PP0, Vc1;
    InAParts(s, r, pl);
    BaseParts(s, r, pl.F());
    NothingToReport(s.log, r, pl);
    RunOne(s, Timer([]), pl.cfg);
    AskingTimer(s, r, [], 1, pl.cfg);
    TimerKeepsRest(s, [], pl.cfg);
  }

  lemma TimerKeepsRest(s: State, order: seq<EntryId>, cfg: Config)
    requires cfg.n > 0 && cfg.f >= 1 && Base(s, s.id, cfg.f) && ReportOrder(s.log, order, -1, cfg.f) && s.view + s.vcCount + 1 !in s.vcs
    ensures var t := Handle(s, Timer(order), cfg); t.pending == s.pending && t.seqmap == s.seqmap
  {
    hide Base, Handle, ReportOrder, VcFrom;
    TimerAsks(s, order, cfg);
  }

  /** Everybody in the group but replica 1. */
  ghost function Others1(pl: Play): (ws: seq<ViewChangeArgs>)
    ensures |ws| == 2 * pl.F() && forall k :: 0 <= k < |ws| ==> ws[k] == Vc1(if k == 0 then 0 else k + 1)
  {
    seq(2 * pl.F(), k => Vc1(if k == 0 then 0 else k + 1))
  }

  ghost function V1(pl: Play): seq<ViewChangeArgs> {
    [Vc1(1)] + Others1(pl)
  }

  lemma {:induction false} NothingReported(V: seq<ViewChangeArgs>)
    requires V != [] && forall k :: 0 <= k < |V| ==> V[k].CP.Seq == -1 && V[k].P == []
    ensures MinS(V) == -1 && MaxS(V) == -1
  {
    MinFound(V);
    assert V[0].CP.Seq <= MinS(V);
    NoMax(V);
  }

  lemma {:induction false} NoMax(V: seq<ViewChangeArgs>)
    requires forall k :: 0 <= k < |V| ==> V[k].P == []
    ensures MaxSeq(V) == -1
  {
    if V != [] {
      NoMax(V[..|V| - 1]);
    }
  }

  lemma V1Empty(pl: Play)
    requires pl.Good()
    ensures MinS(V1(pl)) == -1 && MaxS(V1(pl)) == -1 && NewViewSlots(1, V1(pl)) == []
    ensures |Changers(NewViewArgs(1, V1(pl), []))| == 2 * pl.F() + 1
  {
    var V, n := V1(pl), 2 * pl.F() + 1;
    assert forall k :: 0 <= k < |V| ==> V[k] == Vc1(if k == 0 then 1 else if k == 1 then 0 else k);
    NothingReported(V);
    RangeSenders(n);
    assert Changers(NewViewArgs(1, V, [])) == Senders(Range(n)) by {
      forall x | x in Senders(Range(n))
        ensures x in Changers(NewViewArgs(1, V, []))
      {
        var k := if x == 0 then 1 else if x == 1 then 0 else x;
        assert V[k].Rid == x && V[k].View == 1;
      }
    }
  }

  ghost function Nv1(pl: Play): NewViewArgs {
    NewViewArgs(1, V1(pl), [])
  }

  ghost predicate InB(s: State, r: int, pl: Play) {
    && Base(s, r, pl.F()) && s.view == 1 && !s.changing && s.vcCount == 0 && 2 !in s.vcs && s.pending == []
    && s.log == map[S0 := Alone(PP0(pl), r)] && pl.op1 !in s.seqmap && s.tSeq == 0
  }

  lemma TakeOverEmpty(s: State, r: int, pl: Play)
    requires pl.Good() && s.id == r && s.lastcp == -1 && s.h == 0 && s.H == 2 * CHECKPOINT_DIV && s.apply == -1 && s.queue == []
    requires s.cps == FIRST && !s.panic && s.pending == [] && s.log == map[S0 := Alone(PP0(pl), r)] && pl.op1 !in s.seqmap && 2 !in s.vcs
    requires Invariant(TakeOver(s, 1, V1(pl)), pl.F())
    ensures InB(TakeOver(s, 1, V1(pl)), r, pl) && TakeOver(s, 1, V1(pl)).sent == s.sent
  {
    V1Empty(pl);
    hide V1, NewViewSlots, MinS, MaxS, Invariant, TakeOver;
    TakeOverFields(s, 1, V1(pl));
    EmptyTakeOver(s, 1, V1(pl));
    assert LogFrom(s.log, -1) == s.log;
  }

  lemma GathersOne(s: State, pl: Play)
    requires pl.Good() && InB0(s, 1, pl)
    ensures var r := Run(s, ViewChanges(Others1(pl)), pl.cfg);
            r == LeadNewView(s.(vcs := s.vcs[1 := V1(pl)]), 1, V1(pl)) && Invariant(r, pl.F())
  {
    hide Invariant, LeadNewView, Run;
    LeaderGathers(s, 1, Vc1(1), Others1(pl), pl.cfg);
    RunSends(s, ViewChanges(Others1(pl)), pl.cfg);
  }

  lemma LeadsOne(s: State, pl: Play)
    requires pl.Good() && InB0(s, 1, pl)
    ensures var r := LeadNewView(s.(vcs := s.vcs[1 := V1(pl)]), 1, V1(pl));
            Invariant(r, pl.F()) ==> InB(r, 1, pl) && NewViewMessage(Nv1(pl)) in r.sent
  {
    V1Empty(pl);
    var g := s.(vcs := s.vcs[1 := V1(pl)]);
    var m := NewViewMessage(Nv1(pl));
    InvariantParts(s, pl.F());
    hide V1, NewViewSlots, MinS, MaxS, Invariant, TakeOver, Run, LeadNewView, InB, LogRecorded, Ordered;
    LeadsDirectly(g, 1, V1(pl));
    if Invariant(LeadNewView(g, 1, V1(pl)), pl.F()) {
      TakeOverEmpty(Send(g, m), 1, pl);
    }
    assert Send(g, m).sent[|g.sent|] == m;
  }

  lemma LeaderOfOne(s: State, pl: Play)
    requires pl.Good() && InB0(s, 1, pl)
    ensures var r := Run(s, ViewChanges(Others1(pl)), pl.cfg); InB(r, 1, pl) && NewViewMessage(Nv1(pl)) in r.sent
  {
    hide Invariant, LeadNewView, Run, InB0, InB, V1, ViewChanges;
    GathersOne(s, pl);
    LeadsOne(s, pl);
  }

  lemma InvariantParts(s: State, f: nat)
    requires Invariant(s, f)
    ensures CheckPointsOrdered(s) && LogRecorded(s) && Ordered(s)
  {
  }

  lemma FollowsToOne(s: State, r: int, pl: Play)
    requires pl.Good() && InB0(s, r, pl)
    ensures InB(Run(s, [Deliver(NewViewMessage(Nv1(pl)), ACCEPT)], pl.cfg), r, pl)
  {
    var i := Deliver(NewViewMessage(Nv1(pl)), ACCEPT);
    RunOne(s, i, pl.cfg);
    StepKeeps(s, i, pl.cfg);
    V1Empty(pl);
    hide V1, NewViewSlots, MinS, MaxS, Invariant, TakeOver, Changers, Run;
    assert Handle(s, i, pl.cfg) == OnNewView(s, Nv1(pl), pl.cfg);
    hide OnNewView, Handle;
    InvariantParts(s, pl.F());
    EntersDirectly(s, 1, V1(pl), pl.cfg);
    TakeOverEmpty(s, r, pl);
  }

  // ---------- view 1 executes another request under the same number ----------

  ghost predicate InC1(s: State, r: int, pl: Play) {
    && Base(s, r, pl.F()) && s.view == 1 && !s.changing && 2 !in s.vcs && s.pending == [] && s.log.Keys == {S0, S1}
    && Collecting(s, S1, pl.d1, {}) && Unanswered(s, S1) && PrepareMessage(Vote(1, 0, pl.d1, r)) in s.sent
  }

  /** What accepting the second request alone leads to. */
  lemma AcceptedOne(s: State, r: State, x: int, pl: Play)
    requires pl.Good() && InB(s, x, pl) && Invariant(r, pl.F())
    requires r.log == s.log[S1 := Alone(PP1(pl), x)] && PrepareMessage(Vote(1, 0, pl.d1, x)) in r.sent
    requires r == s.(monitor := r.monitor, vcCount := 0, seqmap := r.seqmap, tSeq := r.tSeq, log := r.log, sent := r.sent, heard := r.heard)
    ensures InC1(r, x, pl)
  {
    hide Invariant;
  }

  lemma RequestNumbered(s: State, op: string, d: string, cfg: Config)
    requires cfg.n > 0 && !s.panic && !s.changing && s.view % cfg.n == s.id && op !in s.seqmap && s.tSeq < s.H
    ensures var pp := PrePrepareArgs(s.view, s.tSeq, d, RequestArgs(op, 0));
            Handle(s, Asked(op, d), cfg) ==
              OnPrePrepare(Send(s.(seqmap := s.seqmap[op := s.tSeq], tSeq := s.tSeq + 1), PrePrepareMessage(pp)), pp, Aux(Some(d), true, true), cfg)
  {
    hide OnPrePrepare;
  }

  /** The second leader numbers the second request 0, as its view starts with nothing. */
  lemma NumbersOne(s: State, pl: Play)
    requires pl.Good() && InB(s, 1, pl)
    ensures var i, own := Asked(pl.op1, pl.d1), Vote(1, 0, pl.d1, 1);
            Handle(s, i, pl.cfg) ==
              StopTimer(s).(seqmap := s.seqmap[pl.op1 := 0], tSeq := 1, log := s.log[S1 := Alone(PP1(pl), 1)],
                            sent := s.sent + [PrePrepareMessage(PP1(pl))] + [PrepareMessage(own)], heard := s.heard + {own})
  {
    hide Invariant, Handle, OnPrePrepare;
    var s1 := Send(s.(seqmap := s.seqmap[pl.op1 := 0], tSeq := 1), PrePrepareMessage(PP1(pl)));
    RequestNumbered(s, pl.op1, pl.d1, pl.cfg);
    AcceptAlone(s1, PP1(pl), Aux(Some(pl.d1), true, true), pl.cfg);
  }

  lemma LeaderAskedOne(s: State, pl: Play)
    requires pl.Good() && InB(s, 1, pl)
    ensures var r := Run(s, [Asked(pl.op1, pl.d1)], pl.cfg); InC1(r, 1, pl) && PrePrepareMessage(PP1(pl)) in r.sent
  {
    var i := Asked(pl.op1, pl.d1);
    RunOne(s, i, pl.cfg);
    StepKeeps(s, i, pl.cfg);
    NumbersOne(s, pl);
    var r := Handle(s, i, pl.cfg);
    hide Handle, Invariant, InC1, Run;
    assert r.sent[|s.sent|] == PrePrepareMessage(PP1(pl)) && r.sent[|s.sent| + 1] == PrepareMessage(Vote(1, 0, pl.d1, 1));
    AcceptedOne(s, r, 1, pl);
  }

  lemma FollowerToldOne(s: State, r: int, pl: Play)
    requires pl.Good() && InB(s, r, pl)
    ensures InC1(Run(s, [ToldOf(PP1(pl))], pl.cfg), r, pl)
  {
    var i := ToldOf(PP1(pl));
    RunOne(s, i, pl.cfg);
    StepKeeps(s, i, pl.cfg);
    AcceptAlone(s, PP1(pl), ACCEPT, pl.cfg);
    hide Invariant, OnPrePrepare;
    assert Handle(s, i, pl.cfg) == OnPrePrepare(s, PP1(pl), ACCEPT, pl.cfg);
    var t := Handle(s, i, pl.cfg);
    hide Handle;
    assert t.sent[|s.sent|] == PrepareMessage(Vote(1, 0, pl.d1, r));
    AcceptedOne(s, t, r, pl);
  }

  ghost predicate InC(s: State, r: int, pl: Play) {
    && Base(s, r, pl.F()) && s.view == 1 && s.vcCount == 0 && 2 !in s.vcs && s.pending == [] && s.log.Keys == {S0, S1}
    && Confirming(s, S1, pl.d1, {}) && Unanswered(s, S1) && CommitMessage(Vote(1, 0, pl.d1, r)) in s.sent
  }

  lemma CommitsOne(s: State, r: int, pl: Play)
    requires pl.Good() && InC1(s, r, pl)
    ensures InC(Run(s, Prepares(S1, pl.d1, Range(2 * pl.F() + 1)), pl.cfg), r, pl)
  {
    hide Run, Prepares, Base, Collecting, Confirming;
    GroupPrepares(s, S1, pl.d1, r, Range(2 * pl.F() + 1), pl.cfg);
  }

  /** The replica has executed and answered the slot with this digest. */
  ghost predicate Done(s: State, id: EntryId, d: string) {
    Executed(s, id, d) && Answered(s, id, d)
  }

  /** A commit quorum for the first number of all executes it. */
  lemma QuorumExecutes(s: State, id: EntryId, d: string, x: int, xs: seq<int>, cfg: Config)
    requires cfg.n > 0 && Base(s, x, cfg.f) && Confirming(s, id, d, {}) && Unanswered(s, id) && id.n == 0
    requires Distinct(xs) && |xs| == 2 * cfg.f + 1
    ensures Done(Run(s, Commits(id, d, xs), cfg), id, d)
  {
    DistinctSenders(xs);
    assert {} + Senders(xs) == Senders(xs);
    hide Invariant, Run, Commits, Senders, Confirming, Executed, Answered;
    CommitsExecute(s, id, d, xs, {}, cfg);
  }

  // ---------- everybody but replica 0 asks for view 2 ----------

  ghost predicate IsVc2(w: ViewChangeArgs, r: int) {
    w.View == 2 && w.Rid == r && w.CP.Seq == -1
  }

  /** Ready to enter view 2, with its own view change sent. */
  ghost predicate InD(s: State, r: int, w: ViewChangeArgs, pl: Play) {
    && Base(s, r, pl.F()) && s.view < 2 && 2 in s.vcs && s.vcs[2] == [w] && S2 !in s.log && IsVc2(w, r) && ViewChangeMessage(w) in s.sent
  }

  ghost function VcOf(s: State, f: nat): ViewChangeArgs {
    VcFrom(s.log, OrderOf(s.log, f), s.id, 2)
  }

  lemma InCParts(s: State, r: int, pl: Play)
    requires InC(s, r, pl)
    ensures Base(s, r, pl.F()) && s.id == r && s.view == 1 && s.vcCount == 0 && 2 !in s.vcs && S2 !in s.log
  {
    hide Confirming, Invariant;
  }

  /** A replica that has asked for view 2 is ready to enter it. */
  lemma ReadyForTwo(t: State, r: int, w: ViewChangeArgs, pl: Play)
    requires Base(t, r, pl.F()) && t.view < 2 && 2 in t.vcs && t.vcs[2] == [w] && S2 !in t.log && ViewChangeMessage(w) in t.sent
    requires w == VcFrom(t.log, OrderOf(t.log, pl.F()), r, 2)
    ensures InD(t, r, w, pl)
  {
    hide Base, OrderOf, ReportOf;
  }

  lemma AsksTwo(s: State, r: int, pl: Play)
    requires pl.Good() && InC(s, r, pl)
    ensures InD(Run(s, [Timer(OrderOf(s.log, pl.F()))], pl.cfg), r, VcOf(s, pl.F()), pl)
  {
    hide InC, Base, Handle, Run, ReportOrder, OrderOf, InD, VcFrom;
    var order := OrderOf(s.log, pl.F());
    RunOne(s, Timer(order), pl.cfg);
    InCParts(s, r, pl);
    AskingTimer(s, r, order, 2, pl.cfg);
    ReadyForTwo(Handle(s, Timer(order), pl.cfg), r, VcOf(s, pl.F()), pl);
  }

  ghost predicate ReportsOnly(w: ViewChangeArgs, pp: PrePrepareArgs) {
    w.P != [] && forall k :: 0 <= k < |w.P| ==> w.P[k].PP == pp
  }

  lemma RunTwo(s: State, i: Input, cfg: Config)
    requires cfg.n > 0
    ensures Run(s, [i, i], cfg) == Handle(Handle(s, i, cfg), i, cfg)
  {
    hide *;
    RunOne(s, i, cfg);
    RunOne(Handle(s, i, cfg), i, cfg);
    RunConcat(s, [i], [i], cfg);
    assert [i] + [i] == [i, i];
  }

  /** The late replica's timer fires twice; both times it reports the first request. */
  lemma InLateParts(s: State, pl: Play)
    requires InLate(s, pl)
    ensures Base(s, pl.Late(), pl.F()) && s.id == pl.Late() && s.view == 0 && s.vcCount == 0 && s.vcs == map[] && S2 !in s.log
  {
    hide Invariant;
  }

  lemma LateAsks(s: State, pl: Play)
    requires pl.Good() && InLate(s, pl)
    ensures var i, w := Timer(OrderOf(s.log, pl.F())), VcOf(s, pl.F());
            InD(Run(s, [i, i], pl.cfg), pl.Late(), w, pl) && ReportsOnly(w, PP0(pl))
  {
    hide InLate, Base, Handle, Run, ReportOrder, OrderOf, InD, VcFrom, ReportsOnly;
    var order := OrderOf(s.log, pl.F());
    RunTwo(s, Timer(order), pl.cfg);
    InLateParts(s, pl);
    LateReports(s, order, pl);
    AskingTimer(s, pl.Late(), order, 1, pl.cfg);
    var s1 := Handle(s, Timer(order), pl.cfg);
    AskingTimer(s1, pl.Late(), order, 2, pl.cfg);
    ReadyForTwo(Handle(s1, Timer(order), pl.cfg), pl.Late(), VcOf(s, pl.F()), pl);
  }

  lemma LateReports(s: State, order: seq<EntryId>, pl: Play)
    requires InLate(s, pl) && ReportOrder(s.log, order, -1, pl.F())
    ensures ReportsOnly(VcFrom(s.log, order, pl.Late(), 2), PP0(pl))
  {
    assert Reportable(s.log, S0, -1, pl.F());
    hide Base;
    assert forall id :: id in order ==> id in s.log && s.log[id].pp.Some?;
    forall k | 0 <= k < |order|
      ensures ReportOf(s.log, order)[k].PP == PP0(pl)
    {
      assert order[k] in order;
    }
  }

  // ---------- view 2 lists the first request again ----------

  function PP2(pl: Play): PrePrepareArgs {
    PrePrepareArgs(2, 0, pl.d0, RequestArgs(pl.op0, 0))
  }

  /** 2f+1 view changes from different replicas, the late one's last. */
  ghost predicate V2Ok(V: seq<ViewChangeArgs>, pl: Play) {
    && |V| == 2 * pl.F() + 1 && (forall k :: 0 <= k < |V| ==> IsVc2(V[k], V[k].Rid))
    && (forall j, k :: 0 <= j < k < |V| ==> V[j].Rid != V[k].Rid)
    && ReportsOnly(V[2 * pl.F()], PP0(pl))
  }

  lemma {:induction false} CollectOnly(P: seq<Pm>, m: map<int, PrePrepareArgs>, pp: PrePrepareArgs)
    requires P != [] && forall k :: 0 <= k < |P| ==> P[k].PP == pp
    ensures pp.Seq in CollectReport(P, m) && CollectReport(P, m)[pp.Seq] == pp
  {
  }

  /** The last report for the slot wins, whatever the others say. */
  lemma V2Slots(V: seq<ViewChangeArgs>, pl: Play)
    requires pl.Good() && V2Ok(V, pl)
    ensures MinS(V) == -1 && NewViewSlots(2, V) != [] && NewViewSlots(2, V)[0] == PP2(pl)
  {
    var last := V[2 * pl.F()];
    MinFound(V);
    assert V[0].CP.Seq <= MinS(V);
    CollectOnly(last.P, PPrepared(V[..|V| - 1]), PP0(pl));
    assert last.P[0].PP.Seq == 0;
    assert Reported(V, 0);
    MaxSound(V, 0);
    SlotCounts(2, V);
  }

  lemma SlotCounts(view: int, V: seq<ViewChangeArgs>)
    ensures |NewViewSlots(view, V)| == MaxS(V) - MinS(V)
    ensures forall k :: 0 <= k < |NewViewSlots(view, V)| ==> NewViewSlots(view, V)[k] == SlotFor(view, MinS(V) + 1 + k, PPrepared(V))
  {
  }

  lemma V2Changers(V: seq<ViewChangeArgs>, pl: Play)
    requires V2Ok(V, pl)
    ensures |Changers(NewViewArgs(2, V, []))| == 2 * pl.F() + 1
  {
    var xs := seq(|V|, k requires 0 <= k < |V| => V[k].Rid);
    DistinctSenders(xs);
    assert Changers(NewViewArgs(2, V, [])) == Senders(xs) by {
      forall x | x in Senders(xs)
        ensures x in Changers(NewViewArgs(2, V, []))
      {
        var k :| 0 <= k < |xs| && xs[k] == x;
        assert V[k].Rid == x && V[k].View == 2;
      }
      forall x | x in Changers(NewViewArgs(2, V, []))
        ensures x in Senders(xs)
      {
        var k :| 0 <= k < |V| && V[k].Rid == x;
        assert xs[k] == x;
      }
    }
  }

  ghost function Nv2(V: seq<ViewChangeArgs>): NewViewArgs {
    NewViewArgs(2, V, NewViewSlots(2, V))
  }

  ghost predicate InE0(s: State, r: int, pl: Play) {
    && Base(s, r, pl.F()) && s.view == 2 && !s.changing && Collecting(s, S2, pl.d0, {}) && Unanswered(s, S2)
    && Vote(2, 0, pl.d0, r) in s.pending
  }

  lemma TakesTwo(s: State, r: int, V: seq<ViewChangeArgs>, pl: Play)
    requires pl.Good() && V2Ok(V, pl) && s.id == r && s.lastcp == -1 && s.h == 0 && s.H == 2 * CHECKPOINT_DIV && s.apply == -1 && s.queue == []
    requires s.cps == FIRST && !s.panic && S2 !in s.log && Invariant(TakeOver(s, 2, V), pl.F())
    ensures InE0(TakeOver(s, 2, V), r, pl) && TakeOver(s, 2, V).sent == s.sent
  {
    V2Slots(V, pl);
    SlotNumbers(2, V);
    var pps, s1, t := NewViewSlots(2, V), s.(tSeq := MaxS(V) + 1), TakeOver(s, 2, V);
    InstallKeeps(s1, 2, pps);
    TakeOverFields(s, 2, V);
    var m := InstallSlots(s1, 2, pps);
    assert t.log == LogFrom(m.log, -1);
    hide NewViewSlots, InstallSlots, MinS, MaxS, Invariant, TakeOver, Installed, V2Ok, Voters, VcsFrom;
    FreshSlot(s1, m, 2, pps, 0);
    assert t.log[S2] == EMPTY_ENTRY.(pp := Some(PP2(pl)));
    assert PreparesFor(r, 2, pps)[0] == Vote(2, 0, pl.d0, r);
    assert Vote(2, 0, pl.d0, r) in PreparesFor(r, 2, pps);
  }

  lemma GathersTwo(s: State, w: ViewChangeArgs, ws: seq<ViewChangeArgs>, cfg: Config)
    requires cfg.n > 2 && cfg.f >= 1 && Invariant(s, cfg.f) && !s.panic && s.view < 2 && s.id == 2 && 2 in s.vcs && s.vcs[2] == [w]
    requires |ws| == 2 * cfg.f && forall k :: 0 <= k < |ws| ==> ws[k].View == 2
    ensures var r := Run(s, ViewChanges(ws), cfg);
            r == LeadNewView(s.(vcs := s.vcs[2 := [w] + ws]), 2, [w] + ws) && Invariant(r, cfg.f)
  {
    hide Invariant, LeadNewView, Run;
    LeaderGathers(s, 2, w, ws, cfg);
    RunSends(s, ViewChanges(ws), cfg);
  }

  lemma LeadsTwo(s: State, V: seq<ViewChangeArgs>, pl: Play)
    requires pl.Good() && V2Ok(V, pl) && s.id == 2 && s.lastcp == -1 && s.h == 0 && s.H == 2 * CHECKPOINT_DIV && s.apply == -1 && s.queue == []
    requires s.cps == FIRST && !s.panic && S2 !in s.log && CheckPointsOrdered(s) && Invariant(LeadNewView(s, 2, V), pl.F())
    ensures var r := LeadNewView(s, 2, V); InE0(r, 2, pl) && NewViewMessage(Nv2(V)) in r.sent
  {
    V2Slots(V, pl);
    var m := NewViewMessage(Nv2(V));
    hide NewViewSlots, MinS, Invariant, TakeOver, LeadNewView, V2Ok, InE0, CheckPointsOrdered;
    LeadsDirectly(s, 2, V);
    TakesTwo(Send(s, m), 2, V, pl);
    assert Send(s, m).sent[|s.sent|] == m;
  }

  lemma LeaderOfTwo(s: State, w: ViewChangeArgs, ws: seq<ViewChangeArgs>, pl: Play)
    requires pl.Good() && InD(s, 2, w, pl) && V2Ok([w] + ws, pl)
    ensures var r := Run(s, ViewChanges(ws), pl.cfg); InE0(r, 2, pl) && NewViewMessage(Nv2([w] + ws)) in r.sent
  {
    V2Views(w, ws, pl);
    InvariantParts(s, pl.F());
    hide Invariant, Run, LeadNewView, V2Ok, ViewChanges, InE0, Nv2, LogRecorded, Ordered;
    GathersTwo(s, w, ws, pl.cfg);
    LeadsTwo(s.(vcs := s.vcs[2 := [w] + ws]), [w] + ws, pl);
  }

  lemma V2Views(w: ViewChangeArgs, ws: seq<ViewChangeArgs>, pl: Play)
    requires V2Ok([w] + ws, pl)
    ensures |ws| == 2 * pl.F() && forall k :: 0 <= k < |ws| ==> ws[k].View == 2
  {
    assert forall k :: 0 <= k < |ws| ==> ws[k] == ([w] + ws)[k + 1];
  }

  lemma FollowsToTwo(s: State, r: int, w: ViewChangeArgs, V: seq<ViewChangeArgs>, pl: Play)
    requires pl.Good() && InD(s, r, w, pl) && V2Ok(V, pl)
    ensures InE0(Run(s, [Deliver(NewViewMessage(Nv2(V)), ACCEPT)], pl.cfg), r, pl)
  {
    var i := Deliver(NewViewMessage(Nv2(V)), ACCEPT);
    RunOne(s, i, pl.cfg);
    StepKeeps(s, i, pl.cfg);
    V2Slots(V, pl);
    V2Changers(V, pl);
    hide NewViewSlots, MinS, MaxS, Invariant, TakeOver, Changers, Run, V2Ok;
    assert Handle(s, i, pl.cfg) == OnNewView(s, Nv2(V), pl.cfg);
    hide OnNewView, Handle;
    InvariantParts(s, pl.F());
    EntersDirectly(s, 2, V, pl.cfg);
    TakesTwo(s, r, V, pl);
  }

  // ---------- and the late replica executes it ----------

  ghost predicate InE1(s: State, r: int, pl: Play) {
    && Base(s, r, pl.F()) && Collecting(s, S2, pl.d0, {}) && Unanswered(s, S2) && PrepareMessage(Vote(2, 0, pl.d0, r)) in s.sent
  }

  ghost function Where(pending: seq<Vote>, a: Vote): (k: nat)
    requires a in pending
    ensures k < |pending| && pending[k] == a
  {
    var k :| 0 <= k < |pending| && pending[k] == a;
    k
  }

  ghost function Own2(s: State, pl: Play): Input
    requires Vote(2, 0, pl.d0, s.id) in s.pending
  {
    Postponed(Where(s.pending, Vote(2, 0, pl.d0, s.id)), ACCEPT)
  }

  lemma PreparesOwn(s: State, r: int, pl: Play)
    requires pl.Good() && Base(s, r, pl.F()) && Collecting(s, S2, pl.d0, {}) && Unanswered(s, S2)
    requires PrepareMessage(Vote(2, 0, pl.d0, r)) in s.sent
    ensures InE1(OnPrepare(s, Vote(2, 0, pl.d0, r), ACCEPT, pl.cfg), r, pl)
  {
    var p := Vote(2, 0, pl.d0, r);
    var t := OnPrepare(s, p, ACCEPT, pl.cfg);
    hide Invariant, OnPrepare, Voters, Base;
    BaseParts(s, r, pl.F());
    PrepareKeeps(s, p, ACCEPT, pl.cfg);
    PrepareCollects(s, S2, pl.d0, r, {}, pl.cfg);
    PrepareGrows(s, p, ACCEPT, pl.cfg, NO_VOTES);
    SentStays(s.sent, t.sent, PrepareMessage(p));
    BaseKept(s, t, S2, r, pl.F());
    ReplyKept(s, t, S2);
    CollectingLess(t, S2, pl.d0, {} + {r});
  }

  lemma CollectingLess(s: State, id: EntryId, d: string, got: set<int>)
    requires Collecting(s, id, d, got)
    ensures Collecting(s, id, d, {})
  {
  }

  /** Sending one waiting message and taking it off the list changes nothing of the base. */
  lemma SentOff(s: State, s1: State, m: Message, r: int, pl: Play)
    requires InE0(s, r, pl) && s1 == s.(pending := s1.pending, sent := s.sent + [m]) && Invariant(s1, pl.F())
    ensures Base(s1, r, pl.F()) && Collecting(s1, S2, pl.d0, {}) && Unanswered(s1, S2) && m in s1.sent
  {
    hide Invariant, Voters;
    assert s1.sent[|s.sent|] == m;
  }

  /** The state in which the waiting prepare has just been sent. */
  ghost function SentOwn(s: State, k: nat): State
    requires k < |s.pending|
  {
    Send(s.(pending := s.pending[..k] + s.pending[k + 1..]), PrepareMessage(s.pending[k]))
  }

  lemma OwnIsPrepare(s: State, k: nat, cfg: Config)
    requires cfg.n > 0 && !s.panic && k < |s.pending|
    ensures Run(s, [Postponed(k, ACCEPT)], cfg) == OnPrepare(SentOwn(s, k), s.pending[k], ACCEPT, cfg)
  {
    RunOne(s, Postponed(k, ACCEPT), cfg);
    hide OnPrepare, Run;
  }

  lemma InE0Parts(s: State, r: int, pl: Play)
    requires InE0(s, r, pl)
    ensures Invariant(s, pl.F()) && s.id == r && !s.panic && Vote(2, 0, pl.d0, r) in s.pending
  {
    hide Invariant;
  }

  lemma SendsPrepare(s: State, r: int, pl: Play)
    requires pl.Good() && InE0(s, r, pl)
    ensures s.id == r && InE1(Run(s, [Own2(s, pl)], pl.cfg), r, pl)
  {
    hide Invariant, OnPrepare, Run, InE0, InE1, Base, Collecting;
    InE0Parts(s, r, pl);
    var p := Vote(2, 0, pl.d0, r);
    var k := Where(s.pending, p);
    OwnIsPrepare(s, k, pl.cfg);
    var s1 := SentOwn(s, k);
    PostponedReady(s, s1, k, pl.F());
    SentOff(s, s1, PrepareMessage(p), r, pl);
    PreparesOwn(s1, r, pl);
  }

  ghost predicate InF(s: State, r: int, pl: Play) {
    && Base(s, r, pl.F()) && Confirming(s, S2, pl.d0, {}) && Unanswered(s, S2) && CommitMessage(Vote(2, 0, pl.d0, r)) in s.sent
  }

  lemma CommitsTwo(s: State, r: int, xs: seq<int>, pl: Play)
    requires pl.Good() && InE1(s, r, pl) && Distinct(xs) && |xs| == 2 * pl.F() + 1
    ensures InF(Run(s, Prepares(S2, pl.d0, xs), pl.cfg), r, pl)
  {
    hide Run, Prepares, Base, Collecting, Confirming;
    GroupPrepares(s, S2, pl.d0, r, xs, pl.cfg);
  }

  // ---------- all replicas, act by act ----------

  ghost predicate OnStage(sys: System, pl: Play) {
    pl.Good() && sys.cfg == pl.cfg && sys.byz == pl.byz && |sys.replicas| == pl.cfg.n && ReachableBy(sys, 0, Ops(pl))
  }

  /** Every replica takes its inputs. */
  lemma Act(sys: System, inp: seq<seq<Input>>, pl: Play) returns (t: System)
    requires OnStage(sys, pl) && |inp| == |sys.replicas|
    requires forall r :: r in pl.byz && 0 <= r < |inp| ==> inp[r] == []
    requires forall r, k :: 0 <= r < |inp| && 0 <= k < |inp[r]| ==> Proper(sys, inp[r][k], Ops(pl))
    ensures OnStage(t, pl)
    ensures forall r :: 0 <= r < |inp| ==> t.replicas[r] == Run(sys.replicas[r], inp[r], pl.cfg)
    ensures forall r :: 0 <= r < |inp| && inp[r] == [] ==> t.replicas[r] == sys.replicas[r]
  {
    hide Run, ReachableBy, Proper, Ops;
    Advance(sys, inp, 0, Ops(pl));
    t := Advanced(sys, inp);
    forall r | 0 <= r < |inp| && inp[r] == []
      ensures t.replicas[r] == sys.replicas[r]
    {
      RunNone(sys.replicas[r], pl.cfg);
    }
  }

  /** Only replica `r` acts. */
  ghost function Only(n: nat, r: int, inputs: seq<Input>): (inp: seq<seq<Input>>)
    ensures |inp| == n && forall x :: 0 <= x < n ==> inp[x] == if x == r then inputs else []
  {
    seq(n, x => if x == r then inputs else [])
  }

  lemma ActOne(sys: System, r: int, inputs: seq<Input>, pl: Play) returns (t: System)
    requires OnStage(sys, pl) && 0 <= r < pl.cfg.n && r !in pl.byz && forall k :: 0 <= k < |inputs| ==> Proper(sys, inputs[k], Ops(pl))
    ensures OnStage(t, pl) && t.replicas[r] == Run(sys.replicas[r], inputs, pl.cfg)
    ensures forall x :: 0 <= x < pl.cfg.n && x != r ==> t.replicas[x] == sys.replicas[x]
  {
    hide Run, ReachableBy, Proper, Ops;
    t := Act(sys, Only(pl.cfg.n, r, inputs), pl);
  }

  /** The honest part of view 1's group, replicas 0 to 2f. */
  predicate Group(r: int, pl: Play) {
    0 <= r <= 2 * pl.F() && r !in pl.byz
  }

  ghost predicate StageA(sys: System, pl: Play) {
    OnStage(sys, pl) && (forall r :: Group(r, pl) ==> InA(sys.replicas[r], r, pl)) && InLate(sys.replicas[pl.Late()], pl)
  }

  lemma Opening(pl: Play) returns (t: System)
    requires pl.Good()
    ensures OnStage(t, pl) && InA(t.replicas[0], 0, pl) && PrePrepareMessage(PP0(pl)) in t.replicas[0].sent
    ensures forall r :: 0 < r < pl.cfg.n ==> t.replicas[r] == Initial(r, 0)
  {
    hide InA, Run, ReachableBy;
    var sys := System(pl.cfg, pl.byz, seq(pl.cfg.n, r => Initial(r, 0)));
    StartReachable(sys, 0, Ops(pl));
    t := ActOne(sys, 0, [Asked(pl.op0, pl.d0)], pl);
    LeaderAsked(pl);
  }

  lemma FollowersAccept(sys: System, pl: Play) returns (u: System)
    requires OnStage(sys, pl) && InA(sys.replicas[0], 0, pl) && Proper(sys, ToldOf(PP0(pl)), Ops(pl))
    requires forall r :: 0 < r < pl.cfg.n ==> sys.replicas[r] == Initial(r, 0)
    ensures OnStage(u, pl) && forall r :: Group(r, pl) || r == pl.Late() ==> InA(u.replicas[r], r, pl)
  {
    hide InA, Run, ReachableBy, Initial, Proper, Ops, ToldOf;
    var inp := seq(pl.cfg.n, r => if 0 < r && (Group(r, pl) || r == pl.Late()) then [ToldOf(PP0(pl))] else []);
    assert forall r :: r in pl.byz && 0 <= r < |inp| ==> inp[r] == [];
    u := Act(sys, inp, pl);
    forall r | Group(r, pl) || r == pl.Late()
      ensures InA(u.replicas[r], r, pl)
    {
      if r > 0 { FollowerTold(r, pl); }
    }
  }

  /** The late replica hears the group's prepares. */
  lemma LateHears(u: System, pl: Play) returns (t: System)
    requires OnStage(u, pl) && forall r :: Group(r, pl) || r == pl.Late() ==> InA(u.replicas[r], r, pl)
    ensures StageA(t, pl)
  {
    hide InA, InLate, Run, ReachableBy, Prepares;
    var inputs := Prepares(S0, pl.d0, Range(2 * pl.F() + 1));
    forall k | 0 <= k < |inputs|
      ensures Proper(u, inputs[k], Ops(pl))
    {
      if k !in pl.byz { PreparedInA(u.replicas[k], k, pl); }
    }
    hide Proper, Ops;
    t := ActOne(u, pl.Late(), inputs, pl);
    LateCommits(u.replicas[pl.Late()], pl);
  }

  lemma ActA(pl: Play) returns (t: System)
    requires pl.Good()
    ensures StageA(t, pl)
  {
    hide InA, InLate, Run, ReachableBy, Initial, StageA;
    var sys := Opening(pl);
    assert Proper(sys, ToldOf(PP0(pl)), Ops(pl));
    hide Proper, Ops, ToldOf;
    var u := FollowersAccept(sys, pl);
    t := LateHears(u, pl);
  }

  lemma PreparedInA(s: State, r: int, pl: Play)
    requires InA(s, r, pl)
    ensures PrepareMessage(Vote(0, 0, pl.d0, r)) in s.sent
  {
  }

  /** Everybody of the group is in view 1, the late replica still in view 0. */
  ghost predicate StageB(sys: System, pl: Play) {
    OnStage(sys, pl) && (forall r :: Group(r, pl) ==> InB(sys.replicas[r], r, pl)) && InLate(sys.replicas[pl.Late()], pl)
  }

  lemma SentVc1(s: State, r: int, pl: Play)
    requires InB0(s, r, pl)
    ensures ViewChangeMessage(Vc1(r)) in s.sent
  {
  }

  lemma NothingReportedOne(pl: Play)
    ensures ReportsKnown(V1(pl), Ops(pl))
  {
    var V := V1(pl);
    assert forall k :: 0 <= k < |V| ==> V[k].P == [];
  }

  lemma ActB(sys: System, pl: Play) returns (t: System)
    requires StageA(sys, pl)
    ensures StageB(t, pl)
  {
    hide InA, InB0, InB, InLate, Run, ReachableBy, V1, ViewChanges, Others1;
    var inp := seq(pl.cfg.n, r => if Group(r, pl) then [Timer([])] else []);
    var u := Act(sys, inp, pl);
    forall r | Group(r, pl)
      ensures InB0(u.replicas[r], r, pl)
    {
      TimerWithNothing(sys.replicas[r], r, pl);
    }
    var ws := Others1(pl);
    forall k | 0 <= k < |ws|
      ensures Proper(u, ViewChanges(ws)[k], Ops(pl))
    {
      if ws[k].Rid !in pl.byz { SentVc1(u.replicas[ws[k].Rid], ws[k].Rid, pl); }
    }
    var v := u;
    if 1 !in pl.byz {
      v := ActOne(u, 1, ViewChanges(ws), pl);
      LeaderOfOne(u.replicas[1], pl);
    }
    var i := Deliver(NewViewMessage(Nv1(pl)), ACCEPT);
    assert Proper(v, i, Ops(pl)) by { NothingReportedOne(pl); }
    t := Act(v, seq(pl.cfg.n, r => if Group(r, pl) && r != 1 then [i] else []), pl);
    forall r | Group(r, pl)
      ensures InB(t.replicas[r], r, pl)
    {
      if r != 1 { FollowsToOne(v.replicas[r], r, pl); }
    }
  }

  /** The group has committed to the second request. */
  ghost predicate StageC(sys: System, pl: Play) {
    OnStage(sys, pl) && (forall r :: Group(r, pl) ==> InC(sys.replicas[r], r, pl)) && InLate(sys.replicas[pl.Late()], pl)
  }

  lemma SentInC1(s: State, r: int, pl: Play)
    requires InC1(s, r, pl)
    ensures PrepareMessage(Vote(1, 0, pl.d1, r)) in s.sent
  {
  }

  lemma ActC(sys: System, pl: Play) returns (t: System)
    requires StageB(sys, pl)
    ensures StageC(t, pl)
  {
    hide InB, InC1, InC, InLate, Run, ReachableBy, Prepares;
    var u := sys;
    if 1 !in pl.byz {
      u := ActOne(sys, 1, [Asked(pl.op1, pl.d1)], pl);
      LeaderAskedOne(sys.replicas[1], pl);
    }
    assert Proper(u, ToldOf(PP1(pl)), Ops(pl));
    var v := Act(u, seq(pl.cfg.n, r => if Group(r, pl) && r != 1 then [ToldOf(PP1(pl))] else []), pl);
    forall r | Group(r, pl)
      ensures InC1(v.replicas[r], r, pl)
    {
      if r != 1 { FollowerToldOne(u.replicas[r], r, pl); }
    }
    var inputs := Prepares(S1, pl.d1, Range(2 * pl.F() + 1));
    forall k | 0 <= k < |inputs|
      ensures Proper(v, inputs[k], Ops(pl))
    {
      if k !in pl.byz { SentInC1(v.replicas[k], k, pl); }
    }
    t := Act(v, seq(pl.cfg.n, r => if Group(r, pl) then inputs else []), pl);
    forall r | Group(r, pl)
      ensures InC(t.replicas[r], r, pl)
    {
      CommitsOne(v.replicas[r], r, pl);
    }
  }

  /** Who forms view 2: replicas 1 to 2f and the late one. */
  predicate Member(r: int, pl: Play) {
    1 <= r <= 2 * pl.F() || r == pl.Late()
  }

  predicate Second(r: int, pl: Play) {
    Member(r, pl) && r !in pl.byz
  }

  /** Replica 0 has executed the second request; `ws[r]` is the view change replica `r` has sent. */
  ghost predicate StageD(sys: System, ws: seq<ViewChangeArgs>, pl: Play) {
    && OnStage(sys, pl) && |ws| == pl.cfg.n && Done(sys.replicas[0], S1, pl.d1)
    && (forall r :: Member(r, pl) ==> IsVc2(ws[r], r) && ReportKnown(ws[r].P, Ops(pl)))
    && (forall r :: Second(r, pl) ==> InD(sys.replicas[r], r, ws[r], pl)) && ReportsOnly(ws[pl.Late()], PP0(pl))
  }

  lemma SentInC(s: State, r: int, pl: Play)
    requires InC(s, r, pl)
    ensures CommitMessage(Vote(1, 0, pl.d1, r)) in s.sent && Base(s, r, pl.F()) && Confirming(s, S1, pl.d1, {}) && Unanswered(s, S1)
  {
  }

  lemma ReportedKnown(s: State, pl: Play)
    requires OpsKnown(s, Ops(pl))
    ensures ReportKnown(VcOf(s, pl.F()).P, Ops(pl))
  {
    var order := OrderOf(s.log, pl.F());
    forall k | 0 <= k < |order|
      ensures var pp := ReportOf(s.log, order)[k].PP; pp.Message.Op == Ops(pl)(pp.Digest)
    {
      assert order[k] in order;
    }
  }

  /** The view changes for view 2: an honest replica's own, and an empty one of a faulty replica. */
  ghost function Seconded(sys: System, pl: Play): (ws: seq<ViewChangeArgs>)
    ensures |ws| == |sys.replicas|
    ensures forall r :: 0 <= r < |ws| ==>
              ws[r] == if r in pl.byz then ViewChangeArgs(2, CheckPointArgs(-1, "", r, 0), [], r) else VcOf(sys.replicas[r], pl.F())
  {
    seq(|sys.replicas|, r requires 0 <= r < |sys.replicas| =>
      if r in pl.byz then ViewChangeArgs(2, CheckPointArgs(-1, "", r, 0), [], r) else VcOf(sys.replicas[r], pl.F()))
  }

  lemma SecondedKnown(sys: System, pl: Play)
    requires OnStage(sys, pl)
    ensures forall r :: Member(r, pl) ==> ReportKnown(Seconded(sys, pl)[r].P, Ops(pl))
  {
    hide Sound, VcOf, OpsKnown, ReachableBy;
    ReachableSound(sys, 0, Ops(pl));
    forall r | Member(r, pl)
      ensures ReportKnown(Seconded(sys, pl)[r].P, Ops(pl))
    {
      if r !in pl.byz {
        assert Honest(sys, r);
        ReportedKnown(sys.replicas[r], pl);
      }
    }
  }

  /** Replica 0 executes the second request. */
  lemma ZeroExecutes(sys: System, pl: Play) returns (u: System)
    requires StageC(sys, pl)
    ensures OnStage(u, pl) && Done(u.replicas[0], S1, pl.d1)
    ensures forall r :: 0 < r < pl.cfg.n ==> u.replicas[r] == sys.replicas[r]
  {
    hide InC, InLate, Run, ReachableBy, Commits, Base, Confirming, Done;
    var xs := Range(2 * pl.F() + 1);
    var inputs := Commits(S1, pl.d1, xs);
    forall k | 0 <= k < |inputs|
      ensures Proper(sys, inputs[k], Ops(pl))
    {
      if k !in pl.byz { SentInC(sys.replicas[k], k, pl); }
    }
    u := ActOne(sys, 0, inputs, pl);
    SentInC(sys.replicas[0], 0, pl);
    QuorumExecutes(sys.replicas[0], S1, pl.d1, 0, xs, pl.cfg);
  }

  ghost function Timers(sys: System, pl: Play): (inp: seq<seq<Input>>)
    ensures |inp| == |sys.replicas|
    ensures forall r :: 0 <= r < |inp| ==>
              var i := Timer(OrderOf(sys.replicas[r].log, pl.F()));
              inp[r] == if r == pl.Late() then [i, i] else if Second(r, pl) then [i] else []
  {
    seq(|sys.replicas|, r requires 0 <= r < |sys.replicas| =>
      var i := Timer(OrderOf(sys.replicas[r].log, pl.F()));
      if r == pl.Late() then [i, i] else if Second(r, pl) then [i] else [])
  }

  /** The timers of all who form view 2 fire. */
  lemma AskAll(sys: System, pl: Play) returns (t: System)
    requires OnStage(sys, pl) && InLate(sys.replicas[pl.Late()], pl)
    requires forall r :: Group(r, pl) && r != 0 ==> InC(sys.replicas[r], r, pl)
    ensures OnStage(t, pl) && t.replicas[0] == sys.replicas[0] && ReportsOnly(Seconded(sys, pl)[pl.Late()], PP0(pl))
    ensures forall r :: Second(r, pl) ==> InD(t.replicas[r], r, Seconded(sys, pl)[r], pl)
  {
    hide InC, InD, InLate, Run, ReachableBy, OrderOf, VcOf, ReportsOnly, Ops;
    t := Act(sys, Timers(sys, pl), pl);
    LateAsks(sys.replicas[pl.Late()], pl);
    forall r | Second(r, pl)
      ensures InD(t.replicas[r], r, Seconded(sys, pl)[r], pl)
    {
      if r != pl.Late() { AsksTwo(sys.replicas[r], r, pl); }
    }
  }

  lemma AllForTwo(sys: System, t: System, pl: Play)
    requires pl.Good() && sys.byz == pl.byz && |sys.replicas| == |t.replicas| == pl.cfg.n
    requires forall r :: Second(r, pl) ==> InD(t.replicas[r], r, Seconded(sys, pl)[r], pl)
    ensures forall r :: Member(r, pl) ==> IsVc2(Seconded(sys, pl)[r], r)
  {
    hide InD, VcOf;
    forall r | Member(r, pl)
      ensures IsVc2(Seconded(sys, pl)[r], r)
    {
      if r !in pl.byz { VcParts(t.replicas[r], r, Seconded(sys, pl)[r], pl); }
    }
  }

  lemma ActD(sys: System, pl: Play) returns (t: System, ws: seq<ViewChangeArgs>)
    requires StageC(sys, pl)
    ensures StageD(t, ws, pl)
  {
    hide InC, InD, InLate, ReachableBy, VcOf, Done, ReportsOnly, ReportKnown, Ops, IsVc2, PP0;
    var u := ZeroExecutes(sys, pl);
    SecondedKnown(u, pl);
    t := AskAll(u, pl);
    AllForTwo(u, t, pl);
    ws := Seconded(u, pl);
  }

  /** The view changes replica 2 hears after its own, the late replica's last. */
  ghost function Others2(ws: seq<ViewChangeArgs>, pl: Play): (r: seq<ViewChangeArgs>)
    requires pl.Good() && |ws| == pl.cfg.n
    ensures |r| == 2 * pl.F()
    ensures forall k :: 0 <= k < |r| ==> r[k] == ws[if k == 2 * pl.F() - 1 then pl.Late() else if k == 0 then 1 else k + 2]
  {
    seq(2 * pl.F(), k requires 0 <= k < 2 * pl.F() => ws[if k == 2 * pl.F() - 1 then pl.Late() else if k == 0 then 1 else k + 2])
  }

  lemma VcParts(s: State, r: int, w: ViewChangeArgs, pl: Play)
    requires InD(s, r, w, pl)
    ensures IsVc2(w, r) && ViewChangeMessage(w) in s.sent
  {
  }

  lemma V2Members(sys: System, ws: seq<ViewChangeArgs>, pl: Play)
    requires StageD(sys, ws, pl)
    ensures forall r :: Member(r, pl) ==> IsVc2(ws[r], r) && SentBy(sys, r, ViewChangeMessage(ws[r])) && ReportKnown(ws[r].P, Ops(pl))
  {
    hide InD, ReachableBy, ReportsOnly, Done, ReportKnown, Ops;
    forall r | Member(r, pl)
      ensures SentBy(sys, r, ViewChangeMessage(ws[r]))
    {
      if r !in pl.byz { VcParts(sys.replicas[r], r, ws[r], pl); }
    }
  }

  lemma V2Listed(ws: seq<ViewChangeArgs>, pl: Play)
    requires pl.Good() && |ws| == pl.cfg.n && ReportsOnly(ws[pl.Late()], PP0(pl))
    requires forall r :: Member(r, pl) ==> IsVc2(ws[r], r)
    ensures V2Ok([ws[2]] + Others2(ws, pl), pl)
    ensures forall k :: 0 <= k < 2 * pl.F() ==> Member(Others2(ws, pl)[k].Rid, pl) && Others2(ws, pl)[k] == ws[Others2(ws, pl)[k].Rid]
  {
    hide ReportsOnly;
    var V, f := [ws[2]] + Others2(ws, pl), pl.F();
    assert forall k :: 0 <= k < |V| ==>
        V[k] == ws[if k == 0 then 2 else if k == 2 * f then pl.Late() else if k == 1 then 1 else k + 1];
  }

  lemma V2Known(ws: seq<ViewChangeArgs>, pl: Play)
    requires pl.Good() && |ws| == pl.cfg.n && forall r :: Member(r, pl) ==> ReportKnown(ws[r].P, Ops(pl))
    ensures ReportsKnown([ws[2]] + Others2(ws, pl), Ops(pl))
  {
    hide ReportKnown, Ops;
    assert Member(2, pl);
    forall k | 0 <= k < 2 * pl.F()
      ensures ReportKnown(Others2(ws, pl)[k].P, Ops(pl))
    {
      assert Member(if k == 2 * pl.F() - 1 then pl.Late() else if k == 0 then 1 else k + 2, pl);
    }
  }

  lemma V2Formed(sys: System, ws: seq<ViewChangeArgs>, pl: Play)
    requires StageD(sys, ws, pl)
    ensures V2Ok([ws[2]] + Others2(ws, pl), pl) && ReportsKnown([ws[2]] + Others2(ws, pl), Ops(pl))
    ensures forall k :: 0 <= k < 2 * pl.F() ==> Proper(sys, ViewChanges(Others2(ws, pl))[k], Ops(pl))
  {
    hide InD, ReachableBy, ReportsOnly, Done, V2Ok, Others2, SentBy, ReportKnown, Ops, IsVc2, PP0, ReportsKnown;
    V2Members(sys, ws, pl);
    V2Listed(ws, pl);
    V2Known(ws, pl);
    var us := Others2(ws, pl);
    forall k | 0 <= k < 2 * pl.F()
      ensures Proper(sys, ViewChanges(us)[k], Ops(pl))
    {
      assert SentBy(sys, us[k].Rid, ViewChangeMessage(us[k]));
    }
  }

  /** Everybody who forms view 2 is in it and has the first request's slot again. */
  ghost predicate StageE(sys: System, pl: Play) {
    OnStage(sys, pl) && Done(sys.replicas[0], S1, pl.d1) && forall r :: Second(r, pl) ==> InE0(sys.replicas[r], r, pl)
  }

  /** Replica 2 leads; the others still have to hear of it. */
  lemma LeaderActs(sys: System, ws: seq<ViewChangeArgs>, V: seq<ViewChangeArgs>, pl: Play) returns (u: System)
    requires StageD(sys, ws, pl) && V == [ws[2]] + Others2(ws, pl)
    ensures OnStage(u, pl) && V2Ok(V, pl) && InE0(u.replicas[2], 2, pl) && SentBy(u, 2, NewViewMessage(Nv2(V)))
    ensures ReportsKnown(V, Ops(pl))
    ensures forall r :: 0 <= r < pl.cfg.n && r != 2 ==> u.replicas[r] == sys.replicas[r]
  {
    V2Formed(sys, ws, pl);
    hide InD, InE0, Run, ReachableBy, ViewChanges, Others2, V2Ok, Done, ReportsOnly, NewViewSlots, Proper, Nv2, ReportKnown, ReportsKnown, Ops;
    var others := Others2(ws, pl);
    u := ActOne(sys, 2, ViewChanges(others), pl);
    LeaderOfTwo(sys.replicas[2], ws[2], others, pl);
  }

  lemma ActE(sys: System, ws: seq<ViewChangeArgs>, pl: Play) returns (t: System)
    requires StageD(sys, ws, pl)
    ensures StageE(t, pl)
  {
    hide InD, InE0, Run, ReachableBy, Others2, V2Ok, Done, ReportsOnly, Nv2, ReportKnown, ReportsKnown, Ops;
    var V := [ws[2]] + Others2(ws, pl);
    var u := LeaderActs(sys, ws, V, pl);
    var i := Deliver(NewViewMessage(Nv2(V)), ACCEPT);
    assert Proper(u, i, Ops(pl)) by { TwoIsView(V); }
    hide Proper;
    t := Act(u, seq(pl.cfg.n, r => if Second(r, pl) && r != 2 then [i] else []), pl);
    forall r | Second(r, pl)
      ensures InE0(t.replicas[r], r, pl)
    {
      if r != 2 { FollowsToTwo(u.replicas[r], r, ws[r], V, pl); }
    }
  }

  lemma TwoIsView(V: seq<ViewChangeArgs>)
    ensures Nv2(V).View == 2 && Nv2(V).V == V
  {
  }

  ghost function Seconds(pl: Play): (xs: seq<int>)
    ensures |xs| == 2 * pl.F() + 1 && forall k :: 0 <= k < |xs| ==> xs[k] == if k < 2 * pl.F() then k + 1 else pl.Late()
  {
    seq(2 * pl.F() + 1, k => if k < 2 * pl.F() then k + 1 else pl.Late())
  }

  lemma SentInE1(s: State, r: int, pl: Play)
    requires InE1(s, r, pl)
    ensures PrepareMessage(Vote(2, 0, pl.d0, r)) in s.sent
  {
  }

  lemma SentInF(s: State, r: int, pl: Play)
    requires InF(s, r, pl)
    ensures CommitMessage(Vote(2, 0, pl.d0, r)) in s.sent && Base(s, r, pl.F()) && Confirming(s, S2, pl.d0, {}) && Unanswered(s, S2)
  {
  }

  lemma PendingInE0(s: State, r: int, pl: Play)
    requires InE0(s, r, pl)
    ensures Vote(2, 0, pl.d0, s.id) in s.pending
  {
  }

  /** Everybody who forms view 2 sends the prepare it has left over from entering it. */
  lemma SendAll(sys: System, pl: Play) returns (u: System)
    requires StageE(sys, pl)
    ensures OnStage(u, pl) && u.replicas[0] == sys.replicas[0] && forall r :: Second(r, pl) ==> InE1(u.replicas[r], r, pl)
  {
    hide InE0, InE1, Run, ReachableBy, Own2, Done, Proper, Ops;
    forall r | Second(r, pl)
      ensures Vote(2, 0, pl.d0, sys.replicas[r].id) in sys.replicas[r].pending
    {
      PendingInE0(sys.replicas[r], r, pl);
    }
    var inp := seq(pl.cfg.n, r requires 0 <= r < pl.cfg.n => if Second(r, pl) then [Own2(sys.replicas[r], pl)] else []);
    OwnGenuine(sys, pl);
    u := Act(sys, inp, pl);
    forall r | Second(r, pl)
      ensures InE1(u.replicas[r], r, pl)
    {
      SendsPrepare(sys.replicas[r], r, pl);
    }
  }

  lemma ActF(sys: System, pl: Play) returns (t: System)
    requires StageE(sys, pl)
    ensures OnStage(t, pl) && Done(t.replicas[0], S1, pl.d1) && forall r :: Second(r, pl) ==> InF(t.replicas[r], r, pl)
  {
    hide InE0, InE1, InF, Run, ReachableBy, Prepares, Done;
    var u := SendAll(sys, pl);
    var xs := Seconds(pl);
    var inputs := Prepares(S2, pl.d0, xs);
    forall k | 0 <= k < |inputs|
      ensures Proper(u, inputs[k], Ops(pl))
    {
      if xs[k] !in pl.byz { SentInE1(u.replicas[xs[k]], xs[k], pl); }
    }
    hide Proper, Ops;
    t := Act(u, seq(pl.cfg.n, r => if Second(r, pl) then inputs else []), pl);
    forall r | Second(r, pl)
      ensures InF(t.replicas[r], r, pl)
    {
      CommitsTwo(u.replicas[r], r, xs, pl);
    }
  }

  lemma OwnGenuine(sys: System, pl: Play)
    ensures forall s: State :: Vote(2, 0, pl.d0, s.id) in s.pending ==> Proper(sys, Own2(s, pl), Ops(pl))
  {
  }

  // ---------- what it comes to ----------

  /** The late replica executes the first request, replica 0 having executed the second. */
  lemma Performed(pl: Play) returns (t: System)
    requires pl.Good()
    ensures OnStage(t, pl) && Done(t.replicas[0], S1, pl.d1) && Done(t.replicas[pl.Late()], S2, pl.d0)
  {
    hide ReachableBy, Run, InF, Done, Commits, Base, Confirming, StageA, StageB, StageC, StageD, StageE;
    var a := ActA(pl);
    var b := ActB(a, pl);
    var c := ActC(b, pl);
    var d, ws := ActD(c, pl);
    var e := ActE(d, ws, pl);
    var g := ActF(e, pl);
    var xs := Seconds(pl);
    var inputs := Commits(S2, pl.d0, xs);
    forall k | 0 <= k < |inputs|
      ensures Proper(g, inputs[k], Ops(pl))
    {
      if xs[k] !in pl.byz { SentInF(g.replicas[xs[k]], xs[k], pl); }
    }
    t := ActOne(g, pl.Late(), inputs, pl);
    SentInF(g.replicas[pl.Late()], pl.Late(), pl);
    QuorumExecutes(g.replicas[pl.Late()], S2, pl.d0, pl.Late(), xs, pl.cfg);
  }

  /** Two honest replicas have executed different digests under the same number. */
  ghost predicate Diverged(sys: System, n: int) {
    exists i, j, t, u ::
      && Honest(sys, i) && t in sys.replicas[i].executed && t.Seq == n
      && Honest(sys, j) && u in sys.replicas[j].executed && u.Seq == n && t.Digest != u.Digest
  }

  /**
   For every f >= 1 and 3f+1 replicas, even if none of them is faulty, and any two requests: some
   run of authentic messages makes two replicas execute both under number 0.
   */
  lemma ViewsDisagree(pl: Play)
    requires pl.Good()
    ensures exists sys: System :: ReachableBy(sys, 0, Ops(pl)) && sys.cfg == pl.cfg && sys.byz == pl.byz && Diverged(sys, 0)
  {
    var sys := Performed(pl);
    hide ReachableBy, Answered;
    var t :| t in sys.replicas[0].executed && t.View == 1 && t.Seq == 0 && t.Digest == pl.d1;
    var u :| u in sys.replicas[pl.Late()].executed && u.View == 2 && u.Seq == 0 && u.Digest == pl.d0;
    assert Honest(sys, 0) && Honest(sys, pl.Late());
    assert Diverged(sys, 0);
  }

  /** The replicas from `lo` on, `n` of them. */
  ghost function Those(lo: int, n: nat): (xs: set<int>)
    ensures |xs| == n && forall x :: x in xs <==> lo <= x < lo + n
  {
    if n == 0 then {} else Those(lo, n - 1) + {lo + n - 1}
  }

  /** The most that may be faulty: the second leader and all who never act, f in all. */
  ghost function Worst(f: nat): (byz: set<int>)
    requires f >= 1
    ensures |byz| == f && forall r :: r in byz <==> r == 1 || 2 * f < r < 3 * f
  {
    Those(2 * f + 1, f - 1) + {1}
  }

  /** All faulty replicas and one honest one are enough for an answer. */
  lemma FaultyAnswer(sys: System, x: int, id: EntryId, d: string, pl: Play)
    requires pl.Good() && pl.byz == Worst(pl.cfg.f) && OnStage(sys, pl) && Honest(sys, x) && sys.replicas[x].id == x
    requires Answered(sys.replicas[x], id, d) && OpsKnown(sys.replicas[x], Ops(pl))
    ensures AnsweredBy(sys, Worst(pl.cfg.f) + {x}, pl.OpOf(d), id.n)
  {
    hide ReachableBy;
    var a :| ResponseMessage(a) in sys.replicas[x].sent && a.View == id.v && a.Seq == id.n && a.Auxiliary == d;
    assert a.Res == pl.OpOf(d);
  }

  /**
   With f faulty replicas, number 0 is answered for both operations by f+1 replicas each, although
   digests determine operations.
   */
  lemma AnsweredTwice(pl: Play) returns (sys: System, q: set<int>, r: set<int>)
    requires pl.Good() && pl.byz == Worst(pl.cfg.f)
    ensures OnStage(sys, pl) && |sys.byz| == sys.cfg.f
    ensures AnsweredBy(sys, q, pl.op1, 0) && AnsweredBy(sys, r, pl.op0, 0)
  {
    sys := Performed(pl);
    var late := pl.Late();
    q, r := Worst(pl.cfg.f) + {0}, Worst(pl.cfg.f) + {late};
    assert Honest(sys, 0) && Honest(sys, late);
    hide ReachableBy, Executed, Answered, OpsKnown, Ops, AnsweredBy, Invariant;
    ReachableSound(sys, 0, Ops(pl));
    assert ReplicaSound(sys, 0) && ReplicaSound(sys, late);
    FaultyAnswer(sys, 0, S1, pl.d1, pl);
    FaultyAnswer(sys, late, S2, pl.d0, pl);
  }
}
