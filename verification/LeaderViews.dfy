/**
 Numbering in every view, not only the first: which views start out numbered, exactly, and how the
 leader of such a view numbers requests from then on.
 */
module LeaderViews {
  import opened Collections
  import opened Replica
  import opened ReplicaOrder
  import opened ReplicaVotes
  import opened Numbering

  // ---------- what installing slots does to the numbering ----------

  /** The number an operation is left with after the slots were stored one after the other. */
  ghost function LastNumber(pps: seq<PrePrepareArgs>, op: string): Option<int> {
    if pps == [] then None
    else if pps[|pps| - 1].Message.Op == op then Some(pps[|pps| - 1].Seq)
    else LastNumber(pps[..|pps| - 1], op)
  }

  lemma {:induction false} InstalledNumbers(s: State, view: int, pps: seq<PrePrepareArgs>)
    ensures var m := InstallSlots(s, view, pps).seqmap;
            forall op :: LastNumber(pps, op).Some? ==> op in m && m[op] == LastNumber(pps, op).value
  {
    if pps != [] {
      InstalledNumbers(s, view, pps[..|pps| - 1]);
    }
  }

  ghost predicate Consecutive(pps: seq<PrePrepareArgs>, mins: int) {
    forall k :: 0 <= k < |pps| ==> pps[k].Seq == mins + 1 + k
  }

  /** A slot's operation is left with the slot's number unless a later slot carries the same operation. */
  lemma {:induction false} LastNumberOf(pps: seq<PrePrepareArgs>, mins: int, k: nat)
    requires Consecutive(pps, mins) && k < |pps|
    ensures var last := LastNumber(pps, pps[k].Message.Op);
            && last.Some?
            && (last.value == pps[k].Seq <==> forall l :: k < l < |pps| ==> pps[l].Message.Op != pps[k].Message.Op)
  {
    var m := |pps| - 1;
    if k < m {
      if pps[m].Message.Op == pps[k].Message.Op {
        assert pps[m].Seq != pps[k].Seq;
      } else {
        LastNumberOf(pps[..m], mins, k);
      }
    }
  }

  /** No operation fills two slots, as far as the numbers from `low` on are concerned. */
  ghost predicate FreshSlots(pps: seq<PrePrepareArgs>, low: int) {
    forall k, l :: 0 <= k < l < |pps| && pps[k].Message.Op == pps[l].Message.Op && pps[k].Message.Op != "" ==> pps[k].Seq < low
  }

  // ---------- entering a view ----------

  /** `r` is `c` after it took over the view: slots in the log, their numbers in the table. */
  ghost predicate TookOver(c: State, r: State, view: int, mins: int, pps: seq<PrePrepareArgs>) {
    && r.view == view > c.view && r.lastcp == c.lastcp && r.tSeq == mins + |pps| + 1 && Consecutive(pps, mins)
    && (forall op :: LastNumber(pps, op).Some? ==> op in r.seqmap && r.seqmap[op] == LastNumber(pps, op).value)
    && (forall n :: mins < n <= mins + |pps| ==>
          var id := EntryId(view, n); id in r.log && r.log[id].pp == Some(pps[n - mins - 1]))
    && (forall id :: id in r.log && id.v == view && r.log[id].pp.Some? ==> mins < id.n <= mins + |pps|)
  }

  lemma TakeOverTook(c: State, view: int, V: seq<ViewChangeArgs>)
    requires LogRecorded(c) && view > c.view && c.view >= 0
    ensures TookOver(c, TakeOver(c, view, V), view, MinS(V), NewViewSlots(view, V))
  {
    hide NewViewSlots, InstallSlots, MinS, MaxS, LogRecorded, TookOver, LogFrom, PreparesFor, VcsFrom;
    var pps, s1 := NewViewSlots(view, V), c.(tSeq := MaxS(V) + 1);
    SlotNumbers(view, V);
    SlotCountOf(view, V);
    NumberedLog(c, s1);
    InstalledTook(c, s1, InstallSlots(s1, view, pps), TakeOver(c, view, V), view, MinS(V), pps);
  }

  lemma InstalledTook(c: State, s1: State, m: State, r: State, view: int, mins: int, pps: seq<PrePrepareArgs>)
    requires s1 == c.(tSeq := mins + |pps| + 1) && LogRecorded(s1) && view > c.view && Consecutive(pps, mins)
    requires m == InstallSlots(s1, view, pps)
    requires r.view == view && r.lastcp == m.lastcp && r.tSeq == m.tSeq && r.seqmap == m.seqmap && r.log == LogFrom(m.log, mins)
    ensures TookOver(c, r, view, mins, pps)
  {
    InstalledNumbers(s1, view, pps);
    InstallKeeps(s1, view, pps);
    hide InstallSlots, LastNumber, Installed, LogRecorded;
    InstalledEntries(s1, m, view, mins, pps);
    InstalledFields(s1, m, view, pps);
  }

  lemma NumberedLog(c: State, s: State)
    requires LogRecorded(c) && s == c.(tSeq := s.tSeq)
    ensures LogRecorded(s)
  {
    forall id | id in s.log
      ensures EntryRecorded(s, id, s.log[id])
    {
      assert EntryRecorded(c, id, c.log[id]);
    }
  }

  lemma InstalledFields(s: State, m: State, view: int, pps: seq<PrePrepareArgs>)
    requires Installed(s, m, view, pps)
    ensures m.lastcp == s.lastcp && m.tSeq == s.tSeq
  {
  }

  lemma InstalledEntries(s: State, m: State, view: int, mins: int, pps: seq<PrePrepareArgs>)
    requires LogRecorded(s) && view > s.view && Installed(s, m, view, pps) && Consecutive(pps, mins)
    ensures forall n :: mins < n <= mins + |pps| ==> var id := EntryId(view, n); id in m.log && m.log[id].pp == Some(pps[n - mins - 1])
    ensures forall id :: id in m.log && id.v == view && m.log[id].pp.Some? ==> mins < id.n <= mins + |pps|
  {
    forall n | mins < n <= mins + |pps|
      ensures var id := EntryId(view, n); id in m.log && m.log[id].pp == Some(pps[n - mins - 1])
    {
      NumberedSlots(pps, mins, n);
      assert InSlot(EntryId(view, n), view, pps);
    }
    forall id | id in m.log && id.v == view && m.log[id].pp.Some?
      ensures mins < id.n <= mins + |pps|
    {
      NumberedSlots(pps, mins, id.n);
      if id in s.log { assert EntryRecorded(s, id, s.log[id]); }
    }
  }

  /** The view starts out numbered exactly when no operation fills two slots that still count. */
  lemma TookOverNumbered(c: State, r: State, view: int, mins: int, pps: seq<PrePrepareArgs>)
    requires TookOver(c, r, view, mins, pps)
    ensures Numbered(r, r.tSeq, []) <==> FreshSlots(pps, r.lastcp)
  {
    if FreshSlots(pps, r.lastcp) {
      forall id | id in r.log
        ensures EntryNumbered(r, id)
      {
        if id.v == view && r.log[id].pp.Some? {
          LastNumberOf(pps, mins, id.n - mins - 1);
        }
      }
    } else {
      var k, l :| 0 <= k < l < |pps| && pps[k].Message.Op == pps[l].Message.Op && pps[k].Message.Op != "" && pps[k].Seq >= r.lastcp;
      LastNumberOf(pps, mins, k);
      assert !EntryNumbered(r, EntryId(view, pps[k].Seq));
    }
  }

  /** Entering a view on V, as leader or follower: the exact condition, in terms of V and the state before. */
  lemma EnteredNumbered(s: State, nv: NewViewArgs, f: nat)
    requires Invariant(s, f) && nv.View > s.view
    ensures HasStable(s.cps)
    ensures var r := EnterNewView(s, nv);
            && r.tSeq == MaxS(nv.V) + 1
            && (Numbered(r, r.tSeq, []) <==> FreshSlots(NewViewSlots(nv.View, nv.V), StableAfter(s, nv.V)))
  {
    CatchUpKeeps(s, nv.V);
    var c := CatchUp(s, nv.V, MinS(nv.V));
    QuietKeepsVotes(s, c, f);
    TakeOverTook(c, nv.View, nv.V);
    hide CatchUp, NewViewSlots, Ordered, Quiet, FreshSlots, Numbered, TakeOver;
    TookOverNumbered(c, TakeOver(c, nv.View, nv.V), nv.View, MinS(nv.V), NewViewSlots(nv.View, nv.V));
    SlotCountOf(nv.View, nv.V);
  }

  lemma SlotCountOf(view: int, V: seq<ViewChangeArgs>)
    ensures |NewViewSlots(view, V)| == MaxS(V) - MinS(V)
  {
  }

  /** A view adopted from a stable checkpoint holds nothing yet. */
  lemma AdoptedNumbered(s: State, r: State)
    requires LogRecorded(s) && Quiet(s, r) && r.view > s.view
    ensures Numbered(r, r.tSeq, [])
  {
    forall id | id in r.log
      ensures EntryNumbered(r, id)
    {
      assert EntryRecorded(s, id, s.log[id]);
    }
  }

  // ---------- every step that changes the view ----------

  /** The view changes a leader announces its view with when it takes this message, if it does. */
  ghost function AnnouncedWith(s: State, a: ViewChangeArgs, cfg: Config): Option<seq<ViewChangeArgs>>
    requires cfg.n > 0
  {
    var got := StoreViewChange(s, a).vcs[a.View];
    if a.View > s.view && a.View % cfg.n == s.id && |got| >= 2 * cfg.f + 1 then Some(got) else None
  }

  /** The view changes a step enters a view on; none if it enters no view, or adopts one from a checkpoint. */
  ghost function EntersOn(s: State, i: Input, cfg: Config): Option<seq<ViewChangeArgs>>
    requires cfg.n > 0 && HasStable(s.cps)
  {
    if i.Timer? && ReportOrder(s.log, i.order, s.cps[StableKey(s.cps)].Seq, cfg.f) then
      AnnouncedWith(AskForView(s, i.order), GeneratedViewChange(s, i.order), cfg)
    else if i.Deliver? && i.msg.ViewChangeMessage? then AnnouncedWith(s, i.msg.vc, cfg)
    else if i.Deliver? && i.msg.NewViewMessage? then Some(i.msg.nv.V)
    else None
  }

  /** Nothing stands in the way of numbering: no operation fills two slots of the view that still count. */
  ghost predicate StartsFresh(s: State, i: Input, view: int, cfg: Config)
    requires cfg.n > 0 && HasStable(s.cps)
  {
    match EntersOn(s, i, cfg)
    case Some(V) => FreshSlots(NewViewSlots(view, V), StableAfter(s, V))
    case None => true
  }

  /** The numbers of the view begin right after its slots; a view adopted from a checkpoint goes on where it was. */
  ghost function FirstNumber(s: State, i: Input, cfg: Config): int
    requires cfg.n > 0 && HasStable(s.cps)
  {
    match EntersOn(s, i, cfg)
    case Some(V) => MaxS(V) + 1
    case None => s.tSeq
  }

  ghost predicate StartOk(s: State, r: State, i: Input, cfg: Config)
    requires cfg.n > 0 && HasStable(s.cps)
  {
    r.tSeq == FirstNumber(s, i, cfg) && (Numbered(r, r.tSeq, []) <==> StartsFresh(s, i, r.view, cfg))
  }

  /** The leader enters the view from the state in which it has sent the announcement. */
  lemma LedNumbered(s: State, view: int, got: seq<ViewChangeArgs>, f: nat)
    requires Invariant(s, f) && view > s.view
    ensures var r := LeadNewView(s, view, got);
            && r.view == view && r.tSeq == MaxS(got) + 1
            && (Numbered(r, r.tSeq, []) <==> FreshSlots(NewViewSlots(view, got), StableAfter(s, got)))
  {
    StableIsLast(s);
    hide Invariant, EnterNewView, NewViewSlots, Numbered, FreshSlots;
    var nv := NewViewArgs(view, got, NewViewSlots(view, got));
    var s1 := Send(s, NewViewMessage(nv));
    OtherSent(s, s1, NewViewMessage(nv), f);
    EnteredNumbered(s1, nv, f);
    EnterRaises(s1, nv);
  }

  lemma LeadNumbered(s: State, a: ViewChangeArgs, cfg: Config)
    requires Invariant(s, cfg.f) && cfg.n > 0 && OnViewChange(s, a, cfg).view > s.view
    ensures AnnouncedWith(s, a, cfg).Some?
    ensures var r, V := OnViewChange(s, a, cfg), AnnouncedWith(s, a, cfg).value;
            && r.view == a.View && r.tSeq == MaxS(V) + 1
            && (Numbered(r, r.tSeq, []) <==> FreshSlots(NewViewSlots(r.view, V), StableAfter(s, V)))
  {
    hide Invariant, LeadNewView, NewViewSlots, Numbered, FreshSlots, MinS, MaxS;
    var s1 := StoreViewChange(s, a);
    NumberingIrrelevant(s, s1, cfg.f);
    if a.View > s.view {
      LedNumbered(s1, a.View, s1.vcs[a.View], cfg.f);
    }
  }

  lemma AskedFields(s: State, order: seq<EntryId>)
    requires HasStable(s.cps) && forall id :: id in order ==> id in s.log && s.log[id].pp.Some?
    ensures var r := AskForView(s, order); r.view == s.view && r.lastcp == s.lastcp && r.cps == s.cps
  {
  }

  lemma TimerLeads(s: State, order: seq<EntryId>, cfg: Config)
    requires Invariant(s, cfg.f) && cfg.n > 0 && HasStable(s.cps) && ReportOrder(s.log, order, s.cps[StableKey(s.cps)].Seq, cfg.f)
    requires OnTimer(s, order, cfg).view > s.view
    ensures var got := AnnouncedWith(AskForView(s, order), GeneratedViewChange(s, order), cfg);
            var r := OnTimer(s, order, cfg);
            && got.Some? && r.tSeq == MaxS(got.value) + 1
            && (Numbered(r, r.tSeq, []) <==> FreshSlots(NewViewSlots(r.view, got.value), StableAfter(s, got.value)))
  {
    var s1, vc := AskForView(s, order), GeneratedViewChange(s, order);
    AskKeeps(s, order, cfg.f);
    AskedFields(s, order);
    hide Invariant, OnViewChange, GeneratedViewChange, NewViewSlots, Numbered, FreshSlots, ReportOrder, AnnouncedWith, AskForView, MaxS, MinS;
    LeadNumbered(s1, vc, cfg);
    MonitorNumbered(OnViewChange(s1, vc, cfg));
  }

  lemma TimerReports(s: State, order: seq<EntryId>, cfg: Config)
    requires cfg.n > 0 && HasStable(s.cps) && OnTimer(s, order, cfg).view > s.view
    ensures ReportOrder(s.log, order, s.cps[StableKey(s.cps)].Seq, cfg.f)
  {
    hide AskForView, GeneratedViewChange, OnViewChange, ReportOrder;
  }

  lemma TimerStarts(s: State, order: seq<EntryId>, cfg: Config)
    requires Invariant(s, cfg.f) && cfg.n > 0 && HasStable(s.cps) && OnTimer(s, order, cfg).view > s.view
    ensures StartOk(s, OnTimer(s, order, cfg), Timer(order), cfg)
  {
    TimerReports(s, order, cfg);
    hide OnTimer, Numbered, FreshSlots, NewViewSlots, ReportOrder, AnnouncedWith, AskForView, GeneratedViewChange, MaxS, MinS, Invariant;
    TimerLeads(s, order, cfg);
  }

  lemma MonitorNumbered(r: State)
    ensures Numbered(r.(monitor := true), r.tSeq, []) <==> Numbered(r, r.tSeq, [])
  {
    var m := r.(monitor := true);
    forall id | id in r.log
      ensures EntryNumbered(r, id) <==> EntryNumbered(m, id)
    {
    }
  }

  lemma NewViewStarts(s: State, a: NewViewArgs, aux: Aux, cfg: Config)
    requires Invariant(s, cfg.f) && cfg.n > 0 && HasStable(s.cps) && OnNewView(s, a, cfg).view > s.view
    ensures StartOk(s, OnNewView(s, a, cfg), Deliver(NewViewMessage(a), aux), cfg)
  {
    hide Invariant, EnterNewView, NewViewSlots, Numbered, FreshSlots, SlotsMatch, SlotsTooShort, Changers, MaxS, MinS;
    EnteredNumbered(s, a, cfg.f);
    EnterRaises(s, a);
  }

  lemma ViewChangeStarts(s: State, a: ViewChangeArgs, aux: Aux, cfg: Config)
    requires Invariant(s, cfg.f) && cfg.n > 0 && HasStable(s.cps) && OnViewChange(s, a, cfg).view > s.view
    ensures StartOk(s, OnViewChange(s, a, cfg), Deliver(ViewChangeMessage(a), aux), cfg)
  {
    hide Invariant, OnViewChange, NewViewSlots, Numbered, FreshSlots, AnnouncedWith, MaxS, MinS;
    LeadNumbered(s, a, cfg);
  }

  // ---------- steps that keep the view ----------

  lemma PrepareStays(s: State, a: Vote, aux: Aux, cfg: Config)
    requires Invariant(s, cfg.f)
    ensures OnPrepare(s, a, aux, cfg).view == s.view
  {
    hide Invariant, SendCommit, Prepared;
    StopKeeps(s, cfg.f);
    var s1, id := StopTimer(s), EntryId(a.View, a.Seq);
    var e := At(s1, id);
    HeardKeeps(s1, a, cfg.f);
    RecordPrepare(s1.(heard := s1.heard + {a}), a, cfg.f);
    var s3 := Put(s1.(heard := s1.heard + {a}), id, e.(p := e.p + [a]));
    if e.pp.Some? && !e.sendCommit && !s3.changing && InWindow(s3, id.v, id.n) {
      SendCommitStays(s3, id, cfg);
    }
  }

  lemma SendCommitStays(s: State, id: EntryId, cfg: Config)
    requires Invariant(s, cfg.f) && id in s.log && s.log[id].pp.Some? && !s.log[id].sendCommit && !s.changing && InWindow(s, id.v, id.n)
    ensures SendCommit(s, id, cfg).view == s.view
  {
    assert EntryRecorded(s, id, s.log[id]);
    OwnCommitOnlyRecorded(s, id, cfg);
    hide SendCommit;
  }

  lemma PrePrepareStays(s: State, a: PrePrepareArgs, aux: Aux, cfg: Config)
    requires Invariant(s, cfg.f)
    ensures OnPrePrepare(s, a, aux, cfg).view == s.view
  {
    hide Invariant, OnPrepare;
    StopKeeps(s, cfg.f);
    var s1 := StopTimer(s);
    if InWindow(s1, a.View, a.Seq) && Acceptable(s1, a) {
      AcceptedInvariant(s1, a, cfg.f);
      PrepareStays(Accepted(s1, a), Vote(a.View, a.Seq, a.Digest, s.id), aux, cfg);
    }
  }

  lemma RequestStays(s: State, args: RequestArgs, aux: Aux, cfg: Config)
    requires Invariant(s, cfg.f) && cfg.n > 0
    ensures OnRequest(s, args, aux, cfg).view == s.view
  {
    hide Invariant, OnPrePrepare;
    if !s.changing && s.view % cfg.n == s.id {
      if args.Op !in s.seqmap && s.tSeq < s.H && aux.auxiliary.Some? {
        var pp := PrePrepareArgs(s.view, s.tSeq, aux.auxiliary.value, args);
        var s1 := Send(s.(seqmap := s.seqmap[args.Op := s.tSeq], tSeq := s.tSeq + 1), PrePrepareMessage(pp));
        OtherSent(s, s1, PrePrepareMessage(pp), cfg.f);
        PrePrepareStays(s1, pp, aux, cfg);
      } else if args.Op in s.seqmap {
        var id := EntryId(s.view, s.seqmap[args.Op]);
        var e := At(s, id);
        TouchKeeps(s, id, e, cfg.f);
        if e.pp.Some? {
          var s1 := Send(Put(s, id, e), PrePrepareMessage(e.pp.value));
          OtherSent(Put(s, id, e), s1, PrePrepareMessage(e.pp.value), cfg.f);
          PrePrepareStays(s1, e.pp.value, aux, cfg);
        }
      }
    }
  }

  lemma PostponedStays(s: State, k: nat, aux: Aux, cfg: Config)
    requires Invariant(s, cfg.f) && k < |s.pending|
    ensures SendPostponed(s, k, aux, cfg).view == s.view
  {
    hide OnPrepare, Invariant;
    var s1 := Send(s.(pending := s.pending[..k] + s.pending[k + 1..]), PrepareMessage(s.pending[k]));
    PostponedReady(s, s1, k, cfg.f);
    PrepareStays(s1, s.pending[k], aux, cfg);
  }

  /** A commit that moves the replica into a later view does so by a checkpoint alone. */
  lemma CommitStarts(s: State, a: Vote, aux: Aux, cfg: Config)
    requires Invariant(s, cfg.f) && !s.panic && cfg.n > 0 && HasStable(s.cps) && OnCommit(s, a, cfg).view > s.view
    ensures StartOk(s, OnCommit(s, a, cfg), Deliver(CommitMessage(a), aux), cfg)
  {
    hide Execute, Committed, Invariant, Numbered, Quiet;
    var s1, id := StopTimer(s), EntryId(a.View, a.Seq);
    var e := At(s1, id);
    StopKeeps(s, cfg.f);
    ConfirmedKeeps(s1, a, cfg.f);
    TouchKeeps(s1.(confirmed := s1.confirmed + {a}), id, e.(c := e.c + [a]), cfg.f);
    var s2 := Put(s1.(confirmed := s1.confirmed + {a}), id, e.(c := e.c + [a]));
    if Executable(s2, a) {
      ExecutionQuiet(s2, a, cfg);
      QuietStarts(s2, Execute(s2, a, cfg), cfg.f);
    }
  }

  lemma QuietStarts(s: State, r: State, f: nat)
    requires Invariant(s, f) && Quiet(s, r)
    ensures r.tSeq == s.tSeq && (r.view > s.view ==> Numbered(r, s.tSeq, []))
  {
    hide Numbered;
    if r.view > s.view { AdoptedNumbered(s, r); }
  }

  lemma CheckPointStarts(s: State, a: CheckPointArgs, aux: Aux, cfg: Config)
    requires Invariant(s, cfg.f) && cfg.n > 0 && HasStable(s.cps) && OnCheckPoint(s, a, cfg).view > s.view
    ensures StartOk(s, OnCheckPoint(s, a, cfg), Deliver(CheckPointMessage(a), aux), cfg)
  {
    CheckPointKeeps(s, a, cfg);
    hide Votes, Ordered, Quiet, Numbered, OnCheckPoint;
    QuietStarts(s, OnCheckPoint(s, a, cfg), cfg.f);
  }

  /** Whatever step takes a replica into a later view: the view starts out numbered exactly when it starts fresh. */
  lemma StepStarts(s: State, i: Input, cfg: Config)
    requires Invariant(s, cfg.f) && cfg.n > 0 && Handle(s, i, cfg).view > s.view
    ensures HasStable(s.cps) && StartOk(s, Handle(s, i, cfg), i, cfg)
  {
    StableIsLast(s);
    hide Votes, Ordered, OnRequest, OnPrePrepare, OnPrepare, OnCommit, OnCheckPoint, OnViewChange, OnNewView, OnTimer, SendPostponed,
         StartOk, HasStable;
    match i
    case Timer(order) => TimerStarts(s, order, cfg);
    case Postponed(k, aux) => if k < |s.pending| { PostponedStays(s, k, aux, cfg); }
    case Deliver(msg, aux) =>
      match msg
      case RequestMessage(req) => RequestStays(s, req, aux, cfg);
      case PrePrepareMessage(pp) => PrePrepareStays(s, pp, aux, cfg);
      case PrepareMessage(p) => PrepareStays(s, p, aux, cfg);
      case CommitMessage(c) => CommitStarts(s, c, aux, cfg);
      case CheckPointMessage(cp) => CheckPointStarts(s, cp, aux, cfg);
      case ViewChangeMessage(vc) => ViewChangeStarts(s, vc, aux, cfg);
      case NewViewMessage(nv) => NewViewStarts(s, nv, aux, cfg);
      case ResponseMessage(_) =>
  }

  // ---------- every view of every run ----------

  /**
   Numbering in every view a replica ever enters.  After any run, a step into a later view that
   starts fresh, and any further steps within it: the k-th new operation got the k-th number after
   the view's slots, and keeps it while it is live.
   */
  lemma EveryViewNumbered(id: int, initSeq: nat, before: seq<Input>, i: Input, inputs: seq<Input>, cfg: Config)
    requires cfg.n > 0
    requires var s := Run(Initial(id, initSeq), before, cfg);
             && HasStable(s.cps) && Handle(s, i, cfg).view > s.view && StartsFresh(s, i, Handle(s, i, cfg).view, cfg)
             && StaysInView(Handle(s, i, cfg), inputs, cfg)
    ensures var s := Run(Initial(id, initSeq), before, cfg);
            var r := Handle(s, i, cfg);
            Numbered(Run(r, inputs, cfg), FirstNumber(s, i, cfg), AllNumbered(r, inputs, cfg))
  {
    var s := Run(Initial(id, initSeq), before, cfg);
    hide Invariant, Handle, Numbered, StaysInView, Run, HasStable, StartsFresh, Initial, AllNumbered, FirstNumber;
    RunKeeps(id, initSeq, before, cfg);
    StepStarts(s, i, cfg);
    StepKeeps(s, i, cfg);
    ViewNumbered(Handle(s, i, cfg), inputs, cfg);
  }

  /**
   And the condition can fail: a view change that reports one operation under two numbers leaves the
   operation with the second, while the slot with the first still carries it.
   */
  lemma RepeatedOperation(id: int, view: int, op: string, d: string, rid: int, f: nat)
    requires op != "" && view > 0
    ensures var pp := n => PrePrepareArgs(0, n, d, RequestArgs(op, 0));
            var V := [ViewChangeArgs(view, CheckPointArgs(-1, "", rid, 0), [Pm(pp(0), []), Pm(pp(1), [])], rid)];
            var s := Initial(id, 0);
            && HasStable(s.cps) && !Numbered(EnterNewView(s, NewViewArgs(view, V, NewViewSlots(view, V))), MaxS(V) + 1, [])
  {
    var p0, p1 := PrePrepareArgs(0, 0, d, RequestArgs(op, 0)), PrePrepareArgs(0, 1, d, RequestArgs(op, 0));
    var P := [Pm(p0, []), Pm(p1, [])];
    var V := [ViewChangeArgs(view, CheckPointArgs(-1, "", rid, 0), P, rid)];
    var s := Initial(id, 0);
    InitialInvariant(id, 0, f);
    StableIsLast(s);
    var pps := NewViewSlots(view, V);
    TwoReports(V, p0, p1);
    assert pps[0].Message.Op == pps[1].Message.Op == op;
    EnteredNumbered(s, NewViewArgs(view, V, pps), f);
    hide EnterNewView, Numbered;
    assert !FreshSlots(pps, StableAfter(s, V));
  }

  lemma {:induction false} TwoReports(V: seq<ViewChangeArgs>, p0: PrePrepareArgs, p1: PrePrepareArgs)
    requires |V| == 1 && V[0].CP.Seq == -1 && V[0].P == [Pm(p0, []), Pm(p1, [])] && p0.Seq == 0 && p1.Seq == 1
    ensures MinS(V) == -1 && MaxS(V) == 1 && PPrepared(V) == map[0 := p0, 1 := p1]
  {
    assert V[..0] == [];
    assert PPrepared([]) == map[] && MaxSeq([]) == -1;
    TwoCollected(Pm(p0, []), Pm(p1, []), map[], -1);
  }

  lemma {:induction false} TwoCollected(x: Pm, y: Pm, m: map<int, PrePrepareArgs>, n: int)
    ensures CollectReport([x, y], m) == m[x.PP.Seq := x.PP][y.PP.Seq := y.PP]
    ensures x.PP.Seq > n && y.PP.Seq > x.PP.Seq ==> MaxReported([x, y], n) == y.PP.Seq
  {
    assert [x, y][..1] == [x];
    assert [x][..0] == [];
    assert CollectReport([], m) == m && MaxReported([], n) == n;
    assert CollectReport([x], m) == m[x.PP.Seq := x.PP];
  }
}
