/**
 The view-change timer: what starts and stops it, that a replica which has asked for another view
 takes no part in anything until it is in a later one, and that it asks for one view after the other.
 */
module Timeouts {
  import opened Collections
  import opened Replica
  import opened ReplicaOrder
  import opened ReplicaVotes
  import opened ReplicaGrowth
  import opened Checkpoints
  import opened Progress
  import opened Effects
  import opened StepLimits

  // ---------- what a step does to the timer ----------

  /** Within its view the replica's timer is left alone; in a later one it is stopped, and the replica takes part again. */
  ghost predicate Timely(s: State, r: State) {
    && s.view <= r.view && SameVoices(s, r)
    && (r.view == s.view ==> r.changing == s.changing && r.monitor == s.monitor && r.vcCount == s.vcCount)
    && (r.view > s.view ==> Stopped(r))
  }

  /** The view changes heard of and the prepares still owed are left alone. */
  ghost predicate SameVoices(s: State, r: State) {
    r.vcs == s.vcs && r.pending == s.pending
  }

  ghost predicate Stopped(s: State) {
    !s.changing && !s.monitor && s.vcCount == 0
  }

  /** No vote is taken in and nothing is executed. */
  ghost predicate TakesNothing(s: State, r: State) {
    r.heard == s.heard && r.confirmed == s.confirmed && r.executed == s.executed
  }

  lemma {:induction false} DrainTimely(s: State, limit: int, fuel: nat)
    ensures var r := Drain(s, limit, fuel);
            && r.view == s.view && r.changing == s.changing && r.monitor == s.monitor && r.vcCount == s.vcCount && TakesNothing(s, r)
            && SameVoices(s, r)
    decreases fuel
  {
    if fuel != 0 && s.queue != [] && s.queue[0].Seq <= limit {
      DrainTimely(ReplyTask(s.(queue := s.queue[1..]), s.queue[0]), limit, fuel - 1);
    }
  }

  lemma {:induction false} DrainIds(s: State, limit: int, fuel: nat)
    ensures Drain(s, limit, fuel).id == s.id
    decreases fuel
  {
    if fuel != 0 && s.queue != [] && s.queue[0].Seq <= limit {
      DrainIds(ReplyTask(s.(queue := s.queue[1..]), s.queue[0]), limit, fuel - 1);
    }
  }

  lemma StabilizeIds(s: State, key: int, proof: CheckPointArgs)
    requires key in s.cps
    ensures Stabilize(s, key, proof).id == s.id
  {
    DrainIds(Staged(s, key, proof), s.cps[key].Seq, |s.queue|);
    hide Drain;
  }

  lemma StabilizeTimely(s: State, key: int, proof: CheckPointArgs)
    requires key in s.cps
    ensures Timely(s, Stabilize(s, key, proof)) && TakesNothing(s, Stabilize(s, key, proof))
  {
    DrainTimely(Staged(s, key, proof), s.cps[key].Seq, |s.queue|);
    hide Drain;
  }

  lemma CheckPointTimely(s: State, a: CheckPointArgs, cfg: Config)
    ensures Timely(s, OnCheckPoint(s, a, cfg)) && TakesNothing(s, OnCheckPoint(s, a, cfg))
  {
    hide FirstAgreed, Superseded, Stabilize;
    if a.Seq % CHECKPOINT_DIV == 0 && !Superseded(s.cps, a.Seq) {
      var s2 := Announce(WithCheckPoint(s, a.Seq, cfg), a);
      var agreed := FirstAgreed(s2.cps[a.Seq].Proof, cfg.f, 0);
      if agreed.Some? { StabilizeTimely(s2, a.Seq, agreed.value); }
    }
  }

  lemma StartTimely(s: State, n: int, cfg: Config)
    ensures Timely(s, StartCheckPoint(s, n, cfg))
  {
    hide OnCheckPoint, Superseded;
    if !Superseded(s.cps, n) {
      var s1 := OpenOwn(s, n, cfg);
      var a := CheckPointArgs(n, s1.cps[n].Digest, s1.id, s1.view);
      CheckPointTimely(Send(s1, CheckPointMessage(a)), a, cfg);
    }
  }

  lemma ReplyTimely(s: State, t: Vote)
    ensures Timely(s, ReplyTask(s, t))
  {
  }

  lemma ApplyTimely(s: State)
    requires s.queue != []
    ensures Timely(s, ApplyNext(s))
  {
    TakeShape(s);
    hide TakeNext, ReplyTask;
    ReplyTimely(TakeNext(s), s.queue[0]);
  }

  lemma {:induction false} RunQueueTimely(s: State, fuel: nat, cfg: Config)
    ensures Timely(s, RunQueue(s, fuel, cfg))
    decreases fuel
  {
    hide ApplyNext, StartCheckPoint;
    if fuel != 0 && s.queue != [] && !s.panic && s.apply + 1 == s.queue[0].Seq {
      var s1 := ApplyNext(s);
      ApplyTimely(s);
      StartTimely(s1, s1.apply, cfg);
      RunQueueTimely(if s1.apply % CHECKPOINT_DIV == 0 then StartCheckPoint(s1, s1.apply, cfg) else s1, fuel - 1, cfg);
    }
  }

  lemma ExecuteTimely(s: State, a: Vote, cfg: Config)
    ensures Timely(s, Execute(s, a, cfg))
  {
    hide RunQueue, InsertTask, Queued;
    if a.Seq > s.apply && !Queued(s.queue, a.Seq) {
      var id := EntryId(a.View, a.Seq);
      var s1 := Put(s.(queue := InsertTask(s.queue, a)), id, At(s, id).(sendReply := true));
      RunQueueTimely(s1, |s1.queue|, cfg);
    }
  }

  lemma CommitStops(s: State, a: Vote, cfg: Config)
    requires !s.changing
    ensures var r := OnCommit(s, a, cfg); Stopped(r) && s.view <= r.view && SameVoices(s, r)
  {
    hide Execute, Committed;
    var s1, id := StopTimer(s), EntryId(a.View, a.Seq);
    ExecuteTimely(Put(s1, id, At(s1, id).(c := At(s1, id).c + [a])).(confirmed := s1.confirmed + {a}), a, cfg);
  }

  lemma PrepareStops(s: State, a: Vote, aux: Aux, cfg: Config)
    requires !s.changing
    ensures var r := OnPrepare(s, a, aux, cfg); Stopped(r) && s.view <= r.view && SameVoices(s, r)
  {
    hide OnCommit, Prepared;
    var s1, id := StopTimer(s), EntryId(a.View, a.Seq);
    var e := At(s1, id).(p := At(s1, id).p + [a]);
    if e.pp.Some? {
      var c := Vote(id.v, e.pp.value.Seq, e.pp.value.Digest, s.id);
      var s2 := Put(s1, id, e).(heard := s1.heard + {a});
      CommitStops(Send(s2.(seqmap := s2.seqmap[e.pp.value.Message.Op := id.n]), CommitMessage(c)), c, cfg);
    }
  }

  lemma PrePrepareStops(s: State, a: PrePrepareArgs, aux: Aux, cfg: Config)
    requires !s.changing && aux.prepareOk
    ensures var r := OnPrePrepare(s, a, aux, cfg); Stopped(r) && s.view <= r.view && SameVoices(s, r)
  {
    hide OnPrepare;
    var s1, id := StopTimer(s), EntryId(a.View, a.Seq);
    var p := Vote(a.View, a.Seq, a.Digest, s.id);
    PrepareStops(Send(Put(s1, id, At(s1, id).(pp := Some(a))), PrepareMessage(p)), p, aux, cfg);
  }

  /** A vote or a pre-prepare from anyone and for anything stops the timer of a replica that takes part, in every state. */
  ghost predicate StopsTimer(s: State, i: Input) {
    !s.panic && !s.changing && i.Deliver? && (i.msg.PrepareMessage? || i.msg.CommitMessage? || (i.msg.PrePrepareMessage? && i.aux.prepareOk))
  }

  lemma TimerStopped(s: State, i: Input, cfg: Config)
    requires cfg.n > 0 && StopsTimer(s, i)
    ensures Stopped(Handle(s, i, cfg)) && SameVoices(s, Handle(s, i, cfg))
  {
    hide OnPrePrepare, OnPrepare, OnCommit;
    match i.msg
    case PrePrepareMessage(pp) => PrePrepareStops(s, pp, i.aux, cfg);
    case PrepareMessage(p) => PrepareStops(s, p, i.aux, cfg);
    case CommitMessage(c) => CommitStops(s, c, cfg);
  }

  lemma RequestTimely(s: State, args: RequestArgs, aux: Aux, cfg: Config)
    requires cfg.n > 0
    ensures var r := OnRequest(s, args, aux, cfg);
            && s.view <= r.view && (if s.changing then r == s else !r.changing) && (r.view > s.view ==> Stopped(r)) && SameVoices(s, r)
  {
    hide OnRequestLeader;
    if !s.changing && s.view % cfg.n == s.id { LeaderTimely(s, args, aux, cfg); }
  }

  lemma LeaderTimely(s: State, args: RequestArgs, aux: Aux, cfg: Config)
    requires !s.changing
    ensures var r := OnRequestLeader(s, args, aux, cfg); s.view <= r.view && !r.changing && (r.view > s.view ==> Stopped(r)) && SameVoices(s, r)
  {
    hide OnPrePrepare;
    if args.Op !in s.seqmap {
      if aux.auxiliary.Some? {
        OrderTimely(s, s.(seqmap := s.seqmap[args.Op := s.tSeq], tSeq := s.tSeq + 1),
                    PrePrepareArgs(s.view, s.tSeq, aux.auxiliary.value, args), aux, cfg);
      }
    } else {
      var id := EntryId(s.view, s.seqmap[args.Op]);
      var e := At(s, id);
      if e.pp.Some? { OrderTimely(s, Put(s, id, e), e.pp.value, aux, cfg); }
    }
  }

  lemma OrderTimely(s: State, s0: State, pp: PrePrepareArgs, aux: Aux, cfg: Config)
    requires !s.changing && s0 == s.(seqmap := s0.seqmap, tSeq := s0.tSeq, log := s0.log)
    ensures var r := OnPrePrepare(Send(s0, PrePrepareMessage(pp)), pp, aux, cfg);
            s.view <= r.view && !r.changing && (r.view > s.view ==> Stopped(r)) && SameVoices(s, r)
  {
    var s1 := Send(s0, PrePrepareMessage(pp));
    if aux.prepareOk { PrePrepareStops(s1, pp, aux, cfg); } else { assert OnPrePrepare(s1, pp, aux, cfg) == s1; }
    hide OnPrePrepare;
  }

  lemma Refused(s: State, aux: Aux, cfg: Config)
    ensures !aux.prepareOk ==> forall t: State, a :: OnPrePrepare(t, a, aux, cfg) == t
  {
  }

  // ---------- asking for a view ----------

  lemma CatchUpTimely(s: State, V: seq<ViewChangeArgs>)
    requires HasStable(s.cps)
    ensures var r := CatchUp(s, V, MinS(V)); TakesNothing(s, r) && SameVoices(s, r) && r.id == s.id
  {
    hide Stabilize, HasStable;
    var mins := MinS(V);
    var c := FirstWith(V, mins);
    if c.Some? {
      var s1 := s.(cps := s.cps[mins := CheckPoint(c.value.Seq, true, c.value.Digest, c.value.View, [])]);
      StabilizeTimely(s1, mins, CheckPointArgs(c.value.Seq, c.value.Digest, s.id, s.view));
      StabilizeIds(s1, mins, CheckPointArgs(c.value.Seq, c.value.Digest, s.id, s.view));
    }
  }

  lemma EnterTimely(s: State, nv: NewViewArgs)
    requires HasStable(s.cps)
    ensures var r := EnterNewView(s, nv);
            && r.view == nv.View && Stopped(r) && TakesNothing(s, r)
            && r.vcs == VcsFrom(s.vcs, nv.View) && r.pending == s.pending + PreparesFor(s.id, nv.View, NewViewSlots(nv.View, nv.V))
  {
    hide CatchUp, TakeOver, HasStable, NewViewSlots;
    CatchUpTimely(s, nv.V);
    TakeOverFields(CatchUp(s, nv.V, MinS(nv.V)), nv.View, nv.V);
  }

  /** The replica leads the view this message asks for, and has heard enough now. */
  ghost predicate LeadsNow(s: State, a: ViewChangeArgs, cfg: Config)
    requires cfg.n > 0
  {
    a.View > s.view && a.View % cfg.n == s.id && |StoreViewChange(s, a).vcs[a.View]| >= 2 * cfg.f + 1
  }

  lemma StoredOrdered(s: State, a: ViewChangeArgs, m: Message)
    requires Ordered(s)
    ensures Ordered(Send(StoreViewChange(s, a), m)) && HasStable(s.cps)
  {
    StableIsLast(s);
  }

  lemma ViewChangeTimely(s: State, a: ViewChangeArgs, cfg: Config)
    requires Ordered(s) && cfg.n > 0
    ensures var r := OnViewChange(s, a, cfg);
            && TakesNothing(s, r)
            && (if LeadsNow(s, a, cfg) then
                  r.view == a.View && Stopped(r) && r.vcs == VcsFrom(StoreViewChange(s, a).vcs, a.View) && s.pending <= r.pending
                else r == if a.View > s.view then StoreViewChange(s, a) else s)
  {
    hide EnterNewView, HasStable, NewViewSlots, Ordered;
    if LeadsNow(s, a, cfg) {
      var s1 := StoreViewChange(s, a);
      var nv := NewViewArgs(a.View, s1.vcs[a.View], NewViewSlots(a.View, s1.vcs[a.View]));
      StoredOrdered(s, a, NewViewMessage(nv));
      EnterTimely(Send(s1, NewViewMessage(nv)), nv);
    }
  }

  /** The timer fires, and `order` walks the log. */
  ghost predicate Asks(s: State, i: Input, f: nat) {
    i.Timer? && ReportOrder(s.log, i.order, s.lastcp, f)
  }

  /** The replica has asked for this view, reporting this checkpoint. */
  ghost predicate AskedFor(s: State, view: int, cp: CheckPointArgs) {
    exists a :: ViewChangeMessage(a) in s.sent && a.View == view && a.Rid == s.id && a.CP == cp
  }

  /** The stable checkpoint. */
  ghost function Stable(s: State): CheckPointArgs
    requires s.lastcp in s.cps
  {
    CheckPointArgs(s.lastcp, s.cps[s.lastcp].Digest, s.id, s.cps[s.lastcp].View)
  }

  lemma StableThere(s: State, f: nat)
    requires Invariant(s, f)
    ensures s.lastcp in s.cps
  {
  }

  lemma AskedMade(s: State, order: seq<EntryId>)
    requires CheckPointsOrdered(s) && HasStable(s.cps) && forall id :: id in order ==> id in s.log && s.log[id].pp.Some?
    ensures var vc := GeneratedViewChange(s, order); vc.View == s.view + s.vcCount + 1 && vc.Rid == s.id && vc.CP == Stable(s)
  {
    StableIsLast(s);
    hide ReportOf;
  }

  /** The replica is to lead the view it asks for next, and has heard from all but one of a quorum. */
  ghost predicate LeadsNext(s: State, cfg: Config)
    requires cfg.n > 0
  {
    var v := s.view + s.vcCount + 1;
    v % cfg.n == s.id && (if v in s.vcs then |s.vcs[v]| else 0) >= 2 * cfg.f
  }

  /** The replica asks for the view after those it has asked for, and waits for it, unless it is to lead it itself. */
  lemma TimerExact(s: State, i: Input, cfg: Config)
    requires Invariant(s, cfg.f) && cfg.n > 0 && !s.panic && Asks(s, i, cfg.f)
    ensures s.lastcp in s.cps
    ensures var r := Handle(s, i, cfg);
            && AskedFor(r, s.view + s.vcCount + 1, Stable(s)) && r.monitor && TakesNothing(s, r)
            && (if LeadsNext(s, cfg) then r.view == s.view + s.vcCount + 1 && !r.changing && r.vcCount == 0
                else r.view == s.view && r.changing && r.vcCount == s.vcCount + 1 && r.log == s.log && r.cps == s.cps && r.lastcp == s.lastcp)
  {
    StableThere(s, cfg.f);
    hide OnViewChange, Invariant, ReportOrder, LeadsNow, LeadsNext, StoreViewChange, TakesNothing, Handle;
    var s1, vc := AskShape(s, i.order, cfg);
    LeadsSame(s, s1, vc, cfg);
    StoredElsewhere(s1, vc);
    InvariantOrdered(s1, cfg.f);
    hide Ordered;
    ViewChangeTimely(s1, vc, cfg);
    AskedStays(s1, vc, cfg);
    TakenBefore(s, s1, OnViewChange(s1, vc, cfg));
    assert ViewChangeMessage(vc) in Handle(s, i, cfg).sent;
  }

  lemma LeadsSame(s: State, s1: State, vc: ViewChangeArgs, cfg: Config)
    requires cfg.n > 0 && s1.vcs == s.vcs && s1.id == s.id && s1.view == s.view && vc.View == s.view + s.vcCount + 1
    ensures LeadsNow(s1, vc, cfg) <==> LeadsNext(s, cfg)
  {
  }

  lemma StoredElsewhere(s: State, a: ViewChangeArgs)
    ensures StoreViewChange(s, a) == s.(vcs := StoreViewChange(s, a).vcs)
  {
  }

  lemma TakenBefore(s: State, s1: State, r: State)
    requires s1.heard == s.heard && s1.confirmed == s.confirmed && s1.executed == s.executed && TakesNothing(s1, r)
    ensures TakesNothing(s, r.(monitor := true))
  {
  }

  lemma AskShape(s: State, order: seq<EntryId>, cfg: Config) returns (s1: State, vc: ViewChangeArgs)
    requires Invariant(s, cfg.f) && cfg.n > 0 && !s.panic && ReportOrder(s.log, order, s.lastcp, cfg.f)
    ensures s.lastcp in s.cps
    ensures s1 == s.(changing := true, vcCount := s.vcCount + 1, reported := s1.reported, sent := s.sent + [ViewChangeMessage(vc)])
    ensures Invariant(s1, cfg.f) && vc.View == s.view + s.vcCount + 1 && vc.Rid == s.id && vc.CP == Stable(s)
    ensures Handle(s, Timer(order), cfg) == OnViewChange(s1, vc, cfg).(monitor := true)
  {
    StableIsLast(s);
    AskKeeps(s, order, cfg.f);
    AskedMade(s, order);
    hide OnViewChange, Invariant, ReportOrder, HasStable, GeneratedViewChange;
    s1, vc := AskForView(s, order), GeneratedViewChange(s, order);
  }

  lemma AskedStays(s1: State, vc: ViewChangeArgs, cfg: Config)
    requires Invariant(s1, cfg.f) && cfg.n > 0 && ViewChangeMessage(vc) in s1.sent
    ensures ViewChangeMessage(vc) in OnViewChange(s1, vc, cfg).sent && OnViewChange(s1, vc, cfg).id == s1.id
  {
    var may := May(true, true, true, true, true);
    InvariantOrdered(s1, cfg.f);
    hide OnViewChange, Leads, Invariant, Ordered;
    ViewChangeLeads(s1, vc, cfg, may);
    LeadsSends(s1, OnViewChange(s1, vc, cfg), cfg.f, may);
    SentStays(s1.sent, OnViewChange(s1, vc, cfg).sent, ViewChangeMessage(vc));
  }

  ghost function SlotOf(pm: Pm): EntryId {
    EntryId(pm.PP.View, pm.PP.Seq)
  }

  /** What the message reports of one slot: the pre-prepare the entry holds, with the prepares that were heard for it. */
  ghost predicate Reports(s: State, pm: Pm) {
    var id := SlotOf(pm);
    && id in s.log && s.log[id].pp == Some(pm.PP) && pm.P == s.log[id].p
    && forall j :: 0 <= j < |pm.P| ==> pm.P[j] in s.heard && pm.P[j].View == id.v && pm.P[j].Seq == id.n
  }

  /** It reports every slot above the stable checkpoint that is committed to or prepared, once each, and no other. */
  lemma ReportExact(s: State, order: seq<EntryId>, f: nat)
    requires Invariant(s, f) && HasStable(s.cps) && ReportOrder(s.log, order, s.lastcp, f)
    ensures forall id :: id in order ==> id in s.log && s.log[id].pp.Some?
    ensures var P := GeneratedViewChange(s, order).P;
            && (forall k :: 0 <= k < |P| ==> Reports(s, P[k]) && Reportable(s.log, SlotOf(P[k]), s.lastcp, f))
            && (forall i, j :: 0 <= i < j < |P| ==> SlotOf(P[i]) != SlotOf(P[j]))
            && (forall id :: Reportable(s.log, id, s.lastcp, f) ==> exists k :: 0 <= k < |P| && SlotOf(P[k]) == id)
  {
    hide Ordered, PreparesKept, PreparedOnce, CommitsKept, CommitsBacked, ReportsFaithful, StableKey, Prepared;
    var P := GeneratedViewChange(s, order).P;
    forall k | 0 <= k < |P|
      ensures SlotOf(P[k]) == order[k] && Reports(s, P[k])
    {
      assert order[k] in order;
      assert EntryRecorded(s, order[k], s.log[order[k]]);
    }
    forall id | Reportable(s.log, id, s.lastcp, f)
      ensures exists k :: 0 <= k < |P| && SlotOf(P[k]) == id
    {
      var k :| 0 <= k < |order| && order[k] == id;
      assert SlotOf(P[k]) == id;
    }
  }

  // ---------- out of the view ----------

  lemma NewViewTimely(s: State, a: NewViewArgs, cfg: Config)
    requires Ordered(s)
    ensures var r := OnNewView(s, a, cfg);
            && s.view <= r.view && TakesNothing(s, r) && s.pending <= r.pending
            && (if r.view > s.view then Stopped(r) && r.vcs == VcsFrom(s.vcs, r.view) else r == s.(panic := r.panic))
  {
    StableIsLast(s);
    hide EnterNewView, NewViewSlots, SlotsMatch, SlotsTooShort, HasStable, Ordered;
    if a.View > s.view { EnterTimely(s, a); }
  }

  /** A replica stops taking part exactly when its timer fires, and takes part again exactly in a later view. */
  lemma ChangingExact(s: State, i: Input, cfg: Config)
    requires Invariant(s, cfg.f) && cfg.n > 0 && !s.panic
    ensures var r := Handle(s, i, cfg);
            && (r.changing <==> r.view == s.view && (s.changing || Asks(s, i, cfg.f)))
            && (r.view > s.view ==> r.vcCount == 0 && (r.monitor ==> i.Timer?))
  {
    InvariantOrdered(s, cfg.f);
    if Asks(s, i, cfg.f) {
      TimerExact(s, i, cfg);
    } else if StopsTimer(s, i) {
      TimerStopped(s, i, cfg);
    } else {
      StableIsLast(s);
      hide OnPrePrepare, OnPrepare, OnCommit, OnCheckPoint, OnViewChange, OnNewView, OnRequest, Invariant, Ordered, ReportOrder;
      OtherTimely(s, i, cfg);
    }
  }

  /** The replica stays out while its view lasts, and in a later one it takes part with its timer stopped. */
  ghost predicate StaysOut(s: State, r: State) {
    s.view <= r.view && (r.changing <==> r.view == s.view && s.changing) && (r.view > s.view ==> r.vcCount == 0 && !r.monitor)
  }

  lemma MessageTimely(s: State, msg: Message, cfg: Config)
    requires Ordered(s) && cfg.n > 0 && (msg.CheckPointMessage? || msg.ViewChangeMessage? || msg.NewViewMessage?) && !s.panic
    ensures StaysOut(s, Handle(s, Deliver(msg, Aux(None, false, false)), cfg))
  {
    hide OnCheckPoint, OnViewChange, OnNewView, Ordered, TakesNothing;
    match msg
    case CheckPointMessage(cp) => CheckPointTimely(s, cp, cfg);
    case ViewChangeMessage(vc) => ViewChangeTimely(s, vc, cfg);
    case NewViewMessage(nv) => NewViewTimely(s, nv, cfg);
  }

  lemma OtherTimely(s: State, i: Input, cfg: Config)
    requires Ordered(s) && cfg.n > 0 && !s.panic && !Asks(s, i, cfg.f) && !StopsTimer(s, i)
    ensures StaysOut(s, Handle(s, i, cfg))
  {
    StableIsLast(s);
    hide OnPrePrepare, OnPrepare, OnCommit, OnCheckPoint, OnViewChange, OnNewView, OnRequest, Ordered, ReportOrder, SendPostponed, TakesNothing;
    match i
    case Timer(order) =>
    case Postponed(k, aux) => if k < |s.pending| { PostponedTimely(s, k, aux, cfg); }
    case Deliver(msg, aux) =>
      if Phases(i) {
        ChangingIgnores(s, i, cfg);
        if msg.RequestMessage? { RequestTimely(s, msg.req, aux, cfg); } else { Refused(s, aux, cfg); }
      } else if !msg.ResponseMessage? {
        MessageTimely(s, msg, cfg);
        assert Handle(s, i, cfg) == Handle(s, Deliver(msg, Aux(None, false, false)), cfg);
      }
  }

  lemma PostponedTimely(s: State, k: nat, aux: Aux, cfg: Config)
    requires k < |s.pending|
    ensures var r := SendPostponed(s, k, aux, cfg);
            if s.changing then r == Send(s.(pending := r.pending), PrepareMessage(s.pending[k])) else Stopped(r) && s.view <= r.view && r.vcs == s.vcs
  {
    hide OnPrepare;
    var p := s.pending[k];
    var s1 := Send(s.(pending := s.pending[..k] + s.pending[k + 1..]), PrepareMessage(p));
    PrepareIgnored(s1, p, aux, cfg);
    if !s.changing { PrepareStops(s1, p, aux, cfg); }
  }

  lemma PostponedOwes(s: State, k: nat, aux: Aux, p: Vote, cfg: Config)
    requires Invariant(s, cfg.f) && k < |s.pending| && p in s.pending
    ensures var r := SendPostponed(s, k, aux, cfg); p in r.pending || PrepareMessage(p) in r.sent
  {
    hide OnPrepare, Invariant, Leads;
    var may := May(true, true, true, true, true);
    var s1 := Send(s.(pending := s.pending[..k] + s.pending[k + 1..]), PrepareMessage(s.pending[k]));
    PostponedReady(s, s1, k, cfg.f);
    PrepareIgnored(s1, s.pending[k], aux, cfg);
    if !s.changing { PrepareStops(s1, s.pending[k], aux, cfg); }
    PrepareLeads(s1, s.pending[k], aux, cfg, may);
    LeadsSends(s1, OnPrepare(s1, s.pending[k], aux, cfg), cfg.f, may);
    SentStays(s1.sent, OnPrepare(s1, s.pending[k], aux, cfg).sent, PrepareMessage(s.pending[k]));
  }

  lemma PrepareIgnored(s: State, a: Vote, aux: Aux, cfg: Config)
    ensures s.changing ==> OnPrepare(s, a, aux, cfg) == s
  {
  }

  /** Requests, pre-prepares and votes, which a replica waiting for another view ignores. */
  predicate Phases(i: Input) {
    i.Deliver? && (i.msg.RequestMessage? || i.msg.PrePrepareMessage? || i.msg.PrepareMessage? || i.msg.CommitMessage?)
  }

  lemma ChangingIgnores(s: State, i: Input, cfg: Config)
    requires cfg.n > 0 && Phases(i)
    ensures s.changing ==> Handle(s, i, cfg) == s
  {
    hide OnRequestLeader, Execute, SendCommit;
  }

  lemma WaitsTaking(s: State, i: Input, cfg: Config)
    requires Invariant(s, cfg.f) && cfg.n > 0 && !s.panic && s.changing && !Phases(i)
    ensures TakesNothing(s, Handle(s, i, cfg))
  {
    InvariantOrdered(s, cfg.f);
    if Asks(s, i, cfg.f) { TimerExact(s, i, cfg); }
    StableIsLast(s);
    hide OnCheckPoint, OnViewChange, OnNewView, Invariant, Ordered, ReportOrder, SendPostponed;
    match i
    case Timer(order) =>
    case Postponed(k, aux) => if k < |s.pending| { PostponedTimely(s, k, aux, cfg); }
    case Deliver(CheckPointMessage(cp), _) => CheckPointTimely(s, cp, cfg);
    case Deliver(ViewChangeMessage(vc), _) => ViewChangeTimely(s, vc, cfg);
    case Deliver(NewViewMessage(nv), _) => NewViewTimely(s, nv, cfg);
    case Deliver(ResponseMessage(_), _) =>
  }

  /** What such a replica may still send: answers, its view change, and prepares it owes for the view it entered. */
  function MayWaiting(i: Input): May {
    May(false, i.Postponed?, false, false, true)
  }

  lemma WaitsSending(s: State, i: Input, cfg: Config)
    requires Invariant(s, cfg.f) && cfg.n > 0 && s.changing
    ensures var r := Handle(s, i, cfg); OnlyAllowed(s, r, MayWaiting(i)) && NoCommitNoted(s, r)
  {
    StepSends(s, i, cfg);
    if Phases(i) {
      ChangingIgnores(s, i, cfg);
      hide Handle, Invariant;
    } else if i.Postponed? {
      if !s.panic && i.k < |s.pending| { PostponedTimely(s, i.k, i.aux, cfg); }
      hide SendPostponed, Invariant;
    } else {
      hide Handle, Invariant;
    }
  }

  /**
   Until it is in a later view, a replica that has asked for one takes in no vote, executes nothing,
   gives out no number, commits to nothing and announces no checkpoint.
   */
  lemma ChangingWaits(s: State, i: Input, cfg: Config)
    requires Invariant(s, cfg.f) && cfg.n > 0 && s.changing
    ensures var r := Handle(s, i, cfg);
            && s.view <= r.view && (r.changing || r.view > s.view)
            && TakesNothing(s, r) && OnlyAllowed(s, r, MayWaiting(i)) && NoCommitNoted(s, r)
  {
    WaitsSending(s, i, cfg);
    StepGrows(s, i, cfg);
    if s.panic {
      assert Handle(s, i, cfg) == s;
      hide *;
    } else {
      ChangingExact(s, i, cfg);
      if Phases(i) { ChangingIgnores(s, i, cfg); } else { WaitsTaking(s, i, cfg); }
      hide Handle, Invariant, OnlyAllowed, NoCommitNoted;
    }
  }

  /** The same over any run, for as long as the replica stays in its view. */
  lemma {:induction false} RunWaits(s: State, inputs: seq<Input>, cfg: Config)
    requires Invariant(s, cfg.f) && cfg.n > 0 && s.changing
    ensures var r := Run(s, inputs, cfg);
            && Invariant(r, cfg.f) && s.view <= r.view
            && (r.view == s.view ==> r.changing && TakesNothing(s, r) && OnlyAllowed(s, r, May(false, true, false, false, true)) && NoCommitNoted(s, r))
  {
    hide Invariant, Handle;
    if inputs != [] {
      var m := |inputs| - 1;
      RunWaits(s, inputs[..m], cfg);
      var t := Run(s, inputs[..m], cfg);
      StepKeeps(t, inputs[m], cfg);
      if t.changing { ChangingWaits(t, inputs[m], cfg); } else { StepGrows(t, inputs[m], cfg); }
    }
  }

  // ---------- timeout after timeout ----------

  function Timers(orders: seq<seq<EntryId>>): (r: seq<Input>)
    ensures |r| == |orders| && forall k :: 0 <= k < |r| ==> r[k] == Timer(orders[k])
  {
    seq(|orders|, k requires 0 <= k < |orders| => Timer(orders[k]))
  }

  /** The replica asked for so many views beyond those it had asked for, one after the other. */
  ghost predicate Climbed(s: State, r: State, m: nat) {
    && r.vcCount == s.vcCount + m && r.log == s.log && r.cps == s.cps && r.lastcp == s.lastcp && r.id == s.id && !r.panic
    && s.lastcp in s.cps && forall v :: s.view + s.vcCount < v <= s.view + s.vcCount + m ==> AskedFor(r, v, Stable(s))
  }

  lemma ClimbsOne(s: State, t: State, r: State, m: nat)
    requires Climbed(s, t, m) && t.view == s.view && r.id == t.id && t.sent <= r.sent && !r.panic
    requires AskedFor(r, t.view + t.vcCount + 1, Stable(t)) && r.vcCount == t.vcCount + 1 && r.log == t.log && r.cps == t.cps && r.lastcp == t.lastcp
    ensures Climbed(s, r, m + 1)
  {
    forall v | s.view + s.vcCount < v <= s.view + s.vcCount + m
      ensures AskedFor(r, v, Stable(s))
    {
      assert AskedFor(t, v, Stable(s));
      var a :| ViewChangeMessage(a) in t.sent && a.View == v && a.Rid == t.id && a.CP == Stable(s);
      SentStays(t.sent, r.sent, ViewChangeMessage(a));
    }
  }

  /** As long as nothing else happens and the view stays, each timeout asks for the view after the last one asked for. */
  lemma {:induction false} TimeoutsClimb(s: State, orders: seq<seq<EntryId>>, cfg: Config)
    requires Invariant(s, cfg.f) && cfg.n > 0 && !s.panic && forall k :: 0 <= k < |orders| ==> ReportOrder(s.log, orders[k], s.lastcp, cfg.f)
    ensures var r := Run(s, Timers(orders), cfg);
            Invariant(r, cfg.f) && s.view <= r.view && (r.view == s.view ==> Climbed(s, r, |orders|))
  {
    StableThere(s, cfg.f);
    hide Invariant, Handle, ReportOrder, AskedFor;
    if orders != [] {
      var m := |orders| - 1;
      TimeoutsClimb(s, orders[..m], cfg);
      assert Timers(orders)[..m] == Timers(orders[..m]);
      var t, i := Run(s, Timers(orders[..m]), cfg), Timer(orders[m]);
      assert Run(s, Timers(orders), cfg) == Handle(t, i, cfg);
      hide Run;
      var r := Handle(t, i, cfg);
      StepKeeps(t, i, cfg);
      StepGrows(t, i, cfg);
      if r.view == s.view {
        assert Asks(t, i, cfg.f);
        TimerExact(t, i, cfg);
        NoPanicAsking(t, i, cfg);
        ClimbsOne(s, t, r, m);
      }
    }
  }

  lemma NoPanicAsking(s: State, i: Input, cfg: Config)
    requires Invariant(s, cfg.f) && cfg.n > 0 && !s.panic && i.Timer?
    ensures !Handle(s, i, cfg).panic
  {
    TimerKeeps(s, i.order, cfg);
    hide OnTimer;
  }

  // ---------- what is heard of later views, and what is owed in the own ----------

  ghost function HeardOf(s: State, v: int): seq<ViewChangeArgs> {
    if v in s.vcs then s.vcs[v] else []
  }

  /** Neither is touched by requests, the three phases and checkpoints; the one prepare sent late is no longer owed. */
  lemma PhasesVoices(s: State, i: Input, cfg: Config)
    requires cfg.n > 0 && !s.panic && (Phases(i) || i.Postponed? || (i.Deliver? && i.msg.CheckPointMessage?))
    ensures var r := Handle(s, i, cfg); r.vcs == s.vcs && (!i.Postponed? ==> r.pending == s.pending)
  {
    hide OnPrePrepare, OnPrepare, OnCommit, OnCheckPoint, OnRequest, SendPostponed, TakesNothing;
    match i
    case Postponed(k, aux) => if k < |s.pending| { PostponedTimely(s, k, aux, cfg); }
    case Deliver(RequestMessage(req), aux) => RequestTimely(s, req, aux, cfg);
    case Deliver(CheckPointMessage(cp), _) => CheckPointTimely(s, cp, cfg);
    case Deliver(_, aux) =>
      ChangingIgnores(s, i, cfg);
      Refused(s, aux, cfg);
      if StopsTimer(s, i) { TimerStopped(s, i, cfg); }
  }

  lemma TimerVoices(s: State, i: Input, v: int, cfg: Config)
    requires Invariant(s, cfg.f) && cfg.n > 0 && !s.panic && i.Timer? && v > Handle(s, i, cfg).view
    ensures var r := Handle(s, i, cfg);
            && s.pending <= r.pending
            && (if Asks(s, i, cfg.f) && v == s.view + s.vcCount + 1 then
                  exists a :: HeardOf(r, v) == HeardOf(s, v) + [a] && a.Rid == s.id && ViewChangeMessage(a) in r.sent
                else HeardOf(r, v) == HeardOf(s, v))
  {
    StableThere(s, cfg.f);
    InvariantOrdered(s, cfg.f);
    if Asks(s, i, cfg.f) {
      hide OnViewChange, Invariant, ReportOrder, TakesNothing, Ordered, Handle;
      var s1, vc := AskShape(s, i.order, cfg);
      InvariantOrdered(s1, cfg.f);
      ViewChangeTimely(s1, vc, cfg);
      AskedStays(s1, vc, cfg);
    } else {
      StableIsLast(s);
    }
  }

  lemma StoreAdds(s: State, vc: ViewChangeArgs, v: int)
    ensures HeardOf(StoreViewChange(s, vc), v) == if vc.View == v then HeardOf(s, v) + [vc] else HeardOf(s, v)
    ensures StoreViewChange(s, vc).pending == s.pending
  {
  }

  lemma FromLeaves(s: State, r: State, view: int, v: int)
    requires r.vcs == VcsFrom(s.vcs, view) && v >= view
    ensures HeardOf(r, v) == HeardOf(s, v)
  {
  }

  lemma VoiceAdded(s: State, vc: ViewChangeArgs, v: int, cfg: Config)
    requires Ordered(s) && cfg.n > 0 && v > OnViewChange(s, vc, cfg).view
    ensures var r := OnViewChange(s, vc, cfg);
            s.pending <= r.pending && HeardOf(r, v) == if vc.View == v then HeardOf(s, v) + [vc] else HeardOf(s, v)
  {
    hide OnViewChange, Ordered, StoreViewChange, HeardOf, VcsFrom, LeadsNow, TakesNothing;
    ViewChangeTimely(s, vc, cfg);
    StoreAdds(s, vc, v);
    StoredElsewhere(s, vc);
    if LeadsNow(s, vc, cfg) { FromLeaves(StoreViewChange(s, vc), OnViewChange(s, vc, cfg), vc.View, v); }
  }

  lemma NewViewVoices(s: State, nv: NewViewArgs, v: int, cfg: Config)
    requires Ordered(s) && v > OnNewView(s, nv, cfg).view
    ensures var r := OnNewView(s, nv, cfg); s.pending <= r.pending && HeardOf(r, v) == HeardOf(s, v)
  {
    NewViewTimely(s, nv, cfg);
    hide OnNewView, Ordered;
  }

  /** The replica hears this of a view: the message it is given, or the one it sends itself. */
  ghost predicate Hears(s: State, r: State, i: Input, v: int, f: nat) {
    if i.Deliver? && i.msg.ViewChangeMessage? && i.msg.vc.View == v then HeardOf(r, v) == HeardOf(s, v) + [i.msg.vc]
    else if Asks(s, i, f) && v == s.view + s.vcCount + 1 then
      exists a :: HeardOf(r, v) == HeardOf(s, v) + [a] && a.Rid == s.id && ViewChangeMessage(a) in r.sent
    else HeardOf(r, v) == HeardOf(s, v)
  }

  lemma OtherVoices(s: State, i: Input, v: int, cfg: Config)
    requires Ordered(s) && cfg.n > 0 && !s.panic && i.Deliver? && v > Handle(s, i, cfg).view
    ensures var r := Handle(s, i, cfg); s.pending <= r.pending && Hears(s, r, i, v, cfg.f)
  {
    hide Ordered, OnPrePrepare, OnPrepare, OnCommit, OnCheckPoint, OnViewChange, OnNewView, OnRequest, ReportOrder;
    match i.msg
    case ViewChangeMessage(vc) => VoiceAdded(s, vc, v, cfg);
    case NewViewMessage(nv) => NewViewVoices(s, nv, v, cfg);
    case ResponseMessage(_) =>
    case _ => PhasesVoices(s, i, cfg);
  }

  /**
   Whatever happens, a replica keeps every view change it has heard for views later than its own, in
   order, and adds exactly the one it is told of, or the one it sends itself.
   */
  lemma VoicesKept(s: State, i: Input, v: int, cfg: Config)
    requires Invariant(s, cfg.f) && cfg.n > 0 && !s.panic && v > Handle(s, i, cfg).view
    ensures Hears(s, Handle(s, i, cfg), i, v, cfg.f)
  {
    InvariantOrdered(s, cfg.f);
    hide Invariant, Ordered, Handle, ReportOrder;
    if i.Timer? {
      TimerVoices(s, i, v, cfg);
    } else if i.Deliver? {
      OtherVoices(s, i, v, cfg);
    } else {
      PhasesVoices(s, i, cfg);
    }
  }

  /** A prepare owed for a view that was entered stays owed until it is sent. */
  lemma PreparesOwed(s: State, i: Input, p: Vote, cfg: Config)
    requires Invariant(s, cfg.f) && cfg.n > 0 && p in s.pending
    ensures var r := Handle(s, i, cfg); p in r.pending || PrepareMessage(p) in r.sent
  {
    hide Invariant, SendPostponed, OnPrePrepare, OnPrepare, OnCommit, OnCheckPoint, OnViewChange, OnNewView, OnRequest, OnTimer;
    if !s.panic {
      InvariantOrdered(s, cfg.f);
      hide Ordered;
      if i.Timer? {
        TimerVoices(s, i, Handle(s, i, cfg).view + 1, cfg);
      } else if i.Deliver? {
        OtherVoices(s, i, Handle(s, i, cfg).view + 1, cfg);
      } else if i.k < |s.pending| {
        PostponedOwes(s, i.k, i.aux, p, cfg);
      }
    }
  }

  // ---------- relaying requests ----------

  function Requests(reqs: seq<RequestArgs>, aux: Aux): (r: seq<Input>)
    ensures |r| == |reqs| && forall k :: 0 <= k < |r| ==> r[k] == Deliver(RequestMessage(reqs[k]), aux)
  {
    seq(|reqs|, k requires 0 <= k < |reqs| => Deliver(RequestMessage(reqs[k]), aux))
  }

  /**
   Of all requests that reach a follower while its timer is not stopped it relays the first, which
   starts the timer, and none if the timer was running.
   */
  lemma {:induction false} RelayedOnce(s: State, reqs: seq<RequestArgs>, aux: Aux, cfg: Config)
    requires cfg.n > 0 && !s.panic && !s.changing && s.view % cfg.n != s.id
    ensures Run(s, Requests(reqs, aux), cfg) ==
            if reqs == [] || s.monitor then s else Send(s.(monitor := true), RequestMessage(reqs[0]))
  {
    hide Handle;
    if reqs != [] {
      var m := |reqs| - 1;
      RelayedOnce(s, reqs[..m], aux, cfg);
      assert Requests(reqs, aux)[..m] == Requests(reqs[..m], aux);
      var t := Run(s, Requests(reqs[..m], aux), cfg);
      assert Run(s, Requests(reqs, aux), cfg) == Handle(t, Deliver(RequestMessage(reqs[m]), aux), cfg);
      hide Run;
      FollowerRelays(t, reqs[m], aux, cfg);
    }
  }

  lemma FollowerRelays(s: State, req: RequestArgs, aux: Aux, cfg: Config)
    requires cfg.n > 0 && !s.panic && !s.changing && s.view % cfg.n != s.id
    ensures Handle(s, Deliver(RequestMessage(req), aux), cfg) == if s.monitor then s else Send(s.(monitor := true), RequestMessage(req))
  {
    hide OnRequestLeader;
  }
}
