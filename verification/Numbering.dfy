/**
 How a leader numbers requests within one view: numbers come without gaps, a live number belongs to
 one operation, and an operation keeps its number until it is two intervals behind the stable
 checkpoint, however requests, votes and checkpoints interleave.
 */
module Numbering {
  import opened Replica
  import opened ReplicaOrder
  import opened ReplicaVotes

  /** Two intervals behind the stable checkpoint a number is forgotten. */
  ghost predicate Live(s: State, n: int) {
    n > s.lastcp - 2 * CHECKPOINT_DIV
  }

  /** `issued[k]` is the operation that got the number `t0 + k` in this view. */
  ghost predicate Issued(s: State, t0: int, issued: seq<string>) {
    && s.tSeq == t0 + |issued|
    && (forall k :: 0 <= k < |issued| ==>
          issued[k] != "" && (Live(s, t0 + k) ==> issued[k] in s.seqmap && s.seqmap[issued[k]] == t0 + k))
  }

  ghost predicate EntryNumbered(s: State, id: EntryId) {
    id in s.log && id.v == s.view && s.log[id].pp.Some? ==>
      && id.n < s.tSeq
      && var op := s.log[id].pp.value.Message.Op;
         op != "" && id.n >= s.lastcp ==> op in s.seqmap && s.seqmap[op] == id.n
  }

  ghost predicate EntriesNumbered(s: State) {
    forall id :: id in s.log ==> EntryNumbered(s, id)
  }

  ghost predicate Numbered(s: State, t0: int, issued: seq<string>) {
    Issued(s, t0, issued) && EntriesNumbered(s)
  }

  /** Live numbers belong to one operation each: two issued operations are never the same while both are live. */
  lemma LiveNumbersDiffer(s: State, t0: int, issued: seq<string>, i: nat, j: nat)
    requires Numbered(s, t0, issued) && i < j < |issued| && Live(s, t0 + i)
    ensures issued[i] != issued[j]
  {
    assert Live(s, t0 + j);
  }

  // ---------- steps that do not number ----------

  lemma QuietNumbers(s: State, r: State, t0: int, issued: seq<string>)
    requires Numbered(s, t0, issued) && Quiet(s, r) && r.view == s.view
    ensures Numbered(r, t0, issued)
  {
    forall id | id in r.log
      ensures EntryNumbered(r, id)
    {
      assert EntryNumbered(s, id);
    }
    forall k | 0 <= k < |issued| && Live(r, t0 + k)
      ensures issued[k] in r.seqmap && r.seqmap[issued[k]] == t0 + k
    {
      assert Live(s, t0 + k);
    }
  }

  /** Only entries without a pre-prepare, votes, timers and messages change. */
  lemma PlainNumbers(s: State, r: State, t0: int, issued: seq<string>)
    requires Numbered(s, t0, issued) && r.view == s.view && r.tSeq == s.tSeq && r.seqmap == s.seqmap && r.lastcp == s.lastcp
    requires forall id :: id in r.log && r.log[id].pp.Some? ==> id in s.log && s.log[id].pp == r.log[id].pp
    ensures Numbered(r, t0, issued)
  {
    forall id | id in r.log
      ensures EntryNumbered(r, id)
    {
      if r.log[id].pp.Some? { assert EntryNumbered(s, id); }
    }
    forall k | 0 <= k < |issued| && Live(r, t0 + k)
      ensures issued[k] in r.seqmap && r.seqmap[issued[k]] == t0 + k
    {
      assert Live(s, t0 + k);
    }
  }

  lemma CommitNumbers(s: State, a: Vote, cfg: Config, t0: int, issued: seq<string>)
    requires Invariant(s, cfg.f) && !s.panic && Numbered(s, t0, issued) && OnCommit(s, a, cfg).view == s.view
    ensures Numbered(OnCommit(s, a, cfg), t0, issued)
  {
    hide Execute, Committed, Invariant, Numbered, Quiet;
    var s1, id := StopTimer(s), EntryId(a.View, a.Seq);
    var e := At(s1, id);
    StopKeeps(s, cfg.f);
    ConfirmedKeeps(s1, a, cfg.f);
    TouchKeeps(s1.(confirmed := s1.confirmed + {a}), id, e.(c := e.c + [a]), cfg.f);
    var s2 := Put(s1.(confirmed := s1.confirmed + {a}), id, e.(c := e.c + [a]));
    PlainNumbers(s, s1, t0, issued);
    PlainNumbers(s, Put(s1, id, e), t0, issued);
    PlainNumbers(s, s2, t0, issued);
    if Executable(s2, a) {
      ExecutionQuiet(s2, a, cfg);
      if Execute(s2, a, cfg).view == s2.view {
        QuietNumbers(s2, Execute(s2, a, cfg), t0, issued);
      }
    }
  }

  lemma ExecutionQuiet(s: State, a: Vote, cfg: Config)
    requires Invariant(s, cfg.f) && Executable(s, a) && !s.panic
    ensures Quiet(s, Execute(s, a, cfg))
  {
    hide Votes, Ordered, Quiet, Execute;
    ExecuteKeeps(s, a, cfg);
  }

  /** Committing records the number its entry already has. */
  lemma SendCommitNumbers(s: State, id: EntryId, cfg: Config, t0: int, issued: seq<string>)
    requires LogRecorded(s) && CheckPointsOrdered(s) && Numbered(s, t0, issued)
    requires id in s.log && s.log[id].pp.Some? && !s.log[id].sendCommit && !s.changing && InWindow(s, id.v, id.n)
    ensures Numbered(SendCommit(s, id, cfg), t0, issued)
  {
    assert EntryRecorded(s, id, s.log[id]) && EntryNumbered(s, id);
    WindowAboveStable(s, id.v, id.n);
    OwnCommitOnlyRecorded(s, id, cfg);
    var r := SendCommit(s, id, cfg);
    hide SendCommit;
    var op := s.log[id].pp.value.Message.Op;
    assert op != "" ==> r.seqmap == s.seqmap;
    forall x | x in r.log
      ensures EntryNumbered(r, x)
    {
      assert EntryNumbered(s, x);
    }
    forall k | 0 <= k < |issued| && Live(r, t0 + k)
      ensures issued[k] in r.seqmap && r.seqmap[issued[k]] == t0 + k
    {
      assert Live(s, t0 + k);
    }
  }

  lemma PrepareNumbers(s: State, a: Vote, aux: Aux, cfg: Config, t0: int, issued: seq<string>)
    requires Invariant(s, cfg.f) && Numbered(s, t0, issued)
    ensures Numbered(OnPrepare(s, a, aux, cfg), t0, issued)
  {
    hide SendCommit, Prepared, Votes, QueueOrdered, ExecutedInOrder, Numbered;
    var s1, id := StopTimer(s), EntryId(a.View, a.Seq);
    var e := At(s1, id);
    StopKeeps(s, cfg.f);
    HeardKeeps(s1, a, cfg.f);
    var s2 := s1.(heard := s1.heard + {a});
    RecordPrepare(s2, a, cfg.f);
    var s3 := Put(s2, id, e.(p := e.p + [a]));
    PlainNumbers(s, s1, t0, issued);
    PlainNumbers(s, Put(s1, id, e), t0, issued);
    PlainNumbers(s, s3, t0, issued);
    if e.pp.Some? && !e.sendCommit && !s3.changing && InWindow(s3, id.v, id.n) {
      LogPart(s3, cfg.f);
      SendCommitNumbers(s3, id, cfg, t0, issued);
    }
  }

  lemma LogPart(s: State, f: nat)
    requires Votes(s, f)
    ensures LogRecorded(s)
  {
  }

  // ---------- pre-prepares of the leader itself ----------

  /** The pre-prepare carries the number its operation has. */
  ghost predicate ProperNumber(s: State, a: PrePrepareArgs) {
    a.View == s.view ==> a.Seq < s.tSeq && (a.Message.Op != "" && a.Seq >= s.lastcp ==> a.Message.Op in s.seqmap && s.seqmap[a.Message.Op] == a.Seq)
  }

  lemma AcceptNumbers(s: State, a: PrePrepareArgs, t0: int, issued: seq<string>)
    requires Numbered(s, t0, issued) && ProperNumber(s, a)
    ensures Numbered(Accepted(s, a), t0, issued)
  {
    var r := Accepted(s, a);
    forall id | id in r.log
      ensures EntryNumbered(r, id)
    {
      if id != EntryId(a.View, a.Seq) { assert EntryNumbered(s, id); }
    }
    forall k | 0 <= k < |issued| && Live(r, t0 + k)
      ensures issued[k] in r.seqmap && r.seqmap[issued[k]] == t0 + k
    {
      assert Live(s, t0 + k);
    }
  }

  lemma PrePrepareNumbers(s: State, a: PrePrepareArgs, aux: Aux, cfg: Config, t0: int, issued: seq<string>)
    requires Invariant(s, cfg.f) && Numbered(s, t0, issued) && ProperNumber(s, a)
    ensures Numbered(OnPrePrepare(s, a, aux, cfg), t0, issued)
  {
    hide Votes, Ordered, OnPrepare, Numbered;
    StopKeeps(s, cfg.f);
    var s1, id := StopTimer(s), EntryId(a.View, a.Seq);
    PlainNumbers(s, s1, t0, issued);
    PlainNumbers(s, Put(s1, id, At(s1, id)), t0, issued);
    if InWindow(s1, a.View, a.Seq) && Acceptable(s1, a) {
      AcceptedInvariant(s1, a, cfg.f);
      AcceptNumbers(s1, a, t0, issued);
      PrepareNumbers(Accepted(s1, a), Vote(a.View, a.Seq, a.Digest, s.id), aux, cfg, t0, issued);
    }
  }

  lemma AcceptedInvariant(s: State, a: PrePrepareArgs, f: nat)
    requires Invariant(s, f) && Acceptable(s, a) && InWindow(s, a.View, a.Seq)
    ensures Invariant(Accepted(s, a), f)
  {
    AcceptOrder(s, a);
    AcceptVotes(s, a, f);
  }

  // ---------- numbering a request ----------

  /** The operation this step gives a number to, if any. */
  ghost function NewlyNumbered(s: State, i: Input, cfg: Config): seq<string>
    requires cfg.n > 0
  {
    if i.Deliver? && i.msg.RequestMessage? && !s.panic && !s.changing && s.view % cfg.n == s.id &&
       i.msg.req.Op !in s.seqmap && s.tSeq < s.H && i.aux.auxiliary.Some?
    then [i.msg.req.Op] else []
  }

  /** A new operation gets the next number, which lies below the upper edge of the window. */
  lemma NumberNext(s: State, op: string, pp: PrePrepareArgs, t0: int, issued: seq<string>)
    requires Numbered(s, t0, issued) && op != "" && op !in s.seqmap && s.tSeq < s.H
    requires pp.View == s.view && pp.Seq == s.tSeq && pp.Message.Op == op
    ensures var r := Send(s.(seqmap := s.seqmap[op := s.tSeq], tSeq := s.tSeq + 1), PrePrepareMessage(pp));
            Numbered(r, t0, issued + [op]) && ProperNumber(r, pp) && t0 + |issued| == s.tSeq < s.H
  {
    var r := Send(s.(seqmap := s.seqmap[op := s.tSeq], tSeq := s.tSeq + 1), PrePrepareMessage(pp));
    var all := issued + [op];
    forall id | id in r.log
      ensures EntryNumbered(r, id)
    {
      assert EntryNumbered(s, id);
    }
    forall k | 0 <= k < |all|
      ensures all[k] != "" && (Live(r, t0 + k) ==> all[k] in r.seqmap && r.seqmap[all[k]] == t0 + k)
    {
      if k < |issued| { assert Live(r, t0 + k) ==> Live(s, t0 + k); }
    }
  }

  lemma RequestNumbers(s: State, args: RequestArgs, aux: Aux, cfg: Config, t0: int, issued: seq<string>)
    requires Invariant(s, cfg.f) && cfg.n > 0 && Numbered(s, t0, issued) && args.Op != "" && !s.panic
    ensures Numbered(OnRequest(s, args, aux, cfg), t0, issued + NewlyNumbered(s, Deliver(RequestMessage(args), aux), cfg))
  {
    hide Invariant, OnPrePrepare, Numbered, ProperNumber;
    assert issued + [] == issued;
    if !s.changing && s.view % cfg.n == s.id {
      if args.Op !in s.seqmap {
        if s.tSeq < s.H && aux.auxiliary.Some? {
          var pp := PrePrepareArgs(s.view, s.tSeq, aux.auxiliary.value, args);
          var s1 := Send(s.(seqmap := s.seqmap[args.Op := s.tSeq], tSeq := s.tSeq + 1), PrePrepareMessage(pp));
          OtherSent(s, s1, PrePrepareMessage(pp), cfg.f);
          NumberNext(s, args.Op, pp, t0, issued);
          PrePrepareNumbers(s1, pp, aux, cfg, t0, issued + [args.Op]);
        }
      } else {
        RepeatNumbers(s, args, aux, cfg, t0, issued);
      }
    } else if !s.changing && !s.monitor {
      PlainNumbers(s, OnRequest(s, args, aux, cfg), t0, issued);
    }
  }

  lemma RepeatNumbers(s: State, args: RequestArgs, aux: Aux, cfg: Config, t0: int, issued: seq<string>)
    requires Invariant(s, cfg.f) && Numbered(s, t0, issued) && args.Op in s.seqmap
    ensures Numbered(OnRequestLeader(s, args, aux, cfg), t0, issued)
  {
    hide Invariant, OnPrePrepare, Numbered;
    var id := EntryId(s.view, s.seqmap[args.Op]);
    var e := At(s, id);
    var s1 := Put(s, id, e);
    PlainNumbers(s, s1, t0, issued);
    if e.pp.Some? { ResendNumbers(s, id, aux, cfg, t0, issued); }
    if e.r.Some? { PlainNumbers(s, Send(s1, ResponseMessage(e.r.value)), t0, issued); }
  }

  /** Sending a stored pre-prepare once more numbers nothing. */
  lemma ResendNumbers(s: State, id: EntryId, aux: Aux, cfg: Config, t0: int, issued: seq<string>)
    requires Invariant(s, cfg.f) && Numbered(s, t0, issued) && At(s, id).pp.Some?
    ensures var pp := At(s, id).pp.value;
            Numbered(OnPrePrepare(Send(Put(s, id, At(s, id)), PrePrepareMessage(pp)), pp, aux, cfg), t0, issued)
  {
    StoredNumber(s, id, cfg.f);
    hide Invariant, OnPrePrepare, Numbered;
    var e := At(s, id);
    TouchKeeps(s, id, e, cfg.f);
    var s2 := Send(Put(s, id, e), PrePrepareMessage(e.pp.value));
    OtherSent(Put(s, id, e), s2, PrePrepareMessage(e.pp.value), cfg.f);
    PlainNumbers(s, s2, t0, issued);
    PrePrepareNumbers(s2, e.pp.value, aux, cfg, t0, issued);
  }

  lemma StoredNumber(s: State, id: EntryId, f: nat)
    requires Invariant(s, f) && EntriesNumbered(s)
    ensures At(s, id).pp.Some? ==> ProperNumber(s, At(s, id).pp.value)
  {
    if id in s.log && s.log[id].pp.Some? {
      assert EntryRecorded(s, id, s.log[id]) && EntryNumbered(s, id);
    }
  }

  // ---------- steps of the view change that stay in the view ----------

  lemma ViewChangeNumbers(s: State, a: ViewChangeArgs, cfg: Config, t0: int, issued: seq<string>)
    requires CheckPointsOrdered(s) && cfg.n > 0 && Numbered(s, t0, issued) && OnViewChange(s, a, cfg).view == s.view
    ensures Numbered(OnViewChange(s, a, cfg), t0, issued)
  {
    StableIsLast(s);
    hide EnterNewView, NewViewSlots, Numbered;
    if a.View > s.view {
      var s1 := StoreViewChange(s, a);
      PlainNumbers(s, s1, t0, issued);
      var nv := NewViewArgs(a.View, s1.vcs[a.View], NewViewSlots(a.View, s1.vcs[a.View]));
      EnterRaises(Send(s1, NewViewMessage(nv)), nv);
    }
  }

  lemma NewViewNumbers(s: State, a: NewViewArgs, cfg: Config, t0: int, issued: seq<string>)
    requires CheckPointsOrdered(s) && Numbered(s, t0, issued) && OnNewView(s, a, cfg).view == s.view
    ensures Numbered(OnNewView(s, a, cfg), t0, issued)
  {
    StableIsLast(s);
    PlainNumbers(s, s.(panic := true), t0, issued);
    EnterRaises(s, a);
    hide EnterNewView, NewViewSlots, Numbered, SlotsMatch, SlotsTooShort;
  }

  lemma TimerNumbers(s: State, order: seq<EntryId>, cfg: Config, t0: int, issued: seq<string>)
    requires Invariant(s, cfg.f) && cfg.n > 0 && Numbered(s, t0, issued) && OnTimer(s, order, cfg).view == s.view
    ensures Numbered(OnTimer(s, order, cfg), t0, issued)
  {
    StableIsLast(s);
    if ReportOrder(s.log, order, s.cps[StableKey(s.cps)].Seq, cfg.f) {
      AskKeeps(s, order, cfg.f);
      var s1, vc := AskForView(s, order), GeneratedViewChange(s, order);
      PlainNumbers(s, s1, t0, issued);
      hide OnViewChange, GeneratedViewChange, AskForView, Votes, QueueOrdered, ExecutedInOrder, Numbered;
      ViewChangeNumbers(s1, vc, cfg, t0, issued);
      PlainNumbers(OnViewChange(s1, vc, cfg), OnTimer(s, order, cfg), t0, issued);
    }
  }

  lemma CheckPointNumbers(s: State, a: CheckPointArgs, cfg: Config, t0: int, issued: seq<string>)
    requires Ordered(s) && Numbered(s, t0, issued) && OnCheckPoint(s, a, cfg).view == s.view
    ensures Numbered(OnCheckPoint(s, a, cfg), t0, issued)
  {
    hide Ordered, Quiet, Numbered, OnCheckPoint;
    CheckPointKeeps(s, a, cfg);
    QuietNumbers(s, OnCheckPoint(s, a, cfg), t0, issued);
  }

  lemma PostponedNumbers(s: State, k: nat, aux: Aux, cfg: Config, t0: int, issued: seq<string>)
    requires Invariant(s, cfg.f) && k < |s.pending| && Numbered(s, t0, issued)
    ensures Numbered(SendPostponed(s, k, aux, cfg), t0, issued)
  {
    hide OnPrepare, Numbered, Invariant;
    var s1 := Send(s.(pending := s.pending[..k] + s.pending[k + 1..]), PrepareMessage(s.pending[k]));
    PostponedReady(s, s1, k, cfg.f);
    PlainNumbers(s, s1, t0, issued);
    PrepareNumbers(s1, s.pending[k], aux, cfg, t0, issued);
  }

  // ---------- a whole view ----------

  /** What authentication gives a leader: nobody else pre-prepares in its view; and operations are not empty. */
  ghost predicate OwnView(i: Input, view: int) {
    i.Deliver? ==> (i.msg.PrePrepareMessage? ==> i.msg.pp.View != view) && (i.msg.RequestMessage? ==> i.msg.req.Op != "")
  }

  lemma StepNumbers(s: State, i: Input, cfg: Config, t0: int, issued: seq<string>)
    requires Invariant(s, cfg.f) && cfg.n > 0 && Numbered(s, t0, issued) && OwnView(i, s.view) && Handle(s, i, cfg).view == s.view
    ensures Numbered(Handle(s, i, cfg), t0, issued + NewlyNumbered(s, i, cfg))
  {
    hide Votes, QueueOrdered, ExecutedInOrder, Numbered, OnRequest, OnPrePrepare, OnPrepare, OnCommit, OnCheckPoint, OnViewChange, OnNewView, OnTimer, SendPostponed;
    assert issued + [] == issued;
    if !s.panic {
      match i
      case Timer(order) => TimerNumbers(s, order, cfg, t0, issued);
      case Postponed(k, aux) => if k < |s.pending| { PostponedNumbers(s, k, aux, cfg, t0, issued); }
      case Deliver(msg, aux) =>
        match msg
        case RequestMessage(req) => RequestNumbers(s, req, aux, cfg, t0, issued);
        case PrePrepareMessage(pp) => PrePrepareNumbers(s, pp, aux, cfg, t0, issued);
        case PrepareMessage(p) => PrepareNumbers(s, p, aux, cfg, t0, issued);
        case CommitMessage(c) => CommitNumbers(s, c, cfg, t0, issued);
        case CheckPointMessage(cp) => CheckPointNumbers(s, cp, cfg, t0, issued);
        case ViewChangeMessage(vc) => ViewChangeNumbers(s, vc, cfg, t0, issued);
        case NewViewMessage(nv) => NewViewNumbers(s, nv, cfg, t0, issued);
        case ResponseMessage(_) =>
    }
  }

  /** The operations numbered along a run, in order. */
  ghost function AllNumbered(s: State, inputs: seq<Input>, cfg: Config): seq<string>
    requires cfg.n > 0
  {
    if inputs == [] then []
    else
      var before := inputs[..|inputs| - 1];
      AllNumbered(s, before, cfg) + NewlyNumbered(Run(s, before, cfg), inputs[|inputs| - 1], cfg)
  }

  /** The run stays in the view it starts in, and nobody else pre-prepares in it. */
  ghost predicate StaysInView(s: State, inputs: seq<Input>, cfg: Config)
    requires cfg.n > 0
  {
    forall k :: 0 <= k <= |inputs| ==> Run(s, inputs[..k], cfg).view == s.view && (k < |inputs| ==> OwnView(inputs[k], s.view))
  }

  /**
   A leader's numbering over a whole view: the k-th new operation got the number t0 + k, and as long
   as that number is live the operation still has it.
   */
  lemma {:induction false} ViewNumbered(s: State, inputs: seq<Input>, cfg: Config)
    requires Invariant(s, cfg.f) && cfg.n > 0 && Numbered(s, s.tSeq, []) && StaysInView(s, inputs, cfg)
    ensures Numbered(Run(s, inputs, cfg), s.tSeq, AllNumbered(s, inputs, cfg)) && Invariant(Run(s, inputs, cfg), cfg.f)
  {
    hide Invariant, Numbered, Handle, NewlyNumbered, OwnView;
    if inputs != [] {
      var n := |inputs| - 1;
      var before := inputs[..n];
      forall k | 0 <= k <= n
        ensures Run(s, before[..k], cfg).view == s.view && (k < n ==> OwnView(before[k], s.view))
      {
        assert before[..k] == inputs[..k];
      }
      ViewNumbered(s, before, cfg);
      assert inputs[..|inputs|] == inputs;
      StepKeeps(Run(s, before, cfg), inputs[n], cfg);
      StepNumbers(Run(s, before, cfg), inputs[n], cfg, s.tSeq, AllNumbered(s, before, cfg));
    }
  }

  /** The first view starts out numbered, with nothing issued. */
  lemma FirstViewNumbered(id: int, initSeq: nat)
    ensures Numbered(Initial(id, initSeq), initSeq, [])
  {
  }
}
