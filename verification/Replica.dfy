/**
 One PBFT replica: its state, and every message handler as one atomic step on that state.
 A message a replica broadcasts to itself is handled inside the step that sends it, as the source
 does; the prepares a replica sends after entering a new view go out later, one at a time.

 Five fields record history and steer nothing: `sent`, the prepares `heard`, the commits `confirmed`,
 `reported` and `executed`.
 */
module Replica {
  import opened Collections

  datatype RequestArgs = RequestArgs(Op: string, ID: int)

  datatype PrePrepareArgs = PrePrepareArgs(View: int, Seq: int, Digest: string, Message: RequestArgs)

  /** Prepare and commit messages carry the same fields. */
  datatype Vote = Vote(View: int, Seq: int, Digest: string, Rid: int)

  datatype ResponseArgs = ResponseArgs(View: int, Seq: int, Cid: int, Rid: int, Res: string, Auxiliary: string)

  datatype CheckPointArgs = CheckPointArgs(Seq: int, Digest: string, Rid: int, View: int)

  datatype Pm = Pm(PP: PrePrepareArgs, P: seq<Vote>)

  datatype ViewChangeArgs = ViewChangeArgs(View: int, CP: CheckPointArgs, P: seq<Pm>, Rid: int)

  datatype NewViewArgs = NewViewArgs(View: int, V: seq<ViewChangeArgs>, O: seq<PrePrepareArgs>)

  datatype Message =
    | RequestMessage(req: RequestArgs)
    | PrePrepareMessage(pp: PrePrepareArgs)
    | PrepareMessage(prepare: Vote)
    | CommitMessage(commit: Vote)
    | CheckPointMessage(cp: CheckPointArgs)
    | ViewChangeMessage(vc: ViewChangeArgs)
    | NewViewMessage(nv: NewViewArgs)
    | ResponseMessage(res: ResponseArgs)

  datatype EntryId = EntryId(v: int, n: int)

  datatype Entry = Entry(pp: Option<PrePrepareArgs>, p: seq<Vote>, sendCommit: bool, c: seq<Vote>, sendReply: bool,
                         r: Option<ResponseArgs>)

  datatype CheckPoint = CheckPoint(Seq: int, Stable: bool, Digest: string, View: int, Proof: seq<CheckPointArgs>)

  /** One record of the replicated history. */
  datatype Record = OpState(seqVal: int, op: string) | CheckPointState(seqVal: int, digest: string)

  /** What a replica broadcast while in view `at`. */
  datatype Report = Report(at: int, vc: ViewChangeArgs)

  /** `n` replicas numbered from 0, of which `f` may fail; `cpDigest` is the digest over the history. */
  datatype Config = Config(n: nat, f: nat, cpDigest: (seq<Record>, int) -> string)

  /** The service's answers during one step: the auxiliary string for a new op, and its two checks. */
  datatype Aux = Aux(auxiliary: Option<string>, prepareOk: bool, commitOk: bool)

  /** The apply queue holds the commit votes that triggered the queued executions, sorted by sequence number. */
  datatype State = State(id: int, tSeq: int, seqmap: map<string, int>, view: int, apply: int, log: map<EntryId, Entry>,
                         cps: map<int, CheckPoint>, h: int, H: int, monitor: bool, changing: bool, vcCount: nat,
                         state: seq<Record>, queue: seq<Vote>, vcs: map<int, seq<ViewChangeArgs>>, lastcp: int,
                         pending: seq<Vote>, panic: bool,
                         sent: seq<Message>, heard: set<Vote>, confirmed: set<Vote>, reported: set<Report>, executed: seq<Vote>)

  const CHECKPOINT_DIV := 100

  const EMPTY_ENTRY := Entry(None, [], false, [], false, None)

  // ---------- small updates ----------

  function StopTimer(s: State): State {
    s.(monitor := false, vcCount := 0)
  }

  function Send(s: State, m: Message): State {
    s.(sent := s.sent + [m])
  }

  function At(s: State, id: EntryId): Entry {
    if id in s.log then s.log[id] else EMPTY_ENTRY
  }

  function Put(s: State, id: EntryId, e: Entry): State {
    s.(log := s.log[id := e])
  }

  predicate InWindow(s: State, v: int, n: int) {
    s.view == v && s.h <= n < s.H
  }

  /** The distinct senders among the votes that match the entry's pre-prepare. */
  function Voters(votes: seq<Vote>, pp: PrePrepareArgs): set<int> {
    set k | 0 <= k < |votes| && votes[k].View == pp.View && votes[k].Seq == pp.Seq && votes[k].Digest == pp.Digest :: votes[k].Rid
  }

  predicate Prepared(e: Entry, f: nat)
    requires e.pp.Some?
  {
    |e.p| > 2 * f && |Voters(e.p, e.pp.value)| > 2 * f
  }

  predicate Committed(e: Entry, f: nat)
    requires e.pp.Some?
  {
    |e.c| > 2 * f && |Voters(e.c, e.pp.value)| > 2 * f
  }

  // ---------- replying ----------

  function ResponseFor(s: State, t: Vote, pp: PrePrepareArgs): ResponseArgs {
    ResponseArgs(t.View, t.Seq, pp.Message.ID, s.id, pp.Message.Op, pp.Digest)
  }

  /** Replies for an executed or skipped task; without a pre-prepare the source dereferences nil. */
  function ReplyTask(s: State, t: Vote): State {
    var id := EntryId(t.View, t.Seq);
    var e := At(s, id);
    if e.pp.None? then s.(panic := true)
    else
      var r := if e.r.None? then ResponseFor(s, t, e.pp.value) else e.r.value;
      Send(Put(s, id, e.(r := Some(r))), ResponseMessage(r))
  }

  // ---------- checkpoints ----------

  /** No record exists for `seq` and a later checkpoint is already stable. */
  ghost predicate Superseded(cps: map<int, CheckPoint>, seq_: int) {
    seq_ !in cps && exists k :: k in cps && k > seq_ && cps[k].Stable
  }

  /** The record for `seq_`, created if missing, its digest recomputed from the history. */
  function WithCheckPoint(s: State, seq_: int, cfg: Config): State {
    var cp := if seq_ in s.cps then s.cps[seq_] else CheckPoint(seq_, false, "", 0, []);
    s.(cps := s.cps[seq_ := if seq_ < 0 then cp else cp.(Digest := cfg.cpDigest(s.state, seq_))])
  }

  function CountDigest(proof: seq<CheckPointArgs>, d: string): nat {
    if proof == [] then 0 else CountDigest(proof[..|proof| - 1], d) + if proof[|proof| - 1].Digest == d then 1 else 0
  }

  function CountView(proof: seq<CheckPointArgs>, v: int): nat {
    if proof == [] then 0 else CountView(proof[..|proof| - 1], v) + if proof[|proof| - 1].View == v then 1 else 0
  }

  /** The first message at which both its digest and its view have been seen more than 2f times. */
  function FirstAgreed(proof: seq<CheckPointArgs>, f: nat, i: nat): Option<CheckPointArgs>
    requires i <= |proof|
    ensures FirstAgreed(proof, f, i).Some? ==> FirstAgreed(proof, f, i).value in proof
    decreases |proof| - i
  {
    if i == |proof| then None
    else if CountDigest(proof[..i + 1], proof[i].Digest) > 2 * f && CountView(proof[..i + 1], proof[i].View) > 2 * f then Some(proof[i])
    else FirstAgreed(proof, f, i + 1)
  }

  function LogFrom(log: map<EntryId, Entry>, n: int): map<EntryId, Entry> {
    map id | id in log && id.n >= n :: log[id]
  }

  function CheckPointsFrom(cps: map<int, CheckPoint>, n: int): map<int, CheckPoint> {
    map k | k in cps && cps[k].Seq >= n :: cps[k]
  }

  function SeqmapAbove(m: map<string, int>, n: int): map<string, int> {
    map op | op in m && m[op] > n :: m[op]
  }

  /** The history after the record numbered `n`, if a record with that number comes before all larger ones. */
  function RecordsAfter(st: seq<Record>, n: int, i: nat): seq<Record>
    requires i <= |st|
    decreases |st| - i
  {
    if i == |st| || st[i].seqVal > n then st
    else if st[i].seqVal == n then st[i + 1..]
    else RecordsAfter(st, n, i + 1)
  }

  /** Queued executions up to a stable checkpoint are answered without being executed. */
  function Drain(s: State, limit: int, fuel: nat): State
    decreases fuel
  {
    if fuel == 0 || s.queue == [] || s.queue[0].Seq > limit then s
    else Drain(ReplyTask(s.(queue := s.queue[1..]), s.queue[0]), limit, fuel - 1)
  }

  /** A stable checkpoint from a later view moves the replica into that view. */
  function AdoptView(s: State, v: int): State {
    if v > s.view then StopTimer(s.(view := v, changing := false)) else s
  }

  /** The record for `key` is stable with the agreed digest, and whatever it covers counts as applied. */
  function Staged(s: State, key: int, proof: CheckPointArgs): State
    requires key in s.cps
  {
    var s1 := AdoptView(s, proof.View);
    s1.(cps := s1.cps[key := s1.cps[key].(Stable := true, Digest := proof.Digest)],
        apply := if s1.apply < proof.Seq then s.cps[key].Seq else s1.apply)
  }

  /** Everything behind `n` is forgotten and the window moves. */
  function Cleared(s: State, n: int, proof: CheckPointArgs): State {
    s.(log := LogFrom(s.log, n), cps := CheckPointsFrom(s.cps, n), seqmap := SeqmapAbove(s.seqmap, n - 2 * CHECKPOINT_DIV),
       state := [CheckPointState(proof.Seq, proof.Digest)] + RecordsAfter(s.state, n, 0),
       h := n, H := n + 2 * CHECKPOINT_DIV, lastcp := n)
  }

  /**
   Makes the record for `key` stable with the agreed digest, and moves everything behind it.  The
   queue is drained before the log is cut: the tasks keep their entries alive in the source.
   */
  function Stabilize(s: State, key: int, proof: CheckPointArgs): State
    requires key in s.cps
  {
    Cleared(Drain(Staged(s, key, proof), s.cps[key].Seq, |s.queue|), s.cps[key].Seq, proof)
  }

  /** Records one more announcement of an open checkpoint. */
  function Announce(s: State, a: CheckPointArgs): State
    requires a.Seq in s.cps
  {
    s.(cps := s.cps[a.Seq := s.cps[a.Seq].(Proof := s.cps[a.Seq].Proof + [a])])
  }

  /** Stabilises once enough announcements agree; they are counted, not their senders. */
  function Settle(s: State, n: int, cfg: Config): State
    requires n in s.cps
  {
    var agreed := if |s.cps[n].Proof| > 2 * cfg.f then FirstAgreed(s.cps[n].Proof, cfg.f, 0) else None;
    if agreed.Some? then Stabilize(s, n, agreed.value) else s
  }

  ghost function OnCheckPoint(s: State, a: CheckPointArgs, cfg: Config): State {
    if a.Seq % CHECKPOINT_DIV != 0 || Superseded(s.cps, a.Seq) then s else
    var s1 := WithCheckPoint(s, a.Seq, cfg);
    if s1.cps[a.Seq].Stable then s1 else Settle(Announce(s1, a), a.Seq, cfg)
  }

  /** Opens the replica's own checkpoint at `n`. */
  function OpenOwn(s: State, n: int, cfg: Config): State {
    var s1 := WithCheckPoint(s, n, cfg);
    s1.(cps := s1.cps[n := s1.cps[n].(Seq := n, Stable := false)])
  }

  /** Announces the replica's own checkpoint at `n`, and handles the announcement at once. */
  ghost function StartCheckPoint(s: State, n: int, cfg: Config): State {
    if Superseded(s.cps, n) then s else
    var s1 := OpenOwn(s, n, cfg);
    var a := CheckPointArgs(n, s1.cps[n].Digest, s1.id, s1.view);
    OnCheckPoint(Send(s1, CheckPointMessage(a)), a, cfg)
  }

  // ---------- ordered execution ----------

  predicate Queued(q: seq<Vote>, n: int) {
    exists k :: 0 <= k < |q| && q[k].Seq == n
  }

  /** Inserts before the first task with a larger number. */
  function InsertTask(q: seq<Vote>, t: Vote): seq<Vote> {
    if q == [] then [t]
    else if q[0].Seq > t.Seq then [t] + q
    else [q[0]] + InsertTask(q[1..], t)
  }

  /** Takes the next task off the queue; a null request leaves no record. */
  function TakeNext(s: State): State
    requires s.queue != []
  {
    var m := s.queue[0];
    var pp := At(s, EntryId(m.View, m.Seq)).pp;
    s.(apply := s.apply + 1, queue := s.queue[1..], executed := s.executed + [m],
       state := if m.Digest != "" && pp.Some? then s.state + [OpState(m.Seq, pp.value.Message.Op)] else s.state)
  }

  function ApplyNext(s: State): State
    requires s.queue != []
  {
    ReplyTask(TakeNext(s), s.queue[0])
  }

  /** Executes queued tasks in order as long as the next number is there; the loop runs once per task queued at the start. */
  ghost function RunQueue(s: State, fuel: nat, cfg: Config): State
    decreases fuel
  {
    if fuel == 0 || s.queue == [] || s.panic then s
    else if s.apply + 1 == s.queue[0].Seq then
      var s1 := ApplyNext(s);
      var s2 := if s1.apply % CHECKPOINT_DIV == 0 then StartCheckPoint(s1, s1.apply, cfg) else s1;
      RunQueue(s2, fuel - 1, cfg)
    else if s.apply + 1 > s.queue[0].Seq then s.(panic := true)
    else s
  }

  /** Queues a committed request and runs the queue; a number that is already queued makes the source panic. */
  ghost function Execute(s: State, a: Vote, cfg: Config): State {
    if a.Seq <= s.apply then s
    else if Queued(s.queue, a.Seq) then s.(panic := true)
    else
      var id := EntryId(a.View, a.Seq);
      var s1 := Put(s.(queue := InsertTask(s.queue, a)), id, At(s, id).(sendReply := true));
      RunQueue(s1, |s1.queue|, cfg)
  }

  // ---------- the three phases ----------

  ghost function OnCommit(s: State, a: Vote, cfg: Config): State {
    if s.changing then s else
    var s1 := StopTimer(s);
    if !InWindow(s1, a.View, a.Seq) then s1 else
    var id := EntryId(a.View, a.Seq);
    var e := At(s1, id);
    if e.pp.Some? && e.pp.value.Digest != a.Digest then Put(s1, id, e) else
    var e1 := e.(c := e.c + [a]);
    var s2 := Put(s1, id, e1).(confirmed := s1.confirmed + {a});
    if !e1.sendReply && e1.sendCommit && e1.pp.Some? && Committed(e1, cfg.f) then Execute(s2, a, cfg) else s2
  }

  /** Sends the commit of a prepared entry; the own commit is handled before `sendCommit` is set. */
  ghost function SendCommit(s: State, id: EntryId, cfg: Config): State
    requires id in s.log && s.log[id].pp.Some?
  {
    var pp := s.log[id].pp.value;
    var c := Vote(id.v, pp.Seq, pp.Digest, s.id);
    var s1 := OnCommit(Send(s.(seqmap := s.seqmap[pp.Message.Op := id.n]), CommitMessage(c)), c, cfg);
    Put(s1, id, At(s1, id).(sendCommit := true))
  }

  ghost function OnPrepare(s: State, a: Vote, aux: Aux, cfg: Config): State {
    if s.changing then s else
    var s1 := StopTimer(s);
    if !InWindow(s1, a.View, a.Seq) then s1 else
    var id := EntryId(a.View, a.Seq);
    var e := At(s1, id);
    if e.pp.Some? && e.pp.value.Digest != a.Digest then Put(s1, id, e) else
    var e1 := e.(p := e.p + [a]);
    var s2 := Put(s1, id, e1).(heard := s1.heard + {a});
    if e1.pp.Some? && !e1.sendCommit && Prepared(e1, cfg.f) && aux.commitOk then SendCommit(s2, id, cfg) else s2
  }

  ghost function OnPrePrepare(s: State, a: PrePrepareArgs, aux: Aux, cfg: Config): State {
    if s.changing || !aux.prepareOk then s else
    var s1 := StopTimer(s);
    if !InWindow(s1, a.View, a.Seq) then s1 else
    var id := EntryId(a.View, a.Seq);
    var e := At(s1, id);
    if e.pp.None? || (e.pp.value.Digest == a.Digest && e.pp.value.Seq == a.Seq) then
      var p := Vote(a.View, a.Seq, a.Digest, s.id);
      OnPrepare(Send(Put(s1, id, e.(pp := Some(a))), PrepareMessage(p)), p, aux, cfg)
    else Put(s1, id, e)
  }

  // ---------- requests ----------

  ghost function OnRequestLeader(s: State, args: RequestArgs, aux: Aux, cfg: Config): State {
    if args.Op !in s.seqmap then
      if s.tSeq >= s.H || aux.auxiliary.None? then s else
      var pp := PrePrepareArgs(s.view, s.tSeq, aux.auxiliary.value, args);
      OnPrePrepare(Send(s.(seqmap := s.seqmap[args.Op := s.tSeq], tSeq := s.tSeq + 1), PrePrepareMessage(pp)), pp, aux, cfg)
    else if s.seqmap[args.Op] <= s.lastcp then s
    else
      var id := EntryId(s.view, s.seqmap[args.Op]);
      var e := At(s, id);
      var s1 := Put(s, id, e);
      if e.pp.None? || e.pp.value.Digest == "" then s1
      else if !e.sendReply then OnPrePrepare(Send(s1, PrePrepareMessage(e.pp.value)), e.pp.value, aux, cfg)
      else if e.r.Some? then Send(s1, ResponseMessage(e.r.value)) else s1
  }

  ghost function OnRequest(s: State, args: RequestArgs, aux: Aux, cfg: Config): State
    requires cfg.n > 0
  {
    if s.changing then s
    else if s.view % cfg.n == s.id then OnRequestLeader(s, args, aux, cfg)
    else if s.monitor then s
    else Send(s.(monitor := true), RequestMessage(args))
  }

  // ---------- view change ----------

  /** Some stable checkpoint; the source takes whichever its map yields first. */
  ghost function StableKey(cps: map<int, CheckPoint>): int
    requires exists k :: k in cps && cps[k].Stable
    ensures StableKey(cps) in cps && cps[StableKey(cps)].Stable
  {
    var k :| k in cps && cps[k].Stable;
    k
  }

  ghost predicate HasStable(cps: map<int, CheckPoint>) {
    exists k :: k in cps && cps[k].Stable
  }

  /** What a view change must report: committed-to or prepared entries above the stable checkpoint, of any view. */
  predicate Reportable(log: map<EntryId, Entry>, id: EntryId, cpSeq: int, f: nat) {
    id in log && id.n > cpSeq && log[id].pp.Some? && (log[id].sendCommit || Prepared(log[id], f))
  }

  /** `order` lists exactly the reportable entries, once each, in whatever order the log is walked. */
  ghost predicate ReportOrder(log: map<EntryId, Entry>, order: seq<EntryId>, cpSeq: int, f: nat) {
    && (forall i, j :: 0 <= i < j < |order| ==> order[i] != order[j])
    && (forall id :: id in order <==> Reportable(log, id, cpSeq, f))
  }

  function ReportOf(log: map<EntryId, Entry>, order: seq<EntryId>): (r: seq<Pm>)
    requires forall id :: id in order ==> id in log && log[id].pp.Some?
    ensures |r| == |order|
    ensures forall k :: 0 <= k < |r| ==> r[k] == Pm(log[order[k]].pp.value, log[order[k]].p)
  {
    seq(|order|, k requires 0 <= k < |order| => assert order[k] in order; Pm(log[order[k]].pp.value, log[order[k]].p))
  }

  ghost function GeneratedViewChange(s: State, order: seq<EntryId>): ViewChangeArgs
    requires HasStable(s.cps) && forall id :: id in order ==> id in s.log && s.log[id].pp.Some?
  {
    var cp := s.cps[StableKey(s.cps)];
    ViewChangeArgs(s.view + s.vcCount + 1, CheckPointArgs(cp.Seq, cp.Digest, s.id, cp.View), ReportOf(s.log, order), s.id)
  }

  /** The highest stable checkpoint and the highest prepared number reported in V, the second never below the first. */
  function MinS(V: seq<ViewChangeArgs>): int {
    if V == [] then -1
    else
      var m := MinS(V[..|V| - 1]);
      if V[|V| - 1].CP.Seq > m then V[|V| - 1].CP.Seq else m
  }

  function MaxReported(P: seq<Pm>, m: int): int {
    if P == [] then m
    else
      var k := MaxReported(P[..|P| - 1], m);
      if P[|P| - 1].PP.Seq > k then P[|P| - 1].PP.Seq else k
  }

  function MaxSeq(V: seq<ViewChangeArgs>): int {
    if V == [] then -1 else MaxReported(V[|V| - 1].P, MaxSeq(V[..|V| - 1]))
  }

  function MaxS(V: seq<ViewChangeArgs>): int {
    if MaxSeq(V) < MinS(V) then MinS(V) else MaxSeq(V)
  }

  function CollectReport(P: seq<Pm>, m: map<int, PrePrepareArgs>): map<int, PrePrepareArgs> {
    if P == [] then m else CollectReport(P[..|P| - 1], m)[P[|P| - 1].PP.Seq := P[|P| - 1].PP]
  }

  /** For each number the pre-prepare reported last. */
  function PPrepared(V: seq<ViewChangeArgs>): map<int, PrePrepareArgs> {
    if V == [] then map[] else CollectReport(V[|V| - 1].P, PPrepared(V[..|V| - 1]))
  }

  const NO_REQUEST := RequestArgs("", 0)

  /** The slot `n` of a new view: what was reported for it, or a null request. */
  function SlotFor(view: int, n: int, pprepared: map<int, PrePrepareArgs>): PrePrepareArgs {
    if n in pprepared then PrePrepareArgs(view, n, pprepared[n].Digest, pprepared[n].Message)
    else PrePrepareArgs(view, n, "", NO_REQUEST)
  }

  function CalcPPS(view: int, mins: int, maxs: int, pprepared: map<int, PrePrepareArgs>): (r: seq<PrePrepareArgs>)
    requires mins <= maxs
    ensures |r| == maxs - mins
    ensures forall k :: 0 <= k < |r| ==> r[k] == SlotFor(view, mins + 1 + k, pprepared)
  {
    seq(maxs - mins, k => SlotFor(view, mins + 1 + k, pprepared))
  }

  function NewViewSlots(view: int, V: seq<ViewChangeArgs>): seq<PrePrepareArgs> {
    CalcPPS(view, MinS(V), MaxS(V), PPrepared(V))
  }

  /** The first report in V with the given checkpoint number. */
  function FirstWith(V: seq<ViewChangeArgs>, n: int): Option<CheckPointArgs> {
    if V == [] then None else if V[0].CP.Seq == n then Some(V[0].CP) else FirstWith(V[1..], n)
  }

  /** Adopts the reported checkpoint when it is ahead of the own stable one. */
  ghost function CatchUp(s: State, V: seq<ViewChangeArgs>, mins: int): State
    requires HasStable(s.cps)
  {
    if mins <= s.cps[StableKey(s.cps)].Seq then s else
    match FirstWith(V, mins)
    case None => s.(panic := true)
    case Some(c) =>
      var s1 := s.(cps := s.cps[mins := CheckPoint(c.Seq, true, c.Digest, c.View, [])]);
      Stabilize(s1, mins, CheckPointArgs(c.Seq, c.Digest, s.id, s.view))
  }

  /** Stores the new view's pre-prepares, one slot after the other. */
  function InstallSlots(s: State, view: int, pps: seq<PrePrepareArgs>): State {
    if pps == [] then s
    else
      var s1 := InstallSlots(s, view, pps[..|pps| - 1]);
      var pp := pps[|pps| - 1];
      var id := EntryId(view, pp.Seq);
      Put(s1, id, At(s1, id).(pp := Some(pp))).(seqmap := s1.seqmap[pp.Message.Op := pp.Seq])
  }

  function PreparesFor(id: int, view: int, pps: seq<PrePrepareArgs>): (r: seq<Vote>)
    ensures |r| == |pps|
    ensures forall k :: 0 <= k < |r| ==> r[k] == Vote(view, pps[k].Seq, pps[k].Digest, id)
  {
    seq(|pps|, k requires 0 <= k < |pps| => Vote(view, pps[k].Seq, pps[k].Digest, id))
  }

  function VcsFrom(vcs: map<int, seq<ViewChangeArgs>>, v: int): map<int, seq<ViewChangeArgs>> {
    map k | k in vcs && k >= v :: vcs[k]
  }

  /** Installs the view's slots, cuts the log and leaves the prepares to be sent one by one. */
  function TakeOver(s: State, view: int, V: seq<ViewChangeArgs>): State {
    var pps := NewViewSlots(view, V);
    var s1 := InstallSlots(s.(tSeq := MaxS(V) + 1), view, pps);
    StopTimer(s1.(view := view, log := LogFrom(s1.log, MinS(V)), changing := false, vcs := VcsFrom(s1.vcs, view),
                  pending := s1.pending + PreparesFor(s.id, view, pps)))
  }

  ghost function EnterNewView(s: State, nv: NewViewArgs): State
    requires HasStable(s.cps)
  {
    TakeOver(CatchUp(s, nv.V, MinS(nv.V)), nv.View, nv.V)
  }

  /** Keeps the message, without looking for an earlier one from the same sender. */
  function StoreViewChange(s: State, a: ViewChangeArgs): State {
    s.(vcs := s.vcs[a.View := (if a.View in s.vcs then s.vcs[a.View] else []) + [a]])
  }

  /** The new leader announces the view and enters it. */
  ghost function LeadNewView(s: State, view: int, got: seq<ViewChangeArgs>): State {
    if !HasStable(s.cps) then s.(panic := true) else
    var nv := NewViewArgs(view, got, NewViewSlots(view, got));
    EnterNewView(Send(s, NewViewMessage(nv)), nv)
  }

  ghost function OnViewChange(s: State, a: ViewChangeArgs, cfg: Config): State
    requires cfg.n > 0
  {
    if a.View <= s.view then s else
    var s1 := StoreViewChange(s, a);
    if a.View % cfg.n == s.id && |s1.vcs[a.View]| >= 2 * cfg.f + 1 then LeadNewView(s1, a.View, s1.vcs[a.View]) else s1
  }

  /** The distinct senders in V whose message is for this view. */
  function Changers(nv: NewViewArgs): set<int> {
    set k | 0 <= k < |nv.V| && nv.V[k].View == nv.View :: nv.V[k].Rid
  }

  predicate SameSlot(a: PrePrepareArgs, b: PrePrepareArgs) {
    a.View == b.View && a.Seq == b.Seq && a.Digest == b.Digest
  }

  /** Every recomputed slot is met by the leader's; the source reads the leader's list without checking its length. */
  ghost predicate SlotsMatch(pps: seq<PrePrepareArgs>, O: seq<PrePrepareArgs>) {
    |pps| <= |O| && forall k :: 0 <= k < |pps| ==> SameSlot(pps[k], O[k])
  }

  ghost predicate SlotsTooShort(pps: seq<PrePrepareArgs>, O: seq<PrePrepareArgs>) {
    |O| < |pps| && forall k :: 0 <= k < |O| ==> SameSlot(pps[k], O[k])
  }

  ghost function OnNewView(s: State, a: NewViewArgs, cfg: Config): State {
    if a.View <= s.view || |Changers(a)| <= 2 * cfg.f then s else
    var pps := NewViewSlots(a.View, a.V);
    if SlotsTooShort(pps, a.O) then s.(panic := true)
    else if !SlotsMatch(pps, a.O) then s
    else if !HasStable(s.cps) then s.(panic := true)
    else EnterNewView(s, a)
  }

  /** The replica stops taking part in its view and reports its log. */
  ghost function AskForView(s: State, order: seq<EntryId>): State
    requires HasStable(s.cps) && forall id :: id in order ==> id in s.log && s.log[id].pp.Some?
  {
    var vc := GeneratedViewChange(s, order);
    s.(changing := true, vcCount := s.vcCount + 1, reported := s.reported + {Report(s.view, vc)}, sent := s.sent + [ViewChangeMessage(vc)])
  }

  /** The view-change timer fires; the own message is handled at once. */
  ghost function OnTimer(s: State, order: seq<EntryId>, cfg: Config): State
    requires cfg.n > 0
  {
    if !HasStable(s.cps) then s.(changing := true, panic := true)
    else if !ReportOrder(s.log, order, s.cps[StableKey(s.cps)].Seq, cfg.f) then s
    else OnViewChange(AskForView(s, order), GeneratedViewChange(s, order), cfg).(monitor := true)
  }

  // ---------- one step ----------

  /** What can happen to a replica: a message, its timer (with the order the log is walked in), or a postponed prepare. */
  datatype Input = Deliver(msg: Message, aux: Aux) | Timer(order: seq<EntryId>) | Postponed(k: nat, aux: Aux)

  ghost function SendPostponed(s: State, k: nat, aux: Aux, cfg: Config): State
    requires k < |s.pending|
  {
    var p := s.pending[k];
    OnPrepare(Send(s.(pending := s.pending[..k] + s.pending[k + 1..]), PrepareMessage(p)), p, aux, cfg)
  }

  ghost function Handle(s: State, i: Input, cfg: Config): State
    requires cfg.n > 0
  {
    if s.panic then s else
    match i
    case Timer(order) => OnTimer(s, order, cfg)
    case Postponed(k, aux) => if k < |s.pending| then SendPostponed(s, k, aux, cfg) else s
    case Deliver(msg, aux) =>
      match msg
      case RequestMessage(req) => OnRequest(s, req, aux, cfg)
      case PrePrepareMessage(pp) => OnPrePrepare(s, pp, aux, cfg)
      case PrepareMessage(p) => OnPrepare(s, p, aux, cfg)
      case CommitMessage(c) => OnCommit(s, c, cfg)
      case CheckPointMessage(cp) => OnCheckPoint(s, cp, cfg)
      case ViewChangeMessage(vc) => OnViewChange(s, vc, cfg)
      case NewViewMessage(nv) => OnNewView(s, nv, cfg)
      case ResponseMessage(_) => s
  }

  function Initial(id: int, initSeq: nat): State {
    State(id, initSeq, map[], 0, initSeq - 1, map[], map[-1 := CheckPoint(-1, true, "", 0, [])], initSeq, initSeq + 2 * CHECKPOINT_DIV,
          false, false, 0, [OpState(-1, "")], [], map[], -1, [], false, [], {}, {}, {}, [])
  }

  ghost function Run(s: State, inputs: seq<Input>, cfg: Config): State
    requires cfg.n > 0
  {
    if inputs == [] then s else Handle(Run(s, inputs[..|inputs| - 1], cfg), inputs[|inputs| - 1], cfg)
  }
}
