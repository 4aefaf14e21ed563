/**
 What one replica keeps in every run, whatever messages it is sent: exactly one stable checkpoint,
 a window that follows it, a strictly sorted apply queue above the last executed number, and
 entries that stay in the log as long as something still depends on them.
 */
module ReplicaOrder {
  import opened Replica

  /** A record's proof holds only announcements of its own number. */
  ghost predicate ProofOf(cp: CheckPoint, k: int) {
    forall i :: 0 <= i < |cp.Proof| ==> cp.Proof[i].Seq == k
  }

  /** Exactly one checkpoint is stable, it has the lowest key, and the window follows it. */
  ghost predicate CheckPointsOrdered(s: State) {
    && s.lastcp in s.cps && s.cps[s.lastcp].Stable
    && (forall k :: k in s.cps ==> s.cps[k].Seq == k && ProofOf(s.cps[k], k) && k >= s.lastcp && (s.cps[k].Stable ==> k == s.lastcp))
    && -1 <= s.lastcp <= s.apply
    && (s.lastcp >= 0 ==> s.h == s.lastcp) && s.H == s.h + 2 * CHECKPOINT_DIV && s.h >= 0
  }

  /** The queued task's entry is in the log, with its commit sent. */
  ghost predicate TaskReady(log: map<EntryId, Entry>, t: Vote) {
    var id := EntryId(t.View, t.Seq);
    id in log && log[id].pp.Some? && log[id].sendCommit && log[id].sendReply && log[id].pp.value.Digest == t.Digest
  }

  ghost predicate Sorted(q: seq<Vote>) {
    forall i, j :: 0 <= i < j < |q| ==> q[i].Seq < q[j].Seq
  }

  ghost predicate QueueOrdered(s: State) {
    && Sorted(s.queue)
    && (forall k :: 0 <= k < |s.queue| ==> s.queue[k].Seq > s.apply && TaskReady(s.log, s.queue[k]))
  }

  /** Executed numbers only ever went up, and none is beyond `apply`. */
  ghost predicate ExecutedInOrder(s: State) {
    Sorted(s.executed) && forall k :: 0 <= k < |s.executed| ==> s.executed[k].Seq <= s.apply
  }

  ghost predicate Ordered(s: State) {
    CheckPointsOrdered(s) && QueueOrdered(s) && ExecutedInOrder(s)
  }

  // ---------- what the execution side leaves alone ----------

  /** Entries agree except that a reply may have been prepared or sent. */
  ghost predicate SameVotes(a: Entry, b: Entry) {
    a.pp == b.pp && a.p == b.p && a.c == b.c && a.sendCommit == b.sendCommit && (a.sendReply ==> b.sendReply)
  }

  /** No vote, view change or new view is sent. */
  predicate Harmless(m: Message) {
    m.ResponseMessage? || m.CheckPointMessage?
  }

  ghost predicate OnlyHarmless(before: seq<Message>, after: seq<Message>) {
    before <= after && forall k :: |before| <= k < |after| ==> Harmless(after[k])
  }

  /** Nothing leaves the log but entries below the (new) stable checkpoint, nothing enters it, and votes stay. */
  ghost predicate LogKept(before: State, after: State) {
    && (forall id :: id in after.log ==> id in before.log && SameVotes(before.log[id], after.log[id]))
    && (forall id :: id in before.log && id.n >= after.lastcp ==> id in after.log)
  }

  /** Numbers are only forgotten, and only two intervals behind the stable checkpoint. */
  ghost predicate NumbersKept(before: State, after: State) {
    && (forall op :: op in after.seqmap ==> op in before.seqmap && after.seqmap[op] == before.seqmap[op])
    && (forall op :: op in before.seqmap && before.seqmap[op] > after.lastcp - 2 * CHECKPOINT_DIV ==> op in after.seqmap)
  }

  /** `after` comes from `before` by executing, replying and checkpointing alone. */
  ghost predicate Quiet(before: State, after: State) {
    && after.id == before.id && after.pending == before.pending && after.heard == before.heard && after.confirmed == before.confirmed
    && after.reported == before.reported && after.vcs == before.vcs && after.tSeq == before.tSeq
    && before.view <= after.view && (after.view == before.view ==> after.changing == before.changing)
    && before.lastcp <= after.lastcp && before.apply <= after.apply && before.executed <= after.executed
    && OnlyHarmless(before.sent, after.sent) && LogKept(before, after) && NumbersKept(before, after)
  }

  lemma QuietTrans(a: State, b: State, c: State)
    requires Quiet(a, b) && Quiet(b, c)
    ensures Quiet(a, c)
  {
  }

  // ---------- replying and draining ----------

  lemma ReplyKeeps(s: State, t: Vote)
    requires TaskReady(s.log, t)
    ensures var r := ReplyTask(s, t);
            && r.panic == s.panic && r.log.Keys == s.log.Keys
            && (forall id :: id in s.log ==> SameVotes(s.log[id], r.log[id]))
            && OnlyHarmless(s.sent, r.sent) && |r.sent| == |s.sent| + 1
            && r == s.(log := r.log, sent := r.sent)
  {
  }

  lemma ReadyKept(log: map<EntryId, Entry>, log': map<EntryId, Entry>, q: seq<Vote>)
    requires forall k :: 0 <= k < |q| ==> TaskReady(log, q[k])
    requires forall k :: 0 <= k < |q| ==>
               var id := EntryId(q[k].View, q[k].Seq); id in log && id in log' && SameVotes(log[id], log'[id])
    ensures forall k :: 0 <= k < |q| ==> TaskReady(log', q[k])
  {
  }

  /** The tasks above the limit survive a drain. */
  ghost predicate Drained(s: State, r: State, limit: int) {
    && r.panic == s.panic && r.log.Keys == s.log.Keys
    && (forall id :: id in s.log ==> SameVotes(s.log[id], r.log[id]))
    && OnlyHarmless(s.sent, r.sent)
    && r == s.(log := r.log, sent := r.sent, queue := r.queue)
    && Sorted(r.queue) && (forall k :: 0 <= k < |r.queue| ==> r.queue[k] in s.queue && r.queue[k].Seq > limit && TaskReady(r.log, r.queue[k]))
  }

  lemma DrainedTrans(s: State, s1: State, r: State, limit: int)
    requires s.queue != [] && s1.queue == s.queue[1..] && s1 == s.(log := s1.log, sent := s1.sent, queue := s1.queue)
    requires s1.log.Keys == s.log.Keys && (forall id :: id in s.log ==> SameVotes(s.log[id], s1.log[id]))
    requires OnlyHarmless(s.sent, s1.sent) && Drained(s1, r, limit)
    ensures Drained(s, r, limit)
  {
    forall k | 0 <= k < |r.queue|
      ensures r.queue[k] in s.queue
    {
      assert r.queue[k] in s1.queue;
    }
  }

  lemma UntouchedDrained(s: State, limit: int)
    requires Sorted(s.queue) && (s.queue == [] || s.queue[0].Seq > limit)
    requires forall k :: 0 <= k < |s.queue| ==> TaskReady(s.log, s.queue[k])
    ensures Drained(s, s, limit)
  {
    forall k | 0 <= k < |s.queue|
      ensures s.queue[k].Seq > limit
    {
      if k > 0 { assert s.queue[0].Seq < s.queue[k].Seq; }
    }
  }

  /** Answering the first task leaves the rest of the queue ready. */
  lemma DrainOne(s: State)
    requires s.queue != [] && Sorted(s.queue)
    requires forall k :: 0 <= k < |s.queue| ==> TaskReady(s.log, s.queue[k])
    ensures var r := ReplyTask(s.(queue := s.queue[1..]), s.queue[0]);
            && Sorted(r.queue) && r.queue == s.queue[1..]
            && (forall k :: 0 <= k < |r.queue| ==> TaskReady(r.log, r.queue[k]))
            && r == s.(log := r.log, sent := r.sent, queue := r.queue)
            && r.log.Keys == s.log.Keys && (forall id :: id in s.log ==> SameVotes(s.log[id], r.log[id]))
            && OnlyHarmless(s.sent, r.sent)
  {
    var s1 := s.(queue := s.queue[1..]);
    ReplyKeeps(s1, s.queue[0]);
    ReadyKept(s.log, ReplyTask(s1, s.queue[0]).log, s1.queue);
  }

  // ---------- stabilising a checkpoint ----------

  /** As `CheckPointsOrdered`, but the checkpoint about to be stabilised may be marked stable already. */
  ghost predicate AboutToStabilize(s: State, key: int) {
    && s.lastcp in s.cps && key in s.cps && key > s.lastcp
    && (forall k :: k in s.cps ==> s.cps[k].Seq == k && ProofOf(s.cps[k], k) && k >= s.lastcp && (s.cps[k].Stable ==> k == s.lastcp || k == key))
    && -1 <= s.lastcp <= s.apply
  }

  lemma StabilizedCheckPoints(s: State, key: int, proof: CheckPointArgs)
    requires AboutToStabilize(s, key) && proof.Seq == key
    requires Drained(Staged(s, key, proof), Drain(Staged(s, key, proof), key, |s.queue|), key)
    ensures CheckPointsOrdered(Stabilize(s, key, proof)) && Stabilize(s, key, proof).lastcp == key
  {
    hide Drain;
  }

  lemma StagedDrains(s: State, key: int, proof: CheckPointArgs)
    requires AboutToStabilize(s, key) && proof.Seq == key && QueueOrdered(s)
    ensures var t := Staged(s, key, proof); Drained(t, Drain(t, key, |s.queue|), key) && t.queue == s.queue
  {
    var t := Staged(s, key, proof);
    DrainIgnores(t, s.queue, key);
  }

  /** Draining needs only the queue and the log. */
  lemma {:induction false} DrainIgnores(s: State, q: seq<Vote>, limit: int)
    requires s.queue == q && Sorted(q) && forall k :: 0 <= k < |q| ==> TaskReady(s.log, q[k])
    ensures Drained(s, Drain(s, limit, |q|), limit)
    decreases |q|
  {
    hide ReplyTask, SameVotes, TaskReady, OnlyHarmless;
    if q == [] || q[0].Seq > limit {
      UntouchedDrained(s, limit);
    } else {
      DrainOne(s);
      var s2 := ReplyTask(s.(queue := q[1..]), q[0]);
      DrainIgnores(s2, q[1..], limit);
      DrainedTrans(s, s2, Drain(s2, limit, |q| - 1), limit);
    }
  }

  lemma StabilizeKeeps(s: State, key: int, proof: CheckPointArgs)
    requires AboutToStabilize(s, key) && proof.Seq == key && QueueOrdered(s) && ExecutedInOrder(s)
    ensures var r := Stabilize(s, key, proof);
            && Ordered(r) && Quiet(s, r) && r.panic == s.panic && r.lastcp == key
            && r.view == (if proof.View > s.view then proof.View else s.view)
  {
    var t, r := Staged(s, key, proof), Stabilize(s, key, proof);
    StagedDrains(s, key, proof);
    StabilizedCheckPoints(s, key, proof);
    var d := Drain(t, key, |s.queue|);
    StabilizedShape(s, key, proof);
    StabilizedQueue(s, d, r, key);
    StabilizedQuiet(s, t, d, r, key);
  }

  lemma StabilizedShape(s: State, key: int, proof: CheckPointArgs)
    requires AboutToStabilize(s, key)
    ensures var d, r := Drain(Staged(s, key, proof), key, |s.queue|), Stabilize(s, key, proof);
            && r == d.(log := LogFrom(d.log, key), cps := r.cps, seqmap := SeqmapAbove(d.seqmap, key - 2 * CHECKPOINT_DIV), state := r.state,
                       h := r.h, H := r.H, lastcp := key)
  {
    hide Drain;
  }

  lemma StabilizedQueue(s: State, d: State, r: State, key: int)
    requires QueueOrdered(s) && ExecutedInOrder(s) && s.apply <= d.apply && d.executed == s.executed
    requires r.apply == d.apply == (if s.apply < key then key else s.apply)
    requires r.log == LogFrom(d.log, key) && r.queue == d.queue && r.executed == d.executed
    requires Sorted(d.queue) && forall k :: 0 <= k < |d.queue| ==> d.queue[k] in s.queue && d.queue[k].Seq > key && TaskReady(d.log, d.queue[k])
    ensures QueueOrdered(r) && ExecutedInOrder(r)
  {
    hide Sorted;
    forall k | 0 <= k < |r.queue|
      ensures r.queue[k].Seq > r.apply && TaskReady(r.log, r.queue[k])
    {
      assert d.queue[k] in s.queue;
      var i :| 0 <= i < |s.queue| && s.queue[i] == d.queue[k];
    }
  }

  lemma StabilizedQuiet(s: State, t: State, d: State, r: State, key: int)
    requires s.lastcp < key == r.lastcp
    requires t == s.(view := t.view, changing := t.changing, monitor := t.monitor, vcCount := t.vcCount, cps := t.cps, apply := t.apply)
    requires s.apply <= t.apply && s.view <= t.view && (t.view == s.view ==> t.changing == s.changing)
    requires Drained(t, d, key)
    requires r == d.(log := LogFrom(d.log, key), cps := r.cps, seqmap := SeqmapAbove(d.seqmap, key - 2 * CHECKPOINT_DIV), state := r.state,
                     h := r.h, H := r.H, lastcp := key)
    ensures Quiet(s, r)
  {
  }

  // ---------- handling checkpoints ----------

  lemma OpenCheckPoint(s: State, n: int, cfg: Config)
    requires CheckPointsOrdered(s) && !Superseded(s.cps, n)
    ensures var r := WithCheckPoint(s, n, cfg);
            && CheckPointsOrdered(r) && n in r.cps && n >= s.lastcp && (r.cps[n].Stable <==> n == s.lastcp)
            && r == s.(cps := r.cps)
  {
    assert n !in s.cps ==> n > s.lastcp;
  }

  lemma AnnounceKeeps(s: State, a: CheckPointArgs)
    requires CheckPointsOrdered(s) && a.Seq in s.cps && !s.cps[a.Seq].Stable
    ensures var r := Announce(s, a);
            && CheckPointsOrdered(r) && AboutToStabilize(r, a.Seq) && ProofOf(r.cps[a.Seq], a.Seq) && r == s.(cps := r.cps)
  {
  }

  lemma SettleKeeps(s: State, n: int, cfg: Config)
    requires Ordered(s) && AboutToStabilize(s, n) && ProofOf(s.cps[n], n)
    ensures var r := Settle(s, n, cfg); Ordered(r) && Quiet(s, r) && r.panic == s.panic
  {
    QuietRefl(s, s.cps);
    var agreed := FirstAgreed(s.cps[n].Proof, cfg.f, 0);
    if agreed.Some? {
      hide Stabilize, Quiet, QueueOrdered, ExecutedInOrder, CheckPointsOrdered, AboutToStabilize;
      StabilizeKeeps(s, n, agreed.value);
    }
  }

  lemma QuietRefl(s: State, cps: map<int, CheckPoint>)
    ensures Quiet(s, s.(cps := cps))
  {
  }

  /** A checkpoint announcement, from anyone and with any content, keeps the order. */
  lemma CheckPointKeeps(s: State, a: CheckPointArgs, cfg: Config)
    requires Ordered(s)
    ensures var r := OnCheckPoint(s, a, cfg); Ordered(r) && Quiet(s, r) && r.panic == s.panic
  {
    hide Settle, Quiet, WithCheckPoint, Announce, CheckPointsOrdered, AboutToStabilize, QueueOrdered, ExecutedInOrder, Superseded;
    QuietRefl(s, s.cps);
    if a.Seq % CHECKPOINT_DIV == 0 && !Superseded(s.cps, a.Seq) {
      OpenCheckPoint(s, a.Seq, cfg);
      var s1 := WithCheckPoint(s, a.Seq, cfg);
      QuietRefl(s, s1.cps);
      CpsIrrelevant(s, s1.cps);
      if !s1.cps[a.Seq].Stable {
        AnnounceKeeps(s1, a);
        var s2 := Announce(s1, a);
        QuietRefl(s, s2.cps);
        CpsIrrelevant(s, s2.cps);
        SettleKeeps(s2, a.Seq, cfg);
        QuietTrans(s, s2, Settle(s2, a.Seq, cfg));
      }
    }
  }

  lemma CpsIrrelevant(s: State, cps: map<int, CheckPoint>)
    requires QueueOrdered(s) && ExecutedInOrder(s)
    ensures QueueOrdered(s.(cps := cps)) && ExecutedInOrder(s.(cps := cps))
  {
  }

  lemma OpenOwnKeeps(s: State, n: int, cfg: Config)
    requires CheckPointsOrdered(s) && n > s.lastcp
    ensures var r := OpenOwn(s, n, cfg); CheckPointsOrdered(r) && n in r.cps && r == s.(cps := r.cps)
  {
  }

  lemma AnnouncementQuiet(s: State, r: State, m: Message)
    requires r == Send(s.(cps := r.cps), m) && Harmless(m) && QueueOrdered(s) && ExecutedInOrder(s)
    ensures Quiet(s, r) && QueueOrdered(r) && ExecutedInOrder(r)
  {
  }

  lemma SendKeepsCheckPoints(s: State, m: Message)
    requires CheckPointsOrdered(s)
    ensures CheckPointsOrdered(Send(s, m))
  {
  }

  lemma StartKeeps(s: State, n: int, cfg: Config)
    requires Ordered(s) && n > s.lastcp
    ensures var r := StartCheckPoint(s, n, cfg); Ordered(r) && Quiet(s, r) && r.panic == s.panic
  {
    hide Quiet, CheckPointsOrdered, QueueOrdered, ExecutedInOrder, Superseded, OnCheckPoint, OpenOwn;
    QuietRefl(s, s.cps);
    if !Superseded(s.cps, n) {
      OpenOwnKeeps(s, n, cfg);
      var s1 := OpenOwn(s, n, cfg);
      var a := CheckPointArgs(n, s1.cps[n].Digest, s1.id, s1.view);
      var s2 := Send(s1, CheckPointMessage(a));
      AnnouncementQuiet(s, s2, CheckPointMessage(a));
      SendKeepsCheckPoints(s1, CheckPointMessage(a));
      CheckPointKeeps(s2, a, cfg);
      QuietTrans(s, s2, OnCheckPoint(s2, a, cfg));
    }
  }

  // ---------- executing in order ----------

  lemma {:induction false} InsertSorted(q: seq<Vote>, t: Vote)
    requires Sorted(q) && !Queued(q, t.Seq)
    ensures Sorted(InsertTask(q, t)) && |InsertTask(q, t)| == |q| + 1
    ensures forall x :: x in InsertTask(q, t) <==> x in q || x == t
  {
    if q == [] {
    } else if q[0].Seq > t.Seq {
    } else {
      assert Queued(q[1..], t.Seq) ==> Queued(q, t.Seq);
      InsertSorted(q[1..], t);
      var r := InsertTask(q[1..], t);
      assert forall x :: x in q <==> x == q[0] || x in q[1..];
      forall k | 0 <= k < |r|
        ensures q[0].Seq < r[k].Seq
      {
        assert r[k] in r;
      }
    }
  }

  /** Applying the next task executes exactly the number after `apply`. */
  lemma ApplyKeeps(s: State)
    requires Ordered(s) && s.queue != [] && s.queue[0].Seq == s.apply + 1
    ensures var r := ApplyNext(s);
            && Ordered(r) && Quiet(s, r) && r.panic == s.panic && r.lastcp == s.lastcp && r.apply == s.apply + 1
            && r.executed == s.executed + [s.queue[0]] && |r.queue| == |s.queue| - 1
  {
    QueueReady(s);
    TakeShape(s);
    hide QueueOrdered, CheckPointsOrdered, ExecutedInOrder, Quiet, OnlyHarmless, SameVotes, TaskReady, ReplyTask, TakeNext;
    var s1, m := TakeNext(s), s.queue[0];
    ReplyKeeps(s1, m);
    ReadyKept(s.log, ReplyTask(s1, m).log, s1.queue);
    AppliedOrder(s, ReplyTask(s1, m), m);
  }

  lemma TakeShape(s: State)
    requires s.queue != []
    ensures var r := TakeNext(s);
            r == s.(apply := s.apply + 1, queue := s.queue[1..], executed := s.executed + [s.queue[0]], state := r.state)
  {
  }

  lemma QueueReady(s: State)
    requires QueueOrdered(s)
    ensures forall k :: 0 <= k < |s.queue| ==> TaskReady(s.log, s.queue[k]) && EntryId(s.queue[k].View, s.queue[k].Seq) in s.log
  {
  }

  lemma AppliedOrder(s: State, r: State, m: Vote)
    requires Ordered(s) && s.queue != [] && m == s.queue[0] && m.Seq == s.apply + 1
    requires r == s.(apply := s.apply + 1, queue := s.queue[1..], executed := s.executed + [m], state := r.state, log := r.log, sent := r.sent)
    requires OnlyHarmless(s.sent, r.sent) && r.log.Keys == s.log.Keys && forall id :: id in s.log ==> SameVotes(s.log[id], r.log[id])
    requires forall k :: 0 <= k < |r.queue| ==> TaskReady(r.log, r.queue[k])
    ensures Ordered(r) && Quiet(s, r)
  {
    hide TaskReady;
  }

  /** The loop never finds a task at or below `apply`, even though a checkpoint may be handled in the middle of it. */
  lemma {:induction false} RunQueueKeeps(s: State, fuel: nat, cfg: Config)
    requires Ordered(s) && !s.panic
    ensures var r := RunQueue(s, fuel, cfg); Ordered(r) && Quiet(s, r) && !r.panic
    decreases fuel
  {
    hide Quiet, CheckPointsOrdered, ExecutedInOrder, StartCheckPoint, ApplyNext;
    QuietRefl(s, s.cps);
    if fuel != 0 && s.queue != [] && s.apply + 1 == s.queue[0].Seq {
      ApplyKeeps(s);
      var s1 := ApplyNext(s);
      NextAboveStable(s);
      QuietRefl(s1, s1.cps);
      var s2 := s1;
      if s1.apply % CHECKPOINT_DIV == 0 {
        StartKeeps(s1, s1.apply, cfg);
        s2 := StartCheckPoint(s1, s1.apply, cfg);
      }
      RunQueueKeeps(s2, fuel - 1, cfg);
      QuietTrans(s, s1, s2);
      QuietTrans(s, s2, RunQueue(s2, fuel - 1, cfg));
    }
  }

  lemma NextAboveStable(s: State)
    requires CheckPointsOrdered(s)
    ensures s.apply + 1 > s.lastcp
  {
  }

  /** The entry a commit quorum was found on. */
  ghost predicate Executable(s: State, a: Vote) {
    var id := EntryId(a.View, a.Seq);
    id in s.log && s.log[id].pp.Some? && s.log[id].sendCommit && s.log[id].pp.value.Digest == a.Digest
  }

  lemma InsertReady(s: State, r: State, a: Vote)
    requires QueueOrdered(s) && !Queued(s.queue, a.Seq) && a.Seq > s.apply && r.apply == s.apply && r.queue == InsertTask(s.queue, a)
    requires (forall k :: 0 <= k < |s.queue| ==> TaskReady(r.log, s.queue[k])) && TaskReady(r.log, a)
    ensures QueueOrdered(r)
  {
    hide TaskReady;
    InsertSorted(s.queue, a);
    forall k | 0 <= k < |r.queue|
      ensures r.queue[k].Seq > r.apply && TaskReady(r.log, r.queue[k])
    {
      assert r.queue[k] in r.queue;
      if r.queue[k] in s.queue {
        var i :| 0 <= i < |s.queue| && s.queue[i] == r.queue[k];
      }
    }
  }

  lemma QueueGrows(s: State, a: Vote)
    requires Ordered(s) && Executable(s, a) && a.Seq > s.apply && !Queued(s.queue, a.Seq)
    ensures var id := EntryId(a.View, a.Seq);
            var r := Put(s.(queue := InsertTask(s.queue, a)), id, At(s, id).(sendReply := true));
            Ordered(r) && Quiet(s, r)
  {
    hide Quiet, InsertTask, Queued, Sorted;
    var id := EntryId(a.View, a.Seq);
    var r := Put(s.(queue := InsertTask(s.queue, a)), id, At(s, id).(sendReply := true));
    forall k | 0 <= k < |s.queue|
      ensures TaskReady(r.log, s.queue[k])
    {
      assert TaskReady(s.log, s.queue[k]);
    }
    MarkedQuiet(s, id, InsertTask(s.queue, a));
    InsertReady(s, r, a);
    hide TaskReady, Executable, QueueOrdered;
  }

  /** Marking an entry as answered and changing the queue disturbs nothing else. */
  lemma MarkedQuiet(s: State, id: EntryId, q: seq<Vote>)
    requires id in s.log
    ensures Quiet(s, Put(s.(queue := q), id, At(s, id).(sendReply := true)))
  {
  }

  /** Executing keeps the order, and panics exactly when the number is already waiting in the queue. */
  lemma ExecuteKeeps(s: State, a: Vote, cfg: Config)
    requires Ordered(s) && Executable(s, a) && !s.panic
    ensures var r := Execute(s, a, cfg);
            Ordered(r) && Quiet(s, r) && (r.panic <==> a.Seq > s.apply && Queued(s.queue, a.Seq))
  {
    QuietRefl(s, s.cps);
    if a.Seq > s.apply && !Queued(s.queue, a.Seq) {
      QueueGrows(s, a);
      hide Quiet, Ordered, InsertTask, RunQueue, Queued;
      var id := EntryId(a.View, a.Seq);
      var s1 := Put(s.(queue := InsertTask(s.queue, a)), id, At(s, id).(sendReply := true));
      RunQueueKeeps(s1, |s1.queue|, cfg);
      QuietTrans(s, s1, RunQueue(s1, |s1.queue|, cfg));
    }
  }
}
