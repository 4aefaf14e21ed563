/**
 What the pieces of a step add up to, in every run: a queued task leaves the queue only by being
 answered, an executed one has been answered with its digest, the history after the stable
 checkpoint is what was executed and answered, and a commit executes everything that has become due.
 */
module Execution {
  import opened Collections
  import opened Replica
  import opened ReplicaOrder
  import opened ReplicaVotes
  import opened ReplicaGrowth
  import opened Checkpoints
  import opened Effects
  import opened StepLimits

  // ---------- answers ----------

  ghost predicate ForTask(a: ResponseArgs, t: Vote, id: int) {
    a.View == t.View && a.Seq == t.Seq && a.Auxiliary == t.Digest && a.Rid == id
  }

  /** And it names the request's operation and the client's number for it. */
  ghost predicate AnswersRequest(a: ResponseArgs, t: Vote, req: RequestArgs, id: int) {
    ForTask(a, t, id) && a.Res == req.Op && a.Cid == req.ID
  }

  /** The task has been answered, with its own view, number and digest. */
  ghost predicate AnswerOut(s: State, t: Vote) {
    exists a :: ResponseMessage(a) in s.sent && ForTask(a, t, s.id)
  }

  ghost predicate AnswerKept(s: State, id: EntryId, limit: int) {
    id in s.log && s.log[id].r.Some? ==>
      && id.v <= s.view && id.n <= limit && s.log[id].pp.Some? && ResponseMessage(s.log[id].r.value) in s.sent
      && ForTask(s.log[id].r.value, Vote(id.v, id.n, s.log[id].pp.value.Digest, 0), s.id)
  }

  /** Only entries up to `limit` hold an answer; it is the entry's own, and was sent. */
  ghost predicate AnswersRight(s: State, limit: int) {
    forall id :: id in s.log ==> AnswerKept(s, id, limit)
  }

  /** Every queued task is still queued or has been answered. */
  ghost predicate Serves(s: State, r: State) {
    forall t :: t in s.queue ==> t in r.queue || AnswerOut(r, t)
  }

  lemma AnswerStays(s: State, r: State, t: Vote)
    requires r.id == s.id && s.sent <= r.sent && AnswerOut(s, t)
    ensures AnswerOut(r, t)
  {
    var a :| ResponseMessage(a) in s.sent && ForTask(a, t, s.id);
    SentStays(s.sent, r.sent, ResponseMessage(a));
  }

  lemma ServesTrans(a: State, b: State, c: State)
    requires Serves(a, b) && Serves(b, c) && c.id == b.id && b.sent <= c.sent
    ensures Serves(a, c)
  {
    forall t | t in a.queue && t !in c.queue
      ensures AnswerOut(c, t)
    {
      if t !in b.queue { AnswerStays(b, c, t); }
    }
  }

  /** Answering a task whose number is above every answered entry's. */
  lemma ReplyAnswers(s: State, t: Vote, limit: int)
    requires TaskReady(s.log, t) && AnswersRight(s, limit) && t.Seq > limit && t.View <= s.view
    ensures var r := ReplyTask(s, t);
            && r.id == s.id && AnswersRight(r, t.Seq) && r.queue == s.queue && s.sent <= r.sent && AnswerOut(r, t)
            && exists a :: ResponseMessage(a) in r.sent && AnswersRequest(a, t, s.log[EntryId(t.View, t.Seq)].pp.value.Message, s.id)
  {
    var id := EntryId(t.View, t.Seq);
    var e, r := s.log[id], ReplyTask(s, t);
    assert AnswerKept(s, id, limit);
    var a := ResponseFor(s, t, e.pp.value);
    assert r.sent[|s.sent|] == ResponseMessage(a) && ForTask(a, t, s.id);
    forall x | x in r.log
      ensures AnswerKept(r, x, t.Seq)
    {
      assert AnswerKept(s, x, limit);
    }
  }

  // ---------- draining ----------

  /** The tasks up to the limit, which come first. */
  function Covered(q: seq<Vote>, limit: int): nat {
    if q == [] || q[0].Seq > limit then 0 else 1 + Covered(q[1..], limit)
  }

  lemma {:induction false} CoveredBound(q: seq<Vote>, limit: int)
    requires Sorted(q)
    ensures Covered(q, limit) <= |q| && forall k :: 0 <= k < |q| ==> (k < Covered(q, limit) <==> q[k].Seq <= limit)
  {
    if q != [] && q[0].Seq <= limit {
      CoveredBound(q[1..], limit);
      assert forall k :: 1 <= k < |q| ==> q[k] == q[1..][k - 1];
    } else {
      assert forall k :: 1 <= k < |q| ==> q[0].Seq < q[k].Seq;
    }
  }

  /** Draining answers exactly the tasks up to the limit and leaves the others waiting. */
  lemma {:induction false} DrainAnswers(s: State, q: seq<Vote>, limit: int, low: int)
    requires s.queue == q && Sorted(q) && AnswersRight(s, low)
    requires forall k :: 0 <= k < |q| ==> TaskReady(s.log, q[k]) && q[k].Seq > low && q[k].View <= s.view
    ensures Covered(q, limit) <= |q|
    ensures var r := Drain(s, limit, |q|);
            && r.id == s.id && r.view == s.view && r.state == s.state && r.executed == s.executed && s.sent <= r.sent
            && AnswersRight(r, if low > limit then low else limit)
            && r.queue == q[Covered(q, limit)..] && forall k :: 0 <= k < Covered(q, limit) ==> AnswerOut(r, q[k])
    decreases |q|
  {
    hide ReplyTask, AnswersRight, AnswerOut, SameVotes, ForTask, TaskReady;
    CoveredBound(q, limit);
    if q == [] || q[0].Seq > limit {
      if low <= limit { RightHigher(s, low, limit); }
    } else {
      DrainOne(s);
      var s1 := s.(queue := q[1..]);
      QueueIrrelevant(s, q[1..], low);
      ReplyAnswers(s1, q[0], low);
      var s2 := ReplyTask(s1, q[0]);
      RestAbove(q, low);
      DrainAnswers(s2, q[1..], limit, q[0].Seq);
      var r := Drain(s2, limit, |q| - 1);
      assert Drain(s, limit, |q|) == r;
      forall k | 0 <= k < Covered(q, limit)
        ensures AnswerOut(r, q[k])
      {
        if k == 0 { AnswerStays(s2, r, q[0]); } else { assert q[k] == q[1..][k - 1]; }
      }
    }
  }

  lemma QueueIrrelevant(s: State, q: seq<Vote>, limit: int)
    requires AnswersRight(s, limit)
    ensures AnswersRight(s.(queue := q), limit)
  {
    assert forall id :: id in s.log ==> AnswerKept(s, id, limit) && AnswerKept(s.(queue := q), id, limit);
  }

  lemma RestAbove(q: seq<Vote>, low: int)
    requires q != [] && Sorted(q)
    ensures Sorted(q[1..]) && forall k :: 0 <= k < |q| - 1 ==> q[1..][k].Seq > q[0].Seq
  {
  }

  lemma RightHigher(s: State, low: int, limit: int)
    requires AnswersRight(s, low) && low <= limit
    ensures AnswersRight(s, limit)
  {
    forall id | id in s.log
      ensures AnswerKept(s, id, limit)
    {
      assert AnswerKept(s, id, low);
    }
  }

  // ---------- the history ----------

  /** The executed tasks above `n` that were no null requests. */
  function Later(ex: seq<Vote>, n: int): seq<Vote> {
    if ex == [] then []
    else
      var t := ex[|ex| - 1];
      Later(ex[..|ex| - 1], n) + if t.Seq > n && t.Digest != "" then [t] else []
  }

  /** The record is of this task, with the operation of an answer to it. */
  ghost predicate Recounts(s: State, rec: Record, t: Vote) {
    rec.OpState? && rec.seqVal == t.Seq && exists a :: ResponseMessage(a) in s.sent && ForTask(a, t, s.id) && a.Res == rec.op
  }

  /** The history ends with the records of what was executed above `n`, and what comes before is of numbers up to `n`. */
  ghost predicate Recounted(s: State, L: seq<Vote>, n: int) {
    && |L| <= |s.state|
    && (forall k :: 0 <= k < |L| ==> Recounts(s, s.state[|s.state| - |L| + k], L[k]))
    && (forall k :: 0 <= k < |s.state| - |L| ==> s.state[k].seqVal <= n)
  }

  ghost predicate HistoryTells(s: State) {
    && Recounted(s, Later(s.executed, s.lastcp), s.lastcp)
    && (s.lastcp >= 0 ==> s.state != [] && s.state[0].CheckPointState? && s.state[0].seqVal == s.lastcp)
  }

  lemma {:induction false} LaterTasks(ex: seq<Vote>, n: int)
    ensures forall t :: t in Later(ex, n) <==> t in ex && t.Seq > n && t.Digest != ""
  {
    if ex != [] {
      LaterTasks(ex[..|ex| - 1], n);
      assert ex == ex[..|ex| - 1] + [ex[|ex| - 1]];
    }
  }

  lemma {:induction false} NoneLater(ex: seq<Vote>, m: int)
    requires forall k :: 0 <= k < |ex| ==> ex[k].Seq <= m
    ensures Later(ex, m) == []
  {
    if ex != [] {
      NoneLater(ex[..|ex| - 1], m);
    }
  }

  /** Raising the bound cuts a beginning off. */
  lemma {:induction false} LaterCut(ex: seq<Vote>, n: int, m: int) returns (j: nat)
    requires Sorted(ex) && n <= m
    ensures j <= |Later(ex, n)| && Later(ex, m) == Later(ex, n)[j..]
    ensures forall k :: 0 <= k < j ==> Later(ex, n)[k].Seq <= m
    ensures forall k :: j <= k < |Later(ex, n)| ==> Later(ex, n)[k].Seq > m
  {
    if ex == [] || ex[|ex| - 1].Seq <= m {
      NoneLater(ex, m);
      LaterTasks(ex, n);
      j := |Later(ex, n)|;
      forall k | 0 <= k < j
        ensures Later(ex, n)[k].Seq <= m
      {
        assert Later(ex, n)[k] in ex;
      }
    } else {
      var t, less := ex[|ex| - 1], ex[..|ex| - 1];
      j := LaterCut(less, n, m);
      var more := if t.Digest != "" then [t] else [];
      assert Later(ex, n) == Later(less, n) + more && Later(ex, m) == Later(less, m) + more;
      hide Later;
    }
  }

  /** Removing old records leaves a part at the end that holds everything above `n`. */
  lemma {:induction false} RecordsKeep(st: seq<Record>, n: int, i: nat, p: nat) returns (j: nat)
    requires i <= p <= |st| && (forall k :: 0 <= k < p ==> st[k].seqVal <= n) && forall k :: p <= k < |st| ==> st[k].seqVal > n
    ensures j <= p && RecordsAfter(st, n, i) == st[j..]
    decreases |st| - i
  {
    if i == |st| || st[i].seqVal > n {
      j := 0;
    } else if st[i].seqVal == n {
      j := i + 1;
    } else {
      j := RecordsKeep(st, n, i + 1, p);
    }
  }

  /**
   The records up to the stable checkpoint's are removed if that one is met before any larger number;
   otherwise nothing is.
   */
  lemma {:induction false} RecordsExact(st: seq<Record>, n: int, i: nat, p: nat)
    requires i <= p <= |st| && (forall k :: i <= k < p ==> st[k].seqVal < n) && (p < |st| ==> st[p].seqVal >= n)
    ensures RecordsAfter(st, n, i) == if p < |st| && st[p].seqVal == n then st[p + 1..] else st
    decreases p - i
  {
    if i < p {
      RecordsExact(st, n, i + 1, p);
    }
  }

  lemma RecountsStays(s: State, r: State, rec: Record, t: Vote)
    requires Recounts(s, rec, t) && r.id == s.id && s.sent <= r.sent
    ensures Recounts(r, rec, t)
  {
    var a :| ResponseMessage(a) in s.sent && ForTask(a, t, s.id) && a.Res == rec.op;
    SentStays(s.sent, r.sent, ResponseMessage(a));
  }

  lemma RecountedStays(s: State, r: State, L: seq<Vote>, n: int)
    requires Recounted(s, L, n) && r.id == s.id && s.sent <= r.sent && r.state == s.state
    ensures Recounted(r, L, n)
  {
    forall k | 0 <= k < |L|
      ensures Recounts(r, r.state[|r.state| - |L| + k], L[k])
    {
      RecountsStays(s, r, s.state[|s.state| - |L| + k], L[k]);
    }
  }

  lemma SameNumber(s: State, rec: Record, t: Vote)
    requires Recounts(s, rec, t)
    ensures rec.seqVal == t.Seq
  {
  }

  /** A stable checkpoint drops what it covers and keeps the rest. */
  lemma CutRecounted(s: State, r: State, L: seq<Vote>, j: nat, n: int, m: int, cp: Record)
    requires Recounted(s, L, n) && n <= m && j <= |L| && r.id == s.id && s.sent <= r.sent && cp.seqVal == m
    requires (forall k :: 0 <= k < j ==> L[k].Seq <= m) && forall k :: j <= k < |L| ==> L[k].Seq > m
    requires r.state == [cp] + RecordsAfter(s.state, m, 0)
    ensures Recounted(r, L[j..], m)
  {
    hide Recounts, RecordsAfter;
    var st := s.state;
    var p := |st| - |L| + j;
    forall k | 0 <= k < |st|
      ensures k < p <==> st[k].seqVal <= m
    {
      if k >= |st| - |L| { SameNumber(s, st[k], L[k - (|st| - |L|)]); }
    }
    var i := RecordsKeep(st, m, 0, p);
    assert forall k :: 0 <= k < |r.state| ==> r.state[k] == if k == 0 then cp else st[i + k - 1];
    forall k | 0 <= k < |L| - j
      ensures Recounts(r, r.state[|r.state| - (|L| - j) + k], L[j..][k])
    {
      RecountsStays(s, r, st[p + k], L[j + k]);
    }
  }

  // ---------- every run ----------

  ghost predicate QueueViews(s: State) {
    forall k :: 0 <= k < |s.queue| ==> s.queue[k].View <= s.view
  }

  ghost predicate ExecutedAnswered(s: State) {
    forall k :: 0 <= k < |s.executed| ==> AnswerOut(s, s.executed[k])
  }

  /** What execution keeps in every run. */
  ghost predicate Accounted(s: State) {
    AnswersRight(s, s.apply) && QueueViews(s) && ExecutedAnswered(s) && HistoryTells(s)
  }

  lemma ExecutedStays(s: State, r: State)
    requires ExecutedAnswered(s) && r.id == s.id && s.sent <= r.sent && r.executed == s.executed
    ensures ExecutedAnswered(r)
  {
    forall k | 0 <= k < |r.executed|
      ensures AnswerOut(r, r.executed[k])
    {
      AnswerStays(s, r, s.executed[k]);
    }
  }

  lemma HistoryStays(s: State, r: State)
    requires HistoryTells(s) && r.id == s.id && s.sent <= r.sent && r.executed == s.executed && r.state == s.state && r.lastcp == s.lastcp
    ensures HistoryTells(r)
  {
    hide Recounted;
    RecountedStays(s, r, Later(s.executed, s.lastcp), s.lastcp);
  }

  lemma AsideAnswers(s: State, r: State, limit: int)
    requires AnswersRight(s, limit) && AnswersStay(s, r) && r.id == s.id && s.view <= r.view && s.sent <= r.sent
    ensures AnswersRight(r, limit)
  {
    forall id | id in r.log
      ensures AnswerKept(r, id, limit)
    {
      if r.log[id].r.Some? {
        assert AnswerKept(s, id, limit);
        SentStays(s.sent, r.sent, ResponseMessage(r.log[id].r.value));
      }
    }
  }

  lemma AsideKeeps(s: State, r: State, may: May)
    requires Accounted(s) && Aside(s, r, may)
    ensures Accounted(r) && Serves(s, r)
  {
    AsideAnswers(s, r, s.apply);
    hide AnswersRight, ExecutedAnswered, HistoryTells, AnswerOut, AnswersStay;
    ExecutedStays(s, r);
    HistoryStays(s, r);
  }

  lemma QueuesKeeps(s: State, r: State, a: Vote)
    requires Accounted(s) && Queues(s, r, a)
    ensures Accounted(r) && Serves(s, r)
  {
    InsertSorted(s.queue, a);
    QueuesAnswers(s, r, a);
    hide AnswersRight, ExecutedAnswered, HistoryTells, AnswerOut, Ordered, InsertTask, Queued, Executable, Sorted;
    ExecutedStays(s, r);
    HistoryStays(s, r);
    forall k | 0 <= k < |r.queue|
      ensures r.queue[k].View <= r.view
    {
      assert r.queue[k] in r.queue;
    }
  }

  lemma QueuesAnswers(s: State, r: State, a: Vote)
    requires AnswersRight(s, s.apply) && Queues(s, r, a)
    ensures AnswersRight(r, r.apply)
  {
    hide InsertTask, Ordered;
    forall id | id in r.log
      ensures AnswerKept(r, id, r.apply)
    {
      assert AnswerKept(s, id, s.apply);
    }
  }

  /** Executing the next task appends its record, and its answer goes out. */
  lemma AppliesKeeps(s: State, r: State)
    requires Accounted(s) && Applies(s, r)
    ensures Accounted(r) && Serves(s, r)
  {
    hide TakeNext, ReplyTask, AnswersRight, HistoryTells, TaskReady, AnswerOut, ExecutedAnswered, Quiet, ForTask, ApplyNext,
         QueueOrdered, CheckPointsOrdered, ExecutedInOrder, OnlyHarmless, SameVotes;
    var t, s1 := s.queue[0], TakeNext(s);
    ApplyParts(s);
    TakenRight(s, s1, s.apply);
    ReplyAnswers(s1, t, s.apply);
    ReplyKeeps(s1, t);
    AppliedAnswered(s, r, t);
    AppliedHistory(s, r, t);
    forall x | x in s.queue
      ensures x in r.queue || AnswerOut(r, x)
    {
      var k :| 0 <= k < |s.queue| && s.queue[k] == x;
      if k > 0 { assert r.queue[k - 1] == x; }
    }
  }

  lemma ApplyParts(s: State)
    requires Ordered(s) && s.queue != [] && s.queue[0].Seq == s.apply + 1
    ensures var t, s1 := s.queue[0], TakeNext(s); var id := EntryId(t.View, t.Seq);
            && TaskReady(s.log, t) && TaskReady(s1.log, t) && id in s.log && s.log[id].pp.Some? && s.lastcp < t.Seq
            && s1 == s.(apply := s.apply + 1, queue := s.queue[1..], executed := s.executed + [t], state := s1.state)
            && s1.state == s.state + (if t.Digest != "" then [OpState(t.Seq, s.log[id].pp.value.Message.Op)] else [])
            && ApplyNext(s) == ReplyTask(s1, t)
  {
    assert TaskReady(s.log, s.queue[0]);
    assert s.state + [] == s.state;
  }

  lemma TakenRight(s: State, s1: State, limit: int)
    requires AnswersRight(s, limit) && s1.log == s.log && s1.sent == s.sent && s1.id == s.id && s1.view == s.view
    ensures AnswersRight(s1, limit)
  {
    forall id | id in s1.log
      ensures AnswerKept(s1, id, limit)
    {
      assert AnswerKept(s, id, limit);
    }
  }

  lemma AppliedAnswered(s: State, r: State, t: Vote)
    requires ExecutedAnswered(s) && r.id == s.id && s.sent <= r.sent && r.executed == s.executed + [t] && AnswerOut(r, t)
    ensures ExecutedAnswered(r)
  {
    hide AnswerOut;
    forall k | 0 <= k < |r.executed|
      ensures AnswerOut(r, r.executed[k])
    {
      if k < |s.executed| { AnswerStays(s, r, s.executed[k]); }
    }
  }

  lemma AppliedHistory(s: State, r: State, t: Vote)
    requires HistoryTells(s) && r.id == s.id && s.sent <= r.sent && r.executed == s.executed + [t] && r.lastcp == s.lastcp < t.Seq
    requires var id := EntryId(t.View, t.Seq);
             && id in s.log && s.log[id].pp.Some?
             && r.state == s.state + (if t.Digest != "" then [OpState(t.Seq, s.log[id].pp.value.Message.Op)] else [])
             && exists a :: ResponseMessage(a) in r.sent && ForTask(a, t, s.id) && a.Res == s.log[id].pp.value.Message.Op
    ensures HistoryTells(r)
  {
    var L, op := Later(s.executed, s.lastcp), s.log[EntryId(t.View, t.Seq)].pp.value.Message.Op;
    assert r.executed[..|r.executed| - 1] == s.executed;
    assert Later(r.executed, r.lastcp) == L + if t.Digest != "" then [t] else [];
    hide Later, Recounted, ForTask;
    if t.Digest != "" {
      MoreRecounted(s, r, L, OpState(t.Seq, op), t, s.lastcp);
    } else {
      RecountedStays(s, r, L, s.lastcp);
    }
    assert s.state != [] ==> r.state[0] == s.state[0];
  }

  lemma MoreRecounted(s: State, r: State, L: seq<Vote>, rec: Record, t: Vote, n: int)
    requires Recounted(s, L, n) && r.id == s.id && s.sent <= r.sent && r.state == s.state + [rec] && Recounts(r, rec, t)
    ensures Recounted(r, L + [t], n)
  {
    hide Recounts;
    forall k | 0 <= k < |L| + 1
      ensures Recounts(r, r.state[|s.state| - |L| + k], (L + [t])[k])
    {
      if k < |L| { RecountsStays(s, r, s.state[|s.state| - |L| + k], L[k]); }
    }
  }

  lemma StabilizesKeeps(s: State, r: State, key: int, proof: CheckPointArgs, f: nat, may: May)
    requires Accounted(s) && Stabilizes(s, r, key, proof, f, may)
    ensures Accounted(r) && Serves(s, r)
  {
    StabilizeKeeps(s, key, proof);
    StabilizeAnswers(s, key, proof);
    StabilizedState(s, key, proof);
    hide Stabilize, AnswersRight, ExecutedAnswered, HistoryTells, AnswerOut, Quiet, Ordered, AboutToStabilize, QueueOrdered;
    StabilizedHistory(s, r, key, proof);
    ExecutedStays(s, r);
  }

  /** A stable checkpoint answers every queued task up to its number and leaves the others queued. */
  lemma StabilizeAnswers(s: State, key: int, proof: CheckPointArgs)
    requires AboutToStabilize(s, key) && proof.Seq == key && QueueOrdered(s) && AnswersRight(s, s.apply) && QueueViews(s)
    ensures Covered(s.queue, key) <= |s.queue|
    ensures var r := Stabilize(s, key, proof);
            && AnswersRight(r, r.apply) && r.id == s.id && s.sent <= r.sent && r.executed == s.executed && QueueViews(r) && Serves(s, r)
            && r.queue == s.queue[Covered(s.queue, key)..]
            && forall k :: 0 <= k < |s.queue| && s.queue[k].Seq <= key ==> AnswerOut(r, s.queue[k])
  {
    var t, q := Staged(s, key, proof), s.queue;
    StagedAnswers(s, key, proof);
    CoveredBound(q, key);
    StabilizedShape(s, key, proof);
    StableRecord(s, key, proof);
    var d, r := Drain(t, key, |q|), Stabilize(s, key, proof);
    hide Drain, Stabilize, Staged, AboutToStabilize, Sorted, AnswersRight, AnswerOut, TaskReady;
    DrainAnswers(t, q, key, s.apply);
    CutAnswers(d, r, key, r.apply);
    forall k | 0 <= k < |q|
      ensures q[k] in r.queue || AnswerOut(r, q[k])
      ensures q[k].Seq <= key ==> AnswerOut(r, q[k])
    {
      var c := Covered(q, key);
      if k < c { AnswerStays(d, r, q[k]); } else { assert r.queue[k - c] == q[k]; }
    }
  }

  lemma StagedAnswers(s: State, key: int, proof: CheckPointArgs)
    requires key in s.cps && QueueOrdered(s) && AnswersRight(s, s.apply) && QueueViews(s)
    ensures var t := Staged(s, key, proof);
            && AnswersRight(t, s.apply) && t.queue == s.queue && t.id == s.id && t.sent == s.sent && t.executed == s.executed && t.state == s.state
            && s.view <= t.view
            && forall k :: 0 <= k < |s.queue| ==> TaskReady(t.log, s.queue[k]) && s.queue[k].Seq > s.apply && s.queue[k].View <= t.view
  {
    var t := Staged(s, key, proof);
    forall id | id in t.log
      ensures AnswerKept(t, id, s.apply)
    {
      assert AnswerKept(s, id, s.apply);
    }
  }

  lemma CutAnswers(d: State, r: State, key: int, limit: int)
    requires AnswersRight(d, limit)
    requires r.log == LogFrom(d.log, key) && r.sent == d.sent && r.id == d.id && r.view == d.view
    ensures AnswersRight(r, limit)
  {
    forall id | id in r.log
      ensures AnswerKept(r, id, limit)
    {
      assert AnswerKept(d, id, limit);
    }
  }

  lemma StabilizedHistory(s: State, r: State, key: int, proof: CheckPointArgs)
    requires HistoryTells(s) && ExecutedInOrder(s) && s.lastcp < key == r.lastcp == proof.Seq
    requires r.id == s.id && s.sent <= r.sent && r.executed == s.executed
    requires r.state == [CheckPointState(proof.Seq, proof.Digest)] + RecordsAfter(s.state, key, 0)
    ensures HistoryTells(r)
  {
    var L := Later(s.executed, s.lastcp);
    var j := LaterCut(s.executed, s.lastcp, key);
    hide Later, Recounted, RecordsAfter;
    CutRecounted(s, r, L, j, s.lastcp, key, CheckPointState(proof.Seq, proof.Digest));
  }

  lemma StabilizedState(s: State, key: int, proof: CheckPointArgs)
    requires AboutToStabilize(s, key) && proof.Seq == key
    ensures Stabilize(s, key, proof).state == [CheckPointState(proof.Seq, proof.Digest)] + RecordsAfter(s.state, key, 0)
  {
    DrainLeaves(Staged(s, key, proof), key, |s.queue|);
    hide Drain, RecordsAfter;
  }

  lemma PieceKeeps(s: State, r: State, f: nat, may: May)
    requires Accounted(s) && Piece(s, r, f, may)
    ensures Accounted(r) && Serves(s, r)
  {
    hide Accounted, Serves, Aside, Applies, Queues, Stabilizes;
    if Aside(s, r, may) {
      AsideKeeps(s, r, may);
    } else if may.execute && Applies(s, r) {
      AppliesKeeps(s, r);
    } else if key, proof :| Stabilizes(s, r, key, proof, f, may) {
      StabilizesKeeps(s, r, key, proof, f, may);
    } else {
      var a :| Queues(s, r, a);
      QueuesKeeps(s, r, a);
    }
  }

  lemma {:induction false} PiecesKeep(tr: seq<State>, f: nat, may: May)
    requires Pieces(tr, f, may) && Accounted(tr[0])
    ensures Accounted(tr[|tr| - 1]) && Serves(tr[0], tr[|tr| - 1])
    decreases |tr|
  {
    hide Piece, Accounted, AnswerOut;
    if |tr| > 1 {
      var m := |tr| - 1;
      PiecesKeep(tr[..m], f, may);
      PieceKeeps(tr[m - 1], tr[m], f, may);
      PieceSends(tr[m - 1], tr[m], f, may);
      ServesTrans(tr[0], tr[m - 1], tr[m]);
    }
  }

  /** Every step keeps the account, and no queued task is lost: it stays queued or has been answered. */
  lemma StepAccounted(s: State, i: Input, cfg: Config)
    requires Invariant(s, cfg.f) && cfg.n > 0 && Accounted(s)
    ensures Accounted(Handle(s, i, cfg)) && Serves(s, Handle(s, i, cfg))
  {
    hide Invariant, Handle, Piece, Accounted, Serves;
    StepLeads(s, i, cfg);
    var tr :| Pieces(tr, cfg.f, MayOf(i)) && tr[0] == s && tr[|tr| - 1] == Handle(s, i, cfg);
    PiecesKeep(tr, cfg.f, MayOf(i));
  }

  /**
   In every run: each executed task has been answered with its view, number and digest, and the
   history ends with exactly the operations answered for the tasks executed above the stable
   checkpoint, in order, null requests left out.
   */
  lemma {:induction false} RunAccounted(id: int, initSeq: nat, inputs: seq<Input>, cfg: Config)
    requires cfg.n > 0
    ensures Accounted(Run(Initial(id, initSeq), inputs, cfg))
  {
    hide Invariant, Handle, Accounted;
    if inputs == [] {
      StartAccounted(id, initSeq);
    } else {
      var m := |inputs| - 1;
      RunAccounted(id, initSeq, inputs[..m], cfg);
      RunKeeps(id, initSeq, inputs[..m], cfg);
      StepAccounted(Run(Initial(id, initSeq), inputs[..m], cfg), inputs[m], cfg);
    }
  }

  lemma StartAccounted(id: int, initSeq: nat)
    ensures Accounted(Initial(id, initSeq))
  {
  }

  // ---------- everything due is executed ----------

  /** How many tasks at the head of the queue carry on from `n` without a gap. */
  function Due(q: seq<Vote>, n: int): nat {
    if q == [] || q[0].Seq != n + 1 then 0 else 1 + Due(q[1..], n + 1)
  }

  ghost predicate NothingDue(s: State) {
    s.queue == [] || s.queue[0].Seq > s.apply + 1
  }

  lemma {:induction false} DueRuns(q: seq<Vote>, n: int)
    requires Sorted(q) && forall k :: 0 <= k < |q| ==> q[k].Seq > n
    ensures var d := Due(q, n);
            && d <= |q| && (forall k :: 0 <= k < d ==> q[k].Seq == n + 1 + k) && (d < |q| ==> q[d].Seq > n + d + 1)
  {
    if q != [] && q[0].Seq == n + 1 {
      DueRuns(q[1..], n + 1);
      assert forall k :: 1 <= k < |q| ==> q[k] == q[1..][k - 1];
    }
  }

  /** Opening a checkpoint at the number just executed leaves the queue and the executions alone. */
  lemma StartLeaves(s: State, n: int, cfg: Config)
    requires Ordered(s) && n > s.lastcp && s.apply == n
    ensures var r := StartCheckPoint(s, n, cfg); r.queue == s.queue && r.apply == s.apply && r.executed == s.executed
  {
    hide OnCheckPoint, QueueOrdered, ExecutedInOrder, Superseded;
    if !Superseded(s.cps, n) {
      OpenOwnKeeps(s, n, cfg);
      var s1 := OpenOwn(s, n, cfg);
      var a := CheckPointArgs(n, s1.cps[n].Digest, s1.id, s1.view);
      var s2 := Send(s1, CheckPointMessage(a));
      AnnouncementQuiet(s, s2, CheckPointMessage(a));
      SendKeepsCheckPoints(s1, CheckPointMessage(a));
      AnnouncedLeaves(s2, a, cfg);
    }
  }

  lemma AnnouncedLeaves(s: State, a: CheckPointArgs, cfg: Config)
    requires Ordered(s) && s.apply == a.Seq
    ensures var r := OnCheckPoint(s, a, cfg); r.queue == s.queue && r.apply == s.apply && r.executed == s.executed
  {
    hide FirstAgreed, Superseded;
    if a.Seq % CHECKPOINT_DIV == 0 && !Superseded(s.cps, a.Seq) {
      OpenCheckPoint(s, a.Seq, cfg);
      var s2 := Announce(WithCheckPoint(s, a.Seq, cfg), a);
      var agreed := FirstAgreed(s2.cps[a.Seq].Proof, cfg.f, 0);
      if agreed.Some? {
        NothingDrained(s2, a.Seq, agreed.value);
        hide Stabilize;
      }
    }
  }

  lemma NothingDrained(s: State, n: int, proof: CheckPointArgs)
    requires QueueOrdered(s) && s.apply == n && n in s.cps && s.cps[n].Seq == n
    ensures var r := Stabilize(s, n, proof); r.queue == s.queue && r.executed == s.executed && (proof.Seq == n ==> r.apply == s.apply)
  {
    var t := Staged(s, n, proof);
    assert Drain(t, n, |t.queue|) == t;
  }

  /** One round of the loop. */
  lemma OneRound(s: State, fuel: nat, cfg: Config) returns (t: State)
    requires Ordered(s) && !s.panic && s.queue != [] && s.apply + 1 == s.queue[0].Seq && fuel > 0
    ensures Ordered(t) && !t.panic && t.queue == s.queue[1..] && t.apply == s.apply + 1 && t.executed == s.executed + [s.queue[0]]
    ensures RunQueue(s, fuel, cfg) == RunQueue(t, fuel - 1, cfg)
  {
    hide Quiet, QueueOrdered, CheckPointsOrdered, ExecutedInOrder, StartCheckPoint, ApplyNext;
    ApplyKeeps(s);
    StillAbove(s);
    AppliedQueue(s);
    t := ApplyNext(s);
    if t.apply % CHECKPOINT_DIV == 0 {
      StartKeeps(t, t.apply, cfg);
      StartLeaves(t, t.apply, cfg);
      t := StartCheckPoint(t, t.apply, cfg);
    }
  }

  lemma StillAbove(s: State)
    requires Ordered(s)
    ensures s.apply + 1 > s.lastcp
  {
  }

  /** `r` has executed what was due in `s`, in order, and nothing else; nothing is due any more. */
  ghost predicate RanDue(s: State, r: State) {
    var d := Due(s.queue, s.apply);
    d <= |s.queue| && !r.panic && r.queue == s.queue[d..] && r.apply == s.apply + d && r.executed == s.executed + s.queue[..d] && NothingDue(r)
  }

  lemma RanNone(s: State)
    requires QueueOrdered(s) && !s.panic && (s.queue == [] || s.apply + 1 != s.queue[0].Seq)
    ensures RanDue(s, s)
  {
    assert s.executed + s.queue[..0] == s.executed;
  }

  lemma RanOneMore(s: State, t: State, r: State)
    requires s.queue != [] && s.apply + 1 == s.queue[0].Seq && RanDue(t, r)
    requires t.queue == s.queue[1..] && t.apply == s.apply + 1 && t.executed == s.executed + [s.queue[0]]
    ensures RanDue(s, r)
  {
    var q, d := s.queue, Due(t.queue, t.apply);
    assert Due(q, s.apply) == d + 1;
    hide Due;
    assert q[1..][d..] == q[d + 1..] && (s.executed + [q[0]]) + q[1..][..d] == s.executed + q[..d + 1];
  }

  /** The loop executes, in order, every task that carries on from the last number without a gap, and no other. */
  lemma {:induction false} RunQueueExact(s: State, fuel: nat, cfg: Config)
    requires Ordered(s) && !s.panic && fuel >= |s.queue|
    ensures RanDue(s, RunQueue(s, fuel, cfg))
    decreases fuel
  {
    hide CheckPointsOrdered, ExecutedInOrder, StartCheckPoint, ApplyNext, TaskReady, RanDue;
    if s.queue != [] && s.apply + 1 == s.queue[0].Seq {
      hide QueueOrdered, RunQueue;
      var t := OneRound(s, fuel, cfg);
      RunQueueExact(t, fuel - 1, cfg);
      RanOneMore(s, t, RunQueue(s, fuel, cfg));
    } else {
      RanNone(s);
    }
  }

  lemma AppliedQueue(s: State)
    requires Ordered(s) && s.queue != []
    ensures ApplyNext(s).queue == s.queue[1..]
  {
    assert TaskReady(s.log, s.queue[0]);
    TakeShape(s);
    hide TakeNext;
    ReplyKeeps(TakeNext(s), s.queue[0]);
  }

  /** What a commit quorum on `a` makes due, with the queue it joins. */
  ghost function Joined(s: State, a: Vote): State {
    s.(queue := InsertTask(s.queue, a))
  }

  /** A commit quorum executes everything that has become due with it, and leaves nothing due behind. */
  lemma ExecuteExact(s: State, a: Vote, cfg: Config)
    requires Ordered(s) && Executable(s, a) && !s.panic && a.Seq > s.apply && !Queued(s.queue, a.Seq)
    ensures RanDue(Joined(s, a), Execute(s, a, cfg))
  {
    QueueGrows(s, a);
    hide Ordered, InsertTask, Quiet, RunQueue;
    var id := EntryId(a.View, a.Seq);
    RunQueueExact(Put(s.(queue := InsertTask(s.queue, a)), id, At(s, id).(sendReply := true)), |InsertTask(s.queue, a)|, cfg);
  }

  /** The commit completes a quorum on an entry not executed yet, for a number not reached yet and not queued. */
  ghost predicate MakesDue(s: State, a: Vote, f: nat) {
    var e := At(s, EntryId(a.View, a.Seq));
    && !s.changing && InWindow(s, a.View, a.Seq) && e.pp.Some? && e.pp.value.Digest == a.Digest && e.sendCommit && !e.sendReply
    && Committed(e.(c := e.c + [a]), f) && a.Seq > s.apply && !Queued(s.queue, a.Seq)
  }

  /**
   A commit step, in any state of any run: if it completes a quorum it queues the task and executes
   all that is then due; otherwise it executes nothing and leaves the queue alone.
   */
  lemma CommitExact(s: State, a: Vote, cfg: Config)
    requires Invariant(s, cfg.f) && !s.panic
    ensures var r := OnCommit(s, a, cfg);
            if MakesDue(s, a, cfg.f) then RanDue(Joined(s, a), r)
            else r.queue == s.queue && r.apply == s.apply && r.executed == s.executed
  {
    hide Execute, Committed, Invariant, RanDue;
    var s1, id := StopTimer(s), EntryId(a.View, a.Seq);
    var e := At(s1, id);
    StopKeeps(s, cfg.f);
    ConfirmedKeeps(s1, a, cfg.f);
    TouchKeeps(s1.(confirmed := s1.confirmed + {a}), id, e.(c := e.c + [a]), cfg.f);
    var s2 := Put(s1.(confirmed := s1.confirmed + {a}), id, e.(c := e.c + [a]));
    if MakesDue(s, a, cfg.f) {
      InvariantOrdered(s2, cfg.f);
      ExecuteExact(s2, a, cfg);
      SameDue(s, s2, a, Execute(s2, a, cfg));
    } else if a.Seq <= s.apply || Queued(s.queue, a.Seq) {
      NothingToExecute(s2, a, cfg);
    }
  }

  lemma SameDue(s: State, s2: State, a: Vote, r: State)
    requires s2.queue == s.queue && s2.apply == s.apply && s2.executed == s.executed && RanDue(Joined(s2, a), r)
    ensures RanDue(Joined(s, a), r)
  {
  }

  lemma NothingToExecute(s: State, a: Vote, cfg: Config)
    requires a.Seq <= s.apply || Queued(s.queue, a.Seq)
    ensures var r := Execute(s, a, cfg); r.queue == s.queue && r.apply == s.apply && r.executed == s.executed
  {
  }

  lemma PieceWaits(s: State, r: State, f: nat, may: May)
    requires Piece(s, r, f, may) && !may.execute
    ensures r.executed == s.executed && (r.lastcp == s.lastcp ==> r.queue == s.queue && r.apply == s.apply)
  {
    if key, proof :| !Aside(s, r, may) && Stabilizes(s, r, key, proof, f, may) {
      StabilizeKeeps(s, key, proof);
      DrainLeaves(Staged(s, key, proof), key, |s.queue|);
      hide Drain;
    }
  }

  lemma {:induction false} PiecesWait(tr: seq<State>, f: nat, may: May)
    requires Pieces(tr, f, may) && !may.execute
    ensures var s, r := tr[0], tr[|tr| - 1]; r.executed == s.executed && (r.lastcp == s.lastcp ==> r.queue == s.queue && r.apply == s.apply)
    decreases |tr|
  {
    hide Piece;
    if |tr| > 1 {
      var m := |tr| - 1;
      PiecesWait(tr[..m], f, may);
      PiecesSend(tr[..m], f, may);
      PieceWaits(tr[m - 1], tr[m], f, may);
      PieceSends(tr[m - 1], tr[m], f, may);
    }
  }

  /** Nothing but a commit message executes anything, and what does not stabilise a checkpoint leaves the queue alone. */
  lemma OthersExecuteNothing(s: State, i: Input, cfg: Config)
    requires Invariant(s, cfg.f) && cfg.n > 0 && !MayOf(i).execute
    ensures var r := Handle(s, i, cfg); r.executed == s.executed && (r.lastcp == s.lastcp ==> r.queue == s.queue && r.apply == s.apply)
  {
    hide Invariant, Handle, Piece;
    StepLeads(s, i, cfg);
    var tr :| Pieces(tr, cfg.f, MayOf(i)) && tr[0] == s && tr[|tr| - 1] == Handle(s, i, cfg);
    PiecesWait(tr, cfg.f, MayOf(i));
  }

  /** As long as no checkpoint becomes stable, no step of any run leaves a task waiting that is due. */
  lemma NothingDueStays(s: State, i: Input, cfg: Config)
    requires Invariant(s, cfg.f) && cfg.n > 0 && !s.panic && NothingDue(s)
    ensures var r := Handle(s, i, cfg); NothingDue(r) || r.lastcp > s.lastcp
  {
    if i.Deliver? && i.msg.CommitMessage? {
      CommitExact(s, i.msg.commit, cfg);
      hide OnCommit, Invariant, MakesDue;
    } else {
      OthersExecuteNothing(s, i, cfg);
      StepGrows(s, i, cfg);
      hide Handle, Invariant;
    }
  }

  /** A checkpoint that becomes stable on an announcement answers the queued tasks it covers and leaves the others queued. */
  lemma CheckPointQueue(s: State, a: CheckPointArgs, cfg: Config)
    requires Ordered(s) && AnswersRight(s, s.apply) && QueueViews(s) && AgreedNow(s, a, cfg.f)
    ensures Covered(s.queue, a.Seq) <= |s.queue|
    ensures var r := OnCheckPoint(s, a, cfg);
            && r.queue == s.queue[Covered(s.queue, a.Seq)..]
            && forall k :: 0 <= k < |s.queue| && s.queue[k].Seq <= a.Seq ==> AnswerOut(r, s.queue[k])
  {
    hide Settle, Superseded, WithDigest, WithView, Stabilize, AnswerOut;
    OpenCheckPoint(s, a.Seq, cfg);
    var s1 := WithCheckPoint(s, a.Seq, cfg);
    AnnounceKeeps(s1, a);
    var s2 := Announce(s1, a);
    CpsIrrelevant(s, s2.cps);
    assert s2.cps[a.Seq].Proof == Announced(s, a);
    var k :| FirstAt(Announced(s, a), k, cfg.f);
    SettleExact(s2, a.Seq, cfg);
    TakenRight(s, s2, s.apply);
    StabilizeAnswers(s2, a.Seq, Announced(s, a)[k]);
  }
}
