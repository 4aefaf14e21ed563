/**
 A task can stay behind although it is due: a checkpoint that becomes stable moves the last executed
 number up to a queued task, and nothing executes it until another commit completes a quorum.
 */
module Stalls {
  import opened Collections
  import opened Replica
  import opened ReplicaOrder
  import opened ReplicaVotes
  import opened Checkpoints
  import opened Progress
  import opened Panics
  import opened Execution

  /** The queue after a checkpoint has been announced often enough. */
  lemma AnnouncedQueue(s: State, a: CheckPointArgs, cfg: Config)
    requires cfg.n > 0 && Invariant(s, cfg.f) && Accounted(s) && !s.panic && Recorded(s, a) && a.Seq !in s.cps && a.Seq > s.apply
    ensures Covered(s.queue, a.Seq) <= |s.queue|
    ensures var r := Run(s, Repeated(a, 2 * cfg.f + 1), cfg); r.queue == s.queue[Covered(s.queue, a.Seq)..] && r.apply == a.Seq
  {
    hide OnCheckPoint, Agreed, Recorded, Votes, Announced, AnswersRight, ExecutedAnswered, HistoryTells, CheckPointsOrdered, ExecutedInOrder;
    var f := cfg.f;
    RepeatedAnnouncement(s, a, cfg);
    CopiesPile(s, a, 2 * f, cfg);
    assert Repeated(a, 2 * f + 1)[..2 * f] == Repeated(a, 2 * f);
    var t := Run(s, Repeated(a, 2 * f), cfg);
    assert Run(s, Repeated(a, 2 * f + 1), cfg) == OnCheckPoint(t, a, cfg);
    hide Run;
    CopiesNow(t, a, 2 * f, f);
    TakenRight(s, t, s.apply);
    CheckPointQueue(t, a, cfg);
  }

  /** Number 101 is committed while 100 is missing; the checkpoint at 100 becomes stable; 101 is due and stays queued. */
  lemma CheckPointStalls(rid: int, d: string, req: RequestArgs, a: CheckPointArgs, cfg: Config)
    requires cfg.n > 0 && a.Seq == CHECKPOINT_DIV
    ensures var n, xs := CHECKPOINT_DIV + 1, Range(2 * cfg.f + 1);
            var first := [Deliver(PrePrepareMessage(PrePrepareArgs(0, n, d, req)), ACCEPT)] + Prepares(EntryId(0, n), d, xs) + Commits(EntryId(0, n), d, xs);
            !NothingDue(Run(Initial(rid, CHECKPOINT_DIV), first + Repeated(a, 2 * cfg.f + 1), cfg))
  {
    hide Run, Invariant, Prepares, Commits, Accounted, Initial, FirstView, Covered;
    var n, xs := CHECKPOINT_DIV + 1, Range(2 * cfg.f + 1);
    var pp := PrePrepareArgs(0, n, d, req);
    var s := QueuedInFirstView(rid, CHECKPOINT_DIV, pp, cfg);
    var first := [Deliver(PrePrepareMessage(pp), ACCEPT)] + Prepares(EntryId(0, n), d, xs) + Commits(EntryId(0, n), d, xs);
    assert s == Run(Initial(rid, CHECKPOINT_DIV), first, cfg);
    RunAccounted(rid, CHECKPOINT_DIV, first, cfg);
    RunConcat(Initial(rid, CHECKPOINT_DIV), first, Repeated(a, 2 * cfg.f + 1), cfg);
    AheadOfQueue(s, a, n, cfg);
    AnnouncedQueue(s, a, cfg);
    QueueSorted(s, cfg.f);
    FirstLeft(s.queue, n, a.Seq);
  }

  /** In the first view with the number queued, nothing has been announced for the one before it. */
  lemma AheadOfQueue(s: State, a: CheckPointArgs, n: int, cfg: Config)
    requires FirstView(s, CHECKPOINT_DIV, EntryId(0, n)) && a.Seq == CHECKPOINT_DIV == n - 1
    ensures !s.panic && Recorded(s, a) && a.Seq !in s.cps && a.Seq > s.apply
  {
  }

  /** What is left of the queue begins right after the checkpoint. */
  lemma FirstLeft(q: seq<Vote>, n: int, limit: int)
    requires Sorted(q) && Queued(q, n) && n == limit + 1
    ensures Covered(q, limit) < |q| && q[Covered(q, limit)].Seq == n
  {
    CoveredBound(q, limit);
    var k :| 0 <= k < |q| && q[k].Seq == n;
    var c := Covered(q, limit);
    hide Covered;
    assert k >= c && q[c].Seq > limit;
  }

  lemma QueueSorted(s: State, f: nat)
    requires Invariant(s, f)
    ensures Sorted(s.queue)
  {
  }
}
