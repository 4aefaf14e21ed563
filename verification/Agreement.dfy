/**
 All replicas together.  Up to f of them may send anything; votes cannot be forged, because the
 sender of a vote is authenticated.  Messages may be lost, repeated, delayed and reordered.
 */
module Agreement {
  import opened Collections
  import opened Replica
  import opened ReplicaOrder
  import opened ReplicaVotes
  import opened ReplicaGrowth
  import opened ReplicaReplies

  /** `byz` are the faulty replicas, whose own states mean nothing. */
  datatype System = System(cfg: Config, byz: set<int>, replicas: seq<State>)

  ghost predicate Honest(sys: System, i: int) {
    0 <= i < |sys.replicas| && i !in sys.byz
  }

  /** A prepare is authentic if its sender is faulty or has really sent it. */
  ghost predicate Authentic(sys: System, a: Vote) {
    0 <= a.Rid < |sys.replicas| && (a.Rid in sys.byz || PrepareMessage(a) in sys.replicas[a.Rid].sent)
  }

  ghost predicate AuthenticCommit(sys: System, a: Vote) {
    0 <= a.Rid < |sys.replicas| && (a.Rid in sys.byz || CommitMessage(a) in sys.replicas[a.Rid].sent)
  }

  ghost predicate Permitted(sys: System, i: Input) {
    && (i.Deliver? && i.msg.PrepareMessage? ==> Authentic(sys, i.msg.prepare))
    && (i.Deliver? && i.msg.CommitMessage? ==> AuthenticCommit(sys, i.msg.commit))
  }

  /** Honest replica `r` takes one step; the auxiliary answers and everything but votes are arbitrary. */
  ghost predicate Next(before: System, after: System, r: int, i: Input)
    requires before.cfg.n > 0
  {
    && Honest(before, r) && Permitted(before, i)
    && after == before.(replicas := before.replicas[r := Handle(before.replicas[r], i, before.cfg)])
  }

  ghost predicate Start(sys: System, initSeq: nat) {
    && |sys.replicas| == sys.cfg.n > 0
    && forall r :: 0 <= r < sys.cfg.n ==> sys.replicas[r] == Initial(r, initSeq)
  }

  datatype Event = Event(r: int, i: Input)

  /** The systems a run goes through. */
  ghost predicate IsRun(systems: seq<System>, events: seq<Event>, initSeq: nat) {
    && |systems| == |events| + 1 && Start(systems[0], initSeq)
    && forall k :: 0 <= k < |events| ==> systems[k].cfg.n > 0 && Next(systems[k], systems[k + 1], events[k].r, events[k].i)
  }

  // ---------- the system invariant ----------

  ghost predicate ReplicaSound(sys: System, r: int)
    requires 0 <= r < |sys.replicas|
  {
    && sys.replicas[r].id == r && Invariant(sys.replicas[r], sys.cfg.f) && Told(sys.replicas[r], sys.cfg.f)
    && (forall a :: a in sys.replicas[r].heard ==> Authentic(sys, a))
    && (forall a :: a in sys.replicas[r].confirmed ==> AuthenticCommit(sys, a))
  }

  ghost predicate Sound(sys: System) {
    && |sys.replicas| == sys.cfg.n > 0
    && forall r :: Honest(sys, r) ==> ReplicaSound(sys, r)
  }

  lemma StartSound(sys: System, initSeq: nat)
    requires Start(sys, initSeq)
    ensures Sound(sys)
  {
    forall r | Honest(sys, r)
      ensures ReplicaSound(sys, r)
    {
      InitialInvariant(r, initSeq, sys.cfg.f);
    }
  }

  lemma StepSound(before: System, after: System, r: int, i: Input)
    requires Sound(before) && Next(before, after, r, i)
    ensures Sound(after)
  {
    hide Invariant, Handle, Told;
    var s, t := before.replicas[r], Handle(before.replicas[r], i, before.cfg);
    assert ReplicaSound(before, r);
    StepKeeps(s, i, before.cfg);
    StepGrows(s, i, before.cfg);
    StepTold(s, i, before.cfg, d => d, before.cfg.f);
    forall a | Authentic(before, a)
      ensures Authentic(after, a)
    {
      SentStays(s.sent, t.sent, PrepareMessage(a));
    }
    forall a | AuthenticCommit(before, a)
      ensures AuthenticCommit(after, a)
    {
      SentStays(s.sent, t.sent, CommitMessage(a));
    }
    forall a | a in t.heard
      ensures Authentic(after, a)
    {
      if a !in s.heard && a !in Given(i).prepares {
        OwnVotes(t, a, before.cfg.f);
      }
    }
    forall a | a in t.confirmed
      ensures AuthenticCommit(after, a)
    {
      if a !in s.confirmed && a !in Given(i).commits {
        OwnVotes(t, a, before.cfg.f);
      }
    }
    forall x | Honest(after, x)
      ensures ReplicaSound(after, x)
    {
      if x != r { assert ReplicaSound(before, x); }
    }
  }

  lemma OwnVotes(s: State, a: Vote, f: nat)
    requires Invariant(s, f)
    ensures PrepareMessage(a) in s.sent || CommitMessage(a) in s.sent ==> a.Rid == s.id
  {
    assert PrepareMessage(a) in s.sent ==> PrepareOut(s, a);
  }

  lemma {:induction false} RunSound(systems: seq<System>, events: seq<Event>, initSeq: nat)
    requires IsRun(systems, events, initSeq)
    ensures Sound(systems[|events|])
  {
    hide Sound, Next, Start;
    if events == [] {
      StartSound(systems[0], initSeq);
    } else {
      var n := |events| - 1;
      RunSound(systems[..n + 1], events[..n], initSeq);
      StepSound(systems[n], systems[n + 1], events[n].r, events[n].i);
    }
  }

  // ---------- quorums ----------

  lemma SetUnion(a: set<int>, b: set<int>)
    ensures |a + b| + |a * b| == |a| + |b|
  {
    assert a + b == (a - b) + b;
    assert a == (a - b) + (a * b);
  }

  ghost function Ids(n: nat): (r: set<int>)
    ensures |r| == n && forall i :: i in r <==> 0 <= i < n
  {
    if n == 0 then {} else Ids(n - 1) + {n - 1}
  }

  /** Two quorums of more than 2f among n replicas have at least 4f+2-n members in common. */
  lemma Overlap(a: set<int>, b: set<int>, n: nat, f: nat)
    requires (forall i :: i in a ==> 0 <= i < n) && (forall i :: i in b ==> 0 <= i < n) && |a| > 2 * f && |b| > 2 * f
    ensures |a * b| >= 4 * f + 2 - n
  {
    SetUnion(a, b);
    SubsetSize(a + b, Ids(n));
  }

  lemma SomeOutside(q: set<int>, bad: set<int>) returns (r: int)
    requires |q| > |bad|
    ensures r in q && r !in bad
  {
    if forall i :: i in q ==> i in bad {
      SubsetSize(q, bad);
    }
    r :| r in q && r !in bad;
  }

  /** With n <= 3f+1 and at most f faulty replicas, two quorums share an honest member. */
  lemma CommonHonest(a: set<int>, b: set<int>, bad: set<int>, n: nat, f: nat) returns (r: int)
    requires (forall i :: i in a ==> 0 <= i < n) && (forall i :: i in b ==> 0 <= i < n) && |a| > 2 * f && |b| > 2 * f
    requires n <= 3 * f + 1 && |bad| <= f
    ensures r in a && r in b && r !in bad
  {
    Overlap(a, b, n, f);
    r := SomeOutside(a * b, bad);
  }

  // ---------- agreement within a view ----------

  lemma BackedByAll(sys: System, r: int, v: int, n: int, d: string) returns (q: set<int>)
    requires Sound(sys) && Honest(sys, r) && Backed(sys.replicas[r].heard, v, n, d, sys.cfg.f)
    ensures |q| > 2 * sys.cfg.f
    ensures forall x :: x in q ==> 0 <= x < sys.cfg.n && (Honest(sys, x) ==> PrepareMessage(Vote(v, n, d, x)) in sys.replicas[x].sent)
  {
    assert ReplicaSound(sys, r);
    q := Supporters(sys.replicas[r].heard, v, n, d);
    forall x | x in q
      ensures 0 <= x < sys.cfg.n && (Honest(sys, x) ==> PrepareMessage(Vote(v, n, d, x)) in sys.replicas[x].sent)
    {
      var a :| a in sys.replicas[r].heard && a.View == v && a.Seq == n && a.Digest == d && a.Rid == x;
      assert a == Vote(v, n, d, x);
    }
  }

  /** Two quorum-backed digests of the same slot are equal. */
  lemma BackedAgree(sys: System, r1: int, r2: int, v: int, n: int, d1: string, d2: string)
    requires Sound(sys) && sys.cfg.n <= 3 * sys.cfg.f + 1 && |sys.byz| <= sys.cfg.f
    requires Honest(sys, r1) && Honest(sys, r2)
    requires Backed(sys.replicas[r1].heard, v, n, d1, sys.cfg.f) && Backed(sys.replicas[r2].heard, v, n, d2, sys.cfg.f)
    ensures d1 == d2
  {
    var q1 := BackedByAll(sys, r1, v, n, d1);
    var q2 := BackedByAll(sys, r2, v, n, d2);
    var x := CommonHonest(q1, q2, sys.byz, sys.cfg.n, sys.cfg.f);
    OneDigest(sys, x, v, n, d1, d2);
  }

  lemma OneDigest(sys: System, x: int, v: int, n: int, d1: string, d2: string)
    requires Sound(sys) && Honest(sys, x)
    requires PrepareMessage(Vote(v, n, d1, x)) in sys.replicas[x].sent && PrepareMessage(Vote(v, n, d2, x)) in sys.replicas[x].sent
    ensures d1 == d2
  {
    assert ReplicaSound(sys, x);
    assert PrepareOut(sys.replicas[x], Vote(v, n, d1, x)) && PrepareOut(sys.replicas[x], Vote(v, n, d2, x));
  }

  /**
   In-view agreement, over every run with any number of view changes and garbage collections: two
   honest replicas that sent a commit for the same view and number sent the same digest.
   */
  lemma CommitsAgree(systems: seq<System>, events: seq<Event>, initSeq: nat, a: Vote, b: Vote)
    requires IsRun(systems, events, initSeq)
    requires var sys := systems[|events|];
             && sys.cfg.n <= 3 * sys.cfg.f + 1 && |sys.byz| <= sys.cfg.f
             && Honest(sys, a.Rid) && CommitMessage(a) in sys.replicas[a.Rid].sent
             && Honest(sys, b.Rid) && CommitMessage(b) in sys.replicas[b.Rid].sent
    requires a.View == b.View && a.Seq == b.Seq
    ensures a.Digest == b.Digest
  {
    var sys := systems[|events|];
    RunSound(systems, events, initSeq);
    assert ReplicaSound(sys, a.Rid) && ReplicaSound(sys, b.Rid);
    BackedAgree(sys, a.Rid, b.Rid, a.View, a.Seq, a.Digest, b.Digest);
  }

  /** The same for entries: whoever has set `sendCommit` for a slot holds the same digest, whether or not it executed it. */
  lemma CommittedEntriesAgree(systems: seq<System>, events: seq<Event>, initSeq: nat, r1: int, r2: int, id: EntryId)
    requires IsRun(systems, events, initSeq)
    requires var sys := systems[|events|];
             && sys.cfg.n <= 3 * sys.cfg.f + 1 && |sys.byz| <= sys.cfg.f
             && Honest(sys, r1) && id in sys.replicas[r1].log && sys.replicas[r1].log[id].sendCommit
             && Honest(sys, r2) && id in sys.replicas[r2].log && sys.replicas[r2].log[id].sendCommit
    ensures var sys := systems[|events|];
            && sys.replicas[r1].log[id].pp.Some? && sys.replicas[r2].log[id].pp.Some?
            && sys.replicas[r1].log[id].pp.value.Digest == sys.replicas[r2].log[id].pp.value.Digest
  {
    var sys := systems[|events|];
    RunSound(systems, events, initSeq);
    assert ReplicaSound(sys, r1) && ReplicaSound(sys, r2);
    assert EntryRecorded(sys.replicas[r1], id, sys.replicas[r1].log[id]);
    assert EntryRecorded(sys.replicas[r2], id, sys.replicas[r2].log[id]);
    CommitsAgree(systems, events, initSeq, Vote(id.v, id.n, sys.replicas[r1].log[id].pp.value.Digest, r1),
                 Vote(id.v, id.n, sys.replicas[r2].log[id].pp.value.Digest, r2));
  }

  /** And for executions: nobody executes another digest under the same view and number. */
  lemma ExecutionsAgree(systems: seq<System>, events: seq<Event>, initSeq: nat, r1: int, r2: int, t1: Vote, t2: Vote)
    requires IsRun(systems, events, initSeq)
    requires var sys := systems[|events|];
             && sys.cfg.n <= 3 * sys.cfg.f + 1 && |sys.byz| <= sys.cfg.f
             && Honest(sys, r1) && t1 in sys.replicas[r1].executed && Honest(sys, r2) && t2 in sys.replicas[r2].executed
    requires t1.View == t2.View && t1.Seq == t2.Seq
    ensures t1.Digest == t2.Digest
  {
    var sys := systems[|events|];
    RunSound(systems, events, initSeq);
    assert ReplicaSound(sys, r1) && ReplicaSound(sys, r2);
    var k1 :| 0 <= k1 < |sys.replicas[r1].executed| && sys.replicas[r1].executed[k1] == t1;
    var k2 :| 0 <= k2 < |sys.replicas[r2].executed| && sys.replicas[r2].executed[k2] == t2;
    CommitsAgree(systems, events, initSeq, Vote(t1.View, t1.Seq, t1.Digest, r1), Vote(t2.View, t2.Seq, t2.Digest, r2));
  }

  // ---------- nonces ----------

  /** Digests determine operations throughout the run, and the empty digest of a null request stands for none. */
  ghost predicate AllMeaningful(events: seq<Event>, opOf: string -> string) {
    opOf("") == "" && forall k :: 0 <= k < |events| ==> Meaningful(events[k].i, opOf)
  }

  ghost predicate OpsSound(sys: System, opOf: string -> string) {
    forall r :: Honest(sys, r) ==> OpsKnown(sys.replicas[r], opOf)
  }

  lemma StepOps(before: System, after: System, e: Event, opOf: string -> string)
    requires Sound(before) && Next(before, after, e.r, e.i) && Meaningful(e.i, opOf) && opOf("") == "" && OpsSound(before, opOf)
    ensures OpsSound(after, opOf)
  {
    hide Handle, Told, OpsKnown, Meaningful;
    assert ReplicaSound(before, e.r);
    StepTold(before.replicas[e.r], e.i, before.cfg, opOf, before.cfg.f);
    forall r | Honest(after, r)
      ensures OpsKnown(after.replicas[r], opOf)
    {
      assert Honest(before, r);
    }
  }

  lemma {:induction false} RunOps(systems: seq<System>, events: seq<Event>, initSeq: nat, opOf: string -> string)
    requires IsRun(systems, events, initSeq) && AllMeaningful(events, opOf)
    ensures OpsSound(systems[|events|], opOf)
  {
    hide Sound, Next, Meaningful;
    if events != [] {
      var n := |events| - 1;
      RunSound(systems[..n + 1], events[..n], initSeq);
      RunOps(systems[..n + 1], events[..n], initSeq, opOf);
      StepOps(systems[n], systems[n + 1], events[n], opOf);
    }
  }

  /** More than f different replicas answered `op` with number `n`; what a client waits for. */
  ghost predicate AnsweredBy(sys: System, q: set<int>, op: string, n: int) {
    && |q| > sys.cfg.f
    && forall r :: r in q ==> 0 <= r < sys.cfg.n && (Honest(sys, r) ==> exists a :: ResponseMessage(a) in sys.replicas[r].sent && a.Res == op && a.Seq == n)
  }

  ghost predicate Answer(sys: System, r: int, a: ResponseArgs, n: int) {
    Honest(sys, r) && ResponseMessage(a) in sys.replicas[r].sent && a.Seq == n
  }

  /** All honest answers with number `n` were committed in one view. */
  ghost predicate OneView(sys: System, n: int) {
    forall i, j, a, b :: Answer(sys, i, a, n) && Answer(sys, j, b, n) ==> a.View == b.View
  }

  /** While no honest replica has left view 0, every number is answered in one view. */
  lemma FirstViewOneView(sys: System, n: int)
    requires Sound(sys) && forall r :: Honest(sys, r) ==> sys.replicas[r].view == 0
    ensures OneView(sys, n)
  {
    forall i, a | Answer(sys, i, a, n)
      ensures a.View == 0
    {
      assert ReplicaSound(sys, i) && AnswerBacked(sys.replicas[i], a);
    }
  }

  lemma HonestAnswer(sys: System, q: set<int>, op: string, n: int) returns (r: int, a: ResponseArgs)
    requires Sound(sys) && |sys.byz| <= sys.cfg.f && AnsweredBy(sys, q, op, n)
    ensures Answer(sys, r, a, n) && a.Res == op
  {
    r := SomeOutside(q, sys.byz);
    a :| ResponseMessage(a) in sys.replicas[r].sent && a.Res == op && a.Seq == n;
  }

  /**
   Nonce uniqueness: in every run, with any number of view changes, if digests determine operations
   and the number was answered in one view only, no two operations are ever answered with it by
   enough replicas for a client to accept it.
   */
  lemma NonceUnique(systems: seq<System>, events: seq<Event>, initSeq: nat, opOf: string -> string,
                    q1: set<int>, q2: set<int>, op1: string, op2: string, n: int)
    requires IsRun(systems, events, initSeq) && AllMeaningful(events, opOf) && OneView(systems[|events|], n)
    requires systems[|events|].cfg.n <= 3 * systems[|events|].cfg.f + 1 && |systems[|events|].byz| <= systems[|events|].cfg.f
    requires AnsweredBy(systems[|events|], q1, op1, n) && AnsweredBy(systems[|events|], q2, op2, n)
    ensures op1 == op2
  {
    var sys := systems[|events|];
    RunSound(systems, events, initSeq);
    RunOps(systems, events, initSeq, opOf);
    var r1, a1 := HonestAnswer(sys, q1, op1, n);
    var r2, a2 := HonestAnswer(sys, q2, op2, n);
    assert ReplicaSound(sys, r1) && ReplicaSound(sys, r2);
    assert AnswerBacked(sys.replicas[r1], a1) && AnswerBacked(sys.replicas[r2], a2);
    assert a1.View == a2.View;
    CommitsAgree(systems, events, initSeq, Vote(a1.View, a1.Seq, a1.Auxiliary, r1), Vote(a2.View, a2.Seq, a2.Auxiliary, r2));
    AnswerOp(sys, r1, a1, opOf);
    AnswerOp(sys, r2, a2, opOf);
  }

  lemma AnswerOp(sys: System, r: int, a: ResponseArgs, opOf: string -> string)
    requires OpsSound(sys, opOf) && Honest(sys, r) && ResponseMessage(a) in sys.replicas[r].sent
    ensures a.Res == opOf(a.Auxiliary)
  {
    assert OpsKnown(sys.replicas[r], opOf);
  }
}
