/**
 The PBFT client: it limits how many requests are under way, keeps the rest waiting, and takes a
 result once more than f different replicas gave the same answer.
 */
module Client {
  import opened Collections
  import opened Replica
  import opened ReplicaVotes
  import opened ReplicaReplies
  import opened Agreement
  import D = Divergence
  import R = Runs
  import Q = Queues

  const OUTSTANDING: nat := 10

  datatype Failure = Duplicate | CannotSucceed

  datatype OpResult = OpResult(Cmd: string, Auxiliary: string, Seq: int, Error: Option<Failure>)

  datatype CEntry = CEntry(apply: bool, req: Option<RequestArgs>, res: seq<ResponseArgs>, ft: bool)

  // ---------- when a result counts ----------

  /** The different replicas that answered with number `n`. */
  function Repliers(res: seq<ResponseArgs>, n: int): set<int> {
    set k | 0 <= k < |res| && res[k].Seq == n :: res[k].Rid
  }

  ghost predicate Settled(res: seq<ResponseArgs>, n: int, f: nat) {
    |Repliers(res, n)| > f
  }

  ghost predicate Unsettled(res: seq<ResponseArgs>, f: nat) {
    forall n :: !Settled(res, n, f)
  }

  ghost predicate SameOp(res: seq<ResponseArgs>, op: string) {
    forall k :: 0 <= k < |res| ==> res[k].Res == op
  }

  lemma RepliersGrow(res: seq<ResponseArgs>, k: nat, n: int)
    requires k <= |res|
    ensures Repliers(res[..k], n) <= Repliers(res, n) && |Repliers(res[..k], n)| <= |Repliers(res, n)|
  {
    forall r | r in Repliers(res[..k], n)
      ensures r in Repliers(res, n)
    {
      var i :| 0 <= i < k && res[..k][i].Seq == n && res[..k][i].Rid == r;
      assert res[i].Seq == n;
    }
    SubsetSize(Repliers(res[..k], n), Repliers(res, n));
  }

  /** Only the last answer can tip the balance, and only for its own number. */
  lemma LastTips(res: seq<ResponseArgs>, a: ResponseArgs, k: nat, f: nat)
    requires Unsettled(res, f) && k <= |res|
    requires Settled((res + [a])[..k + 1], (res + [a])[k].Seq, f)
    ensures k == |res| && Settled(res + [a], a.Seq, f)
  {
    if k < |res| {
      assert (res + [a])[..k + 1] == res[..k + 1];
      EarlierUnsettled(res, k, f);
    } else {
      assert (res + [a])[..k + 1] == res + [a];
    }
  }

  lemma EarlierUnsettled(res: seq<ResponseArgs>, k: nat, f: nat)
    requires Unsettled(res, f) && k < |res|
    ensures !Settled(res[..k + 1], res[k].Seq, f)
  {
    RepliersGrow(res, k + 1, res[k].Seq);
    assert !Settled(res, res[k].Seq, f);
  }

  lemma OtherNumbers(res: seq<ResponseArgs>, a: ResponseArgs, f: nat)
    requires Unsettled(res, f) && !Settled(res + [a], a.Seq, f)
    ensures Unsettled(res + [a], f)
  {
    forall n | n != a.Seq
      ensures !Settled(res + [a], n, f)
    {
      RepliersSnoc(res, a, n);
      assert !Settled(res, n, f);
    }
  }

  lemma RepliersSnoc(res: seq<ResponseArgs>, a: ResponseArgs, n: int)
    ensures Repliers(res + [a], n) == Repliers(res, n) + if a.Seq == n then {a.Rid} else {}
  {
    var all := res + [a];
    forall r | r in Repliers(all, n)
      ensures r in Repliers(res, n) || (a.Seq == n && r == a.Rid)
    {
      var i :| 0 <= i < |all| && all[i].Seq == n && all[i].Rid == r;
      assert i < |res| ==> res[i] == all[i];
    }
    forall r | r in Repliers(res, n)
      ensures r in Repliers(all, n)
    {
      var i :| 0 <= i < |res| && res[i].Seq == n && res[i].Rid == r;
      assert all[i] == res[i];
    }
    assert all[|res|] == a;
  }

  /** The ids recorded for a number so far. */
  function RidsFor(res: seq<ResponseArgs>, n: int): seq<int> {
    if res == [] then []
    else RidsFor(res[..|res| - 1], n) + if res[|res| - 1].Seq == n then [res[|res| - 1].Rid] else []
  }

  lemma {:induction false} RidsAreRepliers(res: seq<ResponseArgs>, n: int)
    ensures (set i | i in RidsFor(res, n)) == Repliers(res, n)
    ensures |Repliers(res, n)| <= |RidsFor(res, n)|
  {
    if res != [] {
      var m := |res| - 1;
      RidsAreRepliers(res[..m], n);
      RepliersSnoc(res[..m], res[m], n);
      assert res == res[..m] + [res[m]];
    }
  }

  /** The table holds, for every number, the ids recorded in the first `i` answers. */
  ghost predicate Counted(count: map<(string, int), seq<int>>, res: seq<ResponseArgs>, op: string) {
    forall n :: Got(count, (op, n)) == RidsFor(res, n)
  }

  function Got(count: map<(string, int), seq<int>>, key: (string, int)): seq<int> {
    if key in count then count[key] else []
  }

  /** The answers up to position `k` settle its number. */
  ghost predicate SettledAt(res: seq<ResponseArgs>, k: nat, f: nat)
    requires k < |res|
  {
    Settled(res[..k + 1], res[k].Seq, f)
  }

  lemma CountOneMore(count: map<(string, int), seq<int>>, res: seq<ResponseArgs>, i: nat, op: string, f: nat)
    requires i < |res| && Counted(count, res[..i], op) && SameOp(res, op)
    ensures var key := (res[i].Res, res[i].Seq);
            var rids := Got(count, key) + [res[i].Rid];
            && Counted(count[key := rids], res[..i + 1], op)
            && (SettledAt(res, i, f) <==> |rids| > f && Q.Different(rids) > f)
  {
    assert res[..i + 1][..i] == res[..i];
    RidsAreRepliers(res[..i + 1], res[i].Seq);
  }

  /** The loop over the answers: counts repliers per result and stops at the first count above f. */
  method FindSettled(res: seq<ResponseArgs>, op: string, f: nat) returns (found: bool, ghost at: nat)
    requires SameOp(res, op)
    ensures found ==> at < |res| && SettledAt(res, at, f)
    ensures !found ==> forall k :: 0 <= k < |res| ==> !SettledAt(res, k, f)
  {
    at := 0;
    var count: map<(string, int), seq<int>> := map[];
    assert Counted(count, res[..0], op);
    hide Counted, SettledAt, Repliers, RidsFor, Q.Different, Got, SameOp;
    for i := 0 to |res|
      invariant Counted(count, res[..i], op)
      invariant forall k :: 0 <= k < i ==> !SettledAt(res, k, f)
    {
      var key := (res[i].Res, res[i].Seq);
      CountOneMore(count, res, i, op, f);
      var rids := Got(count, key) + [res[i].Rid];
      count := count[key := rids];
      var distinct := Q.DifferentElemInSlice(rids);
      if |rids| > f && distinct > f {
        return true, i;
      }
    }
    return false, 0;
  }

  /** Whether one more answer completes a request that was not complete before. */
  method Completes(before: seq<ResponseArgs>, a: ResponseArgs, op: string, f: nat) returns (done: bool)
    requires Unsettled(before, f) && SameOp(before + [a], op)
    ensures done <==> Settled(before + [a], a.Seq, f)
  {
    hide Settled, Unsettled, SameOp;
    var res := before + [a];
    SettledNeedsAnswers(res, a.Seq, f);
    done := false;
    if |res| > f {
      var found, at := FindSettled(res, op, f);
      if found {
        LastTips(before, a, at, f);
        return true;
      }
      assert !SettledAt(res, |before|, f) && res[..|before| + 1] == res && res[|before|] == a;
    }
  }

  // ---------- the client ----------

  /** The entry is waiting for answers it does not have yet. */
  ghost predicate Waiting(op: string, e: CEntry, f: nat) {
    !e.apply && e.req.Some? && e.req.value.Op == op && SameOp(e.res, op) && Unsettled(e.res, f)
  }

  lemma StillWaiting(op: string, e: CEntry, a: ResponseArgs, f: nat)
    requires Waiting(op, e, f) && a.Res == op && !Settled(e.res + [a], a.Seq, f)
    ensures Waiting(op, e.(res := e.res + [a]), f)
  {
    OtherNumbers(e.res, a, f);
  }

  lemma AnswersAgreeOnOp(op: string, e: CEntry, a: ResponseArgs, f: nat)
    requires Waiting(op, e, f) && a.Res == op
    ensures SameOp(e.res + [a], op) && Unsettled(e.res, f) && !e.apply
  {
  }

  ghost predicate AllWaiting(log: map<string, CEntry>, f: nat) {
    forall op :: op in log ==> Waiting(op, log[op], f)
  }

  /** Every logged request is in a queue, and requests only wait while the request queue is full. */
  ghost predicate Divided(keys: set<string>, q: seq<string>, b: seq<string>) {
    && (forall op :: op in keys ==> op in q || op in b)
    && |q| <= OUTSTANDING + 1 && (b != [] ==> |q| == OUTSTANDING + 1)
  }

  /** Nothing else is queued, and nothing twice: so it is as long as no command is started again while it is under way. */
  ghost predicate Clean(keys: set<string>, q: seq<string>, b: seq<string>) {
    (forall op :: op in q || op in b ==> op in keys) && forall op :: op in q ==> op !in b
  }

  /** Moves waiting requests over while there is room; one that is in the request queue already is dropped. */
  function Refilled(q: seq<string>, b: seq<string>): (seq<string>, seq<string>)
    decreases |b|
  {
    if b == [] || |q| > OUTSTANDING then (q, b)
    else Refilled(if b[0] in q then q else q + [b[0]], b[1..])
  }

  lemma {:induction false} RefilledKeeps(q: seq<string>, b: seq<string>)
    requires Distinct(b)
    ensures var r := Refilled(q, b);
            && (forall x :: x in r.0 || x in r.1 <==> x in q || x in b)
            && (r.1 == [] || |r.0| > OUTSTANDING) && (|q| <= OUTSTANDING + 1 ==> |r.0| <= OUTSTANDING + 1)
    decreases |b|
  {
    if b != [] && |q| <= OUTSTANDING {
      assert b == [b[0]] + b[1..];
      var q1 := if b[0] in q then q else q + [b[0]];
      RefilledKeeps(q1, b[1..]);
      forall x
        ensures x in q1 || x in b[1..] <==> x in q || x in b
      {
      }
    }
  }

  /** Without repetitions the requests keep their order, and none is lost. */
  lemma {:induction false} RefilledInOrder(q: seq<string>, b: seq<string>)
    requires Distinct(b) && forall x :: x in q ==> x !in b
    ensures var r := Refilled(q, b); r.0 + r.1 == q + b && forall x :: x in r.0 ==> x !in r.1
    decreases |b|
  {
    if b != [] && |q| <= OUTSTANDING {
      HeadMoves(q, b);
      assert b[0] !in q;
      RefilledInOrder(q + [b[0]], b[1..]);
    }
  }

  lemma WaitingPut(log: map<string, CEntry>, op: string, e: CEntry, f: nat)
    requires AllWaiting(log, f) && Waiting(op, e, f)
    ensures AllWaiting(log[op := e], f)
  {
  }

  lemma WaitingWithout(log: map<string, CEntry>, op: string, f: nat)
    requires AllWaiting(log, f)
    ensures AllWaiting(log - {op}, f)
  {
  }

  lemma NewWaiting(op: string, id: int, f: nat)
    ensures Waiting(op, CEntry(false, Some(RequestArgs(op, id)), [], true), f)
  {
    forall n
      ensures !Settled([], n, f)
    {
      assert Repliers([], n) == {};
    }
  }

  function Added(q: seq<string>, op: string): seq<string> {
    if op in q then q else q + [op]
  }

  lemma DividedStart(keys: set<string>, q: seq<string>, b: seq<string>, op: string)
    requires Divided(keys, q, b) && op !in keys
    ensures |q| <= OUTSTANDING ==> Divided(keys + {op}, Added(q, op), b) && (Clean(keys, q, b) ==> Clean(keys + {op}, Added(q, op), b))
    ensures |q| > OUTSTANDING ==> Divided(keys + {op}, q, Added(b, op)) && (Clean(keys, q, b) ==> Clean(keys + {op}, q, Added(b, op)))
  {
  }

  lemma DividedDone(keys: set<string>, q: seq<string>, b: seq<string>, op: string)
    requires Divided(keys, q, b) && Distinct(q) && Distinct(b) && op in q
    ensures var r := Refilled(Q.Removed(q, op), b);
            Divided(keys - {op}, r.0, r.1) && (Clean(keys, q, b) ==> Clean(keys - {op}, r.0, r.1))
  {
    Q.RemovedKeeps(q, op);
    RefilledKeeps(Q.Removed(q, op), b);
    if Clean(keys, q, b) {
      RefilledInOrder(Q.Removed(q, op), b);
    }
  }

  class PBFTClient {
    const id: int
    const f: nat
    const reqQueue: Q.StringQueue<string>
    const backupQueue: Q.StringQueue<string>
    var view: int
    var log: map<string, CEntry>
    var applied: seq<OpResult>
    var retry: seq<string>

    constructor (id: int, f: nat)
      ensures Valid() && Tidy() && fresh(reqQueue) && fresh(backupQueue) && log == map[] && applied == [] && this.f == f
    {
      this.id, this.f := id, f;
      reqQueue := new Q.StringQueue<string>();
      backupQueue := new Q.StringQueue<string>();
      view, log, applied, retry := 0, map[], [], [];
    }

    ghost predicate Valid()
      reads this, reqQueue, backupQueue
    {
      && reqQueue.Valid() && backupQueue.Valid()
      && Divided(log.Keys, reqQueue.Q, backupQueue.Q) && AllWaiting(log, f)
    }

    ghost predicate Tidy()
      reads this, reqQueue, backupQueue
    {
      Clean(log.Keys, reqQueue.Q, backupQueue.Q)
    }

    /** Reports a result, unless nobody empties the channel, and forgets the request either way. */
    method NotifyResult(r: OpResult, room: bool)
      modifies this`log, this`applied
      ensures log == old(log) - {r.Cmd} && applied == if room then old(applied) + [r] else old(applied)
    {
      if room {
        applied := applied + [r];
      }
      log := log - {r.Cmd};
    }

    /** Accepts a new command; a repeated one is answered with an error, which also forgets the first. */
    method Start(cmd: string, canSucceed: bool, room: bool)
      requires Valid() && reqQueue != backupQueue
      modifies this, reqQueue, backupQueue
      ensures Valid() && (old(Tidy()) && cmd !in old(log) ==> Tidy())
      ensures cmd in old(log) || !canSucceed ==>
                && log == old(log) - {cmd} && reqQueue.Q == old(reqQueue.Q) && backupQueue.Q == old(backupQueue.Q)
                && applied == if room then old(applied) + [OpResult(cmd, "", -1, Some(if cmd in old(log) then Duplicate else CannotSucceed))] else old(applied)
      ensures cmd !in old(log) && canSucceed ==>
                && log == old(log)[cmd := CEntry(false, Some(RequestArgs(cmd, id)), [], true)] && applied == old(applied)
                && (if |old(reqQueue.Q)| <= OUTSTANDING then reqQueue.Q == Added(old(reqQueue.Q), cmd) && backupQueue.Q == old(backupQueue.Q)
                    else reqQueue.Q == old(reqQueue.Q) && backupQueue.Q == Added(old(backupQueue.Q), cmd))
    {
      hide AllWaiting, Waiting, Divided, Clean;
      var exist := cmd in log;
      if !exist {
        log := log[cmd := CEntry(false, None, [], true)];
      }
      if exist {
        NotifyResult(OpResult(cmd, "", -1, Some(Duplicate)), room);
        Forgotten(old(log), reqQueue.Q, backupQueue.Q, cmd, f);
        return;
      }
      if !canSucceed {
        NotifyResult(OpResult(cmd, "", -1, Some(CannotSucceed)), room);
        assert log == old(log);
        return;
      }
      log := log[cmd := log[cmd].(req := Some(RequestArgs(cmd, id)))];
      NewWaiting(cmd, id, f);
      WaitingPut(old(log), cmd, log[cmd], f);
      DividedStart(old(log.Keys), reqQueue.Q, backupQueue.Q, cmd);
      assert log == old(log)[cmd := log[cmd]];
      assert log.Keys == old(log.Keys) + {cmd};
      if |reqQueue.Q| <= OUTSTANDING {
        var _ := reqQueue.Insert(cmd, cmd);
        retry := retry + [cmd];
      } else {
        var _ := backupQueue.Insert(cmd, cmd);
      }
    }

    /** Moves waiting requests into the request queue while there is room. */
    method UpdateQueue()
      requires reqQueue.Valid() && backupQueue.Valid() && reqQueue != backupQueue
      modifies reqQueue, backupQueue, this`retry
      ensures reqQueue.Valid() && backupQueue.Valid()
      ensures (reqQueue.Q, backupQueue.Q) == Refilled(old(reqQueue.Q), old(backupQueue.Q))
    {
      while backupQueue.Q != [] && |reqQueue.Q| <= OUTSTANDING
        invariant reqQueue.Valid() && backupQueue.Valid()
        invariant Refilled(reqQueue.Q, backupQueue.Q) == Refilled(old(reqQueue.Q), old(backupQueue.Q))
        decreases |backupQueue.Q|
      {
        var first := backupQueue.GetMin();
        var _ := backupQueue.ExtractMin();
        var _ := reqQueue.Insert(first.value.0, first.value.1);
        retry := retry + [first.value.1];
      }
    }

    /**
     One answer.  The request completes exactly when more than f different replicas have given the
     number of this answer; a completed request that was not in the request queue makes it panic.
     */
    method Response(args: ResponseArgs, room: bool) returns (panicked: bool)
      requires Valid() && reqQueue != backupQueue
      modifies this, reqQueue, backupQueue
      ensures view == if args.Res in old(log) && args.View > old(view) then args.View else old(view)
      ensures !panicked ==> Valid() && (old(Tidy()) ==> Tidy())
      ensures args.Res !in old(log) ==>
                !panicked && log == old(log) && applied == old(applied) && reqQueue.Q == old(reqQueue.Q) && backupQueue.Q == old(backupQueue.Q)
      ensures args.Res in old(log) ==>
                var res := old(log)[args.Res].res + [args];
                var done := Settled(res, args.Seq, f);
                && (panicked <==> done && args.Res !in old(reqQueue.Q))
                && (!done ==> log == old(log)[args.Res := old(log)[args.Res].(res := res)] && applied == old(applied) &&
                              reqQueue.Q == old(reqQueue.Q) && backupQueue.Q == old(backupQueue.Q))
                && (done && !panicked ==>
                      && log == old(log) - {args.Res}
                      && applied == (if room then old(applied) + [OpResult(args.Res, args.Auxiliary, args.Seq, None)] else old(applied))
                      && (reqQueue.Q, backupQueue.Q) == Refilled(Q.Removed(old(reqQueue.Q), args.Res), old(backupQueue.Q)))
    {
      panicked := false;
      if args.Res !in log {
        return;
      }
      if args.View > view {
        view := args.View;
      }
      hide Waiting, Settled, Unsettled, SameOp, Divided, Clean, Refilled;
      var op := args.Res;
      ghost var e := log[op];
      assert Waiting(op, e, f);
      hide AllWaiting;
      AnswersAgreeOnOp(op, e, args, f);
      var res := log[op].res;
      log := log[op := log[op].(res := res + [args])];
      var done := Completes(res, args, op, f);
      if done {
        log := log[op := log[op].(apply := true)];
        panicked := Complete(op, args, room, old(log));
        return;
      }
      StillWaiting(op, e, args, f);
      WaitingPut(old(log), op, log[op], f);
      assert log.Keys == old(log.Keys);
    }

    /** Takes a completed request out of the queue, lets waiting ones in and reports the result. */
    method Complete(op: string, args: ResponseArgs, room: bool, ghost before: map<string, CEntry>) returns (panicked: bool)
      requires reqQueue.Valid() && backupQueue.Valid() && reqQueue != backupQueue && op == args.Res
      requires op in log && op in before && log == before[op := log[op]] && AllWaiting(before, f) && Divided(before.Keys, reqQueue.Q, backupQueue.Q)
      modifies this`log, this`applied, this`retry, reqQueue, backupQueue
      ensures panicked <==> op !in old(reqQueue.Q)
      ensures !panicked ==>
                && Valid() && (Clean(before.Keys, old(reqQueue.Q), old(backupQueue.Q)) ==> Tidy()) && log == before - {op}
                && applied == (if room then old(applied) + [OpResult(args.Res, args.Auxiliary, args.Seq, None)] else old(applied))
                && (reqQueue.Q, backupQueue.Q) == Refilled(Q.Removed(old(reqQueue.Q), op), old(backupQueue.Q))
    {
      ghost var q, b := reqQueue.Q, backupQueue.Q;
      var ok := reqQueue.Remove(op);
      if !ok {
        return true;
      }
      UpdateQueue();
      hide Waiting, Divided, Clean, Refilled, AllWaiting;
      DividedDone(before.Keys, q, b, op);
      WaitingWithout(before, op, f);
      NotifyResult(OpResult(args.Res, args.Auxiliary, args.Seq, None), room);
      assert log == before - {op} && log.Keys == before.Keys - {op};
      return false;
    }
  }

  /** The first request is forgotten, but stays queued. */
  lemma Forgotten(log: map<string, CEntry>, q: seq<string>, b: seq<string>, cmd: string, f: nat)
    requires AllWaiting(log, f) && Divided(log.Keys, q, b)
    ensures AllWaiting(log - {cmd}, f) && Divided((log - {cmd}).Keys, q, b)
  {
  }

  lemma HeadMoves(a: seq<string>, b: seq<string>)
    requires b != [] && Distinct(b) && forall x :: x in a ==> x !in b
    ensures a + b == (a + [b[0]]) + b[1..] && forall x :: x in a + [b[0]] ==> x !in b[1..]
  {
    forall x | x in b[1..]
      ensures x != b[0] && x in b
    {
      var k :| 0 <= k < |b[1..]| && b[1..][k] == x;
      assert b[k + 1] == x;
    }
  }

  lemma SettledNeedsAnswers(res: seq<ResponseArgs>, n: int, f: nat)
    ensures Settled(res, n, f) ==> |res| > f
  {
    RidsAreRepliers(res, n);
    FewRids(res, n);
  }

  lemma {:induction false} FewRids(res: seq<ResponseArgs>, n: int)
    ensures |RidsFor(res, n)| <= |res|
  {
    if res != [] {
      FewRids(res[..|res| - 1], n);
    }
  }

  // ---------- clients and replicas together ----------

  /** Every answer really came from the replica it names. */
  ghost predicate Genuine(sys: System, res: seq<ResponseArgs>) {
    forall k :: 0 <= k < |res| ==>
      0 <= res[k].Rid < sys.cfg.n && (Honest(sys, res[k].Rid) ==> ResponseMessage(res[k]) in sys.replicas[res[k].Rid].sent)
  }

  lemma SettledIsAnswered(sys: System, res: seq<ResponseArgs>, op: string, n: int)
    requires Genuine(sys, res) && SameOp(res, op) && Settled(res, n, sys.cfg.f)
    ensures AnsweredBy(sys, Repliers(res, n), op, n)
  {
  }

  /**
   No two clients accept the same number for different operations, in any run in which digests
   determine operations and the number was answered in one view only.
   */
  lemma ClientsNeverShareNumber(systems: seq<System>, events: seq<Event>, initSeq: nat, opOf: string -> string,
                                res1: seq<ResponseArgs>, res2: seq<ResponseArgs>, op1: string, op2: string, n: int)
    requires IsRun(systems, events, initSeq) && AllMeaningful(events, opOf) && OneView(systems[|events|], n)
    requires var sys := systems[|events|];
             && sys.cfg.n <= 3 * sys.cfg.f + 1 && |sys.byz| <= sys.cfg.f
             && Genuine(sys, res1) && SameOp(res1, op1) && Settled(res1, n, sys.cfg.f)
             && Genuine(sys, res2) && SameOp(res2, op2) && Settled(res2, n, sys.cfg.f)
    ensures op1 == op2
  {
    var sys := systems[|events|];
    SettledIsAnswered(sys, res1, op1, n);
    SettledIsAnswered(sys, res2, op2, n);
    hide IsRun, AllMeaningful, OneView, AnsweredBy;
    NonceUnique(systems, events, initSeq, opOf, Repliers(res1, n), Repliers(res2, n), op1, op2, n);
  }

  /** Whatever enough replicas have answered can be gathered by a client. */
  lemma {:induction false} AnswersGathered(sys: System, q: set<int>, op: string, n: int) returns (res: seq<ResponseArgs>)
    requires Sound(sys)
    requires forall r :: r in q ==> 0 <= r < sys.cfg.n && (Honest(sys, r) ==> exists a :: ResponseMessage(a) in sys.replicas[r].sent && a.Res == op && a.Seq == n)
    ensures Genuine(sys, res) && SameOp(res, op) && q <= Repliers(res, n)
    decreases |q|
  {
    if q == {} {
      res := [];
    } else {
      var r := SomeOutside(q, {});
      var rest := AnswersGathered(sys, q - {r}, op, n);
      var a := ResponseArgs(0, n, 0, r, op, "");
      if Honest(sys, r) {
        a :| ResponseMessage(a) in sys.replicas[r].sent && a.Res == op && a.Seq == n;
        assert ReplicaSound(sys, r) && AnswerBacked(sys.replicas[r], a);
      }
      res := rest + [a];
      RepliersGrow(res, |rest|, n);
      assert res[..|rest|] == rest && res[|rest|] == a;
    }
  }

  lemma AnsweredIsSettled(sys: System, q: set<int>, op: string, n: int) returns (res: seq<ResponseArgs>)
    requires Sound(sys) && AnsweredBy(sys, q, op, n)
    ensures Genuine(sys, res) && SameOp(res, op) && Settled(res, n, sys.cfg.f)
  {
    res := AnswersGathered(sys, q, op, n);
    SubsetSize(q, Repliers(res, n));
  }

  /**
   Across views they do: for every f >= 1, with 3f+1 replicas, f of them faulty, there is a run of
   authentic messages, in which digests determine operations, after which two clients can accept
   number 0, one for each of two operations.
   */
  lemma ClientsShareNumber(pl: D.Play) returns (sys: System, res0: seq<ResponseArgs>, res1: seq<ResponseArgs>)
    requires pl.Good() && pl.byz == D.Worst(pl.cfg.f)
    ensures R.ReachableBy(sys, 0, D.Ops(pl)) && sys.cfg == pl.cfg && |sys.byz| == sys.cfg.f
    ensures Genuine(sys, res0) && SameOp(res0, pl.op0) && Settled(res0, 0, sys.cfg.f)
    ensures Genuine(sys, res1) && SameOp(res1, pl.op1) && Settled(res1, 0, sys.cfg.f)
  {
    var t, q, r := D.AnsweredTwice(pl);
    sys := t;
    hide Sound, AnsweredBy, R.ReachableBy, OpsSound;
    R.ReachableSound(sys, 0, D.Ops(pl));
    res1 := AnsweredIsSettled(sys, q, pl.op1, 0);
    res0 := AnsweredIsSettled(sys, r, pl.op0, 0);
  }
}
