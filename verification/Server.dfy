/**
 The replica as the program runs it: an object whose handlers update its fields, one loop at a
 time.  Every handler is proved to change the object's state exactly as the step function of the
 same event does, so everything proved about those steps holds of this object.
 */
module Server {
  import opened Collections
  import opened Replica
  import R = Replica
  import opened ReplicaOrder
  import opened ReplicaVotes
  import Q = Queues

  // ---------- the apply queue ----------

  function Tasks(q: seq<Q.PQElem<Vote>>): (r: seq<Vote>)
    ensures |r| == |q| && forall k :: 0 <= k < |r| ==> r[k] == q[k].C
  {
    seq(|q|, k requires 0 <= k < |q| => q[k].C)
  }

  /** Queued elements carry their own number as priority. */
  ghost predicate Tagged(q: seq<Q.PQElem<Vote>>) {
    forall k :: 0 <= k < |q| ==> q[k].Pri == q[k].C.Seq
  }

  lemma TasksCons(e: Q.PQElem<Vote>, q: seq<Q.PQElem<Vote>>)
    ensures Tasks([e] + q) == [e.C] + Tasks(q)
  {
  }

  lemma {:induction false} InsertMatches(q: seq<Q.PQElem<Vote>>, t: Vote)
    requires Tagged(q) && !Q.Holds(q, t.Seq)
    ensures Tasks(Q.Inserted(q, Q.PQElem(t.Seq, t))) == InsertTask(Tasks(q), t)
  {
    var e := Q.PQElem(t.Seq, t);
    if q == [] {
    } else if q[0].Pri > t.Seq {
      assert Q.Inserted(q, e) == [e] + q;
      TasksCons(e, q);
    } else {
      var rest := q[1..];
      assert q == [q[0]] + rest;
      assert q[0].Pri != t.Seq;
      assert Q.Holds(rest, t.Seq) ==> Q.Holds(q, t.Seq);
      InsertMatches(rest, t);
      TasksCons(q[0], rest);
      TasksCons(q[0], Q.Inserted(rest, e));
      InsertedLater(q[0], rest, e);
    }
  }

  lemma InsertedLater(x: Q.PQElem<Vote>, q: seq<Q.PQElem<Vote>>, e: Q.PQElem<Vote>)
    requires x.Pri < e.Pri
    ensures Q.Inserted([x] + q, e) == [x] + Q.Inserted(q, e)
  {
    assert ([x] + q)[1..] == q;
    assert Q.Place([x] + q, e.Pri) == 1 + Q.Place(q, e.Pri);
  }

  lemma InsertedTagged(q: seq<Q.PQElem<Vote>>, t: Vote)
    requires Tagged(q)
    ensures Tagged(Q.Inserted(q, Q.PQElem(t.Seq, t)))
  {
  }

  lemma HoldsIsQueued(q: seq<Q.PQElem<Vote>>, n: int)
    requires Tagged(q)
    ensures Q.Holds(q, n) <==> Queued(Tasks(q), n)
  {
    if Q.Holds(q, n) {
      var k :| 0 <= k < |q| && q[k].Pri == n;
      assert Tasks(q)[k].Seq == n;
    }
  }

  // ---------- loops that only read ----------

  /** The distinct senders of matching votes, collected in a map. */
  method HasQuorum(votes: seq<Vote>, pp: PrePrepareArgs, f: nat) returns (ok: bool)
    ensures ok <==> |votes| > 2 * f && |Voters(votes, pp)| > 2 * f
  {
    if |votes| > 2 * f {
      var validSet: map<int, bool> := map[];
      for i := 0 to |votes|
        invariant validSet.Keys == Voters(votes[..i], pp)
      {
        VotersSnoc(votes[..i], votes[i], pp);
        assert votes[..i + 1] == votes[..i] + [votes[i]];
        if votes[i].View == pp.View && votes[i].Seq == pp.Seq && votes[i].Digest == pp.Digest {
          validSet := validSet[votes[i].Rid := true];
        }
      }
      assert votes[..|votes|] == votes;
      assert |validSet| == |validSet.Keys|;
      return |validSet| > 2 * f;
    }
    return false;
  }

  /** Counts digests and views as they come, and stops at the first announcement where both have been seen often enough. */
  method FindAgreed(proof: seq<CheckPointArgs>, f: nat) returns (r: Option<CheckPointArgs>)
    ensures r == FirstAgreed(proof, f, 0)
  {
    var countDigest: map<string, nat> := map[];
    var countView: map<int, nat> := map[];
    for i := 0 to |proof|
      invariant FirstAgreed(proof, f, i) == FirstAgreed(proof, f, 0)
      invariant forall d :: (if d in countDigest then countDigest[d] else 0) == CountDigest(proof[..i], d)
      invariant forall v :: (if v in countView then countView[v] else 0) == CountView(proof[..i], v)
    {
      var d, v := proof[i].Digest, proof[i].View;
      assert proof[..i + 1][..i] == proof[..i];
      countDigest := countDigest[d := (if d in countDigest then countDigest[d] else 0) + 1];
      countView := countView[v := (if v in countView then countView[v] else 0) + 1];
      if countDigest[d] > 2 * f && countView[v] > 2 * f {
        return Some(proof[i]);
      }
    }
    return None;
  }

  /** The highest stable checkpoint, the highest reported number, and for each number the last report. */
  method CalcMinMaxspp(V: seq<ViewChangeArgs>) returns (mins: int, maxs: int, pprepared: map<int, PrePrepareArgs>)
    ensures mins == MinS(V) && maxs == MaxS(V) && pprepared == PPrepared(V)
  {
    mins, maxs, pprepared := -1, -1, map[];
    for i := 0 to |V|
      invariant mins == MinS(V[..i]) && maxs == MaxSeq(V[..i]) && pprepared == PPrepared(V[..i])
    {
      assert V[..i + 1][..i] == V[..i];
      if V[i].CP.Seq > mins {
        mins := V[i].CP.Seq;
      }
      var P := V[i].P;
      for j := 0 to |P|
        invariant maxs == MaxReported(P[..j], MaxSeq(V[..i])) && pprepared == CollectReport(P[..j], PPrepared(V[..i]))
      {
        assert P[..j + 1][..j] == P[..j];
        if P[j].PP.Seq > maxs {
          maxs := P[j].PP.Seq;
        }
        pprepared := pprepared[P[j].PP.Seq := P[j].PP];
      }
      assert P[..|P|] == P;
    }
    assert V[..|V|] == V;
    if maxs < mins {
      maxs := mins;
    }
  }

  method CalcSlots(view: int, mins: int, maxs: int, pprepared: map<int, PrePrepareArgs>) returns (pps: seq<PrePrepareArgs>)
    requires mins <= maxs
    ensures pps == CalcPPS(view, mins, maxs, pprepared)
  {
    pps := [];
    var i := mins + 1;
    while i <= maxs
      invariant mins + 1 <= i <= maxs + 1 && |pps| == i - mins - 1
      invariant forall k :: 0 <= k < |pps| ==> pps[k] == SlotFor(view, mins + 1 + k, pprepared)
    {
      if i in pprepared {
        pps := pps + [PrePrepareArgs(view, i, pprepared[i].Digest, pprepared[i].Message)];
      } else {
        pps := pps + [PrePrepareArgs(view, i, "", NO_REQUEST)];
      }
      i := i + 1;
    }
  }

  lemma MinsBelowMaxs(V: seq<ViewChangeArgs>)
    ensures MinS(V) <= MaxS(V)
  {
  }

  /** The history behind the record numbered `n`. */
  method RecordsBehind(st: seq<Record>, n: int) returns (r: seq<Record>)
    ensures r == RecordsAfter(st, n, 0)
  {
    for i := 0 to |st|
      invariant RecordsAfter(st, n, i) == RecordsAfter(st, n, 0)
    {
      if st[i].seqVal == n {
        return st[i + 1..];
      } else if st[i].seqVal > n {
        return st;
      }
    }
    return st;
  }

  /** The clean-up loops: walks the map and deletes the keys that are not wanted. */
  method KeepWhere<K, V>(m: map<K, V>, wanted: K -> bool) returns (r: map<K, V>)
    ensures r == map k | k in m && wanted(k) :: m[k]
  {
    r := m;
    var rem := m.Keys;
    while rem != {}
      invariant rem <= m.Keys
      invariant forall k :: k in r <==> k in m && (k in rem || wanted(k))
      invariant forall k :: k in r ==> r[k] == m[k]
      decreases |rem|
    {
      var k :| k in rem;
      if !wanted(k) {
        r := r - {k};
      }
      rem := rem - {k};
    }
  }

  /** A loop that looks for a key. */
  method SomeKey<K, V>(m: map<K, V>, p: K -> bool) returns (b: bool)
    ensures b <==> exists k :: k in m && p(k)
  {
    var rem := m.Keys;
    while rem != {}
      invariant rem <= m.Keys && forall k :: k in m && k !in rem ==> !p(k)
      decreases |rem|
    {
      var k :| k in rem;
      if p(k) {
        return true;
      }
      rem := rem - {k};
    }
    return false;
  }

  /** A loop that returns the first key it likes. */
  method KeyWith<K, V>(m: map<K, V>, p: K -> bool) returns (r: Option<K>)
    ensures r.Some? ==> r.value in m && p(r.value)
    ensures r.None? ==> forall k :: k in m ==> !p(k)
  {
    var rem := m.Keys;
    while rem != {}
      invariant rem <= m.Keys && forall k :: k in m && k !in rem ==> !p(k)
      decreases |rem|
    {
      var k :| k in rem;
      if p(k) {
        return Some(k);
      }
      rem := rem - {k};
    }
    return None;
  }

  /** The first view change that reports the checkpoint `n`. */
  method FindReporter(V: seq<ViewChangeArgs>, n: int) returns (r: Option<CheckPointArgs>)
    ensures r == FirstWith(V, n)
  {
    for i := 0 to |V|
      invariant FirstWith(V[i..], n) == FirstWith(V, n)
    {
      assert V[i..][1..] == V[i + 1..];
      if V[i].CP.Seq == n {
        return Some(V[i].CP);
      }
    }
    return None;
  }

  /** The distinct senders of view changes for the announced view. */
  method EnoughChangers(nv: NewViewArgs, f: nat) returns (ok: bool)
    ensures ok <==> |Changers(nv)| > 2 * f
  {
    var vcs: map<int, bool> := map[];
    for i := 0 to |nv.V|
      invariant vcs.Keys == Changers(nv.(V := nv.V[..i]))
    {
      assert nv.V[..i + 1] == nv.V[..i] + [nv.V[i]];
      ChangersSnoc(nv, nv.V[..i], nv.V[i]);
      if nv.V[i].View == nv.View {
        vcs := vcs[nv.V[i].Rid := true];
      }
    }
    assert nv.V[..|nv.V|] == nv.V;
    assert |vcs| == |vcs.Keys|;
    ok := |vcs| > 2 * f;
  }

  lemma ChangersSnoc(nv: NewViewArgs, V: seq<ViewChangeArgs>, vc: ViewChangeArgs)
    ensures Changers(nv.(V := V + [vc])) == Changers(nv.(V := V)) + if vc.View == nv.View then {vc.Rid} else {}
  {
    var all := V + [vc];
    forall r | r in Changers(nv.(V := V))
      ensures r in Changers(nv.(V := all))
    {
      var k :| 0 <= k < |V| && V[k].View == nv.View && V[k].Rid == r;
      assert all[k] == V[k];
    }
    forall r | r in Changers(nv.(V := all))
      ensures r in Changers(nv.(V := V)) || (vc.View == nv.View && r == vc.Rid)
    {
      var k :| 0 <= k < |all| && all[k].View == nv.View && all[k].Rid == r;
      assert k < |V| ==> V[k] == all[k];
    }
    assert all[|V|] == vc;
  }

  datatype Verdict = Match | Mismatch | TooShort

  /** Compares the recomputed slots with the leader's, one by one, reading past its end if it is too short. */
  method CompareSlots(pps: seq<PrePrepareArgs>, O: seq<PrePrepareArgs>) returns (v: Verdict)
    ensures v == if SlotsTooShort(pps, O) then TooShort else if SlotsMatch(pps, O) then Match else Mismatch
  {
    for i := 0 to |pps|
      invariant i <= |O| && forall k :: 0 <= k < i ==> SameSlot(pps[k], O[k])
    {
      if i >= |O| {
        return TooShort;
      }
      if !SameSlot(pps[i], O[i]) {
        return Mismatch;
      }
    }
    return Match;
  }

  method RemoveOldLog(log: map<EntryId, Entry>, n: int) returns (r: map<EntryId, Entry>)
    ensures r == LogFrom(log, n)
  {
    r := KeepWhere(log, (k: EntryId) => k.n >= n);
  }

  method RemoveOldCheckPoint(cps: map<int, CheckPoint>, n: int) returns (r: map<int, CheckPoint>)
    ensures r == CheckPointsFrom(cps, n)
  {
    r := KeepWhere(cps, k => k in cps && cps[k].Seq >= n);
  }

  method RemoveOldSeqMap(seqmap: map<string, int>, n: int) returns (r: map<string, int>)
    ensures r == SeqmapAbove(seqmap, n)
  {
    r := KeepWhere(seqmap, k => k in seqmap && seqmap[k] > n);
  }

  method RemoveOldViewChange(vcs: map<int, seq<ViewChangeArgs>>, v: int) returns (r: map<int, seq<ViewChangeArgs>>)
    ensures r == VcsFrom(vcs, v)
  {
    r := KeepWhere(vcs, k => k >= v);
  }

  class Server {
    const cfg: Config
    const id: int
    const applyQueue: Q.PriorityQueue<Vote>
    var tSeq: int
    var seqmap: map<string, int>
    var view: int
    var apply: int
    var log: map<EntryId, Entry>
    var cps: map<int, CheckPoint>
    var h: int
    var H: int
    var monitor: bool
    var changing: bool
    var myViewChangeCount: nat
    var state: seq<Record>
    var vcs: map<int, seq<ViewChangeArgs>>
    var lastcp: int
    var pending: seq<Vote>
    var panicked: bool
    var sent: seq<Message>
    ghost var heard: set<Vote>
    ghost var confirmed: set<Vote>
    ghost var reported: set<Report>
    ghost var executed: seq<Vote>
    ghost var tasks: seq<Vote>

    ghost predicate Valid()
      reads this, applyQueue
    {
      applyQueue.Valid() && Tagged(applyQueue.content) && tasks == Tasks(applyQueue.content) && cfg.n > 0
    }

    ghost function State(): State
      reads this
    {
      R.State.State(id, tSeq, seqmap, view, apply, log, cps, h, H, monitor, changing, myViewChangeCount, state, tasks,
                    vcs, lastcp, pending, panicked, sent, heard, confirmed, reported, executed)
    }

    constructor (id: int, initSeq: nat, cfg: Config)
      requires cfg.n > 0
      ensures Valid() && fresh(applyQueue) && this.cfg == cfg && State() == Initial(id, initSeq)
    {
      this.cfg, this.id := cfg, id;
      tSeq, seqmap, view, apply, log := initSeq, map[], 0, initSeq - 1, map[];
      cps := map[-1 := R.CheckPoint.CheckPoint(-1, true, "", 0, [])];
      h, H, monitor, changing, myViewChangeCount := initSeq, initSeq + 2 * CHECKPOINT_DIV, false, false, 0;
      state, vcs, lastcp, pending, panicked, sent := [OpState(-1, "")], map[], -1, [], false, [];
      heard, confirmed, reported, executed := {}, {}, {}, [];
      applyQueue := new Q.PriorityQueue<Vote>();
      tasks := [];
    }

    // ---------- entries, timers and messages ----------

    method StopTimer()
      modifies this`monitor, this`myViewChangeCount
      ensures State() == R.StopTimer(old(State()))
    {
      monitor := false;
      myViewChangeCount := 0;
    }

    /** The entry of a slot, created empty if there is none. */
    method GetEntry(eid: EntryId) returns (e: Entry)
      modifies this`log
      ensures e == At(old(State()), eid) && State() == Put(old(State()), eid, e)
    {
      if eid !in log {
        log := log[eid := EMPTY_ENTRY];
      }
      e := log[eid];
      assert log == old(log)[eid := e];
    }

    /** Answers a task's client, preparing the answer the first time. */
    method ReplyByPendingTask(t: Vote)
      modifies this`log, this`sent, this`panicked
      ensures State() == ReplyTask(old(State()), t)
    {
      var eid := EntryId(t.View, t.Seq);
      var e := if eid in log then log[eid] else EMPTY_ENTRY;
      if e.pp.None? {
        panicked := true;
        return;
      }
      if e.r.None? {
        e := e.(r := Some(ResponseArgs(t.View, t.Seq, e.pp.value.Message.ID, id, e.pp.value.Message.Op, e.pp.value.Digest)));
      }
      log := log[eid := e];
      sent := sent + [ResponseMessage(e.r.value)];
    }

    // ---------- checkpoints ----------

    /** Whether there is no record for `n` and a later checkpoint is stable already. */
    method IsSuperseded(n: int) returns (b: bool)
      ensures b <==> Superseded(cps, n)
    {
      if n in cps {
        return false;
      }
      var m := cps;
      b := SomeKey(m, k => k > n && k in m && m[k].Stable);
    }

    /** Finds or creates the record for `n` and recomputes its digest; none is made below a stable checkpoint. */
    method GetCheckPoint(n: int) returns (found: bool)
      modifies this`cps
      ensures found <==> !Superseded(old(cps), n)
      ensures State() == if found then WithCheckPoint(old(State()), n, cfg) else old(State())
    {
      var late := IsSuperseded(n);
      if late {
        return false;
      }
      if n !in cps {
        cps := cps[n := R.CheckPoint.CheckPoint(n, false, "", 0, [])];
      }
      if n >= 0 {
        cps := cps[n := cps[n].(Digest := cfg.cpDigest(state, n))];
      }
      assert cps == WithCheckPoint(old(State()), n, cfg).cps;
      return true;
    }

    /** The smallest queued task; its priority is its number. */
    method PeekTask() returns (r: Option<Vote>)
      requires Valid()
      ensures r == if tasks == [] then None else Some(tasks[0])
    {
      var m := applyQueue.GetMin();
      r := if m.Some? then Some(m.value.C) else None;
    }

    method QueueLength() returns (n: nat)
      requires Valid()
      ensures n == |tasks|
    {
      n := applyQueue.Length();
    }

    method PopTask()
      requires Valid() && tasks != []
      modifies this`tasks, applyQueue
      ensures Valid() && tasks == old(tasks)[1..]
    {
      var _ := applyQueue.ExtractMin();
      tasks := tasks[1..];
      assert tasks == Tasks(applyQueue.content);
    }

    /** Answers the queued tasks a stable checkpoint covers. */
    method DrainQueue(limit: int)
      requires Valid()
      modifies this`log, this`sent, this`panicked, this`tasks, applyQueue
      ensures Valid() && State() == Drain(old(State()), limit, |old(tasks)|)
    {
      hide ReplyTask, Tagged, Q.Ascending;
      var sz := QueueLength();
      var i := 0;
      while i < sz
        invariant 0 <= i <= sz && Valid()
        invariant Drain(State(), limit, sz - i) == Drain(old(State()), limit, sz)
      {
        var m := PeekTask();
        if m.None? {
          break;
        }
        if m.value.Seq <= limit {
          PopTask();
          ReplyByPendingTask(m.value);
        } else {
          break;
        }
        i := i + 1;
      }
    }

    /** Makes the record for `key` stable and moves the replica behind it. */
    method StablizeCP(key: int, proof: CheckPointArgs)
      requires Valid() && key in cps
      modifies this, applyQueue
      ensures Valid() && State() == Stabilize(old(State()), key, proof)
    {
      hide Drain, Cleared, Staged;
      var n := cps[key].Seq;
      Stage(key, proof);
      DrainQueue(n);
      Clear(n, proof);
    }

    /** Marks the checkpoint stable, after joining a later view. */
    method Stage(key: int, proof: CheckPointArgs)
      requires key in cps
      modifies this`view, this`changing, this`monitor, this`myViewChangeCount, this`cps, this`apply
      ensures State() == Staged(old(State()), key, proof)
    {
      JoinView(proof.View);
      MarkStable(key, proof);
    }

    method JoinView(v: int)
      modifies this`view, this`changing, this`monitor, this`myViewChangeCount
      ensures State() == AdoptView(old(State()), v)
    {
      if v > view {
        view := v;
        changing := false;
        StopTimer();
      }
    }

    method MarkStable(key: int, proof: CheckPointArgs)
      requires key in cps
      modifies this`cps, this`apply
      ensures cps == old(cps)[key := old(cps)[key].(Stable := true, Digest := proof.Digest)]
      ensures apply == if old(apply) < proof.Seq then old(cps)[key].Seq else old(apply)
    {
      var n := cps[key].Seq;
      cps := cps[key := cps[key].(Stable := true, Digest := proof.Digest)];
      if apply < proof.Seq {
        apply := n;
      }
    }

    /** What a newly stable checkpoint at `n` clears away. */
    method Clear(n: int, proof: CheckPointArgs)
      modifies this`log, this`cps, this`seqmap, this`state, this`h, this`H, this`lastcp
      ensures State() == Cleared(old(State()), n, proof)
    {
      hide LogFrom, CheckPointsFrom, SeqmapAbove, RecordsAfter;
      Forget(n);
      MoveWindow(n, proof);
    }

    method Forget(n: int)
      modifies this`log, this`cps, this`seqmap
      ensures log == LogFrom(old(log), n) && cps == CheckPointsFrom(old(cps), n) && seqmap == SeqmapAbove(old(seqmap), n - 2 * CHECKPOINT_DIV)
    {
      log := RemoveOldLog(log, n);
      cps := RemoveOldCheckPoint(cps, n);
      seqmap := RemoveOldSeqMap(seqmap, n - 2 * CHECKPOINT_DIV);
    }

    method MoveWindow(n: int, proof: CheckPointArgs)
      modifies this`state, this`h, this`H, this`lastcp
      ensures state == [CheckPointState(proof.Seq, proof.Digest)] + RecordsAfter(old(state), n, 0)
      ensures h == n && H == n + 2 * CHECKPOINT_DIV && lastcp == n
    {
      var behind := RecordsBehind(state, n);
      state := [CheckPointState(proof.Seq, proof.Digest)] + behind;
      h := n;
      H := h + 2 * CHECKPOINT_DIV;
      lastcp := n;
    }

    method CheckPoint(args: CheckPointArgs)
      requires Valid()
      modifies this, applyQueue
      ensures Valid() && State() == OnCheckPoint(old(State()), args, cfg)
    {
      if args.Seq % CHECKPOINT_DIV != 0 {
        return;
      }
      var found := GetCheckPoint(args.Seq);
      if !found {
        return;
      }
      if !cps[args.Seq].Stable {
        cps := cps[args.Seq := cps[args.Seq].(Proof := cps[args.Seq].Proof + [args])];
        if |cps[args.Seq].Proof| > 2 * cfg.f {
          var agreed := FindAgreed(cps[args.Seq].Proof, cfg.f);
          if agreed.Some? {
            StablizeCP(args.Seq, agreed.value);
          }
        }
      }
    }

    method StartCheckPoint(n: int)
      requires Valid()
      modifies this, applyQueue
      ensures Valid() && State() == R.StartCheckPoint(old(State()), n, cfg)
    {
      var found := GetCheckPoint(n);
      if found {
        cps := cps[n := cps[n].(Seq := n, Stable := false)];
        var a := CheckPointArgs(n, cps[n].Digest, id, view);
        assert State() == OpenOwn(old(State()), n, cfg);
        sent := sent + [CheckPointMessage(a)];
        CheckPoint(a);
      }
    }

    // ---------- executing ----------

    method PushTask(a: Vote) returns (ok: bool)
      requires Valid()
      modifies this`tasks, applyQueue
      ensures Valid() && (ok <==> !Queued(old(tasks), a.Seq)) && tasks == if ok then InsertTask(old(tasks), a) else old(tasks)
    {
      ghost var before := applyQueue.content;
      HoldsIsQueued(before, a.Seq);
      ok := applyQueue.Insert(Q.PQElem(a.Seq, a));
      if ok {
        InsertMatches(before, a);
        InsertedTagged(before, a);
        tasks := InsertTask(tasks, a);
      }
    }

    method Execute(a: Vote)
      requires Valid()
      modifies this, applyQueue
      ensures Valid() && State() == R.Execute(old(State()), a, cfg)
    {
      if a.Seq <= apply {
        return;
      }
      var inserted := PushTask(a);
      if !inserted {
        panicked := true;
        return;
      }
      MarkReplySent(EntryId(a.View, a.Seq));
      RunApplyQueue();
    }

    method MarkReplySent(eid: EntryId)
      modifies this`log
      ensures State() == Put(old(State()), eid, At(old(State()), eid).(sendReply := true))
    {
      var e := if eid in log then log[eid] else EMPTY_ENTRY;
      log := log[eid := e.(sendReply := true)];
    }

    /** Executes queued tasks while the next number is there. */
    method RunApplyQueue()
      requires Valid()
      modifies this, applyQueue
      ensures Valid() && State() == RunQueue(old(State()), |old(tasks)|, cfg)
    {
      hide ApplyNext, R.StartCheckPoint, Tagged, Q.Ascending;
      var sz := QueueLength();
      var i := 0;
      while i < sz
        invariant 0 <= i <= sz && Valid()
        invariant RunQueue(State(), sz - i, cfg) == RunQueue(old(State()), sz, cfg)
      {
        if panicked {
          break;
        }
        var m := PeekTask();
        if m.None? {
          break;
        }
        if apply + 1 == m.value.Seq {
          ApplyOne();
          if apply % CHECKPOINT_DIV == 0 {
            StartCheckPoint(apply);
          }
        } else if apply + 1 > m.value.Seq {
          panicked := true;
        } else {
          break;
        }
        i := i + 1;
      }
    }

    method ApplyOne()
      requires Valid() && tasks != []
      modifies this, applyQueue
      ensures Valid() && State() == ApplyNext(old(State()))
    {
      hide ReplyTask, Tagged, Q.Ascending;
      var m := PeekTask();
      TakeFirst();
      TakeShape(old(State()));
      hide TakeNext;
      assert State() == TakeNext(old(State()));
      ReplyByPendingTask(m.value);
    }

    method TakeFirst()
      requires Valid() && tasks != []
      modifies this`apply, this`state, this`tasks, this`executed, applyQueue
      ensures Valid() && apply == old(apply) + 1 && tasks == old(tasks)[1..] && executed == old(executed) + [old(tasks)[0]]
      ensures state == TakeNext(old(State())).state
    {
      hide Tagged, Q.Ascending;
      var m := PeekTask();
      apply := apply + 1;
      var t := m.value;
      var eid := EntryId(t.View, t.Seq);
      if t.Digest != "" && eid in log && log[eid].pp.Some? {
        state := state + [OpState(t.Seq, log[eid].pp.value.Message.Op)];
      }
      PopTask();
      executed := executed + [t];
    }

    // ---------- the three phases ----------

    method RecordCommit(eid: EntryId, e: Entry, a: Vote)
      modifies this`log, this`confirmed
      ensures State() == Put(old(State()), eid, e).(confirmed := old(confirmed) + {a}) && log == old(log)[eid := e]
    {
      log := log[eid := e];
      confirmed := confirmed + {a};
    }

    method RecordPrepare(eid: EntryId, e: Entry, a: Vote)
      modifies this`log, this`heard
      ensures State() == Put(old(State()), eid, e).(heard := old(heard) + {a}) && log == old(log)[eid := e]
    {
      log := log[eid := e];
      heard := heard + {a};
    }

    method Commit(a: Vote)
      requires Valid()
      modifies this, applyQueue
      ensures Valid() && State() == OnCommit(old(State()), a, cfg)
    {
      hide R.Execute, Voters;
      if changing {
        return;
      }
      StopTimer();
      if !(view == a.View && h <= a.Seq < H) {
        return;
      }
      var eid := EntryId(a.View, a.Seq);
      var ent := GetEntry(eid);
      if ent.pp.Some? && ent.pp.value.Digest != a.Digest {
        return;
      }
      ent := ent.(c := ent.c + [a]);
      RecordCommit(eid, ent, a);
      assert log == old(log)[eid := ent];
      if !ent.sendReply && ent.sendCommit && ent.pp.Some? {
        var ok := HasQuorum(ent.c, ent.pp.value, cfg.f);
        if ok {
          Execute(a);
        }
      }
    }

    method Prepare(a: Vote, aux: Aux)
      requires Valid()
      modifies this, applyQueue
      ensures Valid() && State() == OnPrepare(old(State()), a, aux, cfg)
    {
      hide SendCommit, Voters;
      if changing {
        return;
      }
      StopTimer();
      if !(view == a.View && h <= a.Seq < H) {
        return;
      }
      var eid := EntryId(a.View, a.Seq);
      var ent := GetEntry(eid);
      if ent.pp.Some? && ent.pp.value.Digest != a.Digest {
        return;
      }
      ent := ent.(p := ent.p + [a]);
      RecordPrepare(eid, ent, a);
      assert log == old(log)[eid := ent];
      if ent.pp.Some? && !ent.sendCommit {
        var ok := HasQuorum(ent.p, ent.pp.value, cfg.f);
        if ok && aux.commitOk {
          BroadcastCommit(eid);
        }
      }
    }

    /** The commit goes to everybody, the replica itself included, before the entry is marked. */
    method BroadcastCommit(eid: EntryId)
      requires Valid() && eid in log && log[eid].pp.Some?
      modifies this, applyQueue
      ensures Valid() && State() == SendCommit(old(State()), eid, cfg)
    {
      hide OnCommit;
      var pp := log[eid].pp.value;
      var c := Vote(eid.v, pp.Seq, pp.Digest, id);
      AnnounceCommit(pp.Message.Op, eid.n, c);
      Commit(c);
      MarkCommitSent(eid);
    }

    method AnnounceCommit(op: string, n: int, c: Vote)
      modifies this`seqmap, this`sent
      ensures State() == Send(old(State()).(seqmap := old(seqmap)[op := n]), CommitMessage(c))
    {
      seqmap := seqmap[op := n];
      sent := sent + [CommitMessage(c)];
    }

    method MarkCommitSent(eid: EntryId)
      modifies this`log
      ensures State() == Put(old(State()), eid, At(old(State()), eid).(sendCommit := true))
    {
      var e := if eid in log then log[eid] else EMPTY_ENTRY;
      log := log[eid := e.(sendCommit := true)];
    }

    method PrePrepare(a: PrePrepareArgs, aux: Aux)
      requires Valid()
      modifies this, applyQueue
      ensures Valid() && State() == OnPrePrepare(old(State()), a, aux, cfg)
    {
      hide OnPrepare;
      if changing {
        return;
      }
      if !aux.prepareOk {
        return;
      }
      StopTimer();
      if view == a.View && h <= a.Seq < H {
        var eid := EntryId(a.View, a.Seq);
        var ent := GetEntry(eid);
        if ent.pp.None? || (ent.pp.value.Digest == a.Digest && ent.pp.value.Seq == a.Seq) {
          var p := Vote(a.View, a.Seq, a.Digest, id);
          AcceptOrder(eid, ent.(pp := Some(a)), p);
          assert log == old(log)[eid := ent.(pp := Some(a))];
          Prepare(p, aux);
        }
      }
    }

    method AcceptOrder(eid: EntryId, e: Entry, p: Vote)
      modifies this`log, this`sent
      ensures State() == Send(Put(old(State()), eid, e), PrepareMessage(p)) && log == old(log)[eid := e]
    {
      log := log[eid := e];
      sent := sent + [PrepareMessage(p)];
    }

    // ---------- requests ----------

    method Request(args: RequestArgs, aux: Aux)
      requires Valid()
      modifies this, applyQueue
      ensures Valid() && State() == OnRequest(old(State()), args, aux, cfg)
    {
      var leader := view % cfg.n;
      if !changing {
        if id == leader {
          HandleRequestLeader(args, aux);
        } else {
          HandleRequestFollower(args);
        }
      }
    }

    method HandleRequestFollower(args: RequestArgs)
      modifies this`monitor, this`sent
      ensures State() == if old(monitor) then old(State()) else Send(old(State()).(monitor := true), RequestMessage(args))
    {
      if !monitor {
        monitor := true;
        sent := sent + [RequestMessage(args)];
      }
    }

    /** A new operation gets the next number, while the window lasts. */
    method NumberRequest(args: RequestArgs, aux: Aux)
      requires Valid() && args.Op !in seqmap
      modifies this, applyQueue
      ensures Valid() && State() == OnRequestLeader(old(State()), args, aux, cfg)
    {
      hide OnPrePrepare;
      if tSeq >= H {
        return;
      }
      if aux.auxiliary.None? {
        return;
      }
      var pp := PrePrepareArgs(view, tSeq, aux.auxiliary.value, args);
      IssueNumber(pp);
      PrePrepare(pp, aux);
    }

    method IssueNumber(pp: PrePrepareArgs)
      modifies this`seqmap, this`tSeq, this`sent
      ensures State() == Send(old(State()).(seqmap := old(seqmap)[pp.Message.Op := old(tSeq)], tSeq := old(tSeq) + 1), PrePrepareMessage(pp))
    {
      seqmap := seqmap[pp.Message.Op := tSeq];
      tSeq := tSeq + 1;
      sent := sent + [PrePrepareMessage(pp)];
    }

    /** An operation that has a number already: restarted, or answered again. */
    method RepeatRequest(args: RequestArgs, aux: Aux)
      requires Valid() && args.Op in seqmap
      modifies this, applyQueue
      ensures Valid() && State() == OnRequestLeader(old(State()), args, aux, cfg)
    {
      hide OnPrePrepare;
      var gseq := seqmap[args.Op];
      if gseq <= lastcp {
        return;
      }
      var ent := GetEntry(EntryId(view, gseq));
      if ent.pp.None? {
        return;
      }
      if ent.pp.value.Digest != "" {
        if !ent.sendReply {
          sent := sent + [PrePrepareMessage(ent.pp.value)];
          PrePrepare(ent.pp.value, aux);
        } else if ent.r.Some? {
          sent := sent + [ResponseMessage(ent.r.value)];
        }
      }
    }

    method HandleRequestLeader(args: RequestArgs, aux: Aux)
      requires Valid()
      modifies this, applyQueue
      ensures Valid() && State() == OnRequestLeader(old(State()), args, aux, cfg)
    {
      hide OnRequestLeader;
      if args.Op !in seqmap {
        NumberRequest(args, aux);
      } else {
        RepeatRequest(args, aux);
      }
    }

    // ---------- view change ----------

    /** The one stable checkpoint, whichever order the records are walked in. */
    method GetStableCheckPoint() returns (k: int)
      requires CheckPointsOrdered(State())
      ensures HasStable(cps) && k == StableKey(cps) && k == lastcp && k in cps
    {
      var m := cps;
      assert lastcp in m && m[lastcp].Stable;
      var found := KeyWith(m, x => x in m && m[x].Stable);
      k := found.value;
    }

    /** Lists what has to be reported, in whatever order the log is walked. */
    method ReportableEntries(cpSeq: int) returns (P: seq<Pm>, ghost order: seq<EntryId>)
      ensures ReportOrder(log, order, cpSeq, cfg.f) && P == ReportOf(log, order)
    {
      P, order := [], [];
      var rem := log.Keys;
      while rem != {}
        invariant rem <= log.Keys
        invariant forall i, j :: 0 <= i < j < |order| ==> order[i] != order[j]
        invariant forall eid :: eid in order <==> eid !in rem && Reportable(log, eid, cpSeq, cfg.f)
        invariant P == ReportOf(log, order)
        decreases |rem|
      {
        var eid :| eid in rem;
        var e := log[eid];
        var wanted := false;
        if eid.n > cpSeq && e.pp.Some? {
          wanted := e.sendCommit;
          if !wanted {
            wanted := HasQuorum(e.p, e.pp.value, cfg.f);
          }
        }
        if wanted {
          P, order := P + [Pm(e.pp.value, e.p)], order + [eid];
        }
        rem := rem - {eid};
      }
    }

    /** What is reported when asking for a view: the stable checkpoint and everything prepared above it. */
    method GenerateViewChange() returns (vc: ViewChangeArgs, ghost order: seq<EntryId>)
      requires CheckPointsOrdered(State())
      ensures HasStable(cps) && ReportOrder(log, order, cps[StableKey(cps)].Seq, cfg.f)
      ensures forall eid :: eid in order ==> eid in log && log[eid].pp.Some?
      ensures vc == GeneratedViewChange(State(), order)
    {
      var k := GetStableCheckPoint();
      var P, walked := ReportableEntries(cps[k].Seq);
      order := walked;
      vc := ViewChangeArgs(view + myViewChangeCount + 1, CheckPointArgs(cps[k].Seq, cps[k].Digest, id, cps[k].View), P, id);
    }

    /** The replica stops taking part in its view and reports its log, walked in the order `order`. */
    method AskNewView() returns (vc: ViewChangeArgs, ghost order: seq<EntryId>)
      requires CheckPointsOrdered(State())
      modifies this`changing, this`myViewChangeCount, this`reported, this`sent
      ensures HasStable(old(cps)) && ReportOrder(old(log), order, old(cps)[StableKey(old(cps))].Seq, cfg.f)
      ensures forall eid :: eid in order ==> eid in old(log) && old(log)[eid].pp.Some?
      ensures vc == GeneratedViewChange(old(State()), order) && State() == AskForView(old(State()), order)
      ensures CheckPointsOrdered(State())
    {
      var made, walked := GenerateViewChange();
      vc, order := made, walked;
      AskedOrdered(State(), order);
      hide ReportOrder, GeneratedViewChange, CheckPointsOrdered, HasStable;
      changing := true;
      myViewChangeCount := myViewChangeCount + 1;
      reported := reported + {Report(view, vc)};
      sent := sent + [ViewChangeMessage(vc)];
    }

    /** The timer fires.  `order` is the order in which the log happened to be walked. */
    method HandleTimer() returns (ghost order: seq<EntryId>)
      requires Valid() && CheckPointsOrdered(State())
      modifies this, applyQueue
      ensures Valid() && State() == OnTimer(old(State()), order, cfg)
    {
      hide OnViewChange, ReportOrder, GeneratedViewChange, AskForView, CheckPointsOrdered, HasStable;
      var vc, walked := AskNewView();
      order := walked;
      ViewChange(vc);
      monitor := true;
    }

    method ViewChange(a: ViewChangeArgs)
      requires Valid() && CheckPointsOrdered(State())
      modifies this, applyQueue
      ensures Valid() && State() == OnViewChange(old(State()), a, cfg)
    {
      hide LeadNewView;
      if a.View <= view {
        return;
      }
      vcs := vcs[a.View := (if a.View in vcs then vcs[a.View] else []) + [a]];
      if a.View % cfg.n == id && |vcs[a.View]| >= 2 * cfg.f + 1 {
        AnnounceNewView(a.View, vcs[a.View]);
      }
    }

    method AnnounceNewView(v: int, got: seq<ViewChangeArgs>)
      requires Valid() && CheckPointsOrdered(State())
      modifies this, applyQueue
      ensures Valid() && State() == LeadNewView(old(State()), v, got)
    {
      assert HasStable(cps);
      var mins, maxs, pprepared := CalcMinMaxspp(got);
      MinsBelowMaxs(got);
      var pps := CalcSlots(v, mins, maxs, pprepared);
      hide EnterNewView, NewViewSlots;
      var nv := NewViewArgs(v, got, pps);
      assert pps == NewViewSlots(v, got) by { SlotsAre(v, got); }
      sent := sent + [NewViewMessage(nv)];
      EnteringNewView(nv, mins, maxs, pps);
    }

    method NewView(a: NewViewArgs)
      requires Valid() && CheckPointsOrdered(State())
      modifies this, applyQueue
      ensures Valid() && State() == OnNewView(old(State()), a, cfg)
    {
      if a.View <= view {
        return;
      }
      assert HasStable(cps);
      var enough := EnoughChangers(a, cfg.f);
      if !enough {
        return;
      }
      var mins, maxs, pprepared := CalcMinMaxspp(a.V);
      MinsBelowMaxs(a.V);
      var pps := CalcSlots(a.View, mins, maxs, pprepared);
      SlotsAre(a.View, a.V);
      hide EnterNewView, NewViewSlots, SlotsMatch, SlotsTooShort, Changers;
      var v := CompareSlots(pps, a.O);
      match v {
        case TooShort => panicked := true;
        case Mismatch =>
        case Match => EnteringNewView(a, mins, maxs, pps);
      }
    }

    method EnteringNewView(nv: NewViewArgs, mins: int, maxs: int, pps: seq<PrePrepareArgs>)
      requires Valid() && CheckPointsOrdered(State())
      requires mins == MinS(nv.V) && maxs == MaxS(nv.V) && pps == NewViewSlots(nv.View, nv.V)
      modifies this, applyQueue
      ensures HasStable(old(cps)) && Valid() && State() == EnterNewView(old(State()), nv)
    {
      assert HasStable(cps);
      hide R.CatchUp, TakeOver, NewViewSlots;
      CatchUp(nv.V, mins);
      InstallView(nv.View, nv.V, mins, maxs, pps);
    }

    method CatchUp(V: seq<ViewChangeArgs>, mins: int)
      requires Valid() && CheckPointsOrdered(State())
      modifies this, applyQueue
      ensures HasStable(old(cps)) && Valid() && State() == R.CatchUp(old(State()), V, mins)
    {
      hide Stabilize;
      var k := GetStableCheckPoint();
      if mins > cps[k].Seq {
        var c := FindReporter(V, mins);
        if c.None? {
          panicked := true;
          return;
        }
        cps := cps[mins := R.CheckPoint.CheckPoint(c.value.Seq, true, c.value.Digest, c.value.View, [])];
        StablizeCP(mins, CheckPointArgs(c.value.Seq, c.value.Digest, id, view));
      }
    }

    method InstallView(v: int, V: seq<ViewChangeArgs>, mins: int, maxs: int, pps: seq<PrePrepareArgs>)
      requires Valid() && mins == MinS(V) && maxs == MaxS(V) && pps == NewViewSlots(v, V)
      modifies this, applyQueue
      ensures Valid() && State() == TakeOver(old(State()), v, V)
    {
      hide NewViewSlots;
      tSeq := maxs + 1;
      StoreSlots(v, pps);
      hide R.InstallSlots;
      Switch(v, mins, PreparesFor(id, v, pps));
    }

    method StoreSlots(v: int, pps: seq<PrePrepareArgs>)
      modifies this`log, this`seqmap
      ensures State() == InstallSlots(old(State()), v, pps)
    {
      for i := 0 to |pps|
        invariant State() == InstallSlots(old(State()), v, pps[..i])
      {
        assert pps[..i + 1][..i] == pps[..i];
        var eid := EntryId(v, pps[i].Seq);
        var e := if eid in log then log[eid] else EMPTY_ENTRY;
        seqmap := seqmap[pps[i].Message.Op := pps[i].Seq];
        log := log[eid := e.(pp := Some(pps[i]))];
      }
      assert pps[..|pps|] == pps;
    }

    method Switch(v: int, mins: int, ps: seq<Vote>)
      modifies this`view, this`log, this`changing, this`monitor, this`myViewChangeCount, this`vcs, this`pending
      ensures var s := old(State());
              State() == R.StopTimer(s.(view := v, log := LogFrom(s.log, mins), changing := false, vcs := VcsFrom(s.vcs, v), pending := s.pending + ps))
    {
      hide LogFrom, VcsFrom;
      DropOld(v, mins);
      Begin(v, ps);
      StopTimer();
    }

    method Begin(v: int, ps: seq<Vote>)
      modifies this`view, this`changing, this`pending
      ensures view == v && !changing && pending == old(pending) + ps
    {
      view := v;
      changing := false;
      pending := pending + ps;
    }

    method DropOld(v: int, mins: int)
      modifies this`log, this`vcs
      ensures log == LogFrom(old(log), mins) && vcs == VcsFrom(old(vcs), v)
    {
      log := RemoveOldLog(log, mins);
      vcs := RemoveOldViewChange(vcs, v);
    }

    /** One of the prepares left over from entering a view goes out. */
    method SendPending(k: nat, aux: Aux)
      requires Valid() && k < |pending|
      modifies this, applyQueue
      ensures Valid() && State() == SendPostponed(old(State()), k, aux, cfg)
    {
      hide OnPrepare;
      var p := pending[k];
      pending := pending[..k] + pending[k + 1..];
      sent := sent + [PrepareMessage(p)];
      Prepare(p, aux);
    }

    /** The main loop's dispatch: one step of the replica, which keeps its invariant. */
    method HandleReq(msg: Message, aux: Aux)
      requires Valid() && Invariant(State(), cfg.f) && !panicked && !msg.ResponseMessage?
      modifies this, applyQueue
      ensures Valid() && State() == Handle(old(State()), Deliver(msg, aux), cfg) && Invariant(State(), cfg.f)
    {
      hide Votes, QueueOrdered, ExecutedInOrder, OnRequest, OnPrePrepare, OnPrepare, OnCommit, OnCheckPoint, OnViewChange, OnNewView;
      ghost var s := State();
      match msg {
        case RequestMessage(req) => Request(req, aux);
        case PrePrepareMessage(pp) => PrePrepare(pp, aux);
        case PrepareMessage(p) => Prepare(p, aux);
        case CommitMessage(c) => Commit(c);
        case CheckPointMessage(cp) => CheckPoint(cp);
        case ViewChangeMessage(vc) => ViewChange(vc);
        case NewViewMessage(nv) => NewView(nv);
      }
      assert State() == Handle(s, Deliver(msg, aux), cfg);
      hide Handle, Invariant;
      StepKeeps(s, Deliver(msg, aux), cfg);
    }
  }

  lemma SlotsAre(view: int, V: seq<ViewChangeArgs>)
    ensures MinS(V) <= MaxS(V) && NewViewSlots(view, V) == CalcPPS(view, MinS(V), MaxS(V), PPrepared(V))
  {
  }

  lemma AskedOrdered(s: State, order: seq<EntryId>)
    requires CheckPointsOrdered(s) && HasStable(s.cps) && forall id :: id in order ==> id in s.log && s.log[id].pp.Some?
    ensures CheckPointsOrdered(AskForView(s, order))
  {
  }
}
