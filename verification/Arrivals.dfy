/**
 The barriers of the two signing handlers: messages are kept one per sender in a map, a repeated
 or invalid message is reported, and the phase ends when enough senders have been heard.  Sums
 over such a map do not depend on the order in which it is walked or was filled.
 */
module Arrivals {
  import opened Collections
  import opened NumberTheory
  import opened Polynomials

  datatype Error = ProofInvalid | Duplicate | KeyMismatch | ShareInvalid | CommitmentInvalid | SignatureInvalid

  datatype Event = Done | Failed(error: Error)

  datatype Check = Pass | Reject(error: Error)

  // ---------- one message per sender ----------

  /** What a receiver reports: checks made before and after the test for a repeated sender. */
  function Report<V>(slots: map<nat, V>, i: nat, before: Check, after: Check, full: nat): seq<Event> {
    if before.Reject? then [Failed(before.error)]
    else if i in slots then [Failed(Duplicate)]
    else if after.Reject? then [Failed(after.error)]
    else if |slots| + 1 == full then [Done]
    else []
  }

  function Keep<V>(slots: map<nat, V>, i: nat, v: V, before: Check, after: Check): map<nat, V> {
    if before.Pass? && i !in slots && after.Pass? then slots[i := v] else slots
  }

  /** What a receiver finds about one message, before and after the test for a repeated sender. */
  datatype Verdict = Verdict(before: Check, after: Check)

  const VALID := Verdict(Pass, Pass)

  /** The slots after the senders `a` delivered their messages, in that order. */
  function Delivered<V>(a: seq<nat>, msgs: map<nat, V>, judge: nat -> Verdict): map<nat, V>
    requires forall i :: i in a ==> i in msgs
  {
    if a == [] then map[]
    else
      var i := a[|a| - 1];
      Keep(Delivered(a[..|a| - 1], msgs, judge), i, msgs[i], judge(i).before, judge(i).after)
  }

  function Reports<V>(a: seq<nat>, msgs: map<nat, V>, judge: nat -> Verdict, full: nat): seq<Event>
    requires forall i :: i in a ==> i in msgs
  {
    if a == [] then []
    else
      var i := a[|a| - 1];
      Reports(a[..|a| - 1], msgs, judge, full) +
      Report(Delivered(a[..|a| - 1], msgs, judge), i, judge(i).before, judge(i).after, full)
  }

  /** The slots hold exactly the valid messages that arrived, whatever the order and however often. */
  lemma {:induction false} DeliveredSlots<V>(a: seq<nat>, msgs: map<nat, V>, judge: nat -> Verdict)
    requires forall i :: i in a ==> i in msgs
    ensures Delivered(a, msgs, judge) == map i | i in msgs && i in a && judge(i) == VALID :: msgs[i]
  {
    if a != [] {
      var b, x := a[..|a| - 1], a[|a| - 1];
      DeliveredSlots(b, msgs, judge);
      assert a == b + [x];
    }
  }

  lemma {:induction false} SlotCount<V>(a: seq<nat>, msgs: map<nat, V>, judge: nat -> Verdict)
    requires Distinct(a) && forall i :: i in a ==> i in msgs && judge(i) == VALID
    ensures |Delivered(a, msgs, judge)| == |a|
  {
    if a != [] {
      var b, x := a[..|a| - 1], a[|a| - 1];
      SlotCount(b, msgs, judge);
      DeliveredSlots(b, msgs, judge);
      assert x !in Delivered(b, msgs, judge);
    }
  }

  /**
   Whatever the arrival order of valid messages from different senders, nothing is reported before
   the last one and the phase ends exactly once; every message ends up in its sender's slot.
   */
  lemma {:induction false} ArrivalOrder<V>(a: seq<nat>, msgs: map<nat, V>, judge: nat -> Verdict, full: nat)
    requires Distinct(a) && |a| <= full && full > 0 && forall i :: i in a ==> i in msgs && judge(i) == VALID
    ensures Reports(a, msgs, judge, full) == if |a| == full then [Done] else []
  {
    hide Delivered;
    if a != [] {
      var b, x := a[..|a| - 1], a[|a| - 1];
      assert x in a;
      ArrivalOrder(b, msgs, judge, full);
      SlotCount(b, msgs, judge);
      DeliveredSlots(b, msgs, judge);
      assert x !in b;
    }
  }

  lemma AllDelivered<V>(a: seq<nat>, msgs: map<nat, V>, judge: nat -> Verdict)
    requires forall i :: i in a <==> i in msgs
    requires forall i :: i in msgs ==> judge(i) == VALID
    ensures Delivered(a, msgs, judge) == msgs
  {
    DeliveredSlots(a, msgs, judge);
  }

  /** A second message from the same sender changes nothing and is reported. */
  lemma RepeatRefused<V>(slots: map<nat, V>, i: nat, v: V, after: Check, full: nat)
    requires i in slots
    ensures Keep(slots, i, v, Pass, after) == slots && Report(slots, i, Pass, after, full) == [Failed(Duplicate)]
  {
  }

  // ---------- sums over a map ----------

  /** Some listing of a set; no result below depends on which. */
  ghost function Listing(s: set<nat>): (r: seq<nat>)
    ensures Distinct(r) && forall i :: i in r <==> i in s
  {
    if s == {} then [] else
      var x :| x in s;
      [x] + Listing(s - {x})
  }

  function Along(m: map<nat, int>, order: seq<nat>): (r: seq<int>)
    requires forall i :: i in order ==> i in m
    ensures |r| == |order| && forall k :: 0 <= k < |r| ==> r[k] == m[order[k]]
  {
    seq(|order|, k requires 0 <= k < |order| => assert order[k] in order; m[order[k]])
  }

  /** The order walks every key of the map once. */
  ghost predicate Walks(order: seq<nat>, keys: set<nat>) {
    Distinct(order) && forall i :: i in order <==> i in keys
  }

  lemma WalkOn(order: seq<nat>, keys: set<nat>, i: nat)
    requires Walks(order, keys) && i !in keys
    ensures Walks(order + [i], keys + {i})
  {
    assert i !in order;
  }

  ghost function MapSum(m: map<nat, int>): int {
    Sum(Along(m, Listing(m.Keys)))
  }

  lemma WalksAgree(s: seq<nat>, t: seq<nat>, keys: set<nat>)
    requires Walks(s, keys) && Walks(t, keys)
    ensures multiset(s) == multiset(t)
  {
    DistinctCounts(s);
    DistinctCounts(t);
    forall i: nat
      ensures multiset(s)[i] == multiset(t)[i]
    {
      assert i in s <==> i in t;
    }
  }

  lemma {:induction false} DistinctCounts(s: seq<nat>)
    requires Distinct(s)
    ensures forall i: nat :: multiset(s)[i] == if i in s then 1 else 0
  {
    if s != [] {
      var t := s[1..];
      DistinctCounts(t);
      assert s == [s[0]] + t;
      assert multiset(s) == multiset{s[0]} + multiset(t);
      assert s[0] !in t;
    }
  }

  lemma AlongAt(m: map<nat, int>, s: seq<nat>, k: nat)
    requires k < |s| && forall i :: i in s ==> i in m
    ensures multiset(Along(m, s)) == multiset(Along(m, s[..k] + s[k + 1..])) + multiset{m[s[k]]}
  {
    var y := Along(m, s);
    assert Along(m, s[..k] + s[k + 1..]) == y[..k] + y[k + 1..];
    SplitAt(y, k);
  }

  lemma {:induction false} AlongPermutation(m: map<nat, int>, s: seq<nat>, t: seq<nat>)
    requires multiset(s) == multiset(t) && (forall i :: i in s ==> i in m) && (forall i :: i in t ==> i in m)
    ensures multiset(Along(m, s)) == multiset(Along(m, t))
    decreases s
  {
    if s == [] {
      assert |t| == |multiset(t)|;
      assert t == s;
    } else {
      var k := MatchHead(s, t);
      AlongAt(m, s, 0);
      AlongAt(m, t, k);
      assert s[..0] + s[1..] == s[1..];
      AlongPermutation(m, s[1..], t[..k] + t[k + 1..]);
    }
  }

  /** A sum over a map is the sum along any walk over its keys. */
  lemma MapSumAnyOrder(m: map<nat, int>, order: seq<nat>)
    requires Walks(order, m.Keys)
    ensures MapSum(m) == Sum(Along(m, order))
  {
    WalksAgree(order, Listing(m.Keys), m.Keys);
    AlongPermutation(m, order, Listing(m.Keys));
    SumPermutation(Along(m, order), Along(m, Listing(m.Keys)));
  }

  /** If the entries agree modulo N with `ys` along some walk, so do the sums. */
  lemma MapSumCong(m: map<nat, int>, order: seq<nat>, ys: seq<int>, N: int)
    requires N > 0 && Walks(order, m.Keys) && |ys| == |order|
    requires forall k :: 0 <= k < |order| ==> Cong(m[order[k]], ys[k], N)
    ensures Cong(MapSum(m), Sum(ys), N)
  {
    hide Cong, MapSum, Sum;
    MapSumAnyOrder(m, order);
    SumCong(Along(m, order), ys, N);
  }

  /** Bookkeeping for a loop over a map: `seen` lists the keys already visited. */
  ghost predicate Visited(seen: seq<nat>, rem: set<nat>, keys: set<nat>) {
    rem <= keys && Walks(seen, keys - rem)
  }

  lemma VisitStep(m: map<nat, int>, seen: seq<nat>, rem: set<nat>, i: nat)
    requires Visited(seen, rem, m.Keys) && i in rem
    ensures Visited(seen + [i], rem - {i}, m.Keys)
    ensures Sum(Along(m, seen + [i])) == Sum(Along(m, seen)) + m[i]
  {
    assert Along(m, seen + [i]) == Along(m, seen) + [m[i]];
    SumSnoc(Along(m, seen), m[i]);
  }

  /** One step of a loop that adds up a map's values modulo N, starting from `base`. */
  lemma VisitAdd(m: map<nat, int>, seen: seq<nat>, rem: set<nat>, i: nat, base: int, acc: int, N: int)
    requires N > 0 && Visited(seen, rem, m.Keys) && i in rem
    requires acc == (base + Sum(Along(m, seen))) % N
    ensures Visited(seen + [i], rem - {i}, m.Keys)
    ensures (acc + m[i]) % N == (base + Sum(Along(m, seen + [i]))) % N
  {
    VisitStep(m, seen, rem, i);
    CongMod(base + Sum(Along(m, seen)), N);
    CongAdd(acc, base + Sum(Along(m, seen)), m[i], m[i], N);
  }
}
