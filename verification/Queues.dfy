/**
 The two queues of the PBFT package: a priority queue kept as a sorted list, and a queue of strings
 whose list and map are kept in step.
 */
module Queues {
  import opened Collections

  datatype PQElem<T> = PQElem(Pri: int, C: T)

  // ---------- specification ----------

  ghost predicate Ascending<T>(q: seq<PQElem<T>>) {
    forall i, j :: 0 <= i < j < |q| ==> q[i].Pri < q[j].Pri
  }

  ghost predicate Holds<T>(q: seq<PQElem<T>>, pri: int) {
    exists k :: 0 <= k < |q| && q[k].Pri == pri
  }

  /** The number of elements that come before a new one of this priority. */
  function Place<T>(q: seq<PQElem<T>>, pri: int): (k: nat)
    ensures k <= |q|
  {
    if q == [] || q[0].Pri >= pri then 0 else 1 + Place(q[1..], pri)
  }

  function Inserted<T>(q: seq<PQElem<T>>, e: PQElem<T>): seq<PQElem<T>> {
    q[..Place(q, e.Pri)] + [e] + q[Place(q, e.Pri)..]
  }

  lemma {:induction false} PlaceSplits<T>(q: seq<PQElem<T>>, pri: int)
    requires Ascending(q)
    ensures forall k :: 0 <= k < Place(q, pri) ==> q[k].Pri < pri
    ensures forall k :: Place(q, pri) <= k < |q| ==> q[k].Pri >= pri
  {
    if q != [] && q[0].Pri < pri {
      PlaceSplits(q[1..], pri);
      forall k | 1 <= k < |q|
        ensures k < Place(q, pri) ==> q[k].Pri < pri
        ensures k >= Place(q, pri) ==> q[k].Pri >= pri
      {
        assert q[k] == q[1..][k - 1];
      }
    }
  }

  /** The place is the first position that does not come before. */
  lemma {:induction false} PlaceUnique<T>(q: seq<PQElem<T>>, pri: int, k: nat)
    requires k <= |q| && (forall i :: 0 <= i < k ==> q[i].Pri < pri) && (k < |q| ==> q[k].Pri >= pri)
    ensures k == Place(q, pri)
  {
    if k > 0 {
      PlaceUnique(q[1..], pri, k - 1);
    }
  }

  /** Inserting a new priority keeps the order and adds exactly that element. */
  lemma InsertedAscending<T>(q: seq<PQElem<T>>, e: PQElem<T>)
    requires Ascending(q) && !Holds(q, e.Pri)
    ensures Ascending(Inserted(q, e))
  {
    PlaceSplits(q, e.Pri);
    var p, r := Place(q, e.Pri), Inserted(q, e);
    forall k | 0 <= k < |r|
      ensures r[k] == if k < p then q[k] else if k == p then e else q[k - 1]
    {
    }
    assert p < |q| ==> q[p].Pri != e.Pri;
  }

  lemma InsertedAdds<T>(q: seq<PQElem<T>>, e: PQElem<T>)
    ensures multiset(Inserted(q, e)) == multiset(q) + multiset{e}
  {
    assert q == q[..Place(q, e.Pri)] + q[Place(q, e.Pri)..];
  }

  // ---------- the priority queue ----------

  /** The elements from `j` on have moved up by one. */
  ghost predicate Shifted<T>(was: seq<T>, now: seq<T>, j: nat) {
    j <= |was| && |now| == |was| + 1 && now[..j] == was[..j] && now[j + 1..] == was[j..]
  }

  lemma ShiftStep<T>(was: seq<T>, now: seq<T>, j: nat)
    requires Shifted(was, now, j) && j > 0
    ensures Shifted(was, now[j := now[j - 1]], j - 1)
  {
    var r := now[j := now[j - 1]];
    assert now[j - 1] == now[..j][j - 1];
    assert r[j..] == [r[j]] + r[j + 1..];
    assert r[j + 1..] == now[j + 1..];
    assert was[j - 1..] == [was[j - 1]] + was[j..];
    assert r[..j - 1] == now[..j][..j - 1];
  }

  lemma NotHeld<T>(q: seq<PQElem<T>>, pri: int, k: nat)
    requires Ascending(q) && k <= |q| && (forall i :: 0 <= i < k ==> q[i].Pri < pri) && (k < |q| ==> q[k].Pri > pri)
    ensures !Holds(q, pri)
  {
  }

  class PriorityQueue<T> {
    var content: seq<PQElem<T>>

    ghost predicate Valid()
      reads this
    {
      Ascending(content)
    }

    constructor ()
      ensures Valid() && content == []
    {
      content := [];
    }

    method Length() returns (n: nat)
      ensures n == |content|
    {
      n := |content|;
    }

    method GetMin() returns (r: Option<PQElem<T>>)
      requires Valid()
      ensures content == [] ==> r == None
      ensures content != [] ==> r.Some? && r.value in content && forall e :: e in content ==> r.value.Pri <= e.Pri
      ensures content != [] ==> r == Some(content[0])
    {
      if |content| != 0 {
        r := Some(content[0]);
      } else {
        r := None;
      }
    }

    method GetMax() returns (r: Option<PQElem<T>>)
      requires Valid()
      ensures content == [] ==> r == None
      ensures content != [] ==> r.Some? && r.value in content && forall e :: e in content ==> e.Pri <= r.value.Pri
    {
      if |content| != 0 {
        r := Some(content[|content| - 1]);
      } else {
        r := None;
      }
    }

    method ExtractMin() returns (r: Option<PQElem<T>>)
      requires Valid()
      modifies this
      ensures Valid()
      ensures old(content) == [] ==> r == None && content == []
      ensures old(content) != [] ==> r == Some(old(content)[0]) && old(content) == [r.value] + content
    {
      if |content| != 0 {
        r := Some(content[0]);
        content := content[1..];
      } else {
        r := None;
      }
    }

    method ExtractMax() returns (r: Option<PQElem<T>>)
      requires Valid()
      modifies this
      ensures Valid()
      ensures old(content) == [] ==> r == None && content == []
      ensures old(content) != [] ==> r.Some? && old(content) == content + [r.value] && forall e :: e in content ==> e.Pri < r.value.Pri
    {
      if |content| != 0 {
        r := Some(content[|content| - 1]);
        content := content[..|content| - 1];
      } else {
        r := None;
      }
    }

    /** Appends a free cell, shifts the elements from `i` on up by one and fills the gap. */
    method ShiftIn(i: nat, e: PQElem<T>)
      requires i <= |content|
      modifies this
      ensures content == old(content)[..i] + [e] + old(content)[i..]
    {
      ghost var was := content;
      content := content + [e];
      var j := |content| - 1;
      while j > i
        invariant i <= j <= |was| && Shifted(was, content, j)
      {
        ShiftStep(was, content, j);
        content := content[j := content[j - 1]];
        j := j - 1;
      }
      content := content[i := e];
    }

    /** Looks for the first larger element and inserts before it; refuses a priority already held. */
    method Insert(e: PQElem<T>) returns (ok: bool)
      requires Valid()
      modifies this
      ensures Valid()
      ensures ok <==> !Holds(old(content), e.Pri)
      ensures content == if ok then Inserted(old(content), e) else old(content)
    {
      ghost var was := content;
      if |content| == 0 {
        content := content + [e];
      } else {
        var i, sz := 0, |content|;
        while i < sz
          invariant 0 <= i <= sz == |was| && content == was
          invariant forall k :: 0 <= k < i ==> was[k].Pri < e.Pri
        {
          if content[i].Pri == e.Pri {
            return false;
          } else if content[i].Pri > e.Pri {
            PlaceUnique(was, e.Pri, i);
            NotHeld(was, e.Pri, i);
            InsertedAscending(was, e);
            ShiftIn(i, e);
            return true;
          }
          i := i + 1;
        }
        PlaceUnique(was, e.Pri, sz);
        NotHeld(was, e.Pri, sz);
        InsertedAscending(was, e);
        content := content + [e];
        assert content == was[..sz] + [e] + was[sz..];
      }
      return true;
    }
  }

  // ---------- distinct elements ----------

  /** How many different values a list holds. */
  function Different(lst: seq<int>): nat {
    |set i | i in lst|
  }

  /** Counted through the keys of a map. */
  method DifferentElemInSlice(lst: seq<int>) returns (n: nat)
    ensures n == Different(lst)
  {
    var count: map<int, bool> := map[];
    for i := 0 to |lst|
      invariant count.Keys == set x | x in lst[..i]
    {
      assert lst[..i + 1] == lst[..i] + [lst[i]];
      count := count[lst[i] := true];
    }
    assert lst[..|lst|] == lst;
    assert |count| == |count.Keys|;
    n := |count|;
  }

  // ---------- the string queue ----------

  function Removed(q: seq<string>, key: string): seq<string> {
    if q == [] then [] else if q[0] == key then q[1..] else [q[0]] + Removed(q[1..], key)
  }

  lemma {:induction false} RemovedAt(q: seq<string>, i: nat)
    requires i < |q| && forall k :: 0 <= k < i ==> q[k] != q[i]
    ensures Removed(q, q[i]) == q[..i] + q[i + 1..]
  {
    if i > 0 {
      RemovedAt(q[1..], i - 1);
    }
  }

  /** Removing keeps the order and the other keys. */
  lemma {:induction false} RemovedKeeps(q: seq<string>, key: string)
    requires Distinct(q)
    ensures Distinct(Removed(q, key)) && forall x :: x in Removed(q, key) <==> x in q && x != key
    ensures |Removed(q, key)| == |q| - if key in q then 1 else 0
  {
    if q != [] {
      assert q == [q[0]] + q[1..];
      forall x | x in q[1..]
        ensures x != q[0]
      {
        var k :| 0 <= k < |q[1..]| && q[1..][k] == x;
        assert q[k + 1] == x;
      }
      if q[0] != key {
        RemovedKeeps(q[1..], key);
        HeadNew(q[0], Removed(q[1..], key));
      }
    }
  }

  lemma HeadNew(x: string, q: seq<string>)
    requires Distinct(q) && x !in q
    ensures Distinct([x] + q) && forall y :: y in [x] + q <==> y == x || y in q
  {
  }

  class StringQueue<T> {
    var Q: seq<string>
    var M: map<string, T>

    /** The list and the map hold the same keys, each once. */
    ghost predicate Valid()
      reads this
    {
      Distinct(Q) && forall k :: k in M <==> k in Q
    }

    constructor ()
      ensures Valid() && Q == [] && M == map[]
    {
      Q, M := [], map[];
    }

    method Length() returns (n: nat)
      ensures n == |Q|
    {
      n := |Q|;
    }

    method GetMin() returns (r: Option<(string, T)>)
      requires Valid()
      ensures r == if Q == [] then None else Some((Q[0], M[Q[0]]))
    {
      if |Q| != 0 {
        r := Some((Q[0], M[Q[0]]));
      } else {
        r := None;
      }
    }

    method ExtractMin() returns (r: Option<(string, T)>)
      requires Valid()
      modifies this
      ensures Valid()
      ensures old(Q) == [] ==> r == None && Q == [] && M == old(M)
      ensures old(Q) != [] ==> r == Some((old(Q)[0], old(M)[old(Q)[0]])) && Q == old(Q)[1..] && M == old(M) - {old(Q)[0]}
    {
      if |Q| != 0 {
        var key := Q[0];
        r := Some((key, M[key]));
        Q := Q[1..];
        M := M - {key};
      } else {
        r := None;
      }
    }

    /** The map entry goes first, then the list is searched. */
    method Remove(key: string) returns (ok: bool)
      requires Valid()
      modifies this
      ensures Valid() && (ok <==> key in old(Q))
      ensures Q == Removed(old(Q), key) && M == old(M) - {key}
    {
      ghost var was := Q;
      RemovedKeeps(was, key);
      M := M - {key};
      for i := 0 to |Q|
        invariant Q == was && M == old(M) - {key} && forall k :: 0 <= k < i ==> was[k] != key
      {
        if Q[i] == key {
          RemovedAt(was, i);
          Q := Q[..i] + Q[i + 1..];
          return true;
        }
      }
      NothingRemoved(was, key);
      return false;
    }

    method Insert(key: string, c: T) returns (ok: bool)
      requires Valid()
      modifies this
      ensures Valid() && (ok <==> key !in old(Q))
      ensures Q == (if ok then old(Q) + [key] else old(Q)) && M == if ok then old(M)[key := c] else old(M)
    {
      if key in M {
        return false;
      }
      Q := Q + [key];
      M := M[key := c];
      return true;
    }
  }

  lemma {:induction false} NothingRemoved(q: seq<string>, key: string)
    requires key !in q
    ensures Removed(q, key) == q
  {
    if q != [] {
      NothingRemoved(q[1..], key);
    }
  }
}
